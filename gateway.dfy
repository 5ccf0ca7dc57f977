/**
 * The `/secure` handler: bearer extraction, the verifier the configured mode
 * selects, and the response built from the verifier's verdict.
 *
 * The offline verifier (`jwt.decode` with keys from the JWKS client) is an
 * opaque function from token to verdict: claims, `None` for a `PyJWTError`,
 * or an exception of any other kind escaping it; the introspection verifier is the
 * decision of module Introspection applied to the issuer's answer, which is
 * an opaque function of the request sent. Every verifier call the handler
 * makes is recorded, so that "no verifier was consulted" is a statement
 * about the model.
 */
module Gateway {
  import opened Wrappers
  import opened Json
  import opened Segments
  import opened Bearer
  import opened Introspection

  /** The process-wide settings the handler reads: `VALIDATION_MODE` and
      `CLIENT_SECRET`. */
  datatype Config = Config(mode: string, clientSecret: string)

  datatype Verifier = OfflineVerifier | IntrospectionVerifier

  /** A verifier call, with exactly what it is given. */
  datatype Call =
    | OfflineCall(token: string)
    | IntrospectCall(request: IntrospectRequest)

  /** The response: a 401 with its `error` text, a 200 with its body fields,
      or the 500 of an uncaught exception. */
  datatype Response =
    | Unauthorized(error: string)
    | Granted(message: string, user: Value, scope: Value, iss: Value, mode: string)
    | InternalError

  /** The response and the verifier calls made to produce it. */
  datatype Handled = Handled(response: Response, consulted: seq<Call>)

  const MissingHeaderError: string := "Missing Authorization Header"
  const InvalidHeaderTypeError: string := "Invalid Header Type"
  const TokenMissingError: string := "Token Missing"
  const InvalidHeaderFormatError: string := "Invalid Header Format"
  const InvalidTokenError: string := "Token is invalid or expired"

  /** The HTTP status each kind of response is sent with. */
  function StatusCode(r: Response): (code: int) {
    match r
    case Unauthorized(_) => 401
    case Granted(_, _, _, _, _) => 200
    case InternalError => 500
  }

  /** Python's `str.upper()` on the ASCII letters; other characters are kept. */
  function Upper(s: string): (u: string)
    ensures |u| == |s|
  {
    seq(|s|, i requires 0 <= i < |s| => if 'a' <= s[i] <= 'z' then (s[i] as int - 32) as char else s[i])
  }

  /** api/server.py:142-147: only the exact mode `introspect` selects
      introspection. */
  function SelectVerifier(mode: string): (v: Verifier) {
    if mode == "introspect" then IntrospectionVerifier else OfflineVerifier
  }

  /** The call made for an extracted token. */
  function CallFor(config: Config, token: string): (c: Call) {
    match SelectVerifier(config.mode)
    case IntrospectionVerifier => IntrospectCall(RequestFor(config.clientSecret, token))
    case OfflineVerifier => OfflineCall(token)
  }

  /** The verdict of the called verifier. */
  function Consult(call: Call, offline: string -> Verdict, upstream: IntrospectRequest -> Reply): (v: Verdict) {
    match call
    case OfflineCall(token) => offline(token)
    case IntrospectCall(request) => Introspect(upstream(request))
  }

  /** api/server.py:150-160: a falsy verdict (`None` or an empty dictionary) is a 401;
      anything else is a 200 whose fields are read from the claims. */
  function Shape(mode: string, v: Verdict): (r: Response) {
    match v
    case Rejected => Unauthorized(InvalidTokenError)
    case Raised => InternalError
    case Accepted(claims) =>
      if claims == map[] then Unauthorized(InvalidTokenError)
      else Granted("Access Granted via " + Upper(mode) + " validation!",
                   Get(claims, "preferred_username"), Get(claims, "scope"), Get(claims, "iss"), mode)
  }

  /** api/server.py:118-160: the whole handler. */
  function Secure(config: Config, header: Option<string>,
                  offline: string -> Verdict, upstream: IntrospectRequest -> Reply): (h: Handled)
    ensures h.consulted == [] <==> !Extract(header).Token?
    ensures Extract(header).Token? ==> h.consulted == [CallFor(config, Extract(header).token)]
    ensures h.response.Granted? ==> h.response.mode == config.mode
  {
    match Extract(header)
    case MissingHeader => Handled(Unauthorized(MissingHeaderError), [])
    case InvalidHeaderType => Handled(Unauthorized(InvalidHeaderTypeError), [])
    case TokenMissing => Handled(Unauthorized(TokenMissingError), [])
    case InvalidHeaderFormat => Handled(Unauthorized(InvalidHeaderFormatError), [])
    case IndexError => Handled(InternalError, [])
    case Token(token) =>
      var call := CallFor(config, token);
      Handled(Shape(config.mode, Consult(call, offline, upstream)), [call])
  }

  /** An absent or empty header is a 401, and no verifier is consulted. */
  lemma MissingHeaderRejected(config: Config, header: Option<string>,
                              offline: string -> Verdict, upstream: IntrospectRequest -> Reply)
    requires header == None || header == Some("")
    ensures Secure(config, header, offline, upstream) == Handled(Unauthorized(MissingHeaderError), [])
    ensures StatusCode(Secure(config, header, offline, upstream).response) == 401
  {
    MissingIff(header);
  }

  /** A first segment other than `bearer` is a 401 whatever follows it. */
  lemma WrongSchemeRejected(config: Config, s: string, gaps: seq<string>, parts: seq<string>,
                            offline: string -> Verdict, upstream: IntrospectRequest -> Reply)
    requires Spells(s, gaps, parts) && |parts| >= 1 && !IsBearerScheme(parts[0])
    ensures Secure(config, Some(s), offline, upstream) == Handled(Unauthorized(InvalidHeaderTypeError), [])
  {
    SplitWeave(gaps, parts);
  }

  /** The scheme with no token after it is a 401. */
  lemma SchemeOnlyRejected(config: Config, s: string, gaps: seq<string>, scheme: string,
                           offline: string -> Verdict, upstream: IntrospectRequest -> Reply)
    requires Spells(s, gaps, [scheme]) && IsBearerScheme(scheme)
    ensures Secure(config, Some(s), offline, upstream) == Handled(Unauthorized(TokenMissingError), [])
  {
    SplitWeave(gaps, [scheme]);
  }

  /** The scheme followed by two or more segments is a 401. */
  lemma TooManySegmentsRejected(config: Config, s: string, gaps: seq<string>, parts: seq<string>,
                                offline: string -> Verdict, upstream: IntrospectRequest -> Reply)
    requires Spells(s, gaps, parts) && |parts| > 2 && IsBearerScheme(parts[0])
    ensures Secure(config, Some(s), offline, upstream) == Handled(Unauthorized(InvalidHeaderFormatError), [])
  {
    SplitWeave(gaps, parts);
  }

  /** A non-empty header of whitespace only escapes as an exception. */
  lemma BlankHeaderFails(config: Config, s: string,
                         offline: string -> Verdict, upstream: IntrospectRequest -> Reply)
    requires s != "" && AllSpace(s)
    ensures Secure(config, Some(s), offline, upstream) == Handled(InternalError, [])
    ensures StatusCode(Secure(config, Some(s), offline, upstream).response) == 500
  {
    IndexErrorIff(Some(s));
  }

  /** When extraction fails, the response does not depend on the verifiers. */
  lemma NoVerifierOnFailure(config: Config, header: Option<string>,
                            offline1: string -> Verdict, upstream1: IntrospectRequest -> Reply,
                            offline2: string -> Verdict, upstream2: IntrospectRequest -> Reply)
    requires !Extract(header).Token?
    ensures Secure(config, header, offline1, upstream1) == Secure(config, header, offline2, upstream2)
  {
  }

  /** A well-formed header hands its second segment, and nothing else, to
      the verifier the mode selects. */
  lemma TokenReachesVerifier(config: Config, s: string, gaps: seq<string>, scheme: string, t: string,
                             offline: string -> Verdict, upstream: IntrospectRequest -> Reply)
    requires Spells(s, gaps, [scheme, t]) && IsBearerScheme(scheme)
    ensures IsSegment(t)
    ensures Secure(config, Some(s), offline, upstream).consulted ==
      if config.mode == "introspect" then [IntrospectCall(IntrospectRequest(ClientId, config.clientSecret, t))]
      else [OfflineCall(t)]
  {
    SplitWeave(gaps, [scheme, t]);
  }

  /** Only the exact string `introspect` selects introspection. */
  lemma SelectIff(mode: string)
    ensures SelectVerifier(mode) == IntrospectionVerifier <==> mode == "introspect"
    ensures SelectVerifier("offline") == OfflineVerifier
    ensures SelectVerifier("Introspect") == OfflineVerifier
    ensures SelectVerifier("") == OfflineVerifier
  {
  }

  /** The 401 for a bad token, both directions: exactly an extracted token
      whose verdict is falsy (`None` or an empty claim dictionary). */
  lemma InvalidTokenIff(config: Config, header: Option<string>,
                        offline: string -> Verdict, upstream: IntrospectRequest -> Reply)
    ensures Secure(config, header, offline, upstream).response == Unauthorized(InvalidTokenError) <==>
      && Extract(header).Token?
      && var v := Consult(CallFor(config, Extract(header).token), offline, upstream);
         v == Rejected || v == Accepted(map[])
    ensures Secure(config, header, offline, upstream).response == Unauthorized(InvalidTokenError) ==>
      StatusCode(Secure(config, header, offline, upstream).response) == 401
  {
  }

  /** The 200, both directions: exactly an extracted token with a non-empty
      claim dictionary, whose `preferred_username`, `scope` and `iss` become
      the body's fields (`null` when absent) beside the configured mode. */
  lemma GrantedIff(config: Config, header: Option<string>,
                   offline: string -> Verdict, upstream: IntrospectRequest -> Reply)
    ensures var r := Secure(config, header, offline, upstream).response;
      StatusCode(r) == 200 <==>
        && Extract(header).Token?
        && var v := Consult(CallFor(config, Extract(header).token), offline, upstream);
           v.Accepted? && v.payload != map[]
    ensures var r := Secure(config, header, offline, upstream).response;
      r.Granted? ==>
        && var claims := Consult(CallFor(config, Extract(header).token), offline, upstream).payload;
           && r.user == Get(claims, "preferred_username")
           && r.scope == Get(claims, "scope")
           && r.iss == Get(claims, "iss")
           && r.mode == config.mode
           && r.message == "Access Granted via " + Upper(config.mode) + " validation!"
  {
  }

  /** In every mode other than `introspect`, the offline verifier decides:
      a token is granted exactly when it yields non-empty claims, refused
      exactly when it yields `None` or no claims, and a 500 exactly when an
      exception escapes it. */
  lemma OfflineDecides(config: Config, header: Option<string>,
                       offline: string -> Verdict, upstream: IntrospectRequest -> Reply)
    requires config.mode != "introspect" && Extract(header).Token?
    ensures var r := Secure(config, header, offline, upstream).response;
      var v := offline(Extract(header).token);
      && (r.Granted? <==> v.Accepted? && v.payload != map[])
      && (r == Unauthorized(InvalidTokenError) <==> v == Rejected || v == Accepted(map[]))
      && (r == InternalError <==> v == Raised)
  {
  }

  /** In introspection mode an unreachable issuer or an error status is a
      401, never a grant. */
  lemma IntrospectionFailsClosed(config: Config, header: Option<string>,
                                 offline: string -> Verdict, upstream: IntrospectRequest -> Reply)
    requires config.mode == "introspect" && Extract(header).Token?
    requires var reply := upstream(RequestFor(config.clientSecret, Extract(header).token));
      reply.TransportFailure? || IsErrorStatus(reply.status)
    ensures Secure(config, header, offline, upstream).response == Unauthorized(InvalidTokenError)
  {
    UnavailableRejected(upstream(RequestFor(config.clientSecret, Extract(header).token)));
  }

  /** In introspection mode a grant is backed by a successful answer whose
      object has a truthy `active`, and the user is read from that object. */
  lemma IntrospectionGrantIsActive(config: Config, header: Option<string>,
                                   offline: string -> Verdict, upstream: IntrospectRequest -> Reply)
    requires config.mode == "introspect"
    requires Secure(config, header, offline, upstream).response.Granted?
    ensures Extract(header).Token?
    ensures var reply := upstream(RequestFor(config.clientSecret, Extract(header).token));
      && reply.HttpReply? && !IsErrorStatus(reply.status)
      && reply.body.Some? && reply.body.value.Object?
      && "active" in reply.body.value.members && Truthy(reply.body.value.members["active"])
      && Secure(config, header, offline, upstream).response.user == Get(reply.body.value.members, "preferred_username")
  {
    var reply := upstream(RequestFor(config.clientSecret, Extract(header).token));
    match Introspect(reply)
    case Accepted(m) => AcceptedIff(reply, m);
  }

  /** In introspection mode every active answer is granted: its object holds
      `active`, so it is never the falsy empty dictionary. */
  lemma ActiveAnswerGranted(config: Config, header: Option<string>, m: Members,
                            offline: string -> Verdict, upstream: IntrospectRequest -> Reply)
    requires config.mode == "introspect" && Extract(header).Token?
    requires Introspect(upstream(RequestFor(config.clientSecret, Extract(header).token))) == Accepted(m)
    ensures Secure(config, header, offline, upstream).response.Granted?
  {
    assert "active" in m;
  }

  /** An active introspection answer naming `alice`. */
  const AliceClaims: Members :=
    map["active" := Bool(true), "preferred_username" := Str("alice"), "scope" := Str("profile")]

  lemma AliceShaped()
    ensures Shape("introspect", Introspect(HttpReply(200, Some(Object(AliceClaims))))) ==
      Granted("Access Granted via INTROSPECT validation!", Str("alice"), Str("profile"), Null, "introspect")
  {
    assert Introspect(HttpReply(200, Some(Object(AliceClaims)))) == Accepted(AliceClaims);
    IntrospectMessage();
  }

  lemma IntrospectMessage()
    ensures "Access Granted via " + Upper("introspect") + " validation!" == "Access Granted via INTROSPECT validation!"
  {
    assert Upper("introspect") == "INTROSPECT";
  }

  /** The introspection scenario: an active answer naming `alice` is a 200
      whose message carries the upper-cased mode and whose `mode` field the
      mode as configured. */
  lemma IntrospectionScenario(header: Option<string>, t: string,
                              offline: string -> Verdict, upstream: IntrospectRequest -> Reply)
    requires Extract(header) == Token(t)
    requires upstream(IntrospectRequest(ClientId, "secret", t)) == HttpReply(200, Some(Object(AliceClaims)))
    ensures Secure(Config("introspect", "secret"), header, offline, upstream) ==
      Handled(Granted("Access Granted via INTROSPECT validation!", Str("alice"), Str("profile"), Null, "introspect"),
              [IntrospectCall(IntrospectRequest(ClientId, "secret", t))])
  {
    AliceShaped();
  }
}
