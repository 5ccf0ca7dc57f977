/**
 * The decision `introspect_token` takes on the issuer's answer to a token
 * introspection request (RFC 7662). The POST itself is abstracted: the model
 * receives what `requests` made of it.
 */
module Introspection {
  import opened Wrappers
  import opened Json

  /** The client identity the service introspects with. */
  const ClientId: string := "demo-client"

  /** The form fields `client_id`, `client_secret` and `token` of the POST. */
  datatype IntrospectRequest = IntrospectRequest(clientId: string, clientSecret: string, token: string)

  /** What the POST produced: no answer at all (connection failure, timeout),
      or an answer with its status and its body decoded as JSON (`None` when
      the body is not JSON). */
  datatype Reply =
    | TransportFailure
    | HttpReply(status: int, body: Option<Value>)

  /** What a verifier hands back to the handler: Python's `None`, a claim
      dictionary, or an exception that nothing catches. Both verifiers
      answer in these terms. */
  datatype Verdict =
    | Rejected
    | Accepted(payload: Members)
    | Raised

  /** The request `introspect_token` sends for `token`. */
  function RequestFor(clientSecret: string, token: string): (q: IntrospectRequest)
  {
    IntrospectRequest(ClientId, clientSecret, token)
  }

  /** `raise_for_status()`: client and server error statuses raise. */
  predicate IsErrorStatus(status: int) {
    400 <= status < 600
  }

  /** api/server.py:61-77. Transport errors, error statuses and undecodable bodies
      are `RequestException`s and give `None`; so does a body whose `active`
      member is absent or falsy. A body that is JSON but not an object has no
      `.get`, and the `AttributeError` escapes. */
  function Introspect(reply: Reply): (v: Verdict)
    ensures v.Accepted? ==> "active" in v.payload && Truthy(v.payload["active"])
  {
    match reply
    case TransportFailure => Rejected
    case HttpReply(status, body) =>
      if IsErrorStatus(status) then Rejected
      else
        match body
        case None => Rejected
        case Some(Object(m)) => if Truthy(Get(m, "active")) then Accepted(m) else Rejected
        case Some(_) => Raised
  }

  /** Fail closed: without an answer, or with an error status, the token is
      rejected. */
  lemma UnavailableRejected(reply: Reply)
    requires reply.TransportFailure? || IsErrorStatus(reply.status)
    ensures Introspect(reply) == Rejected
  {
  }

  /** Acceptance, both directions: exactly a successful answer whose object
      has a truthy `active`; the object is handed on unchanged. */
  lemma AcceptedIff(reply: Reply, m: Members)
    ensures Introspect(reply) == Accepted(m) <==>
      && reply.HttpReply?
      && !IsErrorStatus(reply.status)
      && reply.body == Some(Object(m))
      && "active" in m && Truthy(m["active"])
  {
  }

  /** An `active` member that is absent or falsy rejects the token. */
  lemma InactiveRejected(status: int, m: Members)
    requires !IsErrorStatus(status)
    requires "active" !in m || !Truthy(m["active"])
    ensures Introspect(HttpReply(status, Some(Object(m)))) == Rejected
  {
  }

  /** Only a successful answer whose JSON is not an object escapes as an
      exception. */
  lemma RaisedIff(reply: Reply)
    ensures Introspect(reply) == Raised <==>
      reply.HttpReply? && !IsErrorStatus(reply.status) && reply.body.Some? && !reply.body.value.Object?
  {
  }

  /** An inactive answer, an HTTP 500, and an active answer naming `alice`. */
  lemma Scenarios()
    ensures Introspect(HttpReply(200, Some(Object(map["active" := Bool(false)])))) == Rejected
    ensures Introspect(HttpReply(500, None)) == Rejected
    ensures var m := map["active" := Bool(true), "preferred_username" := Str("alice"), "scope" := Str("profile")];
      Introspect(HttpReply(200, Some(Object(m)))) == Accepted(m)
  {
  }
}
