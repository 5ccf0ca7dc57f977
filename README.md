# Bearer-token gateway: the `/secure` decision logic

This project models the request decision of the `/secure` endpoint of a small
Flask resource server that protects a route with OAuth2 bearer access tokens
issued by Keycloak. It proves properties of the model in Dafny 4.11.

The endpoint decides in three steps:

1. **Bearer extraction.** The `Authorization` header value is split on runs
   of whitespace, as Python's `str.split()` does. The result is classified as:
   missing header, wrong scheme, token missing, too many segments, or a token.
   The scheme must be `bearer` in any letter case (section 2.1 of RFC 6750).
   A non-empty header made only of whitespace reaches `parts[0]` on an empty
   list. That raises an `IndexError` nothing catches, so the request ends in
   a 500.
2. **Verifier selection.** Only a `VALIDATION_MODE` exactly equal to
   `introspect` selects token introspection. Every other value selects
   offline JWT verification.
3. **Response shaping.** A falsy verdict is a 401 `Token is invalid or
   expired`: `None`, or an empty claim dictionary. Any other verdict is a
   200. Its `user`, `scope` and `iss` fields are copied from the claims, and
   an absent claim gives `null`. Its `mode` field is the configured mode.

The introspection verifier's decision is modelled over the issuer's abstract
answer (section 2.2 of RFC 7662). It fails closed in these cases:

- a transport failure;
- a 4xx or 5xx status;
- a body that is not JSON;
- an `active` member that is absent or falsy.

Otherwise the decoded body is handed on unchanged. A body that is JSON but
not an object has no `.get`. The resulting `AttributeError` escapes too.

Modules:

- `Segments` (segments.dfy): Python's `str.split()`. It has an independent
  "layout" partner (`Weave`: segments between whitespace gaps) and
  round-trip proofs in both directions.
- `Bearer` (bearer.dfy): header extraction and its outcome classes.
- `Json` (json.dfy): decoded JSON values, Python truthiness and `dict.get`.
- `Introspection` (introspection.dfy): the verdict rule of `introspect_token`.
- `Gateway` (gateway.dfy): the whole handler. Every verifier call it makes
  is recorded in `Handled.consulted`, so "no verifier is consulted" is a
  statement the model can prove.
- `Wrappers` (wrappers.dfy): `Option`.

The two verifiers are inputs to the model:

- the offline verifier is an arbitrary function from token to verdict:
  claims, `None` (what `verify_token_offline` returns for a `PyJWTError`),
  or an exception of any other kind escaping it, which ends in a 500;
- the issuer's answer is an arbitrary function of the introspection request.

Four behaviours of the handler are easy to misread:

- The success body's `mode` field holds the mode as configured (for example
  `introspect`). Only the `message` text carries the upper-cased form
  (`Access Granted via INTROSPECT validation!`).
- Introspection hands on the whole answer, `active` included. It does not
  build a claim record from selected fields.
- A whitespace-only header and a non-object introspection body are uncaught
  exceptions (HTTP 500). Neither is a 401.
- The mode is a free string compared against `introspect`, not a
  two-valued setting.

## Model

| member | source | states |
|---|---|---|
| Segments.SplitWeave | api/server.py:130 | splitting whitespace gaps interleaved with segments gives back exactly those segments |
| Segments.WeaveSplit | api/server.py:130 | every header value is its own segments interleaved with its own whitespace gaps, and every element `split()` returns is a non-empty run without whitespace |
| Segments.SpellsIff | api/server.py:130 | the segments of a string are unique: any layout that spells it has the segments `split()` returns |
| Segments.SplitEmpty | api/server.py:130-131 | `split()` returns the empty list exactly on strings made only of whitespace |
| Segments.SplitStep | api/server.py:130 | leading whitespace followed by a segment and then whitespace or the end contributes exactly that segment |
| Bearer.BearerSchemeIff | api/server.py:131 | the scheme test accepts exactly the six-letter word `bearer` with each letter in either case |
| Bearer.Extract | api/server.py:125-138 | an extracted token is non-empty and free of whitespace |
| Bearer.MissingIff | api/server.py:125-127 | the missing-header outcome occurs exactly for an absent or empty header |
| Bearer.IndexErrorIff | api/server.py:126-131 | the crash at `parts[0]` occurs exactly for a non-empty header of whitespace only |
| Bearer.InvalidHeaderTypeIff | api/server.py:130-132 | the wrong-type outcome occurs exactly when the first segment is not `bearer`, whatever the number of segments |
| Bearer.TokenMissingIff | api/server.py:133-134 | the token-missing outcome occurs exactly when the header is the bearer scheme alone |
| Bearer.InvalidHeaderFormatIff | api/server.py:135-136 | the invalid-format outcome occurs exactly for the bearer scheme followed by two or more segments |
| Bearer.TokenIff | api/server.py:130-138 | extraction yields token `t` exactly when the header is the bearer scheme and `t` with any surrounding whitespace |
| Bearer.WrongSchemeAlone | api/server.py:130-132 | `Basic` is of the wrong type |
| Bearer.WrongSchemeWithSegments | api/server.py:130-136 | `Basic a b` is of the wrong type, not of the wrong format: the scheme is checked first |
| Bearer.BlankHeaderCrashes | api/server.py:126-131 | a header of two spaces crashes at `parts[0]` |
| Introspection.Introspect | api/server.py:61-77 | an accepted answer always holds a truthy `active` member |
| Introspection.UnavailableRejected | api/server.py:63-64 | a transport failure or a 4xx/5xx status rejects the token |
| Introspection.AcceptedIff | api/server.py:64-73 | an answer is accepted exactly when its status is not an error, its body is an object with a truthy `active`, and the accepted claims are that object unchanged |
| Introspection.InactiveRejected | api/server.py:67-70 | an absent or falsy `active` rejects the token |
| Introspection.RaisedIff | api/server.py:64-68 | an exception escapes exactly for a successful answer whose JSON body is not an object |
| Introspection.Scenarios | api/server.py:61-77 | `{"active": false}` is rejected, an HTTP 500 is rejected, and an active answer naming `alice` is accepted unchanged |
| Gateway.Secure | api/server.py:118-160 | a verifier is consulted exactly when extraction yields a token, then exactly once with that token, and a grant reports the configured mode |
| Gateway.MissingHeaderRejected | api/server.py:125-127 | an absent or empty header gives status 401 with `Missing Authorization Header` and consults no verifier |
| Gateway.WrongSchemeRejected | api/server.py:130-132 | a first segment other than `bearer` gives 401 `Invalid Header Type` for any number of segments, and consults no verifier |
| Gateway.SchemeOnlyRejected | api/server.py:133-134 | the scheme alone gives 401 `Token Missing` and consults no verifier |
| Gateway.TooManySegmentsRejected | api/server.py:135-136 | the scheme and two or more segments give 401 `Invalid Header Format` and consult no verifier |
| Gateway.BlankHeaderFails | api/server.py:126-131 | a non-empty whitespace-only header ends in status 500 and consults no verifier |
| Gateway.NoVerifierOnFailure | api/server.py:125-136 | when extraction fails, the outcome is the same whatever the verifiers would answer |
| Gateway.TokenReachesVerifier | api/server.py:138-147 | a well-formed header passes its second segment, and only that, to the selected verifier: the offline verifier gets the token; the introspection request carries `demo-client`, the secret and the token |
| Gateway.SelectIff | api/server.py:142-147 | introspection is selected exactly for the mode `introspect`; `offline`, `Introspect` and the empty string select offline verification |
| Gateway.InvalidTokenIff | api/server.py:150-151 | `Token is invalid or expired`, with status 401, occurs exactly when a token was extracted and its verdict is `None` or an empty dictionary |
| Gateway.GrantedIff | api/server.py:150-160 | status 200 occurs exactly for an extracted token with non-empty claims; its fields are `preferred_username`, `scope` and `iss` of those claims (`null` when absent), the configured mode, and the message with the upper-cased mode |
| Gateway.OfflineDecides | api/server.py:145-151 | outside introspection mode the offline verifier decides: a grant exactly for non-empty claims, `Token is invalid or expired` exactly for `None` or empty claims, and a 500 exactly when an exception escapes the verifier |
| Gateway.IntrospectionFailsClosed | api/server.py:142-151 | in introspection mode an unreachable issuer or an error status gives 401, never a grant |
| Gateway.IntrospectionGrantIsActive | api/server.py:61-77 | in introspection mode every grant rests on a successful object answer with a truthy `active`, and its user comes from that answer |
| Gateway.ActiveAnswerGranted | api/server.py:68-73 | in introspection mode every accepted answer becomes a 200, since an object holding `active` is never the falsy empty dictionary |
| Gateway.IntrospectMessage | api/server.py:155 | the success message of mode `introspect` reads `Access Granted via INTROSPECT validation!` |
| Gateway.AliceShaped | api/server.py:154-160 | the active answer naming `alice` gives user `alice`, scope `profile`, `iss` null and mode `introspect` |
| Gateway.IntrospectionScenario | api/server.py:118-160 | a bearer header in introspection mode, with the issuer answering active for `alice`, gives that 200 body after exactly one introspection call |

## Left out

- Signature, expiry and issuer checking by `jwt.decode`, and key fetching and
  caching by `PyJWKClient` (api/server.py:38, 80-112): cryptography and
  library code. The offline verifier is an arbitrary function from token to
  verdict. Which tokens make `jwt.decode` raise a `PyJWTError` (giving
  `None`) and which raise anything else (escaping as a 500) is left to it.
- The introspection POST, its 5-second timeout, `raise_for_status` and JSON
  decoding (api/server.py:63-65): network I/O. The answer is an arbitrary
  function of the request, given as a transport failure or a status and an
  optionally decoded body. This relies on JSON decoding errors being
  `RequestException`s, as they are in `requests` 2.27 and later.
- Flask routing, `jsonify`, the `/public` route and `app.run`
  (api/server.py:114-116, 162-163): web framework plumbing. How the HTTP
  server trims header values before the handler sees them is not modelled
  either.
- Logging (api/server.py:10-15, 69, 72, 76, 107, 111): side effects with no
  bearing on the response.
- Environment loading and URL construction (api/server.py:20-35):
  configuration. The mode and the client secret are fields of `Config`.
- Concurrency inside the key cache: not visible in this code.
- Bearer.Lower and Gateway.Upper: they map only the ASCII letters. No other
  character lowercases into a letter of `bearer`, so the scheme test is
  exact. The success message carries an exact upper case only for ASCII
  modes.
- Json.Value: numbers are reals, so the non-finite values Python's `json`
  accepts (`NaN`, `Infinity`, `-Infinity`) have no counterpart. An answer
  carrying one, such as an `active` of `NaN` (truthy in Python), cannot be
  given to the model, so the model does not show such a payload being
  handed on unchanged.
