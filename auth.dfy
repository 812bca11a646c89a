/**
  `requireAuth`: read the Authorization header, take the token after
  "Bearer ", verify it, and classify the outcome as a user or an HTTP error.
  The TypeScript and JavaScript twins of the backend classify verification
  errors differently; both are modelled. JWT verification itself is an
  oracle `verify` from token to outcome, and the secret is part of it.
 */
module AccessGuard {
  import opened Wrappers
  import opened JsStrings

  /**
    A value thrown by the verifier: an `Error` instance (whose `message` is
    always a string, possibly empty), or any other value, which may or may
    not carry a string `message` property.
   */
  datatype Thrown = ErrorInstance(message: string) | OtherValue(messageProp: Option<string>)

  /** The `email` claim of an object payload, as `typeof` sees it. */
  datatype Claim = StringClaim(value: string) | NonStringClaim

  /** What `jwt.verify` returns: an object payload or a bare string payload. */
  datatype Payload = ObjectPayload(email: Option<Claim>) | StringPayload(text: string)

  datatype Verification = Verified(payload: Payload) | Threw(error: Thrown)

  datatype AuthError = AuthError(status: int, message: string)

  /** The TypeScript guard's user: only a string `email` claim is copied. */
  datatype User = User(email: Option<string>)

  /** `{ ok: true, user }` or `{ ok: false, error }`. */
  datatype AuthResult<U> = Authorized(user: U) | Denied(error: AuthError)

  const NoToken := AuthError(401, "No token provided")

  /**
    The header as the guard reads it: `headers.get(...) || ''`. Header names
    are case-insensitive, so the two lookups of the source see the same
    value.
   */
  function HeaderValue(authorization: Option<string>): (h: string)
    ensures authorization.Some? ==> h == authorization.value
    ensures authorization.None? ==> h == ""
  {
    authorization.GetOr("")
  }

  /** `header.startsWith('Bearer ') ? header.substring(7) : null`. */
  function BearerToken(header: string): (r: Option<string>)
    ensures r.Some? <==> StartsWith(header, "Bearer ")
    ensures r.Some? ==> header == "Bearer " + r.value
  {
    if StartsWith(header, "Bearer ") then Some(header[7..]) else None
  }

  /** A header that carries a token: the exact prefix followed by at least one character. */
  ghost predicate HasBearerToken(header: string) {
    exists t :: t != "" && header == "Bearer " + t
  }

  /** The guard's `!token` test passes exactly for headers that carry a token. */
  lemma TokenPresentIff(header: string)
    ensures (BearerToken(header).Some? && BearerToken(header).value != "") <==> HasBearerToken(header)
  {
    if HasBearerToken(header) {
      var t :| t != "" && header == "Bearer " + t;
      assert header[..7] == "Bearer ";
      assert header[7..] == t;
    }
  }

  /** Building a header from a token and parsing it gives the token back. */
  lemma BearerRoundTrip(token: string)
    ensures BearerToken("Bearer " + token) == Some(token)
  {
    var h := "Bearer " + token;
    assert h[..7] == "Bearer ";
    assert h[7..] == token;
  }

  // ---------------------------------------------------------------------
  // The TypeScript guard (src/lib/newsletterBackend.ts)

  /** `err instanceof Error ? err.message : 'Invalid token'`. */
  function TsMessage(e: Thrown): string {
    if e.ErrorInstance? then e.message else "Invalid token"
  }

  /** Only a malformed token or a bad signature is the client's fault; anything else is 500. */
  function TsErrorStatus(message: string): (status: int)
    ensures status == 401 <==> message == "jwt malformed" || message == "invalid signature"
    ensures status == 401 || status == 500
  {
    if message == "jwt malformed" || message == "invalid signature" then 401 else 500
  }

  function RequireAuthTs(authorization: Option<string>, verify: string -> Verification): AuthResult<User> {
    var token := BearerToken(HeaderValue(authorization));
    if token.None? || token.value == "" then Denied(NoToken)
    else match verify(token.value)
      case Verified(StringPayload(_)) => Denied(AuthError(401, "Invalid token payload"))
      case Verified(ObjectPayload(email)) =>
        Authorized(User(if email.Some? && email.value.StringClaim? then Some(email.value.value) else None))
      case Threw(e) => Denied(AuthError(TsErrorStatus(TsMessage(e)), TsMessage(e)))
  }

  /**
    The TypeScript guard answers 401 "No token provided" exactly when the
    header does not carry a token: a verifier error with that message is
    classified as 500, so it cannot be mistaken for it.
   */
  lemma TsNoTokenIff(authorization: Option<string>, verify: string -> Verification)
    ensures RequireAuthTs(authorization, verify) == Denied(NoToken) <==> !HasBearerToken(HeaderValue(authorization))
  {
    TokenPresentIff(HeaderValue(authorization));
  }

  /**
    It authorises exactly when there is a token and the verifier returns an
    object payload; the user's email is that payload's claim when, and only
    when, the claim is a string.
   */
  lemma TsAuthorizedIff(authorization: Option<string>, verify: string -> Verification)
    ensures var h := HeaderValue(authorization);
      var r := RequireAuthTs(authorization, verify);
      && (r.Authorized? <==>
            HasBearerToken(h) && verify(h[7..]).Verified? && verify(h[7..]).payload.ObjectPayload?)
      && (r.Authorized? ==>
            var claim := verify(h[7..]).payload.email;
            (r.user.email.Some? <==> claim.Some? && claim.value.StringClaim?)
            && (r.user.email.Some? ==> r.user.email.value == claim.value.value))
  {
    TokenPresentIff(HeaderValue(authorization));
  }

  /** A string payload is refused with 401 "Invalid token payload". */
  lemma TsStringPayloadRefused(authorization: Option<string>, verify: string -> Verification)
    requires HasBearerToken(HeaderValue(authorization))
    requires verify(HeaderValue(authorization)[7..]).Verified? && verify(HeaderValue(authorization)[7..]).payload.StringPayload?
    ensures RequireAuthTs(authorization, verify) == Denied(AuthError(401, "Invalid token payload"))
  {
    TokenPresentIff(HeaderValue(authorization));
  }

  /**
    A verifier error keeps its message (or "Invalid token" for a non-Error
    value) and is 401 only for "jwt malformed" and "invalid signature":
    an expired token, for instance, is a 500.
   */
  lemma TsErrorClassified(authorization: Option<string>, verify: string -> Verification)
    requires HasBearerToken(HeaderValue(authorization))
    requires verify(HeaderValue(authorization)[7..]).Threw?
    ensures var e := verify(HeaderValue(authorization)[7..]).error;
      var r := RequireAuthTs(authorization, verify);
      && r.Denied?
      && (e.ErrorInstance? ==> r.error.message == e.message)
      && (e.OtherValue? ==> r.error.message == "Invalid token")
      && (r.error.status == 401 <==> r.error.message in {"jwt malformed", "invalid signature"})
      && (r.error.status == 500 <==> r.error.message !in {"jwt malformed", "invalid signature"})
  {
    TokenPresentIff(HeaderValue(authorization));
  }

  /** Every refusal of the TypeScript guard is a 401 or a 500, and a 500 always comes from the verifier. */
  lemma TsStatusesAreClientOrServer(authorization: Option<string>, verify: string -> Verification)
    ensures var r := RequireAuthTs(authorization, verify);
      r.Denied? ==> (r.error.status == 401 || r.error.status == 500)
    ensures var r := RequireAuthTs(authorization, verify);
      var h := HeaderValue(authorization);
      r.Denied? && r.error.status == 500 ==> HasBearerToken(h) && verify(h[7..]).Threw?
  {
    TokenPresentIff(HeaderValue(authorization));
  }

  // ---------------------------------------------------------------------
  // The JavaScript guard (src/lib/newsletterBackend.js)

  /** `err && err.message ? err.message : 'Invalid token'`: an empty or absent message falls back. */
  function JsMessage(e: Thrown): (m: string)
    ensures m != ""
  {
    match e
    case ErrorInstance(msg) => if msg != "" then msg else "Invalid token"
    case OtherValue(prop) => if prop.Some? && prop.value != "" then prop.value else "Invalid token"
  }

  const LibraryMissing := "JWT library not available"

  /**
    The JavaScript guard; `libraryLoaded` is whether the JWT module could be
    imported. The user is the decoded payload itself, string or object.
   */
  function RequireAuthJs(authorization: Option<string>, libraryLoaded: bool, verify: string -> Verification): AuthResult<Payload> {
    var token := BearerToken(HeaderValue(authorization));
    if token.None? || token.value == "" then Denied(NoToken)
    else
      var outcome := if libraryLoaded then verify(token.value) else Threw(ErrorInstance(LibraryMissing));
      match outcome
      case Verified(p) => Authorized(p)
      case Threw(e) => Denied(AuthError(if JsMessage(e) == LibraryMissing then 500 else 401, JsMessage(e)))
  }

  /** Without a token the JavaScript guard, too, answers 401 "No token provided". */
  lemma JsNoToken(authorization: Option<string>, libraryLoaded: bool, verify: string -> Verification)
    requires !HasBearerToken(HeaderValue(authorization))
    ensures RequireAuthJs(authorization, libraryLoaded, verify) == Denied(NoToken)
  {
    TokenPresentIff(HeaderValue(authorization));
  }

  /** It authorises exactly when the library is loaded, there is a token and it verifies; the user is the payload. */
  lemma JsAuthorizedIff(authorization: Option<string>, libraryLoaded: bool, verify: string -> Verification)
    ensures var h := HeaderValue(authorization);
      var r := RequireAuthJs(authorization, libraryLoaded, verify);
      && (r.Authorized? <==> libraryLoaded && HasBearerToken(h) && verify(h[7..]).Verified?)
      && (r.Authorized? ==> r.user == verify(h[7..]).payload)
  {
    TokenPresentIff(HeaderValue(authorization));
  }

  /** A refusal is 500 exactly when its message says the library is missing, and 401 otherwise. */
  lemma JsErrorClassified(authorization: Option<string>, libraryLoaded: bool, verify: string -> Verification)
    ensures var r := RequireAuthJs(authorization, libraryLoaded, verify);
      r.Denied? ==>
        && (r.error.status == 500 <==> r.error.message == LibraryMissing)
        && (r.error.status == 401 <==> r.error.message != LibraryMissing)
        && r.error.message != ""
  {
  }

  /** With a token but without the library, the JavaScript guard answers 500 "JWT library not available". */
  lemma JsLibraryMissing(authorization: Option<string>, verify: string -> Verification)
    requires HasBearerToken(HeaderValue(authorization))
    ensures RequireAuthJs(authorization, false, verify) == Denied(AuthError(500, LibraryMissing))
  {
    TokenPresentIff(HeaderValue(authorization));
  }

  // ---------------------------------------------------------------------
  // Where the twins disagree

  /**
    An expired token is a server error for the TypeScript guard and a client
    error for the JavaScript one, and an Error with an empty message is
    passed through by the first and replaced by the second.
   */
  lemma TwinsDisagreeOnErrors(token: string, verify: string -> Verification)
    requires token != ""
    ensures var h := Some("Bearer " + token);
      verify(token) == Threw(ErrorInstance("jwt expired")) ==>
        && RequireAuthTs(h, verify) == Denied(AuthError(500, "jwt expired"))
        && RequireAuthJs(h, true, verify) == Denied(AuthError(401, "jwt expired"))
    ensures var h := Some("Bearer " + token);
      verify(token) == Threw(ErrorInstance("")) ==>
        && RequireAuthTs(h, verify) == Denied(AuthError(500, ""))
        && RequireAuthJs(h, true, verify) == Denied(AuthError(401, "Invalid token"))
  {
    BearerRoundTrip(token);
  }
}
