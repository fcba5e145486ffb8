/**
 * The `verifyToken` middleware of server.js: pick the token from the request body
 * or from the Authorization header, and sort the request into "No token provided",
 * "Invalid token" or "proceed with this identity". The identity provider's
 * `verifyIdToken` is an oracle passed in as a function.
 */
module Auth {
  import opened Wrappers
  import opened Json

  /** The decoded identity token; the routes read only its `email`. */
  datatype Identity = Identity(uid: string, email: string)

  /** What the middleware decides about one request. */
  datatype Outcome = NoTokenProvided | InvalidToken | Proceed(user: Identity)

  /** The identity provider: a decoded identity for a token it accepts, None for one it rejects. */
  type Verifier = Value -> Option<Identity>

  const BearerPrefix: string := "Bearer "

  // ---------------------------------------------------------------------------
  // String.prototype.replace with a string pattern: only the first match goes.
  // ---------------------------------------------------------------------------

  predicate OccursAt(s: string, pat: string, i: int) {
    0 <= i && i + |pat| <= |s| && s[i..i + |pat|] == pat
  }

  predicate IsFirstOccurrence(s: string, pat: string, i: int) {
    OccursAt(s, pat, i) && forall j :: 0 <= j < i ==> !OccursAt(s, pat, j)
  }

  lemma OccursAtIndex(s: string, pat: string, i: int, k: int)
    requires OccursAt(s, pat, i) && 0 <= k < |pat|
    ensures s[i + k] == pat[k]
  {
    assert s[i..i + |pat|][k] == s[i + k];
  }

  /** `s.indexOf(pat, from)` for a non-empty pattern, as an Option instead of -1. */
  function IndexOfFrom(s: string, pat: string, from: nat): (r: Option<nat>)
    decreases |s| - from
    ensures r.Some? ==> from <= r.value && OccursAt(s, pat, r.value)
    ensures r.Some? ==> forall j :: from <= j < r.value ==> !OccursAt(s, pat, j)
    ensures r.None? ==> forall j :: from <= j ==> !OccursAt(s, pat, j)
  {
    if |s| < from + |pat| then None
    else if s[from..from + |pat|] == pat then Some(from)
    else IndexOfFrom(s, pat, from + 1)
  }

  /** `s.replace(pat, "")`: the first occurrence of `pat` is cut out, a string without one is returned as it is. */
  function RemoveFirst(s: string, pat: string): (r: string)
    ensures (forall j :: !OccursAt(s, pat, j)) ==> r == s
    ensures forall i :: IsFirstOccurrence(s, pat, i) ==> r == s[..i] + s[i + |pat|..]
  {
    match IndexOfFrom(s, pat, 0)
    case None => s
    case Some(i) => s[..i] + s[i + |pat|..]
  }

  /** `req.headers.authorization.replace("Bearer ", "")`. */
  function StripBearer(header: string): (r: string)
    ensures (forall j :: !OccursAt(header, BearerPrefix, j)) ==> r == header
    ensures forall i :: IsFirstOccurrence(header, BearerPrefix, i) ==>
              r == header[..i] + header[i + |BearerPrefix|..]
  {
    RemoveFirst(header, BearerPrefix)
  }

  /** The `Authorization: Bearer <token>` form yields the token itself. */
  lemma StripBearerOfBearerForm(t: string)
    ensures StripBearer(BearerPrefix + t) == t
  {
    var h := BearerPrefix + t;
    assert h[0..|BearerPrefix|] == BearerPrefix;
    assert IsFirstOccurrence(h, BearerPrefix, 0);
    assert h[|BearerPrefix|..] == t;
  }

  /** A header holding a raw token (no space in it, as a JWT never has) is used verbatim. */
  lemma StripBearerOfRawToken(t: string)
    requires ' ' !in t
    ensures StripBearer(t) == t
  {
    if j :| OccursAt(t, BearerPrefix, j) {
      OccursAtIndex(t, BearerPrefix, j, 6);
      assert false;
    }
  }

  /** A non-empty header strips to the empty token exactly when it is "Bearer " and nothing else. */
  lemma StripBearerEmptyIff(h: string)
    requires h != ""
    ensures StripBearer(h) == "" <==> h == BearerPrefix
  {
    match IndexOfFrom(h, BearerPrefix, 0)
    case None =>
      assert StripBearer(h) == h;
      assert !OccursAt(h, BearerPrefix, 0);
    case Some(i) =>
      assert |StripBearer(h)| == |h| - |BearerPrefix|;
      if StripBearer(h) == "" {
        assert |h| == |BearerPrefix| && i == 0;
        assert h == h[0..7];
      }
  }

  // ---------------------------------------------------------------------------
  // The middleware.
  // ---------------------------------------------------------------------------

  /**
   * `let token = req.body.token; if (!token && req.headers.authorization) token = …replace(…)`.
   * A truthy body token wins; the header is read only when the body token is falsy.
   */
  function SelectToken(bodyToken: Value, authorization: Option<string>): (t: Value)
    ensures Truthy(bodyToken) ==> t == bodyToken
    ensures !Truthy(bodyToken) && authorization.Some? && authorization.value != "" ==>
              t == Str(StripBearer(authorization.value))
    ensures authorization.None? || authorization == Some("") ==> t == bodyToken
  {
    if !Truthy(bodyToken) && authorization.Some? && authorization.value != "" then
      Str(StripBearer(authorization.value))
    else
      bodyToken
  }

  /** The whole of `verifyToken`: a falsy token is refused before the verifier is asked. */
  function VerifyToken(bodyToken: Value, authorization: Option<string>, verify: Verifier): (o: Outcome)
    ensures o == NoTokenProvided <==> !Truthy(SelectToken(bodyToken, authorization))
    ensures o == InvalidToken <==>
              Truthy(SelectToken(bodyToken, authorization)) && verify(SelectToken(bodyToken, authorization)).None?
    ensures o.Proceed? ==> verify(SelectToken(bodyToken, authorization)) == Some(o.user)
  {
    var token := SelectToken(bodyToken, authorization);
    if !Truthy(token) then NoTokenProvided
    else match verify(token)
      case None => InvalidToken
      case Some(user) => Proceed(user)
  }

  /**
   * "No token provided" happens exactly when the body token is falsy and the header
   * is missing, empty, or exactly "Bearer "; what the verifier would say plays no part.
   */
  lemma NoTokenIff(bodyToken: Value, authorization: Option<string>, verify: Verifier)
    ensures VerifyToken(bodyToken, authorization, verify) == NoTokenProvided <==>
              !Truthy(bodyToken) &&
              (authorization.None? || authorization.value == "" || authorization.value == BearerPrefix)
  {
    if !Truthy(bodyToken) && authorization.Some? && authorization.value != "" {
      StripBearerEmptyIff(authorization.value);
    }
  }

  /** The verifier is consulted on the selected token at most: verifiers that agree there give the same outcome. */
  lemma OnlySelectedTokenIsVerified(bodyToken: Value, authorization: Option<string>, v1: Verifier, v2: Verifier)
    requires var t := SelectToken(bodyToken, authorization); Truthy(t) ==> v1(t) == v2(t)
    ensures VerifyToken(bodyToken, authorization, v1) == VerifyToken(bodyToken, authorization, v2)
  {
  }

  /** With a truthy body token the header makes no difference at all. */
  lemma BodyTokenWins(bodyToken: Value, h1: Option<string>, h2: Option<string>, verify: Verifier)
    requires Truthy(bodyToken)
    ensures VerifyToken(bodyToken, h1, verify) == VerifyToken(bodyToken, h2, verify)
    ensures VerifyToken(bodyToken, h1, verify) == if verify(bodyToken).Some? then Proceed(verify(bodyToken).value) else InvalidToken
  {
  }

  /** `Authorization: Bearer t` (no usable body token) is the same request as a body token `t`. */
  lemma BearerHeaderActsAsBodyToken(bodyToken: Value, t: string, verify: Verifier)
    requires !Truthy(bodyToken)
    ensures VerifyToken(bodyToken, Some(BearerPrefix + t), verify) == VerifyToken(Str(t), None, verify)
  {
    StripBearerOfBearerForm(t);
  }

  /** `Authorization: t` with a raw token (no space) is the same request as a body token `t`. */
  lemma RawHeaderActsAsBodyToken(bodyToken: Value, t: string, verify: Verifier)
    requires !Truthy(bodyToken) && ' ' !in t
    ensures VerifyToken(bodyToken, Some(t), verify) == VerifyToken(Str(t), None, verify)
  {
    StripBearerOfRawToken(t);
  }
}
