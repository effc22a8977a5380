/** Who is calling. The user-facing handlers read the bearer token of the
    `Authorization` header themselves; the admin handlers read the claims an
    API gateway authorizer attached. Base64 and JSON decoding are library
    code: their result is an input here. */
module Auth {

  import opened Wrappers
  import opened Text

  /** The claims object of a decoded token: its `sub` and `username`. */
  datatype TokenClaims = TokenClaims(sub: Option<string>, username: Option<string>)

  /** Python's `s.replace(pat, "")`: every non-overlapping occurrence of
      `pat`, scanning left to right, removed. */
  function RemoveAll(s: string, pat: string): (r: string)
    requires |pat| > 0
    ensures |r| <= |s|
    ensures !Contains(s, pat) ==> r == s
    decreases |s|
  {
    if |s| == 0 then s
    else if StartsWith(s, pat) then RemoveAll(s[|pat|..], pat)
    else
      var rest := RemoveAll(s[1..], pat);
      assert !Contains(s, pat) ==> !Contains(s[1..], pat);
      [s[0]] + rest
  }

  /** The second dot-separated segment of the token, if there is one. */
  function PayloadSegment(token: string): (r: Option<string>)
    ensures r.Some? <==> '.' in token
    ensures r.Some? ==> '.' !in r.value
  {
    var parts := Split(token, '.');
    if |parts| >= 2 then Some(parts[1]) else None
  }

  /** A token `header.payload.signature` whose three parts hold no dot
      has `payload` as its payload segment. */
  lemma TokenPayload(header: string, payload: string, signature: string)
    requires '.' !in header && '.' !in payload && '.' !in signature
    ensures PayloadSegment(header + "." + payload + "." + signature) == Some(payload)
  {
    var parts := [header, payload, signature];
    assert parts[1..][1..] == [signature];
    assert Join(parts[1..], '.') == payload + "." + signature;
    assert Join(parts, '.') == header + "." + payload + "." + signature;
    SplitJoin(parts, '.');
  }

  /** Removing `pat` from `pat + t`, where `t` does not hold `pat`, gives
      back `t`: the `Bearer ` prefix of a header comes off cleanly. */
  lemma RemovePrefix(pat: string, t: string)
    requires |pat| > 0 && !Contains(t, pat)
    ensures RemoveAll(pat + t, pat) == t
  {
    assert (pat + t)[..|pat|] == pat;
    assert (pat + t)[|pat|..] == t;
  }

  /** Base64 padding of the payload segment: `=` appended until the length
      is a multiple of four. */
  function PadPayload(p: string): (r: string)
    ensures |r| % 4 == 0
    ensures |p| <= |r| < |p| + 4
    ensures r[..|p|] == p
    ensures forall i :: |p| <= i < |r| ==> r[i] == '='
  {
    var padding := |p| % 4;
    if padding != 0 then p + seq(4 - padding, _ => '=') else p
  }

  /** Padding a padded segment adds nothing. */
  lemma PadPayloadIdempotent(p: string)
    ensures PadPayload(PadPayload(p)) == PadPayload(p)
  {
  }

  /** The caller's user id as the user-facing handlers extract it. No header,
      or one that does not start with `Bearer `, gives none. A token whose
      payload cannot be found or decoded gives the fixed test identity when
      `fallbackOnError` holds (the list, get and submit handlers) and none
      otherwise (the first admin list handler). A decoded token gives `sub`,
      else `username`, when non-empty. `decoded` is the decoder's result on
      the padded payload segment. */
  function UserIdFromToken(header: Option<string>, decoded: Option<TokenClaims>,
                           fallbackOnError: bool): (r: Option<string>)
    ensures !Present(header) || !StartsWith(header.value, "Bearer ") ==> r.None?
    ensures Present(header) && StartsWith(header.value, "Bearer ") ==>
              var token := RemoveAll(header.value, "Bearer ");
              && (PayloadSegment(token).None? || decoded.None? ==>
                    r == (if fallbackOnError then Some(TestUserId) else None))
              && (PayloadSegment(token).Some? && decoded.Some? ==>
                    && (Present(decoded.value.sub) ==> r == decoded.value.sub)
                    && (!Present(decoded.value.sub) && Present(decoded.value.username) ==> r == decoded.value.username)
                    && (!Present(decoded.value.sub) && !Present(decoded.value.username) ==> r.None?))
    ensures r.Some? ==> r.value != ""
  {
    if !Present(header) || !StartsWith(header.value, "Bearer ") then None
    else
      var token := RemoveAll(header.value, "Bearer ");
      var undecodable := PayloadSegment(token).None? || decoded.None?;
      if undecodable then (if fallbackOnError then Some(TestUserId) else None)
      else if Present(decoded.value.sub) then decoded.value.sub
      else if Present(decoded.value.username) then decoded.value.username
      else None
  }

  const TestUserId: string := "test-user-123"

  /** A well-formed bearer header names the subject of its decoded claims,
      else their username. */
  lemma BearerIdentity(header: string, payload: string, signature: string, claims: TokenClaims,
                       fallbackOnError: bool)
    requires '.' !in header && '.' !in payload && '.' !in signature
    requires !Contains(header + "." + payload + "." + signature, "Bearer ")
    ensures UserIdFromToken(Some("Bearer " + (header + "." + payload + "." + signature)), Some(claims), fallbackOnError)
              == if Present(claims.sub) then claims.sub
                 else if Present(claims.username) then claims.username else None
  {
    var token := header + "." + payload + "." + signature;
    BearerToken(token);
    TokenPayload(header, payload, signature);
  }

  /** A bearer header whose token has no payload segment names the test
      identity where the handler falls back to it, and nobody elsewhere. */
  lemma BearerWithoutPayload(token: string, decoded: Option<TokenClaims>, fallbackOnError: bool)
    requires '.' !in token && !Contains(token, "Bearer ")
    ensures UserIdFromToken(Some("Bearer " + token), decoded, fallbackOnError)
              == if fallbackOnError then Some(TestUserId) else None
  {
    BearerToken(token);
  }

  /** `Bearer ` + a token without another `Bearer ` leaves the token. */
  lemma BearerToken(token: string)
    requires !Contains(token, "Bearer ")
    ensures StartsWith("Bearer " + token, "Bearer ")
    ensures RemoveAll("Bearer " + token, "Bearer ") == token
  {
    RemovePrefix("Bearer ", token);
    assert ("Bearer " + token)[..7] == "Bearer ";
  }

  /** The claims an API gateway authorizer attached, in the REST shape
      (`authorizer.claims`) and the HTTP-API shape (`authorizer.jwt.claims`). */
  datatype Authorizer = Authorizer(claims: Option<map<string, string>>,
                                   jwtClaims: Option<map<string, string>>)

  /** `authorizer.claims` when it is a non-empty object, else `authorizer.jwt.claims`. */
  function ResolveClaims(a: Authorizer): (c: map<string, string>)
    ensures a.claims.Some? && |a.claims.value| > 0 ==> c == a.claims.value
    ensures (a.claims.None? || |a.claims.value| == 0) ==> c == a.jwtClaims.GetOr(map[])
  {
    if a.claims.Some? && |a.claims.value| > 0 then a.claims.value else a.jwtClaims.GetOr(map[])
  }

  /** The `sub` claim, when present and non-empty. */
  function Subject(a: Authorizer): (r: Option<string>)
    ensures r.Some? ==> r.value != "" && "sub" in ResolveClaims(a) && ResolveClaims(a)["sub"] == r.value
    ensures r.None? ==> "sub" !in ResolveClaims(a) || ResolveClaims(a)["sub"] == ""
  {
    var c := ResolveClaims(a);
    if "sub" in c && c["sub"] != "" then Some(c["sub"]) else None
  }
}
