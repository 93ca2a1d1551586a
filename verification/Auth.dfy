/**
 internal/folio/auth.go: what the gateway's answers to a login, a refresh and a logout mean,
 and the guards that stand before a logout is sent.
 */
module Auth {
  import opened Outcome
  import opened Text

  // A point in time as nanoseconds; 0 stands for Go's zero time, an unknown expiration.
  type Time = nat

  const ACCESS_COOKIE := "folioAccessToken"
  const REFRESH_COOKIE := "folioRefreshToken"

  datatype Cookie = Cookie(name: string, value: string)

  /** A usable token pair, as one login or refresh response delivers it. */
  datatype Tokens = Tokens(access: string, accessExpiresAt: Time, refresh: string, refreshExpiresAt: Time)

  datatype TokenError = MissingCookie(name: string) | NoAccessExpiration

  /** What comes back from an HTTP request; NoAnswer covers timeouts, the network and unreadable bodies. */
  datatype HttpReply = Answer(status: int, cookies: seq<Cookie>, accessExpiresAt: Time, refreshExpiresAt: Time) | NoAnswer

  /** The three outcomes of a login or refresh that callers tell apart. */
  datatype AuthReply = Granted(tokens: Tokens) | HttpError(status: int) | OtherError

  // ---------------------------------------------------------------------------------------
  // Cookies.

  function FirstValue(cookies: seq<Cookie>, name: string): string {
    if cookies == [] then ""
    else if cookies[0].name == name && cookies[0].value != "" then cookies[0].value
    else FirstValue(cookies[1..], name)
  }

  /** The value found is that of the first cookie of the name that holds one. */
  lemma {:induction false} FirstValueIs(cookies: seq<Cookie>, name: string)
    ensures FirstValue(cookies, name) == "" <==> forall c :: c in cookies && c.name == name ==> c.value == ""
    ensures FirstValue(cookies, name) != "" ==>
              exists i :: 0 <= i < |cookies| && cookies[i] == Cookie(name, FirstValue(cookies, name))
                          && forall j :: 0 <= j < i && cookies[j].name == name ==> cookies[j].value == ""
  {
    if cookies == [] {
    } else if cookies[0].name == name && cookies[0].value != "" {
      assert cookies[0] == Cookie(name, FirstValue(cookies, name));
    } else {
      FirstValueIs(cookies[1..], name);
      assert forall c :: c in cookies <==> c == cookies[0] || c in cookies[1..];
      if FirstValue(cookies, name) != "" {
        var k :| 0 <= k < |cookies| - 1 && cookies[1..][k] == Cookie(name, FirstValue(cookies, name))
                 && forall j :: 0 <= j < k && cookies[1..][j].name == name ==> cookies[1..][j].value == "";
        assert cookies[k + 1] == Cookie(name, FirstValue(cookies, name));
        forall j | 0 <= j < k + 1 && cookies[j].name == name ensures cookies[j].value == "" {
          if j > 0 { assert cookies[1..][j - 1] == cookies[j]; }
        }
      }
    }
  }

  lemma {:induction false} FirstValueStep(cookies: seq<Cookie>, k: nat, name: string)
    requires k < |cookies|
    ensures FirstValue(cookies[..k + 1], name)
         == if FirstValue(cookies[..k], name) != "" then FirstValue(cookies[..k], name)
            else if cookies[k].name == name then cookies[k].value else ""
  {
    if k == 0 {
      assert cookies[..1] == [cookies[0]];
    } else {
      assert cookies[..k + 1][1..] == cookies[1..][..k] && cookies[..k][1..] == cookies[1..][..k - 1];
      FirstValueStep(cookies[1..], k - 1, name);
    }
  }

  method ExtractTokens(cookies: seq<Cookie>) returns (r: Result<(string, string), TokenError>)
    ensures r == if FirstValue(cookies, ACCESS_COOKIE) == "" then Err(MissingCookie(ACCESS_COOKIE))
                 else if FirstValue(cookies, REFRESH_COOKIE) == "" then Err(MissingCookie(REFRESH_COOKIE))
                 else Ok((FirstValue(cookies, ACCESS_COOKIE), FirstValue(cookies, REFRESH_COOKIE)))
  {
    var access, refresh := "", "";
    var i := 0;
    while i < |cookies|
      invariant 0 <= i <= |cookies|
      invariant access == FirstValue(cookies[..i], ACCESS_COOKIE)
      invariant refresh == FirstValue(cookies[..i], REFRESH_COOKIE)
    {
      FirstValueStep(cookies, i, ACCESS_COOKIE);
      FirstValueStep(cookies, i, REFRESH_COOKIE);
      var cookie := cookies[i];
      if cookie.name == ACCESS_COOKIE {
        if access == "" { access := cookie.value; }
      } else if cookie.name == REFRESH_COOKIE {
        if refresh == "" { refresh := cookie.value; }
      }
      i := i + 1;
    }
    assert cookies[..i] == cookies;
    if access == "" { return Err(MissingCookie(ACCESS_COOKIE)); }
    if refresh == "" { return Err(MissingCookie(REFRESH_COOKIE)); }
    return Ok((access, refresh));
  }

  function Filled(cookies: seq<Cookie>, accessExpiresAt: Time, refreshExpiresAt: Time): Result<Tokens, TokenError> {
    if FirstValue(cookies, ACCESS_COOKIE) == "" then Err(MissingCookie(ACCESS_COOKIE))
    else if FirstValue(cookies, REFRESH_COOKIE) == "" then Err(MissingCookie(REFRESH_COOKIE))
    else if accessExpiresAt == 0 then Err(NoAccessExpiration)
    else Ok(Tokens(FirstValue(cookies, ACCESS_COOKIE), accessExpiresAt, FirstValue(cookies, REFRESH_COOKIE), refreshExpiresAt))
  }

  method FillTokens(cookies: seq<Cookie>, accessExpiresAt: Time, refreshExpiresAt: Time)
    returns (r: Result<Tokens, TokenError>)
    ensures r == Filled(cookies, accessExpiresAt, refreshExpiresAt)
  {
    var extracted := ExtractTokens(cookies);
    match extracted {
      case Err(e) => return Err(e);
      case Ok(pair) =>
        if accessExpiresAt == 0 { return Err(NoAccessExpiration); }
        return Ok(Tokens(pair.0, accessExpiresAt, pair.1, refreshExpiresAt));
    }
  }

  predicate IsSuccess(status: int) {
    200 <= status < 300
  }

  /** Login and Refresh, from the raw answer to what the caller sees. */
  function Understood(reply: HttpReply): AuthReply {
    match reply
    case NoAnswer => OtherError
    case Answer(status, cookies, accessExpiresAt, refreshExpiresAt) =>
      if !IsSuccess(status) then HttpError(status)
      else
        match Filled(cookies, accessExpiresAt, refreshExpiresAt)
        case Ok(tokens) => Granted(tokens)
        case Err(_) => OtherError
  }

  /** A pair a caller may store: both tokens present and the access token's end known. */
  predicate Usable(t: Tokens) {
    t.access != "" && t.refresh != "" && t.accessExpiresAt != 0
  }

  predicate UsableReply(r: AuthReply) {
    r.Granted? ==> Usable(r.tokens)
  }

  /**
   A pair is granted exactly by a 2xx answer that carries a non-empty cookie of each name and
   an access expiration. A 2xx without them is neither a grant nor a client error.
   */
  lemma GrantedIff(reply: HttpReply)
    ensures Understood(reply).Granted? <==>
            && reply.Answer? && IsSuccess(reply.status) && reply.accessExpiresAt != 0
            && (exists c :: c in reply.cookies && c.name == ACCESS_COOKIE && c.value != "")
            && (exists c :: c in reply.cookies && c.name == REFRESH_COOKIE && c.value != "")
    ensures Understood(reply).Granted? ==>
            && Usable(Understood(reply).tokens)
            && Cookie(ACCESS_COOKIE, Understood(reply).tokens.access) in reply.cookies
            && Cookie(REFRESH_COOKIE, Understood(reply).tokens.refresh) in reply.cookies
    ensures Understood(reply).HttpError? <==> reply.Answer? && !IsSuccess(reply.status)
  {
    if reply.Answer? {
      FirstValueIs(reply.cookies, ACCESS_COOKIE);
      FirstValueIs(reply.cookies, REFRESH_COOKIE);
    }
  }

  /** isClientError */
  predicate IsClientError(r: AuthReply) {
    r.HttpError? && 400 <= r.status < 500
  }

  // ---------------------------------------------------------------------------------------
  // The logout guards.

  predicate Blank(s: string) {
    TrimSpace(s) == ""
  }

  predicate ContainsWhite(s: string) {
    exists i :: 0 <= i < |s| && s[i] in " \t\r\n"
  }

  predicate SegmentsFilled(segs: seq<string>) {
    forall i :: 0 <= i < |segs| ==> segs[i] != "" || (|segs| == 5 && i == 1)
  }

  predicate IsJwtShaped(token: string) {
    !ContainsWhite(token) &&
    (var segs := Split(token, "."); (|segs| == 3 || |segs| == 5) && SegmentsFilled(segs))
  }

  /** The parts of a compact serialization: base parts hold no dot. */
  predicate CompactParts(segs: seq<string>) {
    (|segs| == 3 || |segs| == 5) && SegmentsFilled(segs) && forall i :: 0 <= i < |segs| ==> '.' !in segs[i]
  }

  /**
   Exactly the compact forms pass: three non-empty parts joined by dots (JWS, section 7.1 of
   RFC 7515) or five of which only the second, the encrypted key, may be empty (JWE, section
   7.1 of RFC 7516), with no white space anywhere.
   */
  lemma JwtShapedIff(token: string)
    ensures IsJwtShaped(token) <==> !ContainsWhite(token) && exists segs :: CompactParts(segs) && Join(segs, ".") == token
  {
    JoinSplit(token, ".");
    SplitSegmentsFree(token, ".");
    if IsJwtShaped(token) {
      assert CompactParts(Split(token, "."));
    }
    if exists segs :: CompactParts(segs) && Join(segs, ".") == token {
      var segs :| CompactParts(segs) && Join(segs, ".") == token;
      SplitJoin(segs, ".");
    }
  }

  datatype GuardError = NoRefreshToken | InvalidRefreshToken | NoAccessToken

  /** The checks AuthClient.Logout makes before any request is built. */
  function LogoutGuard(access: string, refresh: string): Option<GuardError> {
    if Blank(refresh) then Some(NoRefreshToken)
    else if !IsJwtShaped(refresh) then Some(InvalidRefreshToken)
    else if Blank(access) then Some(NoAccessToken)
    else None
  }

  /** Nothing passes the guards but a compact-form refresh token next to an access token with ink on it. */
  lemma GuardPassedIff(access: string, refresh: string)
    ensures LogoutGuard(access, refresh).None? <==>
            && !ContainsWhite(refresh)
            && (exists segs :: CompactParts(segs) && Join(segs, ".") == refresh)
            && (exists i :: 0 <= i < |access| && !IsSpace(access[i]))
  {
    JwtShapedIff(refresh);
    if exists segs :: CompactParts(segs) && Join(segs, ".") == refresh {
      var segs :| CompactParts(segs) && Join(segs, ".") == refresh;
      assert refresh == segs[0] + "." + Join(segs[1..], ".");
      assert refresh[|segs[0]|] == '.';
    }
    BlankIffAllSpace(access);
    BlankIffAllSpace(refresh);
  }
}
