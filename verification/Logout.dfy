/**
 LogoutTokens (internal/handlers/session_logout.go): ending the Keycloak session a token pair
 belongs to. On Eureka a logout that carries an access token next to a blank refresh token
 ends every session of the user, so what is sent matters more than what succeeds.
 */
module Logout {
  import opened Outcome
  import opened Text
  import opened Auth

  /** types.TokenPair: the stored pair and the gateway and tenant that issued it. */
  datatype TokenPair = TokenPair(access: string, accessExpiresAt: Time, refresh: string, refreshExpiresAt: Time,
                                 okapiURL: string, okapiTenant: string)

  const EMPTY_PAIR := TokenPair("", 0, "", 0, "", "")

  /** The answer to a logout request. */
  datatype CallReply = Accepted | Rejected(status: int) | Failed

  datatype Request = Refresh(refreshToken: string) | Logout(accessToken: string, refreshToken: string)

  datatype Sent = Sent(okapiURL: string, okapiTenant: string, request: Request)

  /** The clock at its two readings and the server's answers, were it asked. */
  datatype Env = Env(atStart: Time, afterGuards: Time, refresh: AuthReply, firstLogout: CallReply, secondLogout: CallReply)

  /** AuthClient.Refresh, as a request: an empty token is refused before anything is sent. */
  function RefreshSent(pair: TokenPair, refresh: string): seq<Sent> {
    if refresh == "" then [] else [Sent(pair.okapiURL, pair.okapiTenant, Refresh(refresh))]
  }

  /** AuthClient.Logout, as a request: sent only past the guards. */
  function LogoutSent(pair: TokenPair, access: string, refresh: string): seq<Sent> {
    if LogoutGuard(access, refresh).Some? then [] else [Sent(pair.okapiURL, pair.okapiTenant, Logout(access, refresh))]
  }

  /** One run of LogoutTokens with its closure: the pair in hand and everything sent so far. */
  class Attempt {
    const pair: TokenPair
    var accessToken: string
    var refreshToken: string
    var refreshedFirst: bool
    var sent: seq<Sent>

    constructor (pair: TokenPair)
      ensures this.pair == pair && accessToken == pair.access && refreshToken == pair.refresh
      ensures !refreshedFirst && sent == []
    {
      this.pair := pair;
      accessToken, refreshToken := pair.access, pair.refresh;
      refreshedFirst, sent := false, [];
    }

    /** The closure refreshPair: both tokens are replaced together, or neither. */
    method RefreshPair(reply: AuthReply) returns (ok: bool)
      modifies this
      ensures sent == old(sent) + RefreshSent(pair, old(refreshToken))
      ensures ok == (old(refreshToken) != "" && reply.Granted?)
      ensures ok ==> accessToken == reply.tokens.access && refreshToken == reply.tokens.refresh && refreshedFirst
      ensures !ok ==> accessToken == old(accessToken) && refreshToken == old(refreshToken) && refreshedFirst == old(refreshedFirst)
    {
      if refreshToken == "" { return false; }
      sent := sent + RefreshSent(pair, refreshToken);
      if !reply.Granted? { return false; }
      accessToken, refreshToken := reply.tokens.access, reply.tokens.refresh;
      refreshedFirst := true;
      return true;
    }

    /** AuthClient.Logout with the pair in hand. */
    method SendLogout(reply: CallReply) returns (unauthorized: bool)
      modifies this`sent
      ensures sent == old(sent) + LogoutSent(pair, accessToken, refreshToken)
      ensures unauthorized == (LogoutGuard(accessToken, refreshToken).None? && reply == Rejected(401))
    {
      var guard := LogoutGuard(accessToken, refreshToken);
      if guard.Some? { return false; }
      sent := sent + [Sent(pair.okapiURL, pair.okapiTenant, Logout(accessToken, refreshToken))];
      return reply == Rejected(401);
    }
  }

  /** The three early returns: nothing that could be logged out, or nowhere to send it. */
  predicate Skipped(pair: TokenPair, now: Time) {
    Blank(pair.refresh) || (pair.refreshExpiresAt != 0 && now > pair.refreshExpiresAt) || pair.okapiURL == ""
  }

  predicate NeedsRefresh(pair: TokenPair, now: Time) {
    pair.access == "" || now >= pair.accessExpiresAt
  }

  /** What is sent for a pair, as one of five shapes. */
  function Script(pair: TokenPair, env: Env): seq<Sent> {
    var refresh := RefreshSent(pair, pair.refresh);
    var own := LogoutSent(pair, pair.access, pair.refresh);
    var renewed := if env.refresh.Granted? then LogoutSent(pair, env.refresh.tokens.access, env.refresh.tokens.refresh) else [];
    if Skipped(pair, env.atStart) then []
    else if NeedsRefresh(pair, env.afterGuards) then refresh + renewed
    else if own != [] && env.firstLogout == Rejected(401) then own + refresh + renewed
    else own
  }

  method LogoutTokens(pair: TokenPair, env: Env) returns (sent: seq<Sent>)
    ensures sent == Script(pair, env)
  {
    NotBlankNotEmpty(pair.refresh);
    if Blank(pair.refresh) { return []; }
    if pair.refreshExpiresAt != 0 && env.atStart > pair.refreshExpiresAt { return []; }
    if pair.okapiURL == "" { return []; }

    var attempt := new Attempt(pair);
    if attempt.accessToken == "" || env.afterGuards >= pair.accessExpiresAt {
      var ok := attempt.RefreshPair(env.refresh);
      if !ok { return attempt.sent; }
    }
    var unauthorized := attempt.SendLogout(if attempt.refreshedFirst then env.secondLogout else env.firstLogout);
    if unauthorized && !attempt.refreshedFirst {
      var ok := attempt.RefreshPair(env.refresh);
      if !ok { return attempt.sent; }
      unauthorized := attempt.SendLogout(env.secondLogout);
    }
    return attempt.sent;
  }

  // ---------------------------------------------------------------------------------------
  // What an observer of the traffic can rely on.

  function Count(sent: seq<Sent>, logouts: bool): nat {
    if sent == [] then 0 else (if sent[0].request.Logout? == logouts then 1 else 0) + Count(sent[1..], logouts)
  }

  /** A logout that ends one session only: compact refresh token, access token not blank. */
  ghost predicate Harmless(r: Request) {
    r.Logout? ==>
      && (exists i :: 0 <= i < |r.accessToken| && !IsSpace(r.accessToken[i]))
      && !ContainsWhite(r.refreshToken)
      && exists segs :: CompactParts(segs) && Join(segs, ".") == r.refreshToken
  }

  /** Both tokens of a logout come from the pair itself, or both from the one refresh answered before it. */
  predicate FromOneSource(sent: seq<Sent>, k: nat, pair: TokenPair, env: Env)
    requires k < |sent| && sent[k].request.Logout?
  {
    var r := sent[k].request;
    if exists j :: 0 <= j < k && sent[j].request.Refresh? then
      env.refresh.Granted? && r == Logout(env.refresh.tokens.access, env.refresh.tokens.refresh)
    else
      r == Logout(pair.access, pair.refresh) && pair.access != "" && env.afterGuards < pair.accessExpiresAt
  }

  /**
   For every pair and every behaviour of server and clock: at most one refresh and two
   logouts; every request goes to the pair's issuer; the refresh presents the pair's own
   token; every logout is harmless and its tokens have one source; a second logout comes only
   after a 401 on the first and a granted refresh between them.
   */
  lemma LogoutProtocol(pair: TokenPair, env: Env)
    ensures var sent := Script(pair, env);
            && Count(sent, false) <= 1 && Count(sent, true) <= 2
            && (forall k :: 0 <= k < |sent| ==>
                  && sent[k].okapiURL == pair.okapiURL != "" && sent[k].okapiTenant == pair.okapiTenant
                  && (sent[k].request.Refresh? ==> sent[k].request == Refresh(pair.refresh) && !Blank(pair.refresh))
                  && Harmless(sent[k].request)
                  && (sent[k].request.Logout? ==> FromOneSource(sent, k, pair, env)))
            && (Count(sent, true) == 2 ==>
                  && |sent| == 3 && sent[0].request.Logout? && sent[1].request.Refresh? && sent[2].request.Logout?
                  && env.firstLogout == Rejected(401) && env.refresh.Granted?)
  {
    var sent := Script(pair, env);
    Shapes(pair, env);
    CountShort(sent, true);
    CountShort(sent, false);
    forall k | 0 <= k < |sent|
      ensures sent[k].request.Refresh? ==> sent[k].request == Refresh(pair.refresh) && !Blank(pair.refresh)
      ensures Harmless(sent[k].request)
      ensures sent[k].request.Logout? ==> FromOneSource(sent, k, pair, env)
    {
      Sources(pair, env, k);
    }
  }

  lemma CountShort(sent: seq<Sent>, logouts: bool)
    ensures |sent| <= 3 ==>
              Count(sent, logouts) == (if |sent| > 0 && sent[0].request.Logout? == logouts then 1 else 0)
                                      + (if |sent| > 1 && sent[1].request.Logout? == logouts then 1 else 0)
                                      + (if |sent| > 2 && sent[2].request.Logout? == logouts then 1 else 0)
  {
  }

  lemma Sources(pair: TokenPair, env: Env, k: nat)
    requires k < |Script(pair, env)|
    ensures var sent := Script(pair, env);
            && (sent[k].request.Refresh? ==> sent[k].request == Refresh(pair.refresh) && !Blank(pair.refresh))
            && Harmless(sent[k].request)
            && (sent[k].request.Logout? ==> FromOneSource(sent, k, pair, env))
  {
    Shapes(pair, env);
    GuardPassedIff(pair.access, pair.refresh);
    if env.refresh.Granted? {
      GuardPassedIff(env.refresh.tokens.access, env.refresh.tokens.refresh);
    }
  }

  lemma Shapes(pair: TokenPair, env: Env)
    ensures var sent := Script(pair, env);
            && |sent| <= 3
            && (forall k :: 0 <= k < |sent| ==> sent[k].okapiURL == pair.okapiURL != "" && sent[k].okapiTenant == pair.okapiTenant)
            && (|sent| == 3 ==> sent[0].request.Logout? && sent[1].request.Refresh? && sent[2].request.Logout?
                                && env.firstLogout == Rejected(401) && env.refresh.Granted?)
            && (|sent| == 2 ==> sent[0].request.Refresh? != sent[1].request.Refresh?)
  {
    NotBlankNotEmpty(pair.refresh);
    var sent := Script(pair, env);
    if sent != [] && !NeedsRefresh(pair, env.afterGuards) {
      assert sent[0].request == Logout(pair.access, pair.refresh);
    }
  }

  lemma NotBlankNotEmpty(s: string)
    ensures !Blank(s) ==> s != ""
  {
  }

  /**
   Nothing is sent exactly when there is no usable refresh token, no issuer, or a pair that
   is current but refused by the guards. In particular an empty pair never causes traffic.
   */
  lemma SilentIff(pair: TokenPair, env: Env)
    ensures Script(pair, env) == [] <==>
            || Blank(pair.refresh)
            || (pair.refreshExpiresAt != 0 && env.atStart > pair.refreshExpiresAt)
            || pair.okapiURL == ""
            || (pair.access != "" && env.afterGuards < pair.accessExpiresAt && LogoutGuard(pair.access, pair.refresh).Some?)
    ensures Script(EMPTY_PAIR, env) == []
  {
    NotBlankNotEmpty(pair.refresh);
    NotBlankNotEmpty("");
  }

  /** The session is asked to end with the server's own fresh tokens unless the refresh itself fails or they fail the guards. */
  lemma EventuallyLoggedOut(pair: TokenPair, env: Env)
    requires !Skipped(pair, env.atStart) && NeedsRefresh(pair, env.afterGuards)
    ensures Count(Script(pair, env), true) == 1 <==>
            env.refresh.Granted? && LogoutGuard(env.refresh.tokens.access, env.refresh.tokens.refresh).None?
  {
    Shapes(pair, env);
    var sent := Script(pair, env);
    assert sent != [] && sent[0].request.Refresh?;
    CountShort(sent, true);
  }
}
