/**
 The handlers that move tokens, as they run on a session: renewToken with tryTokenRefresh and
 tryRelogin (internal/handlers/base.go), LoginHandler.Handle (internal/handlers/login.go) and
 LogoutSession (internal/handlers/session_logout.go). Each method computes a function of the
 session and of the answers it gets; the lemmas show that function to be what a thread of the
 Lifecycle transition system does when nobody interleaves.
 */
module Handlers {
  import opened Outcome
  import opened Auth
  import opened SessionModel
  import opened Lifecycle
  import Logout

  /** A request, with the gateway and tenant it goes to. */
  datatype Sent = Sent(okapiURL: string, okapiTenant: string, call: Call)

  /** The clock and the answers to one renewal: logins[k] answers attempt k + 1, cancelled[k] is the wait before it. */
  datatype Env = Env(now: Time, refresh: AuthReply, logins: seq<AuthReply>, cancelled: seq<bool>)

  predicate EnvOk(env: Env) {
    |env.logins| == MAX_RETRIES && |env.cancelled| == MAX_RETRIES
  }

  datatype Renewed = Renewed(state: SessionState, token: Option<string>, sent: seq<Sent>, replaced: Pair)

  function SentTo(s: SessionState, call: Call): Sent {
    Sent(TenantIn(s).okapiURL, TenantIn(s).okapiTenant, call)
  }

  // ---------------------------------------------------------------------------------------
  // tryRelogin

  /** The attempts from number k on. */
  function ReloginFrom(s: SessionState, env: Env, k: nat): Renewed
    requires EnvOk(env) && 1 <= k <= MAX_RETRIES + 1
    decreases MAX_RETRIES + 1 - k
  {
    if k > MAX_RETRIES || (k > 1 && env.cancelled[k - 1]) then Renewed(s, None, [], Logout.EMPTY_PAIR)
    else
      var sent := SentTo(s, LoginCall(s.username, s.password));
      match env.logins[k - 1]
      case Granted(t) => Renewed(Stored(s, t), Some(t.access), [sent], s.pair)
      case _ =>
        var rest := ReloginFrom(s, env, k + 1);
        rest.(sent := [sent] + rest.sent)
  }

  function Relogin(s: SessionState, env: Env): Renewed
    requires EnvOk(env)
  {
    if !HasCredentials(s) then Renewed(s, None, [], Logout.EMPTY_PAIR) else ReloginFrom(s, env, 1)
  }

  function Behind(sent: seq<Sent>, r: Renewed): Renewed {
    r.(sent := sent + r.sent)
  }

  /** An attempt that fails moves on to the next. */
  lemma AttemptFails(s: SessionState, env: Env, k: nat, sent: seq<Sent>)
    requires EnvOk(env) && 1 <= k <= MAX_RETRIES
    requires !(k > 1 && env.cancelled[k - 1]) && !env.logins[k - 1].Granted?
    ensures Behind(sent, ReloginFrom(s, env, k))
         == Behind(sent + [SentTo(s, LoginCall(s.username, s.password))], ReloginFrom(s, env, k + 1))
  {
  }

  method TryRelogin(session: Session, env: Env) returns (token: Option<string>, sent: seq<Sent>, replaced: Pair)
    requires EnvOk(env)
    modifies session
    ensures Renewed(session.State(), token, sent, replaced) == Relogin(old(session.State()), env)
  {
    var stored := session.HasAuthCredentials();
    if !stored { return None, [], Logout.EMPTY_PAIR; }
    var username, password := session.username, session.password;
    ghost var s := session.State();
    sent := [];
    var attempt := 0;
    assert [] + ReloginFrom(s, env, 1).sent == ReloginFrom(s, env, 1).sent;
    while attempt < MAX_RETRIES
      invariant 0 <= attempt <= MAX_RETRIES && session.State() == s
      invariant ReloginFrom(s, env, 1) == Behind(sent, ReloginFrom(s, env, attempt + 1))
    {
      if attempt > 0 && env.cancelled[attempt] { return None, sent, Logout.EMPTY_PAIR; }
      var request := SendLogin(session, username, password);
      var reply := env.logins[attempt];
      if reply.Granted? {
        replaced := session.SwapTokens(reply.tokens);
        return Some(reply.tokens.access), sent + [request], replaced;
      }
      AttemptFails(s, env, attempt + 1, sent);
      sent := sent + [request];
      attempt := attempt + 1;
    }
    return None, sent, Logout.EMPTY_PAIR;
  }

  /** A login request to the session's present tenant. */
  method SendLogin(session: Session, username: string, password: string) returns (request: Sent)
    ensures request == SentTo(session.State(), LoginCall(username, password))
  {
    match session.tenantConfig {
      case Some(t) => return Sent(t.okapiURL, t.okapiTenant, LoginCall(username, password));
      case None => return Sent("", "", LoginCall(username, password));
    }
  }

  // ---------------------------------------------------------------------------------------
  // tryTokenRefresh and renewToken

  method TryTokenRefresh(session: Session, reply: AuthReply) returns (token: Option<string>, sent: seq<Sent>)
    modifies session
    ensures sent == [SentTo(old(session.State()), RefreshCall(old(session.refreshToken)))]
    ensures token == if reply.Granted? then Some(reply.tokens.access) else None
    ensures session.State() == if reply.Granted? then Stored(old(session.State()), reply.tokens) else old(session.State())
  {
    var tenant := match session.tenantConfig case Some(t) => t case None => Tenant("", "", "");
    sent := [Sent(tenant.okapiURL, tenant.okapiTenant, RefreshCall(session.refreshToken))];
    if !reply.Granted? { return None, sent; }
    session.UpdateTokens(reply.tokens);
    return Some(reply.tokens.access), sent;
  }

  /** renewToken with the lock held: the replaced pair is the one handed to a logout, empty if none. */
  function Renew(s: SessionState, env: Env): Renewed
    requires EnvOk(env)
  {
    if !Expired(s, env.now) then Renewed(s, Some(s.pair.access), [], Logout.EMPTY_PAIR)
    else if !RefreshUsable(s, TOKEN_EXPIRY_BUFFER, env.now) then Relogin(s, env).(replaced := Logout.EMPTY_PAIR)
    else
      var refresh := SentTo(s, RefreshCall(s.pair.refresh));
      if env.refresh.Granted? then
        Renewed(Stored(s, env.refresh.tokens), Some(env.refresh.tokens.access), [refresh], Logout.EMPTY_PAIR)
      else
        var again := Relogin(s, env);
        again.(sent := [refresh] + again.sent,
               replaced := if IsTransient(Some(env.refresh)) then again.replaced else Logout.EMPTY_PAIR)
  }

  method RenewToken(session: Session, env: Env) returns (token: Option<string>, sent: seq<Sent>, handedOff: Pair)
    requires EnvOk(env)
    modifies session
    ensures Renewed(session.State(), token, sent, handedOff) == Renew(old(session.State()), env)
  {
    handedOff := Logout.EMPTY_PAIR;
    var expired := session.IsTokenExpired(env.now);
    if !expired { return Some(session.authToken), [], handedOff; }

    sent := [];
    var refreshErr: Option<AuthReply> := None;
    var usable := session.HasValidRefreshToken(TOKEN_EXPIRY_BUFFER, env.now);
    if usable {
      token, sent := TryTokenRefresh(session, env.refresh);
      if token.Some? { return token, sent, handedOff; }
      refreshErr := Some(env.refresh);
    }
    var again, replaced;
    token, again, replaced := TryRelogin(session, env);
    sent := sent + again;
    if token.Some? && IsTransient(refreshErr) { handedOff := replaced; }
    NoTokenNoPair(old(session.State()), env, 1);
    return token, sent, handedOff;
  }

  lemma {:induction false} NoTokenNoPair(s: SessionState, env: Env, k: nat)
    requires EnvOk(env) && 1 <= k <= MAX_RETRIES + 1
    ensures var r := ReloginFrom(s, env, k);
            && (r.token == None ==> r.replaced == Logout.EMPTY_PAIR && r.state == s)
            && (r.token.Some? ==> r.replaced == s.pair && r.state.pair.access == r.token.value)
    decreases MAX_RETRIES + 1 - k
  {
  }

  /** Some attempt is granted with no cancelled wait up to it. */
  predicate SomeLogin(env: Env, k: nat)
    requires EnvOk(env) && 1 <= k
  {
    exists i :: k - 1 <= i < MAX_RETRIES && env.logins[i].Granted? && forall j :: k - 1 <= j <= i && j > 0 ==> !env.cancelled[j]
  }

  lemma {:induction false} ReloginSucceedsIff(s: SessionState, env: Env, k: nat)
    requires EnvOk(env) && 1 <= k <= MAX_RETRIES + 1
    ensures ReloginFrom(s, env, k).token.Some? <==> SomeLogin(env, k)
    decreases MAX_RETRIES + 1 - k
  {
  }

  /**
   A renewal yields a token exactly when the stored one is still good, or a usable refresh
   token is honoured, or one of three logins with stored credentials is, none of them after a
   cancelled wait. Otherwise the session is as it was. At most four requests are made.
   */
  lemma RenewSucceedsIff(s: SessionState, env: Env)
    requires EnvOk(env)
    ensures Renew(s, env).token.Some? <==>
            || !Expired(s, env.now)
            || (RefreshUsable(s, TOKEN_EXPIRY_BUFFER, env.now) && env.refresh.Granted?)
            || (HasCredentials(s) && SomeLogin(env, 1))
    ensures Renew(s, env).token == None ==> Renew(s, env).state == s && Renew(s, env).replaced == Logout.EMPTY_PAIR
    ensures |Renew(s, env).sent| <= 1 + MAX_RETRIES
  {
  }

  // ---------------------------------------------------------------------------------------
  // LoginHandler.Handle past field validation, and LogoutSession

  datatype LoggedIn = LoggedIn(state: SessionState, accepted: bool, sent: seq<Sent>, handedOff: Pair)

  /** Once FOLIO has answered the login. */
  function Answered(s: SessionState, username: string, password: string, reply: AuthReply): LoggedIn {
    var sent := [SentTo(s, LoginCall(username, password))];
    match reply
    case Granted(t) =>
      LoggedIn(Authenticated(Stored(s, t), username, "", "", t.access, t.accessExpiresAt).(password := password), true, sent, s.pair)
    case _ =>
      if FromOtherTenant(s) then LoggedIn(Cleared(s), false, sent, s.pair)
      else LoggedIn(s, false, sent, Logout.EMPTY_PAIR)
  }

  function LogIn(s0: SessionState, username: string, password: string, locationCode: string, now: Time, reply: AuthReply): LoggedIn {
    var s := if locationCode != "" then s0.(locationCode := locationCode) else s0;
    if ShortCircuits(s, username, password, now) then LoggedIn(s, true, [], Logout.EMPTY_PAIR)
    else Answered(s, username, password, reply)
  }

  method HandleLogin(session: Session, username: string, password: string, locationCode: string, now: Time, reply: AuthReply)
    returns (accepted: bool, sent: seq<Sent>, handedOff: Pair)
    modifies session
    ensures LoggedIn(session.State(), accepted, sent, handedOff)
         == LogIn(old(session.State()), username, password, locationCode, now, reply)
  {
    handedOff := Logout.EMPTY_PAIR;
    if locationCode != "" { session.SetLocationCode(locationCode); }
    var expired := session.IsTokenExpired(now);
    var foreign := session.HasTokensFromOtherTenant();
    // sessionCredentialsMatch
    var match_ := session.password != "" && username == session.username && password == session.password;
    if session.isAuthenticated && !expired && !foreign && match_ { return true, [], handedOff; }

    var request := SendLogin(session, username, password);
    sent := [request];
    match reply {
      case Granted(t) => handedOff := Admit(session, username, password, t);
      case _ => handedOff := Refuse(session);
    }
    return reply.Granted?, sent, handedOff;
  }

  method Admit(session: Session, username: string, password: string, t: Tokens) returns (replaced: Pair)
    modifies session
    ensures replaced == old(session.State()).pair
    ensures session.State()
         == Authenticated(Stored(old(session.State()), t), username, "", "", t.access, t.accessExpiresAt).(password := password)
  {
    replaced := session.SwapTokens(t);
    session.SetAuthenticated(username, "", "", t.access, t.accessExpiresAt);
    session.SetAuthCredentials(password);
  }

  method Refuse(session: Session) returns (replaced: Pair)
    modifies session
    ensures FromOtherTenant(old(session.State())) ==>
              session.State() == Cleared(old(session.State())) && replaced == old(session.State()).pair
    ensures !FromOtherTenant(old(session.State())) ==> session.State() == old(session.State()) && replaced == Logout.EMPTY_PAIR
  {
    replaced := Logout.EMPTY_PAIR;
    var foreign := session.HasTokensFromOtherTenant();
    if foreign {
      replaced := session.TakeTokens();
      session.Clear();
    }
  }

  /** A connection's last act: the pair is taken out of the session and given to one logout. */
  method LogoutSession(session: Session, env: Logout.Env) returns (sent: seq<Logout.Sent>)
    modifies session
    ensures session.State() == Taken(old(session.State()))
    ensures sent == Logout.Script(old(session.State()).pair, env)
  {
    var pair := session.TakeTokens();
    sent := Logout.LogoutTokens(pair, env);
  }

  /** A second LogoutSession, for whatever reason, ends nothing. */
  lemma LogoutSessionOnce(s: SessionState, env: Logout.Env)
    ensures Logout.Script(Taken(s).pair, env) == []
  {
  }

  // ---------------------------------------------------------------------------------------
  // The handlers are threads of the transition system.

  function Rank(pc: Pc): nat {
    match pc
    case Holding => 20
    case Refreshing(_, _, _) => 19
    case Choosing(_, _) => 18
    case Relogging(_, _, k, _, _, _) => if k <= MAX_RETRIES then 17 - 2 * k else 1
    case Pausing(_, _, k, _, _) => if k <= MAX_RETRIES then 18 - 2 * k else 2
    case LoggingIn(_, _, _) => 1
    case _ => 0
  }

  function ReplyTo(pc: Pc, env: Env): AuthReply
    requires EnvOk(env)
  {
    match pc
    case Relogging(_, _, k, _, _, _) => if 1 <= k <= MAX_RETRIES then env.logins[k - 1] else OtherError
    case _ => env.refresh
  }

  predicate CancelledAt(pc: Pc, env: Env)
    requires EnvOk(env)
  {
    pc.Pausing? && 1 <= pc.attempt <= MAX_RETRIES && env.cancelled[pc.attempt - 1]
  }

  /** The thread alone, from the lock to its release. */
  function Drive(c: Conn, t: nat, pc: Pc, env: Env): (Conn, Pc)
    requires EnvOk(env)
    decreases Rank(pc)
  {
    if !Locked(pc) || pc.LoggingIn? then (c, pc)
    else
      var (c1, pc1) := Move(c, t, pc, env.now, ReplyTo(pc, env), CancelledAt(pc, env));
      Drive(c1, t, pc1, env)
  }

  function Calls(trace: seq<Exchange>): seq<Sent> {
    if trace == [] then []
    else
      var x := trace[|trace| - 1];
      Calls(trace[..|trace| - 1]) + [Sent(x.okapiURL, x.okapiTenant, x.call)]
  }

  function Ended(token: Option<string>): Pc {
    match token
    case Some(v) => Done(GotToken(v))
    case None => Done(NoToken)
  }

  lemma CallLogged(c: Conn, t: nat, tenant: Tenant, call: Call, reply: AuthReply)
    ensures var c1 := Logged(c, t, tenant, call, reply);
            && Calls(c1.trace) == Calls(c.trace) + [Sent(tenant.okapiURL, tenant.okapiTenant, call)]
            && c1.session == c.session && c1.jobs == c.jobs
  {
  }

  /** What the thread adds to the connection is what the function says: session, token, requests, logout jobs. */
  predicate Accounts(c: Conn, end: (Conn, Pc), r: Renewed, handedOff: bool) {
    && end.0.session == r.state && end.1 == Ended(r.token) && Calls(end.0.trace) == Calls(c.trace) + r.sent
    && (if handedOff && r.replaced.refresh != "" then |end.0.jobs| == |c.jobs| + 1 && end.0.jobs[..|c.jobs|] == c.jobs
                                                      && end.0.jobs[|c.jobs|].pair == r.replaced
        else end.0.jobs == c.jobs)
  }

  lemma DriveStep(c: Conn, t: nat, pc: Pc, env: Env)
    requires EnvOk(env) && Locked(pc) && !pc.LoggingIn?
    ensures var (c1, pc1) := Move(c, t, pc, env.now, ReplyTo(pc, env), CancelledAt(pc, env));
            Drive(c, t, pc, env) == Drive(c1, t, pc1, env)
  {
  }

  /** A refused attempt: the wait, and the next attempt unless cancelled. */
  lemma RefusedDriven(c: Conn, t: nat, pc: Pc, env: Env)
    requires EnvOk(env) && pc.Relogging? && 1 <= pc.attempt <= MAX_RETRIES && !env.logins[pc.attempt - 1].Granted?
    ensures var c1 := Logged(c, t, pc.tenant, LoginCall(pc.username, pc.password), env.logins[pc.attempt - 1]);
            Drive(c, t, pc, env)
            == if pc.attempt == MAX_RETRIES || env.cancelled[pc.attempt] then (c1, Done(NoToken))
               else Drive(c1, t, Relogging(pc.r, pc.failed, pc.attempt + 1, pc.username, pc.password, TenantOf(c1)), env)
  {
    DriveStep(c, t, pc, env);
    if pc.attempt < MAX_RETRIES {
      var c1 := Logged(c, t, pc.tenant, LoginCall(pc.username, pc.password), env.logins[pc.attempt - 1]);
      DriveStep(c1, t, Pausing(pc.r, pc.failed, pc.attempt + 1, pc.username, pc.password), env);
    }
  }

  lemma AccountsAfter(c: Conn, c1: Conn, x: Sent, end: (Conn, Pc), rest: Renewed, handedOff: bool)
    requires c1.jobs == c.jobs && Calls(c1.trace) == Calls(c.trace) + [x]
    requires Accounts(c1, end, rest, handedOff)
    ensures Accounts(c, end, rest.(sent := [x] + rest.sent), handedOff)
  {
  }

  lemma NothingMore(c: Conn, s: SessionState, handedOff: bool)
    requires c.session == s
    ensures Accounts(c, (c, Done(NoToken)), Renewed(s, None, [], Logout.EMPTY_PAIR), handedOff)
  {
  }

  lemma {:induction false} ReloggingDriven(c: Conn, t: nat, r: Renewal, failed: Option<AuthReply>, k: nat, env: Env)
    requires EnvOk(env) && 1 <= k <= MAX_RETRIES && c.session.tenant.Some?
    requires k > 1 ==> !env.cancelled[k - 1]
    ensures var pc := Relogging(r, failed, k, c.session.username, c.session.password, TenantOf(c));
            Accounts(c, Drive(c, t, pc, env), ReloginFrom(c.session, env, k), IsTransient(failed))
    decreases MAX_RETRIES - k
  {
    var s := c.session;
    var pc := Relogging(r, failed, k, s.username, s.password, TenantOf(c));
    var call := LoginCall(s.username, s.password);
    var reply := env.logins[k - 1];
    if reply.Granted? {
      GrantedDriven(c, t, pc, env);
    } else {
      var c1 := Logged(c, t, TenantOf(c), call, reply);
      CallLogged(c, t, TenantOf(c), call, reply);
      RefusedDriven(c, t, pc, env);
      if k < MAX_RETRIES && !env.cancelled[k] {
        ReloggingDriven(c1, t, r, failed, k + 1, env);
      } else {
        NothingMore(c1, s, IsTransient(failed));
      }
      AccountsAfter(c, c1, SentTo(s, call), Drive(c, t, pc, env), ReloginFrom(s, env, k + 1), IsTransient(failed));
    }
  }

  /** The step on which a login is granted. */
  lemma GrantedDriven(c: Conn, t: nat, pc: Pc, env: Env)
    requires EnvOk(env) && pc.Relogging? && 1 <= pc.attempt <= MAX_RETRIES && env.logins[pc.attempt - 1].Granted?
    requires c.session.tenant == Some(pc.tenant)
    ensures var tokens := env.logins[pc.attempt - 1].tokens;
            Accounts(c, Drive(c, t, pc, env),
                     Renewed(Stored(c.session, tokens), Some(tokens.access),
                             [SentTo(c.session, LoginCall(pc.username, pc.password))], c.session.pair),
                     IsTransient(pc.failed))
  {
    DriveStep(c, t, pc, env);
    CallLogged(c, t, pc.tenant, LoginCall(pc.username, pc.password), env.logins[pc.attempt - 1]);
  }

  lemma ChoosingDriven(c: Conn, t: nat, r: Renewal, failed: Option<AuthReply>, env: Env)
    requires EnvOk(env) && c.session.tenant.Some?
    ensures Accounts(c, Drive(c, t, Choosing(r, failed), env), Relogin(c.session, env), IsTransient(failed))
  {
    if HasCredentials(c.session) {
      ReloggingDriven(c, t, r, failed, 1, env);
    }
  }

  /** A pair that is not handed off counts as none. */
  lemma Withheld(c: Conn, end: (Conn, Pc), r: Renewed, handedOff: bool)
    requires Accounts(c, end, r, handedOff)
    ensures Accounts(c, end, r.(replaced := if handedOff then r.replaced else Logout.EMPTY_PAIR), true)
  {
  }

  lemma RefreshingDriven(c: Conn, t: nat, r: Renewal, env: Env)
    requires EnvOk(env) && c.session.tenant.Some?
    requires Expired(c.session, env.now) && RefreshUsable(c.session, TOKEN_EXPIRY_BUFFER, env.now)
    ensures Accounts(c, Drive(c, t, Refreshing(r, c.session.pair.refresh, TenantOf(c)), env), Renew(c.session, env), true)
  {
    var s := c.session;
    var call := RefreshCall(s.pair.refresh);
    var c1 := Logged(c, t, TenantOf(c), call, env.refresh);
    DriveStep(c, t, Refreshing(r, s.pair.refresh, TenantOf(c)), env);
    CallLogged(c, t, TenantOf(c), call, env.refresh);
    if !env.refresh.Granted? {
      var pc := Choosing(r, Some(env.refresh));
      ChoosingDriven(c1, t, r, Some(env.refresh), env);
      AccountsAfter(c, c1, SentTo(s, call), Drive(c1, t, pc, env), Relogin(s, env), IsTransient(Some(env.refresh)));
      var again := Relogin(s, env);
      Withheld(c, Drive(c1, t, pc, env), again.(sent := [SentTo(s, call)] + again.sent), IsTransient(Some(env.refresh)));
    }
  }

  /** A thread that has the lock and is left alone does to the connection exactly what renewToken computes. */
  lemma RenewalDriven(c: Conn, t: nat, env: Env)
    requires EnvOk(env) && c.session.tenant.Some?
    ensures Accounts(c, Drive(c, t, Holding, env), Renew(c.session, env), true)
  {
    var s := c.session;
    var r := Renewal(|c.trace|, s.pair, env.now);
    if Expired(s, env.now) {
      if RefreshUsable(s, TOKEN_EXPIRY_BUFFER, env.now) {
        DriveStep(c, t, Holding, env);
        RefreshingDriven(c, t, r, env);
      } else {
        ChoosingDriven(c, t, r, None, env);
      }
    }
  }

  /** A 93 left alone: the short-circuit test, the lock, the answer. */
  function LoginAlone(c: Conn, t: nat, pc: Pc, now: Time, reply: AuthReply): (Conn, Pc)
    requires pc.LoginStart?
  {
    var (c1, pc1) := Move(c, t, pc, now, reply, false);
    if pc1.Done? then (c1, pc1)
    else
      var (c2, pc2) := Move(c1, t, pc1, now, reply, false);
      Move(c2, t, pc2, now, reply, false)
  }

  lemma LoginAloneIs(c: Conn, t: nat, pc: Pc, now: Time, reply: AuthReply)
    requires pc.LoginStart?
    ensures var s := if pc.locationCode != "" then c.session.(locationCode := pc.locationCode) else c.session;
            LoginAlone(c, t, pc, now, reply)
            == if ShortCircuits(s, pc.username, pc.password, now) then (c.(session := s, settled := true), Done(LoginAccepted))
               else LoginAnswered(c.(session := s), t, LoggingIn(pc.username, pc.password, TenantOf(c)), reply)
  {
  }

  /** The jobs are the old ones and, for a pair with a refresh token, one new one for it. */
  predicate OneJobMore(c: Conn, c1: Conn, pair: Pair) {
    if pair.refresh == "" then c1.jobs == c.jobs
    else |c1.jobs| == |c.jobs| + 1 && c1.jobs[..|c.jobs|] == c.jobs && c1.jobs[|c.jobs|].pair == pair
  }

  /** The end state and the bookkeeping of a thread that logged in. */
  predicate LoginAccounts(c: Conn, end: (Conn, Pc), r: LoggedIn) {
    && end.0.session == r.state && end.1 == Done(if r.accepted then LoginAccepted else LoginRefused)
    && Calls(end.0.trace) == Calls(c.trace) + r.sent && OneJobMore(c, end.0, r.handedOff)
  }

  /** And a 93 left alone, from its first step to its last, does what HandleLogin computes. */
  lemma LoginDriven(c: Conn, t: nat, username: string, password: string, locationCode: string, now: Time, reply: AuthReply)
    requires c.session.tenant.Some?
    ensures LoginAccounts(c, LoginAlone(c, t, LoginStart(username, password, locationCode), now, reply),
                          LogIn(c.session, username, password, locationCode, now, reply))
  {
    LoginAloneIs(c, t, LoginStart(username, password, locationCode), now, reply);
    var s := if locationCode != "" then c.session.(locationCode := locationCode) else c.session;
    if ShortCircuits(s, username, password, now) {
      assert Calls(c.trace) + [] == Calls(c.trace);
    } else {
      AnsweredDriven(c.(session := s), t, username, password, TenantOf(c), reply);
    }
  }

  lemma AnsweredDriven(c: Conn, t: nat, username: string, password: string, tenant: Tenant, reply: AuthReply)
    requires c.session.tenant == Some(tenant)
    ensures LoginAccounts(c, LoginAnswered(c, t, LoggingIn(username, password, tenant), reply),
                          Answered(c.session, username, password, reply))
  {
  }

  /**
   Over every run and for every behaviour of the server meanwhile, whatever the logout job of
   a pair sends goes to the gateway and tenant that granted the pair, and a logout sent
   without a refresh before it carries the two tokens of that one grant.
   */
  lemma JobsReachTheirIssuer(tenant: Tenant, steps: seq<Step>, j: Job, env: Logout.Env)
    requires Legal(Start(tenant), steps) && j in Exec(Start(tenant), steps).conn.jobs
    ensures var trace := Exec(Start(tenant), steps).conn.trace;
            && j.origin.Some? && j.origin.value.exchange < |trace| && trace[j.origin.value.exchange].reply.Granted?
            && (var x, sent := trace[j.origin.value.exchange], Logout.Script(j.pair, env);
                forall k :: 0 <= k < |sent| ==>
                  && sent[k].okapiURL == x.okapiURL && sent[k].okapiTenant == x.okapiTenant
                  && (sent[k].request.Logout? && (forall i :: 0 <= i < k ==> !sent[i].request.Refresh?) ==>
                        sent[k].request == Logout.Logout(x.reply.tokens.access, x.reply.tokens.refresh)))
  {
    PairsCoherent(tenant, steps);
    assert JobOk(Exec(Start(tenant), steps).conn.trace, j);
    Logout.LogoutProtocol(j.pair, env);
    var sent := Logout.Script(j.pair, env);
    forall k | 0 <= k < |sent| && sent[k].request.Logout?
      ensures Logout.FromOneSource(sent, k, j.pair, env)
    {
    }
  }
}
