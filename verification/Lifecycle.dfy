/**
 The life of one kiosk connection's Keycloak sessions: getAuthenticatedFolioClient and
 renewToken (internal/handlers/base.go), LoginHandler.Handle (internal/handlers/login.go),
 tenant resolution and close (internal/server/connection.go), as one transition system.

 Any number of callers may be renewing at once; they and a 93 Login interleave freely between
 the points where the code reads the session, takes or leaves the renewal lock, sends a
 request, or gets its answer. The gateway answers anything at any time and the clock only
 grows. Messages of a connection are handled one after another, so a 93 arrives, a 23 or 35
 writes the session, and the connection closes only when no caller is still running.
 */
module Lifecycle {
  import opened Outcome
  import opened Auth
  import opened SessionModel
  import Logout

  type Pair = Logout.TokenPair

  const MAX_RETRIES := 3

  // ---------------------------------------------------------------------------------------
  // Bookkeeping: what an observer of the gateway would write down.

  datatype Call = RefreshCall(refreshToken: string) | LoginCall(username: string, password: string)

  /** One answered request: who sent it where, and for a grant the Keycloak session it belongs to. */
  datatype Exchange = Exchange(thread: nat, okapiURL: string, okapiTenant: string, call: Call, reply: AuthReply,
                               keycloak: Option<nat>)

  /** The Keycloak session behind a stored pair and the exchange that delivered the pair. */
  datatype Origin = Origin(keycloak: nat, exchange: nat)

  /** A pair handed to a background logout. */
  datatype Job = Job(origin: Option<Origin>, pair: Pair)

  /** A pair dropped without logout: a refused refresh, or none attempted at that time. */
  datatype GivenUp = GivenUp(origin: Option<Origin>, pair: Pair, refused: Option<AuthReply>, at: Time)

  datatype Conn = Conn(session: SessionState, begun: nat, held: Option<Origin>, jobs: seq<Job>, givenUp: seq<GivenUp>,
                       trace: seq<Exchange>, settled: bool, closed: bool)

  // ---------------------------------------------------------------------------------------
  // Program counters.

  datatype Result = GotToken(token: string) | NoToken | LoginAccepted | LoginRefused

  /** What a renewal found when it got the lock: the length of the trace, the pair and the time. */
  datatype Renewal = Renewal(mark: nat, before: Pair, at: Time)

  datatype Pc =
    | Reading
    | Checking(token: string)
    | Waiting
    | Holding
    | Refreshing(r: Renewal, refreshToken: string, tenant: Tenant)
    | Choosing(r: Renewal, failed: Option<AuthReply>)
    | Relogging(r: Renewal, failed: Option<AuthReply>, attempt: nat, username: string, password: string, tenant: Tenant)
    | Pausing(r: Renewal, failed: Option<AuthReply>, attempt: nat, username: string, password: string)
    | LoginStart(username: string, password: string, locationCode: string)
    | LoginWaiting(username: string, password: string, tenant: Tenant)
    | LoggingIn(username: string, password: string, tenant: Tenant)
    | Done(result: Result)

  /** Between LockRenewal and UnlockRenewal. */
  predicate Locked(pc: Pc) {
    pc.Holding? || pc.Refreshing? || pc.Choosing? || pc.Relogging? || pc.Pausing? || pc.LoggingIn?
  }

  /** isTransientFailure */
  predicate IsTransient(failed: Option<AuthReply>) {
    failed.Some? && !IsClientError(failed.value)
  }

  predicate ShortCircuits(s: SessionState, username: string, password: string, now: Time) {
    && s.isAuthenticated && !Expired(s, now) && !FromOtherTenant(s)
    && s.password != "" && username == s.username && password == s.password
  }

  // ---------------------------------------------------------------------------------------
  // Effects.

  function Logged(c: Conn, t: nat, tenant: Tenant, call: Call, reply: AuthReply): Conn {
    var keycloak :=
      if !reply.Granted? then None
      else if call.LoginCall? then Some(c.begun)
      else if c.held.Some? then Some(c.held.value.keycloak) else None;
    c.(trace := c.trace + [Exchange(t, tenant.okapiURL, tenant.okapiTenant, call, reply, keycloak)])
  }

  /** tryTokenRefresh: the pair is rotated within its Keycloak session. */
  function Rotated(c: Conn, tokens: Tokens): Conn {
    c.(session := Stored(c.session, tokens),
       held := if c.held.Some? && c.trace != [] then Some(c.held.value.(exchange := |c.trace| - 1)) else c.held)
  }

  /** logoutReplacedTokens: nothing is started for a pair without a refresh token. */
  function HandedOff(c: Conn): Conn {
    if c.session.pair.refresh == "" then c else c.(jobs := c.jobs + [Job(c.held, c.session.pair)])
  }

  function Dropped(c: Conn, failed: Option<AuthReply>, at: Time): Conn {
    if c.session.pair.refresh == "" then c
    else c.(givenUp := c.givenUp + [GivenUp(c.held, c.session.pair, failed, at)])
  }

  /** A login's pair takes the place of the stored one; it opens a Keycloak session of its own. */
  function Replaced(c: Conn, tokens: Tokens): Conn {
    c.(session := Stored(c.session, tokens), begun := c.begun + 1,
       held := if c.trace != [] then Some(Origin(c.begun, |c.trace| - 1)) else None)
  }

  function Emptied(c: Conn): Conn {
    HandedOff(c).(session := Taken(c.session), held := None)
  }

  // ---------------------------------------------------------------------------------------
  // One step of a thread.

  function TenantOf(c: Conn): Tenant {
    TenantIn(c.session)
  }

  function Recheck(c: Conn, now: Time): Pc {
    var r := Renewal(|c.trace|, c.session.pair, now);
    if !Expired(c.session, now) then Done(GotToken(c.session.pair.access))
    else if RefreshUsable(c.session, TOKEN_EXPIRY_BUFFER, now) then Refreshing(r, c.session.pair.refresh, TenantOf(c))
    else Choosing(r, None)
  }

  function RefreshAnswered(c: Conn, t: nat, pc: Pc, reply: AuthReply): (Conn, Pc)
    requires pc.Refreshing?
  {
    var c1 := Logged(c, t, pc.tenant, RefreshCall(pc.refreshToken), reply);
    if reply.Granted? then (Rotated(c1, reply.tokens), Done(GotToken(reply.tokens.access)))
    else (c1, Choosing(pc.r, Some(reply)))
  }

  function LoginAgain(c: Conn, pc: Pc): Pc
    requires pc.Choosing?
  {
    if !HasCredentials(c.session) then Done(NoToken)
    else Relogging(pc.r, pc.failed, 1, c.session.username, c.session.password, TenantOf(c))
  }

  function ReloginAnswered(c: Conn, t: nat, pc: Pc, reply: AuthReply): (Conn, Pc)
    requires pc.Relogging?
  {
    var c1 := Logged(c, t, pc.tenant, LoginCall(pc.username, pc.password), reply);
    if reply.Granted? then
      var c2 := if IsTransient(pc.failed) then HandedOff(c1) else Dropped(c1, pc.failed, pc.r.at);
      (Replaced(c2, reply.tokens), Done(GotToken(reply.tokens.access)))
    else if pc.attempt < MAX_RETRIES then (c1, Pausing(pc.r, pc.failed, pc.attempt + 1, pc.username, pc.password))
    else (c1, Done(NoToken))
  }

  function LoginBegun(c: Conn, pc: Pc, now: Time): (Conn, Pc)
    requires pc.LoginStart?
  {
    var s := if pc.locationCode != "" then c.session.(locationCode := pc.locationCode) else c.session;
    if ShortCircuits(s, pc.username, pc.password, now) then (c.(session := s, settled := true), Done(LoginAccepted))
    else (c.(session := s), LoginWaiting(pc.username, pc.password, TenantOf(c)))
  }

  function LoginAnswered(c: Conn, t: nat, pc: Pc, reply: AuthReply): (Conn, Pc)
    requires pc.LoggingIn?
  {
    var c1 := Logged(c, t, pc.tenant, LoginCall(pc.username, pc.password), reply);
    if reply.Granted? then
      var c2 := Replaced(HandedOff(c1), reply.tokens);
      var s := Authenticated(c2.session, pc.username, "", "", reply.tokens.access, reply.tokens.accessExpiresAt);
      (c2.(session := s.(password := pc.password), settled := true), Done(LoginAccepted))
    else if FromOtherTenant(c1.session) then
      var c2 := Emptied(c1);
      (c2.(session := Cleared(c2.session), settled := true), Done(LoginRefused))
    else (c1.(settled := true), Done(LoginRefused))
  }

  function Move(c: Conn, t: nat, pc: Pc, now: Time, reply: AuthReply, cancelled: bool): (Conn, Pc) {
    match pc
    case Reading => (c, Checking(c.session.pair.access))
    case Checking(token) =>
      (c, if token == "" then Done(NoToken) else if !Expired(c.session, now) then Done(GotToken(token)) else Waiting)
    case Waiting => (c, Holding)
    case Holding => (c, Recheck(c, now))
    case Refreshing(_, _, _) => RefreshAnswered(c, t, pc, reply)
    case Choosing(_, _) => (c, LoginAgain(c, pc))
    case Relogging(_, _, _, _, _, _) => ReloginAnswered(c, t, pc, reply)
    case Pausing(r, failed, attempt, username, password) =>
      (c, if cancelled then Done(NoToken) else Relogging(r, failed, attempt, username, password, TenantOf(c)))
    case LoginStart(_, _, _) => LoginBegun(c, pc, now)
    case LoginWaiting(username, password, tenant) => (c, LoggingIn(username, password, tenant))
    case LoggingIn(_, _, _) => LoginAnswered(c, t, pc, reply)
    case Done(_) => (c, pc)
  }

  // ---------------------------------------------------------------------------------------
  // The connection with its threads.

  datatype World = World(conn: Conn, lock: Option<nat>, threads: map<nat, Pc>, now: Time)

  datatype Credentials = Credentials(username: string, password: string, locationCode: string)

  datatype Step =
    | Tick(to: Time)
    | CallForToken(t: nat)
      // A 93: the tenant it resolves to, and its credentials unless CN or CO is missing.
    | Login93(t: nat, resolved: Option<Tenant>, credentials: Option<Credentials>)
    | Run(t: nat, reply: AuthReply, cancelled: bool)
      // A 23 that reached FOLIO, and a 35.
    | PatronStatus23(identifier: string, patronID: string, barcode: string)
    | EndPatron35
    | Close

  predicate Idle(w: World) {
    forall t :: t in w.threads ==> w.threads[t].Done?
  }

  predicate Enabled(w: World, step: Step) {
    match step
    case Tick(to) => w.now <= to
    case CallForToken(t) => !w.conn.closed && t !in w.threads
    case Login93(t, _, credentials) =>
      && !w.conn.closed && t !in w.threads && Idle(w)
      && (credentials.Some? ==> credentials.value.username != "" && credentials.value.password != "")
    case Run(t, reply, _) =>
      && t in w.threads && !w.threads[t].Done? && UsableReply(reply)
      && (w.threads[t].Waiting? || w.threads[t].LoginWaiting? ==> w.lock == None)
    case PatronStatus23(_, _, _) => !w.conn.closed && Idle(w)
    case EndPatron35 => !w.conn.closed && Idle(w)
    case Close => !w.conn.closed && Idle(w)
  }

  function Retenanted(c: Conn, resolved: Option<Tenant>): Conn {
    if MovesTo(c.session, resolved) then
      c.(session := c.session.(tenant := resolved), settled := false)
    else c
  }

  /** The write at the end of a 23: the token and its end are put back as they were read. */
  function Rewritten(s: SessionState, identifier: string, patronID: string, barcode: string): SessionState {
    Authenticated(s, if s.username == "" then identifier else s.username, patronID, barcode, s.pair.access,
                  s.pair.accessExpiresAt)
  }

  function Moved(w: World, t: nat, reply: AuthReply, cancelled: bool): World
    requires t in w.threads
  {
    var (c, pc) := Move(w.conn, t, w.threads[t], w.now, reply, cancelled);
    World(c, if Locked(pc) then Some(t) else if Locked(w.threads[t]) then None else w.lock, w.threads[t := pc], w.now)
  }

  function After(w: World, step: Step): World
    requires Enabled(w, step)
  {
    match step
    case Tick(to) => w.(now := to)
    case CallForToken(t) => w.(threads := w.threads[t := Reading])
    case Login93(t, resolved, credentials) =>
      var c := Retenanted(w.conn, resolved);
      (match credentials
       case None => w.(conn := c)
       case Some(k) => w.(conn := c, threads := w.threads[t := LoginStart(k.username, k.password, k.locationCode)]))
    case Run(t, reply, cancelled) => Moved(w, t, reply, cancelled)
    case PatronStatus23(identifier, patronID, barcode) =>
      w.(conn := w.conn.(session := Rewritten(w.conn.session, identifier, patronID, barcode)))
    case EndPatron35 => w.(conn := w.conn.(session := PatronCleared(w.conn.session)))
    case Close => w.(conn := Emptied(w.conn).(closed := true))
  }

  function Start(tenant: Tenant): World {
    World(Conn(Initial(Some(tenant)), 0, None, [], [], [], true, false), None, map[], 0)
  }

  predicate Legal(w: World, steps: seq<Step>)
    decreases |steps|
  {
    steps == [] || (Enabled(w, steps[0]) && Legal(After(w, steps[0]), steps[1..]))
  }

  function Exec(w: World, steps: seq<Step>): World
    requires Legal(w, steps)
    decreases |steps|
  {
    if steps == [] then w else Exec(After(w, steps[0]), steps[1..])
  }

  // ---------------------------------------------------------------------------------------
  // Invariants.

  /** The pair is the one a single exchange delivered, recorded with the gateway that answered. */
  predicate Delivered(trace: seq<Exchange>, pair: Pair, o: Origin) {
    && o.exchange < |trace| && trace[o.exchange].reply.Granted? && trace[o.exchange].keycloak == Some(o.keycloak)
    && (var t := trace[o.exchange].reply.tokens;
        pair == Logout.TokenPair(t.access, t.accessExpiresAt, t.refresh, t.refreshExpiresAt,
                                 trace[o.exchange].okapiURL, trace[o.exchange].okapiTenant))
    && Usable(trace[o.exchange].reply.tokens)
  }

  /** Both tokens stored come from one answer of one gateway, or nothing is stored. */
  predicate Coherent(c: Conn) {
    match c.held
    case None => c.session.pair == Logout.EMPTY_PAIR
    case Some(o) => Delivered(c.trace, c.session.pair, o)
  }

  predicate JobOk(trace: seq<Exchange>, j: Job) {
    j.origin.Some? && Delivered(trace, j.pair, j.origin.value)
  }

  predicate RefreshablePair(p: Pair, at: Time) {
    p.refresh != "" && p.refreshExpiresAt != 0 && at + TOKEN_EXPIRY_BUFFER < p.refreshExpiresAt
  }

  /** Given up only after a 4xx to the refresh, or when there was no usable refresh token. */
  predicate GivenUpOk(trace: seq<Exchange>, g: GivenUp) {
    && g.origin.Some? && Delivered(trace, g.pair, g.origin.value)
    && (match g.refused
        case None => !RefreshablePair(g.pair, g.at)
        case Some(r) => IsClientError(r))
  }

  function JobIds(jobs: seq<Job>): multiset<nat> {
    if jobs == [] then multiset{}
    else JobIds(jobs[..|jobs| - 1]) + IdOf(jobs[|jobs| - 1].origin)
  }

  function GivenUpIds(gs: seq<GivenUp>): multiset<nat> {
    if gs == [] then multiset{}
    else GivenUpIds(gs[..|gs| - 1]) + IdOf(gs[|gs| - 1].origin)
  }

  function IdOf(o: Option<Origin>): multiset<nat> {
    if o.Some? then multiset{o.value.keycloak} else multiset{}
  }

  /** Where each opened Keycloak session is. */
  function Places(c: Conn): multiset<nat> {
    IdOf(c.held) + JobIds(c.jobs) + GivenUpIds(c.givenUp)
  }

  /** Every session opened is in exactly one place, and nothing else is anywhere. */
  ghost predicate Conserved(c: Conn) {
    forall id: nat :: Places(c)[id] == if id < c.begun then 1 else 0
  }

  ghost predicate Books(c: Conn) {
    && c.session.tenant.Some?
    && Coherent(c)
    && (forall j :: j in c.jobs ==> JobOk(c.trace, j))
    && (forall g :: g in c.givenUp ==> GivenUpOk(c.trace, g))
    && Conserved(c)
    && (c.settled ==> !FromOtherTenant(c.session))
    && (c.closed ==> c.held == None)
  }

  /** What thread t has sent since it got the lock: at most one refresh, refused, then n refused logins. */
  predicate Tail(trace: seq<Exchange>, t: nat, mark: nat, failed: Option<AuthReply>, n: nat) {
    var logins := mark + (if failed.Some? then 1 else 0);
    && logins + n == |trace|
    && (failed.Some? ==> trace[mark].call.RefreshCall? && trace[mark].reply == failed.value && trace[mark].thread == t
                         && !failed.value.Granted?)
    && (forall i :: logins <= i < |trace| ==> trace[i].call.LoginCall? && !trace[i].reply.Granted? && trace[i].thread == t)
  }

  /** A renewal in progress: the pair is still the one it found, and it has sent only its own share. */
  predicate Renewing(c: Conn, t: nat, r: Renewal, failed: Option<AuthReply>, n: nat) {
    c.session.pair == r.before && Tail(c.trace, t, r.mark, failed, n)
    && (failed == None ==> !RefreshablePair(r.before, r.at))
  }

  predicate ThreadOk(c: Conn, t: nat, pc: Pc) {
    match pc
    case Refreshing(r, token, tenant) =>
      && Some(tenant) == c.session.tenant && c.session.pair == r.before && token == r.before.refresh
      && r.mark == |c.trace| && RefreshablePair(r.before, r.at)
    case Choosing(r, failed) => Renewing(c, t, r, failed, 0)
    case Relogging(r, failed, k, _, _, tenant) =>
      Some(tenant) == c.session.tenant && 1 <= k <= MAX_RETRIES && Renewing(c, t, r, failed, k - 1)
    case Pausing(r, failed, k, _, _) => 1 < k <= MAX_RETRIES && Renewing(c, t, r, failed, k - 1)
    case LoginWaiting(_, _, tenant) => Some(tenant) == c.session.tenant
    case LoggingIn(_, _, tenant) => Some(tenant) == c.session.tenant
    case _ => true
  }

  ghost predicate Inv(w: World) {
    && Books(w.conn)
    && (forall t :: t in w.threads ==> ThreadOk(w.conn, t, w.threads[t]))
    && (forall t :: t in w.threads ==> (Locked(w.threads[t]) <==> w.lock == Some(t)))
    && (w.lock.Some? ==> w.lock.value in w.threads)
    && (w.conn.closed ==> Idle(w))
  }

  // ---------------------------------------------------------------------------------------
  // Effects keep the books.

  lemma DeliveredLater(trace: seq<Exchange>, x: Exchange, pair: Pair, o: Origin)
    requires Delivered(trace, pair, o)
    ensures Delivered(trace + [x], pair, o)
  {
  }

  lemma LoggedKeeps(c: Conn, t: nat, tenant: Tenant, call: Call, reply: AuthReply)
    requires Books(c)
    ensures Books(Logged(c, t, tenant, call, reply))
  {
    var c1 := Logged(c, t, tenant, call, reply);
    var x := c1.trace[|c.trace|];
    assert c1.trace == c.trace + [x];
    if c.held.Some? { DeliveredLater(c.trace, x, c.session.pair, c.held.value); }
    forall j | j in c.jobs ensures JobOk(c1.trace, j) { DeliveredLater(c.trace, x, j.pair, j.origin.value); }
    forall g | g in c.givenUp ensures GivenUpOk(c1.trace, g) { DeliveredLater(c.trace, x, g.pair, g.origin.value); }
    assert Places(c1) == Places(c);
  }

  /** A job or a dropped pair in hand: the session is recorded there instead of as held. */
  ghost predicate Loose(c: Conn) {
    && c.session.tenant.Some?
    && (forall j :: j in c.jobs ==> JobOk(c.trace, j))
    && (forall g :: g in c.givenUp ==> GivenUpOk(c.trace, g))
    && (forall id: nat :: (JobIds(c.jobs) + GivenUpIds(c.givenUp))[id] == if id < c.begun then 1 else 0)
    && !c.closed
  }

  lemma HandedOffLoose(c: Conn)
    requires Books(c) && !c.closed
    ensures Loose(HandedOff(c))
  {
    var c1 := HandedOff(c);
    if c.session.pair.refresh != "" {
      assert c1.jobs[..|c.jobs|] == c.jobs;
    }
    assert JobIds(c1.jobs) + GivenUpIds(c1.givenUp) == Places(c);
  }

  lemma DroppedLoose(c: Conn, failed: Option<AuthReply>, at: Time)
    requires Books(c) && !c.closed
    requires if failed.Some? then IsClientError(failed.value) else !RefreshablePair(c.session.pair, at)
    ensures Loose(Dropped(c, failed, at))
  {
    var c1 := Dropped(c, failed, at);
    if c.session.pair.refresh != "" {
      assert c1.givenUp[..|c.givenUp|] == c.givenUp;
    }
    assert JobIds(c1.jobs) + GivenUpIds(c1.givenUp) == Places(c);
  }

  lemma FreshSession(c: Conn, tokens: Tokens)
    requires Loose(c) && c.trace != []
    ensures Conserved(Replaced(c, tokens))
  {
    assert Places(Replaced(c, tokens)) == multiset{c.begun} + (JobIds(c.jobs) + GivenUpIds(c.givenUp));
  }

  lemma ReplacedKeeps(c: Conn, tokens: Tokens, tenant: Tenant)
    requires Loose(c) && Usable(tokens) && c.session.tenant == Some(tenant)
    requires c.trace != []
    requires var x := c.trace[|c.trace| - 1];
             x.reply == Granted(tokens) && x.keycloak == Some(c.begun)
             && x.okapiURL == tenant.okapiURL && x.okapiTenant == tenant.okapiTenant
    ensures Books(Replaced(c, tokens)) && !FromOtherTenant(Replaced(c, tokens).session)
  {
    FreshSession(c, tokens);
  }

  lemma RotatedKeeps(c: Conn, tokens: Tokens, tenant: Tenant)
    requires Books(c) && Usable(tokens) && c.session.tenant == Some(tenant) && c.held.Some? && c.trace != []
    requires var x := c.trace[|c.trace| - 1];
             x.reply == Granted(tokens) && x.keycloak == Some(c.held.value.keycloak)
             && x.okapiURL == tenant.okapiURL && x.okapiTenant == tenant.okapiTenant
    ensures Books(Rotated(c, tokens)) && !FromOtherTenant(Rotated(c, tokens).session)
  {
    var c1 := Rotated(c, tokens);
    assert Places(c1) == Places(c);
  }

  lemma EmptiedKeeps(c: Conn)
    requires Books(c) && !c.closed
    ensures Books(Emptied(c)) && Emptied(c).held == None && Emptied(c).session.pair == Logout.EMPTY_PAIR
  {
    HandedOffLoose(c);
    var c1 := Emptied(c);
    assert Places(c1) == JobIds(c1.jobs) + GivenUpIds(c1.givenUp);
  }

  lemma SameBooks(c: Conn, c1: Conn)
    requires Books(c) && c1 == c.(session := c1.session, settled := c1.settled)
    requires c1.session.pair == c.session.pair && c1.session.tenant.Some?
    requires c1.settled ==> !FromOtherTenant(c1.session)
    ensures Books(c1)
  {
    assert Places(c1) == Places(c);
  }

  // ---------------------------------------------------------------------------------------
  // Thread steps keep the books and the thread's own state.

  /** What every step of a thread owes: the books, its own facts, the tenant; outside the lock also pair and trace. */
  ghost predicate MoveOk(c: Conn, t: nat, pc: Pc, next: (Conn, Pc)) {
    && Books(next.0) && ThreadOk(next.0, t, next.1) && next.0.session.tenant == c.session.tenant && !next.0.closed
    && (!Locked(pc) ==> next.0.session.pair == c.session.pair && next.0.trace == c.trace)
  }

  lemma RefreshAnsweredKeeps(c: Conn, t: nat, pc: Pc, reply: AuthReply)
    requires Books(c) && !c.closed && pc.Refreshing? && ThreadOk(c, t, pc) && UsableReply(reply)
    ensures MoveOk(c, t, pc, RefreshAnswered(c, t, pc, reply))
  {
    var call := RefreshCall(pc.refreshToken);
    LoggedKeeps(c, t, pc.tenant, call, reply);
    if reply.Granted? {
      RotatedKeeps(Logged(c, t, pc.tenant, call, reply), reply.tokens, pc.tenant);
    }
  }

  lemma ReloginAnsweredKeeps(c: Conn, t: nat, pc: Pc, reply: AuthReply)
    requires Books(c) && !c.closed && pc.Relogging? && ThreadOk(c, t, pc) && UsableReply(reply)
    ensures MoveOk(c, t, pc, ReloginAnswered(c, t, pc, reply))
  {
    var call := LoginCall(pc.username, pc.password);
    var c1 := Logged(c, t, pc.tenant, call, reply);
    LoggedKeeps(c, t, pc.tenant, call, reply);
    if reply.Granted? {
      if IsTransient(pc.failed) {
        HandedOffLoose(c1);
        ReplacedKeeps(HandedOff(c1), reply.tokens, pc.tenant);
      } else {
        DroppedLoose(c1, pc.failed, pc.r.at);
        ReplacedKeeps(Dropped(c1, pc.failed, pc.r.at), reply.tokens, pc.tenant);
      }
    }
  }

  lemma LoginAnsweredKeeps(c: Conn, t: nat, pc: Pc, reply: AuthReply)
    requires Books(c) && !c.closed && pc.LoggingIn? && ThreadOk(c, t, pc) && UsableReply(reply)
    ensures MoveOk(c, t, pc, LoginAnswered(c, t, pc, reply))
  {
    var call := LoginCall(pc.username, pc.password);
    var c1 := Logged(c, t, pc.tenant, call, reply);
    LoggedKeeps(c, t, pc.tenant, call, reply);
    var c3 := LoginAnswered(c, t, pc, reply).0;
    if reply.Granted? {
      HandedOffLoose(c1);
      ReplacedKeeps(HandedOff(c1), reply.tokens, pc.tenant);
      SameBooks(Replaced(HandedOff(c1), reply.tokens), c3);
    } else if FromOtherTenant(c1.session) {
      EmptiedKeeps(c1);
      SameBooks(Emptied(c1), c3);
    } else {
      SameBooks(c1, c3);
    }
  }

  lemma LoginBegunKeeps(c: Conn, t: nat, pc: Pc, now: Time)
    requires Books(c) && !c.closed && pc.LoginStart?
    ensures MoveOk(c, t, pc, LoginBegun(c, pc, now))
  {
    SameBooks(c, LoginBegun(c, pc, now).0);
  }

  /** The steps that only read the connection. */
  lemma PrivateMove(c: Conn, t: nat, pc: Pc, now: Time, reply: AuthReply, cancelled: bool)
    requires Books(c) && !c.closed && ThreadOk(c, t, pc)
    requires !pc.Refreshing? && !pc.Relogging? && !pc.LoggingIn? && !pc.LoginStart?
    ensures Move(c, t, pc, now, reply, cancelled).0 == c && MoveOk(c, t, pc, Move(c, t, pc, now, reply, cancelled))
  {
  }

  lemma MoveKeeps(c: Conn, t: nat, pc: Pc, now: Time, reply: AuthReply, cancelled: bool)
    requires Books(c) && !c.closed && ThreadOk(c, t, pc) && UsableReply(reply)
    ensures MoveOk(c, t, pc, Move(c, t, pc, now, reply, cancelled))
  {
    match pc
    case Refreshing(_, _, _) => RefreshAnsweredKeeps(c, t, pc, reply);
    case Relogging(_, _, _, _, _, _) => ReloginAnsweredKeeps(c, t, pc, reply);
    case LoggingIn(_, _, _) => LoginAnsweredKeeps(c, t, pc, reply);
    case LoginStart(_, _, _) => LoginBegunKeeps(c, t, pc, now);
    case _ => PrivateMove(c, t, pc, now, reply, cancelled);
  }

  /** A thread's own facts speak of the tenant, and inside the lock also of the pair and the trace. */
  lemma ThreadFrame(c: Conn, c1: Conn, t: nat, pc: Pc)
    requires ThreadOk(c, t, pc) && c1.session.tenant == c.session.tenant
    requires Locked(pc) ==> c1.session.pair == c.session.pair && c1.trace == c.trace
    ensures ThreadOk(c1, t, pc)
  {
  }

  lemma RunKeeps(w: World, t: nat, reply: AuthReply, cancelled: bool)
    requires Inv(w) && Enabled(w, Run(t, reply, cancelled))
    ensures Inv(Moved(w, t, reply, cancelled))
  {
    var w1 := Moved(w, t, reply, cancelled);
    assert !w.conn.closed;
    MoveKeeps(w.conn, t, w.threads[t], w.now, reply, cancelled);
    forall u | u in w1.threads ensures ThreadOk(w1.conn, u, w1.threads[u]) {
      if u != t { ThreadFrame(w.conn, w1.conn, u, w.threads[u]); }
    }
    LockFollows(w, t, reply, cancelled);
  }

  lemma LockFollows(w: World, t: nat, reply: AuthReply, cancelled: bool)
    requires Inv(w) && Enabled(w, Run(t, reply, cancelled))
    ensures var w1 := Moved(w, t, reply, cancelled);
            && (forall u :: u in w1.threads ==> (Locked(w1.threads[u]) <==> w1.lock == Some(u)))
            && (w1.lock.Some? ==> w1.lock.value in w1.threads)
  {
  }

  /** A write to the session alone, while nobody is running. */
  lemma QuietWriteKeeps(w: World, c1: Conn)
    requires Inv(w) && Idle(w) && c1 == w.conn.(session := c1.session, settled := c1.settled)
    requires c1.session.pair == w.conn.session.pair && c1.session.tenant.Some?
    requires c1.settled ==> !FromOtherTenant(c1.session)
    ensures Inv(w.(conn := c1))
  {
    SameBooks(w.conn, c1);
  }

  lemma NewThreadKeeps(w: World, t: nat, pc: Pc)
    requires Inv(w) && t !in w.threads && !w.conn.closed && (pc.Reading? || pc.LoginStart?)
    ensures Inv(w.(threads := w.threads[t := pc]))
  {
  }

  lemma ClosedBooks(c: Conn)
    requires Books(c) && c.held == None
    ensures Books(c.(closed := true))
  {
    assert Places(c.(closed := true)) == Places(c);
  }

  lemma CloseKeeps(w: World)
    requires Inv(w) && Enabled(w, Close)
    ensures Inv(After(w, Close))
  {
    EmptiedKeeps(w.conn);
    ClosedBooks(Emptied(w.conn));
  }

  lemma StepKeeps(w: World, step: Step)
    requires Inv(w) && Enabled(w, step)
    ensures Inv(After(w, step))
  {
    match step
    case Run(t, reply, cancelled) => RunKeeps(w, t, reply, cancelled);
    case Tick(_) =>
    case CallForToken(t) => NewThreadKeeps(w, t, Reading);
    case Login93(t, resolved, credentials) =>
      var c := Retenanted(w.conn, resolved);
      QuietWriteKeeps(w, c);
      if credentials.Some? {
        var k := credentials.value;
        NewThreadKeeps(w.(conn := c), t, LoginStart(k.username, k.password, k.locationCode));
      }
    case PatronStatus23(_, _, _) => QuietWriteKeeps(w, After(w, step).conn);
    case EndPatron35 => QuietWriteKeeps(w, After(w, step).conn);
    case Close => CloseKeeps(w);
  }

  lemma {:induction false} RunsKeep(w: World, steps: seq<Step>)
    requires Inv(w) && Legal(w, steps)
    ensures Inv(Exec(w, steps))
    decreases |steps|
  {
    if steps != [] {
      StepKeeps(w, steps[0]);
      RunsKeep(After(w, steps[0]), steps[1..]);
    }
  }

  lemma StartHolds(tenant: Tenant)
    ensures Inv(Start(tenant))
  {
  }

  // ---------------------------------------------------------------------------------------
  // Conservation of Keycloak sessions.

  function SessionOf(o: Option<Origin>): Option<nat> {
    if o.Some? then Some(o.value.keycloak) else None
  }

  lemma {:induction false} JobCounted(jobs: seq<Job>, i: nat, j: nat, id: nat)
    requires i < j < |jobs| && SessionOf(jobs[i].origin) == Some(id)
    ensures JobIds(jobs)[id] >= if SessionOf(jobs[j].origin) == Some(id) then 2 else 1
  {
    var front := jobs[..|jobs| - 1];
    if j < |front| {
      JobCounted(front, i, j, id);
    } else {
      JobListed(front, i, id);
    }
  }

  lemma {:induction false} JobListed(jobs: seq<Job>, i: nat, id: nat)
    requires i < |jobs| && SessionOf(jobs[i].origin) == Some(id)
    ensures JobIds(jobs)[id] >= 1
  {
    if i < |jobs| - 1 {
      JobListed(jobs[..|jobs| - 1], i, id);
    }
  }

  lemma OneJobEach(c: Conn, i: nat, j: nat)
    requires Conserved(c) && i < j < |c.jobs| && c.jobs[i].origin.Some?
    ensures SessionOf(c.jobs[i].origin) != SessionOf(c.jobs[j].origin)
  {
    var id := c.jobs[i].origin.value.keycloak;
    JobCounted(c.jobs, i, j, id);
    assert Places(c)[id] <= 1;
  }

  lemma HeldHasNoJob(c: Conn, i: nat)
    requires Conserved(c) && i < |c.jobs| && c.jobs[i].origin.Some? && c.held.Some?
    ensures SessionOf(c.jobs[i].origin) != SessionOf(c.held)
  {
    var id := c.jobs[i].origin.value.keycloak;
    JobListed(c.jobs, i, id);
    assert Places(c)[id] <= 1;
  }

  /**
   Over every run, every Keycloak session ever opened is in exactly one place: held by the
   connection, with exactly one logout job, or given up. After close none is held and no
   token is left.
   */
  lemma SessionsConserved(tenant: Tenant, steps: seq<Step>)
    requires Legal(Start(tenant), steps)
    ensures var c := Exec(Start(tenant), steps).conn;
            && Conserved(c)
            && (forall i :: 0 <= i < |c.jobs| ==> c.jobs[i].origin.Some? && SessionOf(c.jobs[i].origin) != SessionOf(c.held))
            && (forall i, j :: 0 <= i < j < |c.jobs| ==> SessionOf(c.jobs[i].origin) != SessionOf(c.jobs[j].origin))
            && (c.closed ==> c.held == None && c.session.pair == Logout.EMPTY_PAIR)
  {
    StartHolds(tenant);
    RunsKeep(Start(tenant), steps);
    var c := Exec(Start(tenant), steps).conn;
    forall i | 0 <= i < |c.jobs|
      ensures c.jobs[i].origin.Some? && SessionOf(c.jobs[i].origin) != SessionOf(c.held)
    {
      assert JobOk(c.trace, c.jobs[i]);
      if c.held.Some? { HeldHasNoJob(c, i); }
    }
    forall i, j | 0 <= i < j < |c.jobs|
      ensures SessionOf(c.jobs[i].origin) != SessionOf(c.jobs[j].origin)
    {
      OneJobEach(c, i, j);
    }
  }

  /**
   Over every run, the stored tokens and those of every job were delivered together by one
   answer, and are recorded with the gateway and tenant that gave it; a session is given up
   without logout only after a 4xx to its refresh or when its refresh token was of no use.
   */
  lemma PairsCoherent(tenant: Tenant, steps: seq<Step>)
    requires Legal(Start(tenant), steps)
    ensures var c := Exec(Start(tenant), steps).conn;
            && Coherent(c)
            && (forall j :: j in c.jobs ==> JobOk(c.trace, j))
            && (forall g :: g in c.givenUp ==> GivenUpOk(c.trace, g))
  {
    StartHolds(tenant);
    RunsKeep(Start(tenant), steps);
  }

  // ---------------------------------------------------------------------------------------
  // Tenant changes.

  predicate IsLogin(pc: Pc) {
    pc.LoginStart? || pc.LoginWaiting? || pc.LoggingIn?
  }

  lemma {:induction false} SettledStays(w: World, steps: seq<Step>)
    requires Inv(w) && Legal(w, steps) && w.conn.settled
    requires forall s :: s in steps ==> !s.Login93?
    ensures Exec(w, steps).conn.settled
    decreases |steps|
  {
    if steps != [] {
      StepKeeps(w, steps[0]);
      assert !steps[0].Login93?;
      SettledStep(w, steps[0]);
      SettledStays(After(w, steps[0]), steps[1..]);
    }
  }

  lemma SettledStep(w: World, step: Step)
    requires Enabled(w, step) && w.conn.settled && !step.Login93?
    ensures After(w, step).conn.settled
  {
  }

  lemma LoginEndSettles(w: World, t: nat, reply: AuthReply, cancelled: bool)
    requires Enabled(w, Run(t, reply, cancelled)) && IsLogin(w.threads[t])
    requires After(w, Run(t, reply, cancelled)).threads[t].Done?
    ensures After(w, Run(t, reply, cancelled)).conn.settled
  {
  }

  /**
   From the moment a 93 that passed field validation is answered, whether short-circuited,
   accepted or refused, and until the next 93, no token of another tenant is stored, whatever
   renewals do meanwhile.
   */
  lemma NoForeignTokensAfterLogin(tenant: Tenant, steps: seq<Step>, t: nat, reply: AuthReply, cancelled: bool, more: seq<Step>)
    requires Legal(Start(tenant), steps)
    requires var w := Exec(Start(tenant), steps);
             && Enabled(w, Run(t, reply, cancelled)) && IsLogin(w.threads[t])
             && After(w, Run(t, reply, cancelled)).threads[t].Done?
             && Legal(After(w, Run(t, reply, cancelled)), more)
    requires forall s :: s in more ==> !s.Login93?
    ensures !FromOtherTenant(Exec(After(Exec(Start(tenant), steps), Run(t, reply, cancelled)), more).conn.session)
  {
    StartHolds(tenant);
    RunsKeep(Start(tenant), steps);
    var w := Exec(Start(tenant), steps);
    var w1 := After(w, Run(t, reply, cancelled));
    StepKeeps(w, Run(t, reply, cancelled));
    LoginEndSettles(w, t, reply, cancelled);
    SettledStays(w1, more);
    RunsKeep(w1, more);
  }

  /** The gateway and tenant a 93 leaves the session with. */
  function TenantAfter(c: Conn, resolved: Option<Tenant>): Tenant {
    if MovesTo(c.session, resolved) then resolved.value else TenantOf(c)
  }

  /** Whether the stored pair was granted by this gateway and tenant. */
  predicate GrantedBy(c: Conn, tenant: Tenant)
    requires Coherent(c) && c.held.Some?
  {
    var x := c.trace[c.held.value.exchange];
    x.okapiURL == tenant.okapiURL && x.okapiTenant == tenant.okapiTenant
  }

  /**
   The exception: a 93 without CN or CO is answered after the tenant may already have changed.
   In every reachable state, also after others of its kind, it leaves tokens of another tenant
   exactly when tokens are held that another gateway or tenant granted than the one it ends
   up with.
   */
  lemma IncompleteLoginExposesIff(w: World, t: nat, resolved: Option<Tenant>)
    requires Inv(w) && Enabled(w, Login93(t, resolved, None))
    ensures FromOtherTenant(After(w, Login93(t, resolved, None)).conn.session) <==>
              w.conn.held.Some? && !GrantedBy(w.conn, TenantAfter(w.conn, resolved))
  {
  }

  /**
   A refresh presents its token to the gateway and tenant that granted it exactly when the
   stored pair is of the present tenant; after a tenant change the old tenant's refresh token
   goes to the new gateway.
   */
  lemma RefreshGoesHomeIff(w: World, t: nat, reply: AuthReply, cancelled: bool)
    requires Inv(w) && Enabled(w, Run(t, reply, cancelled)) && w.threads[t].Refreshing?
    ensures w.conn.held.Some?
    ensures var trace := Moved(w, t, reply, cancelled).conn.trace;
            && |trace| == |w.conn.trace| + 1
            && (var x := trace[|w.conn.trace|];
                && x.call == RefreshCall(w.conn.session.pair.refresh)
                && (GrantedBy(w.conn, Tenant("", x.okapiURL, x.okapiTenant)) <==> !FromOtherTenant(w.conn.session)))
  {
  }

  // ---------------------------------------------------------------------------------------
  // Renewal under interleaving.

  /** Renewals and 93 logins never overlap: at most one thread is between lock and unlock. */
  lemma RenewalsNeverOverlap(tenant: Tenant, steps: seq<Step>, t: nat, u: nat)
    requires Legal(Start(tenant), steps)
    requires var w := Exec(Start(tenant), steps);
             t in w.threads && u in w.threads && Locked(w.threads[t]) && Locked(w.threads[u])
    ensures t == u
  {
    StartHolds(tenant);
    RunsKeep(Start(tenant), steps);
  }

  /** On the way to the stored token, or already there. */
  predicate Bound(pc: Pc, access: string) {
    pc.Reading? || pc.Waiting? || pc.Holding? || pc == Checking(access) || pc == Done(GotToken(access))
  }

  predicate OnlyCallers(w: World) {
    forall t :: t in w.threads ==> var pc := w.threads[t]; pc.Reading? || pc.Checking? || pc.Waiting? || pc.Holding? || pc.Done?
  }

  lemma {:induction false} TimeGrows(w: World, steps: seq<Step>)
    requires Legal(w, steps)
    ensures w.now <= Exec(w, steps).now
    decreases |steps|
  {
    if steps != [] {
      assert w.now <= After(w, steps[0]).now;
      TimeGrows(After(w, steps[0]), steps[1..]);
    }
  }

  lemma QuietStep(w: World, step: Step)
    requires Enabled(w, step) && OnlyCallers(w) && !step.Login93? && !step.Close?
    requires !Expired(w.conn.session, w.now) && w.conn.session.pair.access != ""
    ensures var w1 := After(w, step);
            && w1.conn.trace == w.conn.trace && w1.conn.session.pair == w.conn.session.pair && OnlyCallers(w1)
            && (forall u :: u in w1.threads && (u in w.threads ==> Bound(w.threads[u], w.conn.session.pair.access))
                            ==> Bound(w1.threads[u], w.conn.session.pair.access))
  {
  }

  /**
   While the stored token outlives the buffer, nobody renews: with only token callers about,
   from any point at which no request is in flight and until 90 seconds before the token's
   end, no request is made, and every caller that had not yet read an older token gets the
   stored one.
   */
  lemma {:induction false} QuietUntilExpiry(w: World, steps: seq<Step>)
    requires Inv(w) && OnlyCallers(w) && Legal(w, steps)
    requires forall s :: s in steps ==> !s.Login93? && !s.Close?
    requires w.conn.session.pair.accessExpiresAt != 0
    requires Exec(w, steps).now + TOKEN_EXPIRY_BUFFER <= w.conn.session.pair.accessExpiresAt
    ensures var w1 := Exec(w, steps);
            && w1.conn.trace == w.conn.trace && w1.conn.session.pair == w.conn.session.pair && OnlyCallers(w1)
            && (forall u :: u in w1.threads && (u in w.threads ==> Bound(w.threads[u], w.conn.session.pair.access))
                            ==> Bound(w1.threads[u], w.conn.session.pair.access))
    decreases |steps|
  {
    if steps != [] {
      TimeGrows(w, steps);
      assert !steps[0].Login93? && !steps[0].Close?;
      QuietStep(w, steps[0]);
      StepKeeps(w, steps[0]);
      QuietUntilExpiry(After(w, steps[0]), steps[1..]);
      assert forall u :: u in w.threads ==> u in After(w, steps[0]).threads;
    }
  }

  /** With the lock free and no 93 about, nobody has a request in flight. */
  lemma FreeLockOnlyCallers(w: World)
    requires Inv(w) && w.lock == None && (forall t :: t in w.threads ==> !IsLogin(w.threads[t]))
    ensures OnlyCallers(w)
  {
    forall t | t in w.threads
      ensures var pc := w.threads[t]; pc.Reading? || pc.Checking? || pc.Waiting? || pc.Holding? || pc.Done?
    {
      assert !Locked(w.threads[t]) && !IsLogin(w.threads[t]);
    }
  }

  /**
   A renewal spares all the others: from the step on which it obtains a token, and until 90
   seconds before that token's end, nobody else renews and every caller that had not already
   read an older token gets this one.
   */
  lemma OneRenewalServesAll(w: World, t: nat, reply: AuthReply, cancelled: bool, token: string, steps: seq<Step>)
    requires Inv(w) && (forall u :: u in w.threads ==> !IsLogin(w.threads[u]))
    requires Enabled(w, Run(t, reply, cancelled)) && Locked(w.threads[t])
    requires var w1 := Moved(w, t, reply, cancelled);
             && w1.threads[t] == Done(GotToken(token)) && Legal(w1, steps)
             && Exec(w1, steps).now + TOKEN_EXPIRY_BUFFER <= w1.conn.session.pair.accessExpiresAt
    requires forall s :: s in steps ==> !s.Login93? && !s.Close?
    ensures var w1 := Moved(w, t, reply, cancelled);
            var w2 := Exec(w1, steps);
            && w2.conn.trace == w1.conn.trace && w2.conn.session.pair.access == token
            && forall u :: u in w2.threads && (u in w1.threads ==> Bound(w1.threads[u], token)) ==> Bound(w2.threads[u], token)
  {
    var w1 := Moved(w, t, reply, cancelled);
    RunKeeps(w, t, reply, cancelled);
    RenewedTokenIsStored(w, t, reply, cancelled);
    assert w1.lock == None;
    FreeLockOnlyCallers(w1);
    QuietUntilExpiry(w1, steps);
  }

  // With 93s about as well.

  predicate NoRenewal(w: World) {
    forall t :: t in w.threads ==> !InRenewal(w.threads[t])
  }

  /** The stored token outlives the buffer before every step. */
  predicate FreshThroughout(w: World, steps: seq<Step>)
    requires Legal(w, steps)
    decreases |steps|
  {
    !Expired(w.conn.session, w.now) && (steps == [] || FreshThroughout(After(w, steps[0]), steps[1..]))
  }

  predicate LoginsOnly(own: seq<Exchange>) {
    forall x :: x in own ==> x.call.LoginCall?
  }

  lemma NoRenewalMove(c: Conn, t: nat, pc: Pc, now: Time, reply: AuthReply, cancelled: bool)
    requires !InRenewal(pc) && !Expired(c.session, now)
    ensures var (c1, pc1) := Move(c, t, pc, now, reply, cancelled);
            && !InRenewal(pc1)
            && (c1.trace == c.trace
                || (|c1.trace| == |c.trace| + 1 && c.trace <= c1.trace && c1.trace[|c.trace|].call.LoginCall?))
  {
  }

  lemma NoRenewalStep(w: World, step: Step)
    requires Enabled(w, step) && NoRenewal(w) && !Expired(w.conn.session, w.now)
    ensures NoRenewal(After(w, step)) && w.conn.trace <= After(w, step).conn.trace
    ensures LoginsOnly(After(w, step).conn.trace[|w.conn.trace|..])
  {
    match step
    case Run(t, reply, cancelled) => NoRenewalMove(w.conn, t, w.threads[t], w.now, reply, cancelled);
    case _ => assert After(w, step).conn.trace == w.conn.trace;
  }

  /**
   Whatever 93s come, are pending or in flight: as long as the stored token outlives the
   buffer no renewal starts, no refresh is sent, and the only requests are those of 93s.
   */
  lemma {:induction false} OnlyLoginsAskFolio(w: World, steps: seq<Step>)
    requires NoRenewal(w) && Legal(w, steps) && FreshThroughout(w, steps)
    ensures var w1 := Exec(w, steps);
            NoRenewal(w1) && w.conn.trace <= w1.conn.trace && LoginsOnly(w1.conn.trace[|w.conn.trace|..])
    decreases |steps|
  {
    if steps != [] {
      var w1 := After(w, steps[0]);
      NoRenewalStep(w, steps[0]);
      OnlyLoginsAskFolio(w1, steps[1..]);
      LoginsJoin(w.conn.trace, w1.conn.trace, Exec(w, steps).conn.trace);
    }
  }

  lemma LoginsJoin(a: seq<Exchange>, b: seq<Exchange>, c: seq<Exchange>)
    requires a <= b <= c && LoginsOnly(b[|a|..]) && LoginsOnly(c[|b|..])
    ensures a <= c && LoginsOnly(c[|a|..])
  {
    assert c[|a|..] == b[|a|..] + c[|b|..];
  }

  // ---------------------------------------------------------------------------------------
  // A renewal that fails.

  predicate InRenewal(pc: Pc) {
    pc.Refreshing? || pc.Choosing? || pc.Relogging? || pc.Pausing?
  }

  /** A thread that got the lock over this pair and this trace is still renewing it, and nothing else has happened. */
  predicate Busy(w: World, t: nat, pair: Pair, mark: nat) {
    t in w.threads &&
    (var pc := w.threads[t];
     && w.conn.session.pair == pair
     && (pc.Holding? ==> |w.conn.trace| == mark)
     && (pc.Holding? || (InRenewal(pc) && pc.r.before == pair && pc.r.mark == mark)))
  }

  lemma OthersLeaveAlone(w: World, u: nat, reply: AuthReply, cancelled: bool)
    requires Inv(w) && Enabled(w, Run(u, reply, cancelled)) && !Locked(w.threads[u])
    ensures var c1 := Moved(w, u, reply, cancelled).conn;
            c1.session.pair == w.conn.session.pair && c1.trace == w.conn.trace
  {
  }

  lemma OwnStep(w: World, t: nat, reply: AuthReply, cancelled: bool, pair: Pair, mark: nat)
    requires Busy(w, t, pair, mark) && Enabled(w, Run(t, reply, cancelled))
    ensures var w1 := Moved(w, t, reply, cancelled);
            (Busy(w1, t, pair, mark) || w1.threads[t].Done?) && w.conn.trace <= w1.conn.trace
  {
  }

  /** One step of anybody: the renewal goes on undisturbed, or its own thread has ended it. */
  lemma BusyStep(w: World, step: Step, t: nat, pair: Pair, mark: nat)
    requires Inv(w) && Busy(w, t, pair, mark) && Enabled(w, step)
    ensures var w1 := After(w, step);
            && (Busy(w1, t, pair, mark) || (step.Run? && step.t == t && w1.threads[t].Done?))
            && w.conn.trace <= w1.conn.trace
  {
    assert !Idle(w) by { assert !w.threads[t].Done?; }
    match step
    case Run(u, reply, cancelled) =>
      if u != t {
        OthersLeaveAlone(w, u, reply, cancelled);
      } else {
        OwnStep(w, t, reply, cancelled, pair, mark);
      }
    case _ =>
  }

  /** At most one refresh followed by at most three logins, all refused and all sent by t. */
  predicate FailedShare(own: seq<Exchange>, t: nat) {
    var refreshes := if own != [] && own[0].call.RefreshCall? then 1 else 0;
    && |own| <= refreshes + MAX_RETRIES
    && forall i :: 0 <= i < |own| ==> own[i].thread == t && !own[i].reply.Granted?
                                      && (own[i].call.RefreshCall? <==> i < refreshes)
  }

  lemma TailIsShare(c: Conn, t: nat, r: Renewal, failed: Option<AuthReply>, n: nat)
    requires Tail(c.trace, t, r.mark, failed, n) && n <= MAX_RETRIES
    ensures FailedShare(c.trace[r.mark..], t)
  {
  }

  lemma LastStepFails(w: World, t: nat, reply: AuthReply, cancelled: bool, pair: Pair, mark: nat)
    requires Inv(w) && Busy(w, t, pair, mark) && Enabled(w, Run(t, reply, cancelled))
    requires Moved(w, t, reply, cancelled).threads[t] == Done(NoToken)
    ensures var c1 := Moved(w, t, reply, cancelled).conn;
            c1.session.pair == pair && mark <= |c1.trace| && FailedShare(c1.trace[mark..], t)
  {
    var pc := w.threads[t];
    var c1 := Moved(w, t, reply, cancelled).conn;
    match pc
    case Choosing(r, failed) => TailIsShare(c1, t, r, failed, 0);
    case Relogging(r, failed, k, _, _, _) => TailIsShare(c1, t, r, failed, k);
    case Pausing(r, failed, k, _, _) => TailIsShare(c1, t, r, failed, k - 1);
  }

  lemma {:induction false} DoneStays(w: World, steps: seq<Step>, t: nat)
    requires Legal(w, steps) && t in w.threads && w.threads[t].Done?
    ensures t in Exec(w, steps).threads && Exec(w, steps).threads[t].Done?
    decreases |steps|
  {
    if steps != [] {
      DoneStays(After(w, steps[0]), steps[1..], t);
    }
  }

  lemma {:induction false} BusyUntilDone(w: World, steps: seq<Step>, t: nat, pair: Pair, mark: nat)
    requires Inv(w) && Busy(w, t, pair, mark) && Legal(w, steps)
    requires t in Exec(w, steps).threads && !Exec(w, steps).threads[t].Done?
    ensures Inv(Exec(w, steps)) && Busy(Exec(w, steps), t, pair, mark)
    decreases |steps|
  {
    if steps != [] {
      var w1 := After(w, steps[0]);
      BusyStep(w, steps[0], t, pair, mark);
      StepKeeps(w, steps[0]);
      if !Busy(w1, t, pair, mark) {
        DoneStays(w1, steps[1..], t);
      } else {
        BusyUntilDone(w1, steps[1..], t, pair, mark);
      }
    }
  }

  /**
   A renewal that fails, however the others interleave: from the moment its thread has the
   lock to the moment it reports that there is no token, the stored pair is unchanged, nobody
   else has sent anything, and it has sent at most one refresh and then at most three logins.
   */
  lemma FailedRenewal(tenant: Tenant, before: seq<Step>, t: nat, steps: seq<Step>, reply: AuthReply, cancelled: bool)
    requires Legal(Start(tenant), before)
    requires var w := Exec(Start(tenant), before);
             && t in w.threads && w.threads[t].Holding? && Legal(w, steps)
             && Enabled(Exec(w, steps), Run(t, reply, cancelled))
             && After(Exec(w, steps), Run(t, reply, cancelled)).threads[t] == Done(NoToken)
    ensures var w := Exec(Start(tenant), before);
            var c := After(Exec(w, steps), Run(t, reply, cancelled)).conn;
            && c.session.pair == w.conn.session.pair
            && |w.conn.trace| <= |c.trace| && FailedShare(c.trace[|w.conn.trace|..], t)
  {
    StartHolds(tenant);
    RunsKeep(Start(tenant), before);
    var w := Exec(Start(tenant), before);
    BusyUntilDone(w, steps, t, w.conn.session.pair, |w.conn.trace|);
    LastStepFails(Exec(w, steps), t, reply, cancelled, w.conn.session.pair, |w.conn.trace|);
  }

  /** A caller that ends a renewal with a token has the one that is stored. */
  lemma RenewedTokenIsStored(w: World, t: nat, reply: AuthReply, cancelled: bool)
    requires Inv(w) && Enabled(w, Run(t, reply, cancelled)) && Locked(w.threads[t])
    ensures var w1 := Moved(w, t, reply, cancelled);
            match w1.threads[t]
            case Done(GotToken(token)) => token == w1.conn.session.pair.access && token != "" && w1.conn.held.Some?
            case _ => true
  {
  }

  /**
   A 23 reads token and end, and later writes them back without the renewal lock. Should the
   pair have changed in between, that would leave the access token of one answer next to the
   refresh token of another: the pair stays coherent exactly when what is written back is
   what is stored. Handling the messages of a connection one by one is what rules it out.
   */
  lemma WriteBackCoherentIff(c: Conn, username: string, patronID: string, barcode: string, token: string, expiresAt: Time)
    requires Coherent(c)
    ensures var s := Authenticated(c.session, username, patronID, barcode, token, expiresAt);
            Coherent(c.(session := s)) <==> token == c.session.pair.access && expiresAt == c.session.pair.accessExpiresAt
  {
  }

  // ---------------------------------------------------------------------------------------
  // Short-circuited logins.

  /** FOLIO has accepted these credentials on this connection. */
  predicate Accepted(trace: seq<Exchange>, username: string, password: string) {
    exists i :: 0 <= i < |trace| && trace[i].call == LoginCall(username, password) && trace[i].reply.Granted?
  }

  /** Stored credentials have been accepted. */
  predicate EarnedStore(c: Conn) {
    c.session.password != "" ==> c.session.username != "" && Accepted(c.trace, c.session.username, c.session.password)
  }

  predicate Named(pc: Pc) {
    IsLogin(pc) ==> pc.username != ""
  }

  predicate Earned(w: World) {
    EarnedStore(w.conn) && forall t :: t in w.threads ==> Named(w.threads[t])
  }

  lemma AcceptedLater(c: Conn, t: nat, tenant: Tenant, call: Call, reply: AuthReply)
    requires c.session.password != "" ==> Accepted(c.trace, c.session.username, c.session.password)
    ensures var c1 := Logged(c, t, tenant, call, reply);
            && (c.session.password != "" ==> Accepted(c1.trace, c.session.username, c.session.password))
            && (reply.Granted? && call.LoginCall? ==> Accepted(c1.trace, call.username, call.password))
  {
    var c1 := Logged(c, t, tenant, call, reply);
    assert c1.trace[|c.trace|].call == call && c1.trace[|c.trace|].reply == reply;
    if c.session.password != "" {
      var i :| 0 <= i < |c.trace| && c.trace[i].call == LoginCall(c.session.username, c.session.password) && c.trace[i].reply.Granted?;
      assert c1.trace[i] == c.trace[i];
    }
  }

  lemma EarnedRefresh(c: Conn, t: nat, pc: Pc, reply: AuthReply)
    requires EarnedStore(c) && pc.Refreshing?
    ensures EarnedStore(RefreshAnswered(c, t, pc, reply).0)
  {
    AcceptedLater(c, t, pc.tenant, RefreshCall(pc.refreshToken), reply);
  }

  lemma EarnedRelogin(c: Conn, t: nat, pc: Pc, reply: AuthReply)
    requires EarnedStore(c) && pc.Relogging?
    ensures EarnedStore(ReloginAnswered(c, t, pc, reply).0)
  {
    AcceptedLater(c, t, pc.tenant, LoginCall(pc.username, pc.password), reply);
  }

  lemma EarnedLogin(c: Conn, t: nat, pc: Pc, reply: AuthReply)
    requires EarnedStore(c) && pc.LoggingIn? && pc.username != ""
    ensures EarnedStore(LoginAnswered(c, t, pc, reply).0)
  {
    AcceptedLater(c, t, pc.tenant, LoginCall(pc.username, pc.password), reply);
  }

  lemma EarnedMove(c: Conn, t: nat, pc: Pc, now: Time, reply: AuthReply, cancelled: bool)
    requires EarnedStore(c) && Named(pc)
    ensures var (c1, pc1) := Move(c, t, pc, now, reply, cancelled); EarnedStore(c1) && Named(pc1)
  {
    match pc
    case Refreshing(_, _, _) => EarnedRefresh(c, t, pc, reply);
    case Relogging(_, _, _, _, _, _) => EarnedRelogin(c, t, pc, reply);
    case LoggingIn(_, _, _) => EarnedLogin(c, t, pc, reply);
    case _ =>
  }

  lemma EarnedStep(w: World, step: Step)
    requires Earned(w) && Enabled(w, step)
    ensures Earned(After(w, step))
  {
    match step
    case Run(t, reply, cancelled) => EarnedMove(w.conn, t, w.threads[t], w.now, reply, cancelled);
    case _ =>
  }

  lemma {:induction false} EarnedRuns(w: World, steps: seq<Step>)
    requires Earned(w) && Legal(w, steps)
    ensures Earned(Exec(w, steps))
    decreases |steps|
  {
    if steps != [] {
      EarnedStep(w, steps[0]);
      EarnedRuns(After(w, steps[0]), steps[1..]);
    }
  }

  /**
   Over every run, a 93 is answered without asking FOLIO only for a user name and password
   that FOLIO itself accepted earlier on this connection, with a stored pair of the present
   tenant that outlives the buffer.
   */
  lemma ShortCircuitEarned(tenant: Tenant, steps: seq<Step>, t: nat, reply: AuthReply, cancelled: bool)
    requires Legal(Start(tenant), steps)
    requires var w := Exec(Start(tenant), steps);
             && Enabled(w, Run(t, reply, cancelled)) && w.threads[t].LoginStart?
             && After(w, Run(t, reply, cancelled)).threads[t] == Done(LoginAccepted)
    ensures var w := Exec(Start(tenant), steps);
            && Accepted(w.conn.trace, w.threads[t].username, w.threads[t].password)
            && w.conn.held.Some? && !FromOtherTenant(w.conn.session) && !Expired(w.conn.session, w.now)
  {
    StartHolds(tenant);
    RunsKeep(Start(tenant), steps);
    EarnedRuns(Start(tenant), steps);
  }
}
