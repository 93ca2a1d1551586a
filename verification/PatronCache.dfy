/**
 The cached patron: checkout (11), renew (29), fee paid (37) and renew all (65) keep the FOLIO
 user ID of the last barcode in the session and look it up again only when the barcode differs
 (internal/handlers/checkout.go and the same lines in renew.go, renew_all.go and fee_paid.go);
 a patron status (23) stores the patron it found, an end of session (35) forgets it.
 */
module PatronCache {
  import opened Outcome
  import opened Auth
  import opened SessionModel
  import opened Lifecycle
  import opened Handlers

  datatype Person = Person(id: string, barcode: string)

  /** Whom a gateway and tenant know under a barcode. */
  type Directory = (string, string, string) -> Option<Person>

  /** A record found under one barcode is also the record found under the barcode it carries. */
  ghost predicate Consistent(dir: Directory) {
    forall url, tenant, barcode ::
      match dir(url, tenant, barcode)
      case Some(p) => dir(url, tenant, p.barcode).Some? && dir(url, tenant, p.barcode).value.id == p.id
      case None => true
  }

  function Known(dir: Directory, s: SessionState, barcode: string): Option<Person> {
    dir(TenantIn(s).okapiURL, TenantIn(s).okapiTenant, barcode)
  }

  // ---------------------------------------------------------------------------------------
  // One lookup.

  /** The user ID a request acts for, and the session with its cache; `found` is the answer of a lookup if one is made. */
  function Resolved(s: SessionState, barcode: string, found: Option<Person>): (SessionState, Option<string>) {
    if s.patronID != "" && s.patronBarcode == barcode then (s, Some(s.patronID))
    else
      match found
      case None => (s, None)
      case Some(p) => (s.(patronID := p.id, patronBarcode := barcode), Some(p.id))
  }

  method ResolvePatron(session: Session, barcode: string, found: Option<Person>) returns (userID: Option<string>)
    modifies session
    ensures (session.State(), userID) == Resolved(old(session.State()), barcode, found)
  {
    var patronID := session.patronID;
    if patronID != "" && session.patronBarcode != barcode { patronID := ""; }
    if patronID == "" {
      if found.None? { return None; }
      session.SetPatronBarcode(barcode);
      session.SetPatronID(found.value.id);
      return Some(found.value.id);
    }
    return Some(patronID);
  }

  // ---------------------------------------------------------------------------------------
  // Messages, one after another.

  /** getAuthenticatedFolioClient */
  function WithToken(s: SessionState, now: Time, env: Env): (SessionState, Option<string>)
    requires EnvOk(env)
  {
    if s.pair.access == "" then (s, None)
    else if !Expired(s, now) then (s, Some(s.pair.access))
    else
      var r := Renew(s, env);
      (r.state, r.token)
  }

  datatype Message =
      // A 93 resolved to a tenant; without CN or CO it ends there.
    | Login(resolved: Option<Tenant>, credentials: Option<Credentials>, now: Time, reply: AuthReply)
      // An 11, 29, 37 or 65 that passed its checks; `reached` tells whether a lookup gets through.
    | Circulation(barcode: string, now: Time, env: Env, reached: bool)
      // A 23; `completed` tells whether it got past inactive accounts and the password.
    | Status(barcode: string, now: Time, env: Env, reached: bool, completed: bool)
    | EndPatron

  predicate MessageOk(m: Message) {
    match m
    case Login(_, _, _, reply) => UsableReply(reply)
    case Circulation(_, _, env, _) => EnvOk(env) && UsableReply(env.refresh) && forall r :: r in env.logins ==> UsableReply(r)
    case Status(_, _, env, _, _) => EnvOk(env) && UsableReply(env.refresh) && forall r :: r in env.logins ==> UsableReply(r)
    case EndPatron => true
  }

  function Handled(s: SessionState, m: Message, dir: Directory): (SessionState, Option<string>)
    requires MessageOk(m)
  {
    match m
    case Login(resolved, credentials, now, reply) =>
      var s1 := if MovesTo(s, resolved) then s.(tenant := resolved) else s;
      (match credentials
       case None => (s1, None)
       case Some(k) => (LogIn(s1, k.username, k.password, k.locationCode, now, reply).state, None))
    case Circulation(barcode, now, env, reached) =>
      var (s1, token) := WithToken(s, now, env);
      if token.None? then (s1, None) else Resolved(s1, barcode, if reached then Known(dir, s1, barcode) else None)
    case Status(barcode, now, env, reached, completed) =>
      var (s1, token) := WithToken(s, now, env);
      var found := if token.Some? && reached then Known(dir, s1, barcode) else None;
      if found.None? || !completed then (s1, None)
      else (Rewritten(s1, barcode, found.value.id, found.value.barcode), Some(found.value.id))
    case EndPatron => (PatronCleared(s), None)
  }

  // ---------------------------------------------------------------------------------------
  // The cache is never someone else's.

  predicate CacheOk(s: SessionState, dir: Directory) {
    && s.tenant.Some? && !FromOtherTenant(s)
    && (s.pair.access != "" ==> s.pair.refresh != "")
    && (s.patronID != "" ==>
          && s.pair.refresh != ""
          && Known(dir, s, s.patronBarcode).Some? && Known(dir, s, s.patronBarcode).value.id == s.patronID)
  }

  /** What a renewal may change: the pair, for another of the same tenant. */
  predicate SamePatron(s: SessionState, s1: SessionState) {
    && s1 == s.(pair := s1.pair)
    && (s1.pair == s.pair || (s1.pair.refresh != "" && s1.pair.access != "" && !FromOtherTenant(s1)))
  }

  lemma {:induction false} ReloginKeepsPatron(s: SessionState, env: Env, k: nat)
    requires EnvOk(env) && (forall r :: r in env.logins ==> UsableReply(r)) && s.tenant.Some?
    requires 1 <= k <= MAX_RETRIES + 1
    ensures SamePatron(s, ReloginFrom(s, env, k).state)
    decreases MAX_RETRIES + 1 - k
  {
    if k <= MAX_RETRIES {
      ReloginKeepsPatron(s, env, k + 1);
      assert env.logins[k - 1] in env.logins;
    }
  }

  lemma TokenKeepsPatron(s: SessionState, now: Time, env: Env)
    requires EnvOk(env) && UsableReply(env.refresh) && (forall r :: r in env.logins ==> UsableReply(r)) && s.tenant.Some?
    ensures SamePatron(s, WithToken(s, now, env).0)
    ensures WithToken(s, now, env).1.Some? ==> s.pair.access != ""
  {
    ReloginKeepsPatron(s, env, 1);
  }

  lemma SamePatronOk(s: SessionState, s1: SessionState, dir: Directory)
    requires CacheOk(s, dir) && SamePatron(s, s1)
    ensures CacheOk(s1, dir) && (s.pair.access != "" ==> s1.pair.refresh != "")
  {
  }

  /** The request acts for whoever the present tenant's directory has under the message's barcode. */
  predicate ActsForBarcode(s: SessionState, m: Message, userID: Option<string>, dir: Directory) {
    (m.Circulation? || m.Status?) && userID.Some? ==>
      Known(dir, s, m.barcode).Some? && Known(dir, s, m.barcode).value.id == userID.value
  }

  lemma LoginKeepsCache(s: SessionState, m: Message, dir: Directory)
    requires CacheOk(s, dir) && m.Login? && m.credentials.Some? && MessageOk(m)
    ensures CacheOk(Handled(s, m, dir).0, dir)
  {
  }

  /** A 93 without CN or CO that moves the session to another gateway or gateway tenant. */
  predicate MovesDirectory(s: SessionState, m: Message) {
    m.Login? && m.credentials.None? && MovesTo(s, m.resolved)
    && (m.resolved.value.okapiURL != TenantIn(s).okapiURL || m.resolved.value.okapiTenant != TenantIn(s).okapiTenant)
  }

  lemma IncompleteLoginKeepsCache(s: SessionState, m: Message, dir: Directory)
    requires CacheOk(s, dir) && m.Login? && m.credentials.None? && MessageOk(m) && !MovesDirectory(s, m)
    ensures CacheOk(Handled(s, m, dir).0, dir)
  {
  }

  lemma CirculationKeepsCache(s: SessionState, m: Message, dir: Directory)
    requires CacheOk(s, dir) && m.Circulation? && MessageOk(m)
    ensures var (s1, userID) := Handled(s, m, dir); CacheOk(s1, dir) && ActsForBarcode(s1, m, userID, dir)
  {
    TokenKeepsPatron(s, m.now, m.env);
    SamePatronOk(s, WithToken(s, m.now, m.env).0, dir);
  }

  lemma StatusKeepsCache(s: SessionState, m: Message, dir: Directory)
    requires Consistent(dir) && CacheOk(s, dir) && m.Status? && MessageOk(m)
    ensures var (s1, userID) := Handled(s, m, dir); CacheOk(s1, dir) && ActsForBarcode(s1, m, userID, dir)
  {
    TokenKeepsPatron(s, m.now, m.env);
    SamePatronOk(s, WithToken(s, m.now, m.env).0, dir);
  }

  lemma MessageKeepsCache(s: SessionState, m: Message, dir: Directory)
    requires Consistent(dir) && CacheOk(s, dir) && MessageOk(m) && !MovesDirectory(s, m)
    ensures var (s1, userID) := Handled(s, m, dir);
            CacheOk(s1, dir) && ActsForBarcode(s1, m, userID, dir)
  {
    match m
    case Login(_, credentials, _, _) =>
      if credentials.Some? { LoginKeepsCache(s, m, dir); } else { IncompleteLoginKeepsCache(s, m, dir); }
    case Circulation(_, _, _, _) => CirculationKeepsCache(s, m, dir);
    case Status(_, _, _, _, _) => StatusKeepsCache(s, m, dir);
    case EndPatron =>
  }

  function Served(s: SessionState, ms: seq<Message>, dir: Directory): SessionState
    requires forall m :: m in ms ==> MessageOk(m)
    decreases |ms|
  {
    if ms == [] then s else Served(Handled(s, ms[0], dir).0, ms[1..], dir)
  }

  /** No message of the run is such a 93 when it arrives. */
  predicate Steady(s: SessionState, ms: seq<Message>, dir: Directory)
    requires forall m :: m in ms ==> MessageOk(m)
    decreases |ms|
  {
    ms == [] || (!MovesDirectory(s, ms[0]) && Steady(Handled(s, ms[0], dir).0, ms[1..], dir))
  }

  lemma {:induction false} ServedKeepsCache(s: SessionState, ms: seq<Message>, dir: Directory)
    requires Consistent(dir) && CacheOk(s, dir)
    requires (forall m :: m in ms ==> MessageOk(m)) && Steady(s, ms, dir)
    ensures CacheOk(Served(s, ms, dir), dir)
    decreases |ms|
  {
    if ms != [] {
      assert MessageOk(ms[0]);
      MessageKeepsCache(s, ms[0], dir);
      ServedKeepsCache(Handled(s, ms[0], dir).0, ms[1..], dir);
    }
  }

  /**
   Over every run of 11, 23, 29, 35, 37, 65 and 93 messages from a new session, complete or
   not, in which no 93 without CN or CO moves to another directory, every patron a request
   acts for, from the cache or looked up, is the one the present tenant has under the barcode
   in that message.
   */
  lemma NeverSomeoneElse(tenant: Tenant, ms: seq<Message>, m: Message, dir: Directory)
    requires Consistent(dir) && MessageOk(m) && (forall x :: x in ms ==> MessageOk(x))
    requires Steady(Initial(Some(tenant)), ms, dir) && !MovesDirectory(Served(Initial(Some(tenant)), ms, dir), m)
    ensures var s := Served(Initial(Some(tenant)), ms, dir);
            var (s1, userID) := Handled(s, m, dir);
            CacheOk(s1, dir) && ActsForBarcode(s1, m, userID, dir)
  {
    ServedKeepsCache(Initial(Some(tenant)), ms, dir);
    MessageKeepsCache(Served(Initial(Some(tenant)), ms, dir), m, dir);
  }

  /**
   A 93 without CN or CO that changes the tenant, from any state with a cached patron: a
   request for the cached barcode then acts for the cached ID whenever it gets a token at all,
   stored or renewed; that is the right patron exactly when the tenant moved to has the same
   ID under that barcode.
   */
  lemma IncompleteLoginStaleIff(s: SessionState, resolved: Tenant, m: Message, dir: Directory)
    requires s.tenant.Some? && s.patronID != "" && MovesTo(s, Some(resolved))
    requires m.Circulation? && MessageOk(m) && m.barcode == s.patronBarcode
    ensures var s1 := Handled(s, Login(Some(resolved), None, m.now, OtherError), dir).0;
            var (s2, userID) := Handled(s1, m, dir);
            && userID == (if WithToken(s1, m.now, m.env).1.Some? then Some(s.patronID) else None)
            && (userID.Some? ==>
                  (ActsForBarcode(s2, m, userID, dir) <==>
                     var there := dir(resolved.okapiURL, resolved.okapiTenant, s.patronBarcode);
                     there.Some? && there.value.id == s.patronID))
  {
    TokenKeepsPatron(s.(tenant := Some(resolved)), m.now, m.env);
  }
}
