/**
 types.Session (internal/types/session.go): one kiosk connection's tokens, credentials and
 cached patron. Each method runs under the session's mutex, so it is one atomic step. State()
 is the value of the fields; the specification functions on it are what the protocol modules
 reason about. The identifier and the activity times are not modelled.
 */
module SessionModel {
  import opened Outcome
  import opened Auth
  import opened Logout

  // 90 seconds: how long before its end a token is treated as expired.
  const TOKEN_EXPIRY_BUFFER: nat := 90_000_000_000

  /** The part of a tenant configuration that decides where tokens come from. */
  datatype Tenant = Tenant(name: string, okapiURL: string, okapiTenant: string)

  /** The fields, the token pair and its issuer gathered in one value. */
  datatype SessionState = SessionState(tenant: Option<Tenant>, pair: TokenPair, username: string, password: string,
                                       patronID: string, patronBarcode: string, locationCode: string, isAuthenticated: bool)

  function Initial(tenant: Option<Tenant>): SessionState {
    SessionState(tenant, EMPTY_PAIR, "", "", "", "", "", false)
  }

  function IssuedBy(t: Tokens, tenant: Option<Tenant>): TokenPair {
    match tenant
    case None => TokenPair(t.access, t.accessExpiresAt, t.refresh, t.refreshExpiresAt, "", "")
    case Some(n) => TokenPair(t.access, t.accessExpiresAt, t.refresh, t.refreshExpiresAt, n.okapiURL, n.okapiTenant)
  }

  /** storeTokensLocked: the pair together with the current tenant as its issuer. */
  function Stored(s: SessionState, t: Tokens): SessionState {
    s.(pair := IssuedBy(t, s.tenant))
  }

  /** clearTokensLocked */
  function Taken(s: SessionState): SessionState {
    s.(pair := EMPTY_PAIR)
  }

  function Authenticated(s: SessionState, username: string, patronID: string, patronBarcode: string, authToken: string,
                         expiresAt: Time): SessionState {
    s.(isAuthenticated := true, username := username, patronID := patronID, patronBarcode := patronBarcode,
       pair := s.pair.(access := authToken, accessExpiresAt := expiresAt))
  }

  function Cleared(s: SessionState): SessionState {
    SessionState(s.tenant, EMPTY_PAIR, "", "", "", "", s.locationCode, false)
  }

  function PatronCleared(s: SessionState): SessionState {
    s.(patronID := "", patronBarcode := "")
  }

  predicate FromOtherTenant(s: SessionState) {
    s.pair.refresh != "" && s.tenant.Some?
    && (s.pair.okapiURL != s.tenant.value.okapiURL || s.pair.okapiTenant != s.tenant.value.okapiTenant)
  }

  predicate RefreshUsable(s: SessionState, buffer: nat, now: Time) {
    s.pair.refresh != "" && s.pair.refreshExpiresAt != 0 && now + buffer < s.pair.refreshExpiresAt
  }

  predicate Expired(s: SessionState, now: Time) {
    s.pair.accessExpiresAt == 0 || now + TOKEN_EXPIRY_BUFFER > s.pair.accessExpiresAt
  }

  /** The tenant a connection works for; it is never absent there. */
  function TenantIn(s: SessionState): Tenant {
    match s.tenant
    case Some(t) => t
    case None => Tenant("", "", "")
  }

  /** handleLoginTenantResolution: a 93 moves the session only to a tenant of another name. */
  predicate MovesTo(s: SessionState, resolved: Option<Tenant>) {
    resolved.Some? && resolved.value.name != TenantIn(s).name
  }

  predicate HasCredentials(s: SessionState) {
    s.username != "" && s.password != ""
  }

  class Session {
    var tenantConfig: Option<Tenant>
    var authToken: string
    var tokenExpiresAt: Time
    var patronID: string
    var patronBarcode: string
    var username: string
    var password: string
    var locationCode: string
    var isAuthenticated: bool
    var refreshToken: string
    var refreshTokenExpiresAt: Time
    var tokenOkapiURL: string
    var tokenTenant: string

    ghost function State(): SessionState
      reads this
    {
      SessionState(tenantConfig,
                   TokenPair(authToken, tokenExpiresAt, refreshToken, refreshTokenExpiresAt, tokenOkapiURL, tokenTenant),
                   username, password, patronID, patronBarcode, locationCode, isAuthenticated)
    }

    constructor (tenantConfig: Option<Tenant>)
      ensures State() == Initial(tenantConfig)
    {
      this.tenantConfig := tenantConfig;
      authToken, tokenExpiresAt, refreshToken, refreshTokenExpiresAt := "", 0, "", 0;
      tokenOkapiURL, tokenTenant, username, password := "", "", "", "";
      patronID, patronBarcode, locationCode, isAuthenticated := "", "", "", false;
    }

    method SetAuthenticated(username: string, patronID: string, patronBarcode: string, authToken: string, expiresAt: Time)
      modifies this
      ensures State() == Authenticated(old(State()), username, patronID, patronBarcode, authToken, expiresAt)
    {
      this.isAuthenticated := true;
      this.username := username;
      this.patronID := patronID;
      this.patronBarcode := patronBarcode;
      this.authToken := authToken;
      this.tokenExpiresAt := expiresAt;
    }

    method SetAuthCredentials(password: string)
      modifies this`password
      ensures State() == old(State()).(password := password)
    {
      this.password := password;
    }

    method UpdateTokens(t: Tokens)
      modifies this
      ensures State() == Stored(old(State()), t)
    {
      authToken := t.access;
      tokenExpiresAt := t.accessExpiresAt;
      refreshToken := t.refresh;
      refreshTokenExpiresAt := t.refreshExpiresAt;
      tokenOkapiURL, tokenTenant := "", "";
      if tenantConfig.Some? {
        tokenOkapiURL := tenantConfig.value.okapiURL;
        tokenTenant := tenantConfig.value.okapiTenant;
      }
    }

    method TokenPairLocked() returns (pair: TokenPair)
      ensures pair == State().pair
    {
      pair := TokenPair(authToken, tokenExpiresAt, refreshToken, refreshTokenExpiresAt, tokenOkapiURL, tokenTenant);
    }

    method SwapTokens(t: Tokens) returns (replaced: TokenPair)
      modifies this
      ensures replaced == old(State()).pair && State() == Stored(old(State()), t)
    {
      replaced := TokenPairLocked();
      UpdateTokens(t);
    }

    method ClearTokensLocked()
      modifies this
      ensures State() == Taken(old(State()))
    {
      authToken, tokenExpiresAt, refreshToken, refreshTokenExpiresAt := "", 0, "", 0;
      tokenOkapiURL, tokenTenant := "", "";
    }

    method TakeTokens() returns (pair: TokenPair)
      modifies this
      ensures pair == old(State()).pair && State() == Taken(old(State()))
    {
      pair := TokenPairLocked();
      ClearTokensLocked();
    }

    method HasTokensFromOtherTenant() returns (r: bool)
      ensures r == FromOtherTenant(State())
    {
      if refreshToken == "" || tenantConfig.None? { return false; }
      return tokenOkapiURL != tenantConfig.value.okapiURL || tokenTenant != tenantConfig.value.okapiTenant;
    }

    method HasValidRefreshToken(buffer: nat, now: Time) returns (r: bool)
      ensures r == RefreshUsable(State(), buffer, now)
    {
      if refreshToken == "" || refreshTokenExpiresAt == 0 { return false; }
      return now + buffer < refreshTokenExpiresAt;
    }

    method IsTokenExpired(now: Time) returns (r: bool)
      ensures r == Expired(State(), now)
    {
      if tokenExpiresAt == 0 { return true; }
      return now + TOKEN_EXPIRY_BUFFER > tokenExpiresAt;
    }

    method HasAuthCredentials() returns (r: bool)
      ensures r == HasCredentials(State())
    {
      return username != "" && password != "";
    }

    method Clear()
      modifies this
      ensures State() == Cleared(old(State()))
    {
      isAuthenticated := false;
      username, password, patronID, patronBarcode := "", "", "", "";
      ClearTokensLocked();
    }

    method ClearPatron()
      modifies this`patronID, this`patronBarcode
      ensures State() == PatronCleared(old(State()))
    {
      patronID, patronBarcode := "", "";
    }

    method SetPatronID(id: string)
      modifies this`patronID
      ensures State() == old(State()).(patronID := id)
    {
      patronID := id;
    }

    method SetPatronBarcode(barcode: string)
      modifies this`patronBarcode
      ensures State() == old(State()).(patronBarcode := barcode)
    {
      patronBarcode := barcode;
    }

    method SetLocationCode(code: string)
      modifies this`locationCode
      ensures State() == old(State()).(locationCode := code)
    {
      locationCode := code;
    }

    method UpdateTenant(tenant: Option<Tenant>)
      modifies this`tenantConfig
      ensures State() == old(State()).(tenant := tenant)
    {
      tenantConfig := tenant;
    }
  }

  // ---------------------------------------------------------------------------------------
  // Token pairs are neither lost nor duplicated by the operations that move them.

  datatype TokenOp = Update(tokens: Tokens) | Swap(tokens: Tokens) | Take | Retenant(tenant: Option<Tenant>)

  function AfterOp(s: SessionState, op: TokenOp): SessionState {
    match op
    case Update(t) => Stored(s, t)
    case Swap(t) => Stored(s, t)
    case Take => Taken(s)
    case Retenant(t) => s.(tenant := t)
  }

  function AfterOps(s: SessionState, ops: seq<TokenOp>): SessionState
    decreases |ops|
  {
    if ops == [] then s else AfterOps(AfterOp(s, ops[0]), ops[1..])
  }

  /** The pairs an operation stores, hands to its caller, and overwrites without handing out. */
  function PutIn(s: SessionState, op: TokenOp): multiset<TokenPair> {
    if op.Update? || op.Swap? then multiset{IssuedBy(op.tokens, s.tenant)} else multiset{}
  }

  function HandedOut(s: SessionState, op: TokenOp): multiset<TokenPair> {
    if op.Swap? || op.Take? then Nonempty(s.pair) else multiset{}
  }

  function Overwritten(s: SessionState, op: TokenOp): multiset<TokenPair> {
    if op.Update? then Nonempty(s.pair) else multiset{}
  }

  /** IsEmpty: a pair without a refresh token is nothing to log out. */
  function Nonempty(p: TokenPair): multiset<TokenPair> {
    if p == EMPTY_PAIR then multiset{} else multiset{p}
  }

  function Total(s: SessionState, ops: seq<TokenOp>, count: (SessionState, TokenOp) -> multiset<TokenPair>): multiset<TokenPair>
    decreases |ops|
  {
    if ops == [] then multiset{} else count(s, ops[0]) + Total(AfterOp(s, ops[0]), ops[1..], count)
  }

  predicate StoresUsable(op: TokenOp) {
    op.Update? || op.Swap? ==> Usable(op.tokens)
  }

  lemma OpConserves(s: SessionState, op: TokenOp)
    requires StoresUsable(op)
    ensures Nonempty(s.pair) + PutIn(s, op) == HandedOut(s, op) + Overwritten(s, op) + Nonempty(AfterOp(s, op).pair)
  {
  }

  lemma Chain<T>(held: multiset<T>, put: multiset<T>, out: multiset<T>, over: multiset<T>, next: multiset<T>,
                 putRest: multiset<T>, outRest: multiset<T>, overRest: multiset<T>, end: multiset<T>)
    requires held + put == out + over + next
    requires next + putRest == outRest + overRest + end
    ensures held + (put + putRest) == (out + outRest) + (over + overRest) + end
  {
    calc {
      held + (put + putRest);
      (held + put) + putRest;
      (out + over) + (next + putRest);
      (out + over) + (outRest + overRest + end);
      (out + outRest) + (over + overRest) + end;
    }
  }

  /**
   Over any sequence of stores, swaps, takes and tenant changes, the pairs ever held are
   exactly those handed to a caller, those a refresh overwrote, and the one still held.
   */
  lemma {:induction false} PairsConserved(s: SessionState, ops: seq<TokenOp>)
    requires forall op :: op in ops ==> StoresUsable(op)
    ensures Nonempty(s.pair) + Total(s, ops, PutIn)
         == Total(s, ops, HandedOut) + Total(s, ops, Overwritten) + Nonempty(AfterOps(s, ops).pair)
    decreases |ops|
  {
    if ops != [] {
      var next, rest := AfterOp(s, ops[0]), ops[1..];
      OpConserves(s, ops[0]);
      PairsConserved(next, rest);
      Chain(Nonempty(s.pair), PutIn(s, ops[0]), HandedOut(s, ops[0]), Overwritten(s, ops[0]), Nonempty(next.pair),
            Total(next, rest, PutIn), Total(next, rest, HandedOut), Total(next, rest, Overwritten),
            Nonempty(AfterOps(next, rest).pair));
    }
  }

  /** A pair is handed out at most once: what is left behind by a take is empty, whatever the tenant does. */
  lemma SecondTakeEmpty(s: SessionState, tenant: Option<Tenant>)
    ensures Taken(s).(tenant := tenant).pair == EMPTY_PAIR
    ensures !FromOtherTenant(Taken(s).(tenant := tenant))
  {
  }
}
