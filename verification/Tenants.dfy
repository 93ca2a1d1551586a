/**
 Tenant configuration and routing: loading and reloading (internal/config/config.go and
 reload.go), and the choice of a tenant for a connection and for a login
 (internal/tenant/service.go and its resolvers).
 */
module Tenants {
  import opened Outcome
  import opened Text

  /** A tenant's settings: those that a reload compares field by field, and the rest. */
  datatype TenantConfig = TenantConfig(tenant: string, compared: map<string, string>, uncompared: map<string, string>)

  datatype SCTenant = SCTenant(tenant: string, subnet: string, port: int, locationCodes: seq<string>, usernamePrefixes: seq<string>)

  /** The three fields that SetTenants replaces together. */
  datatype Routing = Routing(tenants: map<string, TenantConfig>, scTenants: seq<SCTenant>, ordered: seq<TenantConfig>)

  // ---------------------------------------------------------------------------------------
  // Loading.

  /** What one configured source gives. */
  datatype Load = Loaded(tenants: seq<TenantConfig>, scTenants: seq<SCTenant>) | LoadFailed

  function Declared(loads: seq<Load>): seq<TenantConfig> {
    if loads == [] then []
    else Declared(loads[..|loads| - 1]) + (var l := loads[|loads| - 1]; if l.Loaded? then l.tenants else [])
  }

  function DeclaredSC(loads: seq<Load>): seq<SCTenant> {
    if loads == [] then []
    else DeclaredSC(loads[..|loads| - 1]) + (var l := loads[|loads| - 1]; if l.Loaded? then l.scTenants else [])
  }

  /** A map in which the last configuration declared under a name wins. */
  function LastByName(cfgs: seq<TenantConfig>): map<string, TenantConfig> {
    if cfgs == [] then map[] else LastByName(cfgs[..|cfgs| - 1])[cfgs[|cfgs| - 1].tenant := cfgs[|cfgs| - 1]]
  }

  lemma {:induction false} LastByNameIs(cfgs: seq<TenantConfig>, name: string)
    ensures name in LastByName(cfgs) <==> exists i :: 0 <= i < |cfgs| && cfgs[i].tenant == name
    ensures name in LastByName(cfgs) ==>
              exists i :: 0 <= i < |cfgs| && cfgs[i].tenant == name && LastByName(cfgs)[name] == cfgs[i]
                          && forall j :: i < j < |cfgs| ==> cfgs[j].tenant != name
  {
    if cfgs != [] {
      var n := |cfgs| - 1;
      LastByNameIs(cfgs[..n], name);
      if cfgs[n].tenant != name && name in LastByName(cfgs) {
        var i :| 0 <= i < n && cfgs[..n][i].tenant == name && LastByName(cfgs[..n])[name] == cfgs[..n][i]
                 && forall j :: i < j < n ==> cfgs[..n][j].tenant != name;
        assert cfgs[i].tenant == name;
        forall j | i < j < |cfgs| ensures cfgs[j].tenant != name {
          if j < n { assert cfgs[..n][j].tenant != name; }
        }
      }
    }
  }

  function Gathered(loads: seq<Load>): Routing {
    Routing(LastByName(Declared(loads)), DeclaredSC(loads), Declared(loads))
  }

  lemma LastByNameTake(before: seq<TenantConfig>, cfgs: seq<TenantConfig>, i: nat)
    requires i < |cfgs|
    ensures LastByName(before + cfgs[..i + 1]) == LastByName(before + cfgs[..i])[cfgs[i].tenant := cfgs[i]]
  {
    TakeSnoc(before, cfgs, i);
    LastByNameSnoc(before + cfgs[..i], cfgs[i]);
  }

  lemma LastByNameSnoc(cfgs: seq<TenantConfig>, c: TenantConfig)
    ensures LastByName(cfgs + [c]) == LastByName(cfgs)[c.tenant := c]
  {
    var all := cfgs + [c];
    assert all[..|all| - 1] == cfgs && all[|all| - 1] == c;
  }

  lemma TakeSnoc<T>(a: seq<T>, b: seq<T>, i: nat)
    requires i < |b|
    ensures a + b[..i + 1] == (a + b[..i]) + [b[i]]
  {
    assert b[..i + 1] == b[..i] + [b[i]];
  }

  method AddTenants(tenants: map<string, TenantConfig>, before: seq<TenantConfig>, cfgs: seq<TenantConfig>)
    returns (all: map<string, TenantConfig>)
    requires tenants == LastByName(before)
    ensures all == LastByName(before + cfgs)
  {
    all := tenants;
    var i := 0;
    assert before + cfgs[..0] == before;
    while i < |cfgs|
      invariant 0 <= i <= |cfgs| && all == LastByName(before + cfgs[..i])
    {
      LastByNameTake(before, cfgs, i);
      all := all[cfgs[i].tenant := cfgs[i]];
      i := i + 1;
    }
    assert cfgs[..i] == cfgs;
  }

  method LoadAll(loads: seq<Load>) returns (r: Routing)
    ensures r == Gathered(loads)
  {
    r := Routing(map[], [], []);
    var i := 0;
    while i < |loads|
      invariant 0 <= i <= |loads| && r == Gathered(loads[..i])
    {
      assert loads[..i + 1][..i] == loads[..i];
      match loads[i] {
        case LoadFailed =>
          assert Declared(loads[..i]) + [] == Declared(loads[..i]) && DeclaredSC(loads[..i]) + [] == DeclaredSC(loads[..i]);
        case Loaded(cfgs, scs) =>
          var tenants := AddTenants(r.tenants, r.ordered, cfgs);
          r := Routing(tenants, r.scTenants + scs, r.ordered + cfgs);
      }
      i := i + 1;
    }
    assert loads[..i] == loads;
  }

  /** loadTenantConfigs, at startup: the first source that fails stops the program. */
  method LoadTenantConfigs(loads: seq<Load>) returns (r: Option<Routing>)
    ensures r == if LoadFailed in loads then None else Some(Gathered(loads))
  {
    var i := 0;
    while i < |loads|
      invariant 0 <= i <= |loads| && LoadFailed !in loads[..i]
    {
      if loads[i].LoadFailed? { return None; }
      i := i + 1;
    }
    assert loads[..i] == loads;
    var routing := LoadAll(loads);
    return Some(routing);
  }

  /** What every loaded configuration satisfies: the map and the list name the same tenants. */
  predicate Aligned(r: Routing) {
    r.tenants.Keys == Names(r.ordered)
  }

  function Names(cfgs: seq<TenantConfig>): set<string> {
    set i | 0 <= i < |cfgs| :: cfgs[i].tenant
  }

  lemma GatheredAligned(loads: seq<Load>)
    ensures Aligned(Gathered(loads))
  {
    forall name ensures name in Gathered(loads).tenants <==> name in Names(Gathered(loads).ordered) {
      LastByNameIs(Declared(loads), name);
    }
  }

  // ---------------------------------------------------------------------------------------
  // Reloading.

  /** findConfigChanges is not empty: a name came or went, or a compared field differs. */
  predicate HasChanged(old_: map<string, TenantConfig>, new_: map<string, TenantConfig>) {
    old_.Keys != new_.Keys || exists name :: name in old_ && name in new_ && old_[name].compared != new_[name].compared
  }

  function Reloaded(r: Routing, loads: seq<Load>): Routing {
    var loaded := Gathered(loads);
    if loaded.tenants == map[] && r.tenants != map[] then r
    else if HasChanged(r.tenants, loaded.tenants) then loaded
    else r
  }

  class Config {
    var tenants: map<string, TenantConfig>
    var scTenants: seq<SCTenant>
    var tenantsOrdered: seq<TenantConfig>

    ghost function Value(): Routing
      reads this
    {
      Routing(tenants, scTenants, tenantsOrdered)
    }

    constructor ()
      ensures Value() == Routing(map[], [], [])
    {
      tenants, scTenants, tenantsOrdered := map[], [], [];
    }

    method SetTenants(tenants: map<string, TenantConfig>, scTenants: seq<SCTenant>, ordered: seq<TenantConfig>)
      modifies this
      ensures Value() == Routing(tenants, scTenants, ordered)
    {
      this.tenants := tenants;
      this.scTenants := scTenants;
      this.tenantsOrdered := ordered;
    }
  }

  // ---------------------------------------------------------------------------------------
  // The default tenant.

  /** An scTenant without any rule. */
  predicate CatchAll(sc: SCTenant) {
    sc.subnet == "" && sc.port == 0 && sc.locationCodes == [] && sc.usernamePrefixes == []
  }

  function FirstCatchAll(scs: seq<SCTenant>, tenants: map<string, TenantConfig>): Option<TenantConfig> {
    if scs == [] then None
    else if CatchAll(scs[0]) && scs[0].tenant in tenants then Some(tenants[scs[0].tenant])
    else FirstCatchAll(scs[1..], tenants)
  }

  function Referenced(scs: seq<SCTenant>): set<string> {
    set i | 0 <= i < |scs| :: scs[i].tenant
  }

  function FirstUnreferenced(cfgs: seq<TenantConfig>, refs: set<string>): Option<TenantConfig> {
    if cfgs == [] then None
    else if cfgs[0].tenant !in refs then Some(cfgs[0])
    else FirstUnreferenced(cfgs[1..], refs)
  }

  /** The four priorities; the last takes any configuration from the map. */
  predicate IsDefault(r: Routing, d: Option<TenantConfig>) {
    var caught := FirstCatchAll(r.scTenants, r.tenants);
    var free := FirstUnreferenced(r.ordered, Referenced(r.scTenants));
    if caught.Some? then d == caught
    else if free.Some? then d == free
    else if r.ordered != [] then d == Some(r.ordered[0])
    else if r.tenants == map[] then d == None
    else d.Some? && d.value in r.tenants.Values
  }

  method FindCatchAll(scs: seq<SCTenant>, tenants: map<string, TenantConfig>) returns (d: Option<TenantConfig>)
    ensures d == FirstCatchAll(scs, tenants)
  {
    var i := 0;
    while i < |scs|
      invariant 0 <= i <= |scs| && FirstCatchAll(scs, tenants) == FirstCatchAll(scs[i..], tenants)
    {
      if CatchAll(scs[i]) && scs[i].tenant in tenants { return Some(tenants[scs[i].tenant]); }
      assert scs[i..][1..] == scs[i + 1..];
      i := i + 1;
    }
    return None;
  }

  method FindUnreferenced(cfgs: seq<TenantConfig>, scs: seq<SCTenant>) returns (d: Option<TenantConfig>)
    ensures d == FirstUnreferenced(cfgs, Referenced(scs))
  {
    var refs := {};
    var k := 0;
    while k < |scs|
      invariant 0 <= k <= |scs| && refs == Referenced(scs[..k])
    {
      refs := refs + {scs[k].tenant};
      assert scs[..k + 1] == scs[..k] + [scs[k]];
      ReferencedAppend(scs[..k], scs[k]);
      k := k + 1;
    }
    assert scs[..k] == scs;
    var i := 0;
    while i < |cfgs|
      invariant 0 <= i <= |cfgs| && FirstUnreferenced(cfgs, refs) == FirstUnreferenced(cfgs[i..], refs)
    {
      if cfgs[i].tenant !in refs { return Some(cfgs[i]); }
      assert cfgs[i..][1..] == cfgs[i + 1..];
      i := i + 1;
    }
    return None;
  }

  lemma ReferencedAppend(scs: seq<SCTenant>, sc: SCTenant)
    ensures Referenced(scs + [sc]) == Referenced(scs) + {sc.tenant}
  {
    assert (scs + [sc])[|scs|] == sc;
    forall name | name in Referenced(scs) ensures name in Referenced(scs + [sc]) {
      var i :| 0 <= i < |scs| && scs[i].tenant == name;
      assert (scs + [sc])[i].tenant == name;
    }
  }

  /**
   What the priorities mean, for every configuration that was loaded: there is a default
   exactly when there is a tenant; it is the tenant of the first usable rule-less scTenant if
   there is one, else the first declared tenant no scTenant names, else the first declared.
   */
  lemma DefaultMeans(r: Routing, d: Option<TenantConfig>)
    requires Aligned(r) && IsDefault(r, d)
    ensures d.Some? <==> r.tenants != map[]
    ensures d.Some? ==> d.value in r.ordered || d.value in r.tenants.Values
    ensures (exists i :: 0 <= i < |r.scTenants| && CatchAll(r.scTenants[i]) && r.scTenants[i].tenant in r.tenants) ==>
              exists i :: 0 <= i < |r.scTenants| && CatchAll(r.scTenants[i]) && r.scTenants[i].tenant in r.tenants
                          && d == Some(r.tenants[r.scTenants[i].tenant])
                          && forall j :: 0 <= j < i ==> !(CatchAll(r.scTenants[j]) && r.scTenants[j].tenant in r.tenants)
    ensures (forall d2 :: IsDefault(r, d2) ==> d2 == d)
  {
    CatchAllMeans(r.scTenants, r.tenants);
    FreeIn(r.ordered, Referenced(r.scTenants));
    NoNamesIff(r.ordered);
  }

  lemma NoNamesIff(cfgs: seq<TenantConfig>)
    ensures Names(cfgs) == {} <==> cfgs == []
  {
    if cfgs != [] {
      assert cfgs[0].tenant in Names(cfgs);
    }
  }

  lemma {:induction false} FreeIn(cfgs: seq<TenantConfig>, refs: set<string>)
    ensures FirstUnreferenced(cfgs, refs).Some? ==> FirstUnreferenced(cfgs, refs).value in cfgs
  {
    if cfgs != [] { FreeIn(cfgs[1..], refs); }
  }

  lemma {:induction false} CatchAllMeans(scs: seq<SCTenant>, tenants: map<string, TenantConfig>)
    ensures FirstCatchAll(scs, tenants).Some? <==>
              exists i :: 0 <= i < |scs| && CatchAll(scs[i]) && scs[i].tenant in tenants
    ensures FirstCatchAll(scs, tenants).Some? ==>
              FirstCatchAll(scs, tenants).value in tenants.Values &&
              exists i :: 0 <= i < |scs| && CatchAll(scs[i]) && scs[i].tenant in tenants
                          && FirstCatchAll(scs, tenants) == Some(tenants[scs[i].tenant])
                          && forall j :: 0 <= j < i ==> !(CatchAll(scs[j]) && scs[j].tenant in tenants)
  {
    if scs == [] {
    } else if CatchAll(scs[0]) && scs[0].tenant in tenants {
      assert FirstCatchAll(scs, tenants) == Some(tenants[scs[0].tenant]);
    } else {
      CatchAllMeans(scs[1..], tenants);
      if FirstCatchAll(scs, tenants).Some? {
        var k :| 0 <= k < |scs[1..]| && CatchAll(scs[1..][k]) && scs[1..][k].tenant in tenants
                 && FirstCatchAll(scs, tenants) == Some(tenants[scs[1..][k].tenant])
                 && forall j :: 0 <= j < k ==> !(CatchAll(scs[1..][j]) && scs[1..][j].tenant in tenants);
        assert CatchAll(scs[k + 1]) && scs[k + 1].tenant in tenants;
        forall j | 0 <= j < k + 1 ensures !(CatchAll(scs[j]) && scs[j].tenant in tenants) {
          if j > 0 { assert scs[1..][j - 1] == scs[j]; }
        }
      } else {
        forall i | 0 <= i < |scs| ensures !(CatchAll(scs[i]) && scs[i].tenant in tenants) {
          if i > 0 { assert scs[1..][i - 1] == scs[i]; }
        }
      }
    }
  }

  // ---------------------------------------------------------------------------------------
  // Resolvers.

  /** Whether a client address lies in a subnet; false when either does not parse. */
  type SubnetTest = (string, string) -> bool

  datatype Resolver =
    | IPResolver(subnet: string, config: TenantConfig)
    | PortResolver(port: int, config: TenantConfig)
    | LocationCodeResolver(codes: seq<string>, config: TenantConfig)
    | UsernamePrefixResolver(prefixes: seq<string>, config: TenantConfig)
  {
    function Priority(): int {
      match this
      case IPResolver(_, _) => 100
      case PortResolver(_, _) => 90
      case LocationCodeResolver(_, _) => 80
      case UsernamePrefixResolver(_, _) => 70
    }

    predicate AtConnect() {
      IPResolver? || PortResolver?
    }
  }

  /** Resolve of the two connect-phase resolvers: a missing address or port is an error, which the service skips. */
  predicate Resolves(x: Resolver, clientIP: string, serverPort: int, inSubnet: SubnetTest) {
    match x
    case IPResolver(subnet, _) => clientIP != "" && inSubnet(clientIP, subnet)
    case PortResolver(port, _) => serverPort != 0 && serverPort == port
    case _ => false
  }

  /** The resolvers of one scTenant, in the order they are added. */
  function ResolversOf(sc: SCTenant, tenants: map<string, TenantConfig>): seq<Resolver> {
    if sc.tenant !in tenants then []
    else
      (if sc.subnet != "" then [IPResolver(sc.subnet, tenants[sc.tenant])] else [])
      + (if sc.port > 0 then [PortResolver(sc.port, tenants[sc.tenant])] else [])
      + (if sc.locationCodes != [] then [LocationCodeResolver(sc.locationCodes, tenants[sc.tenant])] else [])
      + (if sc.usernamePrefixes != [] then [UsernamePrefixResolver(sc.usernamePrefixes, tenants[sc.tenant])] else [])
  }

  function AllResolvers(scs: seq<SCTenant>, tenants: map<string, TenantConfig>): seq<Resolver> {
    if scs == [] then [] else AllResolvers(scs[..|scs| - 1], tenants) + ResolversOf(scs[|scs| - 1], tenants)
  }

  /** Those of one phase, in order. */
  function Phase(xs: seq<Resolver>, connect: bool): seq<Resolver> {
    if xs == [] then []
    else Phase(xs[..|xs| - 1], connect) + (if xs[|xs| - 1].AtConnect() == connect then [xs[|xs| - 1]] else [])
  }

  predicate Sorted(xs: seq<Resolver>) {
    forall i, j :: 0 <= i < j < |xs| ==> xs[i].Priority() >= xs[j].Priority()
  }

  /** sort.Sort by ByPriority: some permutation in falling priority. */
  predicate SortedFrom(xs: seq<Resolver>, from: seq<Resolver>) {
    Sorted(xs) && multiset(xs) == multiset(from)
  }

  method Sort(from: seq<Resolver>) returns (xs: seq<Resolver>)
    ensures SortedFrom(xs, from)
  {
    xs := [];
    var i := 0;
    while i < |from|
      invariant 0 <= i <= |from| && Sorted(xs) && multiset(xs) == multiset(from[..i])
    {
      xs := Insert(xs, from[i]);
      assert from[..i + 1] == from[..i] + [from[i]];
      i := i + 1;
    }
    assert from[..i] == from;
  }

  method Insert(xs: seq<Resolver>, x: Resolver) returns (ys: seq<Resolver>)
    requires Sorted(xs)
    ensures Sorted(ys) && multiset(ys) == multiset(xs) + multiset{x}
  {
    var k := 0;
    while k < |xs| && xs[k].Priority() >= x.Priority()
      invariant 0 <= k <= |xs| && forall j :: 0 <= j < k ==> xs[j].Priority() >= x.Priority()
    {
      k := k + 1;
    }
    ys := xs[..k] + ([x] + xs[k..]);
    InsertSorts(xs, x, k);
    InsertKeeps(xs, x, k);
  }

  lemma InsertKeeps(xs: seq<Resolver>, x: Resolver, k: nat)
    requires k <= |xs|
    ensures multiset(xs[..k] + ([x] + xs[k..])) == multiset(xs) + multiset{x}
  {
    assert xs == xs[..k] + xs[k..];
  }

  lemma InsertSorts(xs: seq<Resolver>, x: Resolver, k: nat)
    requires Sorted(xs) && k <= |xs|
    requires forall j :: 0 <= j < k ==> xs[j].Priority() >= x.Priority()
    requires k < |xs| ==> xs[k].Priority() < x.Priority()
    ensures Sorted(xs[..k] + ([x] + xs[k..]))
  {
  }

  // ---------------------------------------------------------------------------------------
  // tenant.Service

  /** A service set up for a configuration. */
  datatype Setup = Setup(connect: seq<Resolver>, login: seq<Resolver>, default: Option<TenantConfig>,
                         tenants: map<string, TenantConfig>, scTenants: seq<SCTenant>)

  predicate SetUpFor(v: Setup, r: Routing) {
    && IsDefault(r, v.default) && v.tenants == r.tenants && v.scTenants == r.scTenants
    && SortedFrom(v.connect, Phase(AllResolvers(r.scTenants, r.tenants), true))
    && SortedFrom(v.login, Phase(AllResolvers(r.scTenants, r.tenants), false))
  }

  /** What a login is resolved by. */
  datatype At = At(serverPort: int, clientIP: string, username: string, locationCode: string)

  predicate HasAnyPrefix(s: string, prefixes: seq<string>) {
    exists i :: 0 <= i < |prefixes| && HasPrefix(s, prefixes[i])
  }

  /** Every present rule of the entry holds, an absent rule holds of anything, and its tenant is known. */
  predicate Takes(sc: SCTenant, tenants: map<string, TenantConfig>, at: At, inSubnet: SubnetTest) {
    && (sc.port > 0 ==> sc.port == at.serverPort)
    && (sc.subnet != "" ==> inSubnet(at.clientIP, sc.subnet))
    && (sc.usernamePrefixes != [] ==> HasAnyPrefix(at.username, sc.usernamePrefixes))
    && (sc.locationCodes != [] ==> at.locationCode in sc.locationCodes)
    && sc.tenant in tenants
  }

  /** The tenant of the first declared entry that takes the login, else the default. */
  predicate IsComplete(scs: seq<SCTenant>, tenants: map<string, TenantConfig>, default: Option<TenantConfig>, at: At,
                       inSubnet: SubnetTest, r: Option<TenantConfig>) {
    if exists i :: 0 <= i < |scs| && Takes(scs[i], tenants, at, inSubnet) then
      exists i :: 0 <= i < |scs| && Takes(scs[i], tenants, at, inSubnet) && r == Some(tenants[scs[i].tenant])
                  && forall j :: 0 <= j < i ==> !Takes(scs[j], tenants, at, inSubnet)
    else r == default
  }

  class Service {
    var connectResolvers: seq<Resolver>
    var loginResolvers: seq<Resolver>
    var defaultConfig: Option<TenantConfig>
    var tenantConfigs: map<string, TenantConfig>
    var scTenants: seq<SCTenant>

    ghost function Value(): Setup
      reads this
    {
      Setup(connectResolvers, loginResolvers, defaultConfig, tenantConfigs, scTenants)
    }

    /** NewService */
    constructor (cfg: Config)
      ensures SetUpFor(Value(), cfg.Value())
    {
      connectResolvers, loginResolvers, defaultConfig := [], [], None;
      tenantConfigs, scTenants := cfg.tenants, cfg.scTenants;
      new;
      SetUp(cfg);
    }

    method Reinitialize(cfg: Config)
      modifies this
      ensures SetUpFor(Value(), cfg.Value())
    {
      connectResolvers, loginResolvers, defaultConfig := [], [], None;
      tenantConfigs, scTenants := cfg.tenants, cfg.scTenants;
      SetUp(cfg);
    }

    /** The steps NewService and Reinitialize share line for line. */
    method SetUp(cfg: Config)
      requires connectResolvers == [] && loginResolvers == [] && defaultConfig == None
      requires tenantConfigs == cfg.tenants && scTenants == cfg.scTenants
      modifies this
      ensures SetUpFor(Value(), cfg.Value())
    {
      SelectDefault(cfg);
      InitializeResolvers(cfg);
    }

    method SelectDefault(cfg: Config)
      requires defaultConfig == None
      modifies this`defaultConfig
      ensures IsDefault(cfg.Value(), defaultConfig)
    {
      defaultConfig := FindCatchAll(cfg.scTenants, cfg.tenants);
      if defaultConfig.None? {
        defaultConfig := FindUnreferenced(cfg.tenantsOrdered, cfg.scTenants);
      }
      if defaultConfig.None? && |cfg.tenantsOrdered| > 0 {
        defaultConfig := Some(cfg.tenantsOrdered[0]);
      }
      if defaultConfig.None? && cfg.tenants != map[] {
        var name :| name in cfg.tenants;
        defaultConfig := Some(cfg.tenants[name]);
      }
    }

    method AddResolver(x: Resolver)
      modifies this`connectResolvers, this`loginResolvers
      ensures connectResolvers == old(connectResolvers) + if x.AtConnect() then [x] else []
      ensures loginResolvers == old(loginResolvers) + if x.AtConnect() then [] else [x]
    {
      if x.AtConnect() {
        connectResolvers := connectResolvers + [x];
      } else {
        loginResolvers := loginResolvers + [x];
      }
    }

    method AddResolvers(xs: seq<Resolver>)
      modifies this`connectResolvers, this`loginResolvers
      ensures connectResolvers == old(connectResolvers) + Phase(xs, true)
      ensures loginResolvers == old(loginResolvers) + Phase(xs, false)
    {
      var i := 0;
      while i < |xs|
        invariant 0 <= i <= |xs|
        invariant connectResolvers == old(connectResolvers) + Phase(xs[..i], true)
        invariant loginResolvers == old(loginResolvers) + Phase(xs[..i], false)
      {
        assert xs[..i + 1][..i] == xs[..i];
        AddResolver(xs[i]);
        i := i + 1;
      }
      assert xs[..i] == xs;
    }

    method InitializeResolvers(cfg: Config)
      requires connectResolvers == [] && loginResolvers == []
      modifies this`connectResolvers, this`loginResolvers
      ensures var all := AllResolvers(cfg.scTenants, cfg.tenants);
              SortedFrom(connectResolvers, Phase(all, true)) && SortedFrom(loginResolvers, Phase(all, false))
    {
      var scs, i := cfg.scTenants, 0;
      while i < |scs|
        invariant 0 <= i <= |scs|
        invariant connectResolvers == Phase(AllResolvers(scs[..i], cfg.tenants), true)
        invariant loginResolvers == Phase(AllResolvers(scs[..i], cfg.tenants), false)
      {
        assert scs[..i + 1][..i] == scs[..i];
        PhaseConcat(AllResolvers(scs[..i], cfg.tenants), ResolversOf(scs[i], cfg.tenants), true);
        PhaseConcat(AllResolvers(scs[..i], cfg.tenants), ResolversOf(scs[i], cfg.tenants), false);
        AddResolvers(ResolversOf(scs[i], cfg.tenants));
        i := i + 1;
      }
      assert scs[..i] == scs;
      connectResolvers := Sort(connectResolvers);
      loginResolvers := Sort(loginResolvers);
    }

    method ResolveAtConnect(clientIP: string, serverPort: int, inSubnet: SubnetTest) returns (r: Option<TenantConfig>)
      ensures r == FirstResolved(connectResolvers, clientIP, serverPort, inSubnet, defaultConfig)
    {
      var i := 0;
      while i < |connectResolvers|
        invariant 0 <= i <= |connectResolvers|
        invariant FirstResolved(connectResolvers, clientIP, serverPort, inSubnet, defaultConfig)
               == FirstResolved(connectResolvers[i..], clientIP, serverPort, inSubnet, defaultConfig)
      {
        if Resolves(connectResolvers[i], clientIP, serverPort, inSubnet) { return Some(connectResolvers[i].config); }
        assert connectResolvers[i..][1..] == connectResolvers[i + 1..];
        i := i + 1;
      }
      return defaultConfig;
    }

    method ResolveComplete(serverPort: int, clientIP: string, username: string, locationCode: string, inSubnet: SubnetTest)
      returns (r: Option<TenantConfig>)
      ensures IsComplete(scTenants, tenantConfigs, defaultConfig, At(serverPort, clientIP, username, locationCode), inSubnet, r)
    {
      var at := At(serverPort, clientIP, username, locationCode);
      var i := 0;
      while i < |scTenants|
        invariant 0 <= i <= |scTenants|
        invariant forall j :: 0 <= j < i ==> !Takes(scTenants[j], tenantConfigs, at, inSubnet)
      {
        var sc := scTenants[i];
        if sc.port > 0 && sc.port != serverPort {
        } else if sc.subnet != "" && !inSubnet(clientIP, sc.subnet) {
        } else if |sc.usernamePrefixes| > 0 && !HasAnyPrefix(username, sc.usernamePrefixes) {
        } else if |sc.locationCodes| > 0 && locationCode !in sc.locationCodes {
        } else if sc.tenant in tenantConfigs {
          assert Takes(scTenants[i], tenantConfigs, at, inSubnet);
          return Some(tenantConfigs[sc.tenant]);
        }
        i := i + 1;
      }
      return defaultConfig;
    }
  }

  function FirstResolved(xs: seq<Resolver>, clientIP: string, serverPort: int, inSubnet: SubnetTest,
                         default: Option<TenantConfig>): Option<TenantConfig> {
    if xs == [] then default
    else if Resolves(xs[0], clientIP, serverPort, inSubnet) then Some(xs[0].config)
    else FirstResolved(xs[1..], clientIP, serverPort, inSubnet, default)
  }

  lemma {:induction false} PhaseConcat(xs: seq<Resolver>, ys: seq<Resolver>, connect: bool)
    ensures Phase(xs + ys, connect) == Phase(xs, connect) + Phase(ys, connect)
  {
    if ys == [] {
      assert xs + ys == xs;
    } else {
      var front := ys[..|ys| - 1];
      var last := ys[|ys| - 1];
      PhaseConcat(xs, front, connect);
      assert ys == front + [last] && xs + ys == xs + front + [last];
      PhaseSnoc(front, last, connect);
      PhaseSnoc(xs + front, last, connect);
    }
  }

  lemma PhaseSnoc(xs: seq<Resolver>, x: Resolver, connect: bool)
    ensures Phase(xs + [x], connect) == Phase(xs, connect) + (if x.AtConnect() == connect then [x] else [])
  {
    assert (xs + [x])[..|xs|] == xs;
  }

  // ---------------------------------------------------------------------------------------
  // Reloads over time.

  class Reloader {
    const config: Config
    const service: Service

    constructor (config: Config, service: Service)
      ensures this.config == config && this.service == service
    {
      this.config := config;
      this.service := service;
    }

    /** In use: some tenant is installed and the routing service is set up for exactly this configuration. */
    ghost predicate Live()
      reads this, config, service
    {
      Aligned(config.Value()) && config.Value().tenants != map[] && SetUpFor(service.Value(), config.Value())
    }

    /** reload, with the change callback that reinitialises the service. */
    method Reload(loads: seq<Load>) returns (ok: bool)
      modifies config, service
      ensures config.Value() == Reloaded(old(config.Value()), loads)
      ensures ok <==> Gathered(loads).tenants != map[] || old(config.Value()).tenants == map[]
      ensures config.Value() != old(config.Value()) ==> SetUpFor(service.Value(), config.Value())
      ensures old(Live()) ==> Live()
    {
      var loaded := LoadAll(loads);
      GatheredAligned(loads);
      if loaded.tenants == map[] && config.tenants != map[] { return false; }
      if HasChanged(config.tenants, loaded.tenants) {
        config.SetTenants(loaded.tenants, loaded.scTenants, loaded.ordered);
        service.Reinitialize(config);
      }
      return true;
    }
  }

  function ReloadedAll(r: Routing, history: seq<seq<Load>>): Routing {
    if history == [] then r else Reloaded(ReloadedAll(r, history[..|history| - 1]), history[|history| - 1])
  }

  /**
   Once a configuration with a tenant is installed, no sequence of reloads, whatever fails,
   leaves none; and what is installed is at any time the first configuration or all three
   parts of what one single reload gathered.
   */
  lemma {:induction false} NeverEmptied(r: Routing, history: seq<seq<Load>>)
    requires Aligned(r) && r.tenants != map[]
    ensures var now := ReloadedAll(r, history);
            && now.tenants != map[] && Aligned(now)
            && (now == r || exists k :: 0 <= k < |history| && now == Gathered(history[k]))
  {
    if history != [] {
      var n := |history| - 1;
      NeverEmptied(r, history[..n]);
      GatheredAligned(history[n]);
      var before, now := ReloadedAll(r, history[..n]), ReloadedAll(r, history);
      if now == before && now != r {
        var k :| 0 <= k < n && before == Gathered(history[..n][k]);
        assert now == Gathered(history[k]);
      }
    }
  }

  /**
   A tenant survives a reload exactly when some source that loaded declares it, or when
   nothing at all was loaded. A source that fails beside one that loads does lose its tenants.
   */
  lemma SurvivesIff(r: Routing, loads: seq<Load>, name: string)
    requires name in r.tenants
    ensures name in Reloaded(r, loads).tenants <==>
              (Declared(loads) == [] || exists i :: 0 <= i < |Declared(loads)| && Declared(loads)[i].tenant == name)
  {
    GatheredAligned(loads);
    NoNamesIff(Declared(loads));
    LastByNameIs(Declared(loads), name);
    assert r.tenants != map[];
    assert Gathered(loads).tenants == map[] <==> Names(Declared(loads)) == {};
  }

  // ---------------------------------------------------------------------------------------
  // Routing.

  lemma {:induction false} FirstIsBest(xs: seq<Resolver>, clientIP: string, serverPort: int, inSubnet: SubnetTest,
                                       default: Option<TenantConfig>)
    requires Sorted(xs)
    ensures var r := FirstResolved(xs, clientIP, serverPort, inSubnet, default);
            if exists x :: x in xs && Resolves(x, clientIP, serverPort, inSubnet) then
              exists x :: x in xs && Resolves(x, clientIP, serverPort, inSubnet) && r == Some(x.config)
                          && forall y :: y in xs && Resolves(y, clientIP, serverPort, inSubnet) ==> x.Priority() >= y.Priority()
            else r == default
  {
    if xs == [] {
    } else if Resolves(xs[0], clientIP, serverPort, inSubnet) {
      assert xs[0] in xs;
      forall y | y in xs ensures xs[0].Priority() >= y.Priority() {
        var j :| 0 <= j < |xs| && xs[j] == y;
        if j > 0 { assert xs[0].Priority() >= xs[j].Priority(); }
      }
    } else {
      var rest := xs[1..];
      assert Sorted(rest);
      FirstIsBest(rest, clientIP, serverPort, inSubnet, default);
      assert forall x :: x in xs <==> x == xs[0] || x in rest;
    }
  }

  lemma {:induction false} PhaseHas(xs: seq<Resolver>, connect: bool, x: Resolver)
    ensures x in Phase(xs, connect) <==> x in xs && x.AtConnect() == connect
  {
    if xs != [] {
      PhaseHas(xs[..|xs| - 1], connect, x);
      assert xs == xs[..|xs| - 1] + [xs[|xs| - 1]];
    }
  }

  lemma {:induction false} ResolverListed(scs: seq<SCTenant>, tenants: map<string, TenantConfig>, x: Resolver, i: nat)
    requires i < |scs| && x in ResolversOf(scs[i], tenants)
    ensures x in AllResolvers(scs, tenants)
  {
    if i < |scs| - 1 {
      ResolverListed(scs[..|scs| - 1], tenants, x, i);
    }
  }

  lemma {:induction false} ResolverSource(scs: seq<SCTenant>, tenants: map<string, TenantConfig>, x: Resolver) returns (i: nat)
    requires x in AllResolvers(scs, tenants)
    ensures i < |scs| && x in ResolversOf(scs[i], tenants)
  {
    var n := |scs| - 1;
    if x in ResolversOf(scs[n], tenants) {
      i := n;
    } else {
      i := ResolverSource(scs[..n], tenants, x);
    }
  }

  lemma ConnectListed(v: Setup, r: Routing, x: Resolver, i: nat)
    requires SetUpFor(v, r) && x.AtConnect() && i < |r.scTenants| && x in ResolversOf(r.scTenants[i], r.tenants)
    ensures x in v.connect
  {
    ResolverListed(r.scTenants, r.tenants, x, i);
    PhaseHas(AllResolvers(r.scTenants, r.tenants), true, x);
    assert x in multiset(Phase(AllResolvers(r.scTenants, r.tenants), true));
    assert x in multiset(v.connect);
  }

  lemma ConnectSource(v: Setup, r: Routing, x: Resolver) returns (i: nat)
    requires SetUpFor(v, r) && x in v.connect
    ensures x.AtConnect() && i < |r.scTenants| && x in ResolversOf(r.scTenants[i], r.tenants)
  {
    assert x in multiset(v.connect);
    assert x in multiset(Phase(AllResolvers(r.scTenants, r.tenants), true));
    PhaseHas(AllResolvers(r.scTenants, r.tenants), true, x);
    i := ResolverSource(r.scTenants, r.tenants, x);
  }

  predicate SubnetHit(sc: SCTenant, r: Routing, clientIP: string, inSubnet: SubnetTest) {
    sc.tenant in r.tenants && sc.subnet != "" && clientIP != "" && inSubnet(clientIP, sc.subnet)
  }

  predicate PortHit(sc: SCTenant, r: Routing, serverPort: int) {
    sc.tenant in r.tenants && sc.port > 0 && sc.port == serverPort
  }

  /**
   At connection time an entry whose subnet holds the client wins over any whose port is the
   server's, and any of them over the default; the answer is the configuration installed
   under the winning entry's name. With a tenant installed there is always an answer.
   */
  lemma ConnectMeans(v: Setup, r: Routing, clientIP: string, serverPort: int, inSubnet: SubnetTest)
    requires SetUpFor(v, r)
    ensures var answer := FirstResolved(v.connect, clientIP, serverPort, inSubnet, v.default);
            if exists i :: 0 <= i < |r.scTenants| && SubnetHit(r.scTenants[i], r, clientIP, inSubnet) then
              exists i :: 0 <= i < |r.scTenants| && SubnetHit(r.scTenants[i], r, clientIP, inSubnet)
                          && answer == Some(r.tenants[r.scTenants[i].tenant])
            else if exists i :: 0 <= i < |r.scTenants| && PortHit(r.scTenants[i], r, serverPort) then
              exists i :: 0 <= i < |r.scTenants| && PortHit(r.scTenants[i], r, serverPort)
                          && answer == Some(r.tenants[r.scTenants[i].tenant])
            else answer == v.default
    ensures Aligned(r) && r.tenants != map[] ==> FirstResolved(v.connect, clientIP, serverPort, inSubnet, v.default).Some?
  {
    FirstIsBest(v.connect, clientIP, serverPort, inSubnet, v.default);
    forall i | 0 <= i < |r.scTenants| && SubnetHit(r.scTenants[i], r, clientIP, inSubnet)
      ensures exists y :: y in v.connect && Resolves(y, clientIP, serverPort, inSubnet) && y.IPResolver?
    {
      SubnetHitListed(v, r, i, clientIP, serverPort, inSubnet);
    }
    forall i | 0 <= i < |r.scTenants| && PortHit(r.scTenants[i], r, serverPort)
      ensures exists y :: y in v.connect && Resolves(y, clientIP, serverPort, inSubnet)
    {
      PortHitListed(v, r, i, clientIP, serverPort, inSubnet);
    }
    if exists x :: x in v.connect && Resolves(x, clientIP, serverPort, inSubnet) {
      var x :| x in v.connect && Resolves(x, clientIP, serverPort, inSubnet)
               && FirstResolved(v.connect, clientIP, serverPort, inSubnet, v.default) == Some(x.config)
               && forall y :: y in v.connect && Resolves(y, clientIP, serverPort, inSubnet) ==> x.Priority() >= y.Priority();
      var i := ResolvedIsHit(v, r, x, clientIP, serverPort, inSubnet);
    }
    if Aligned(r) && r.tenants != map[] { DefaultMeans(r, v.default); }
  }

  lemma SubnetHitListed(v: Setup, r: Routing, i: nat, clientIP: string, serverPort: int, inSubnet: SubnetTest)
    requires SetUpFor(v, r) && i < |r.scTenants| && SubnetHit(r.scTenants[i], r, clientIP, inSubnet)
    ensures exists y :: y in v.connect && Resolves(y, clientIP, serverPort, inSubnet) && y.IPResolver?
  {
    var sc := r.scTenants[i];
    var y := IPResolver(sc.subnet, r.tenants[sc.tenant]);
    assert ResolversOf(sc, r.tenants)[0] == y;
    ConnectListed(v, r, y, i);
    assert Resolves(y, clientIP, serverPort, inSubnet);
  }

  lemma PortHitListed(v: Setup, r: Routing, i: nat, clientIP: string, serverPort: int, inSubnet: SubnetTest)
    requires SetUpFor(v, r) && i < |r.scTenants| && PortHit(r.scTenants[i], r, serverPort)
    ensures exists y :: y in v.connect && Resolves(y, clientIP, serverPort, inSubnet)
  {
    var sc := r.scTenants[i];
    var y := PortResolver(sc.port, r.tenants[sc.tenant]);
    assert ResolversOf(sc, r.tenants)[if sc.subnet != "" then 1 else 0] == y;
    ConnectListed(v, r, y, i);
    assert Resolves(y, clientIP, serverPort, inSubnet);
  }

  lemma ResolvedIsHit(v: Setup, r: Routing, x: Resolver, clientIP: string, serverPort: int, inSubnet: SubnetTest) returns (i: nat)
    requires SetUpFor(v, r) && x in v.connect && Resolves(x, clientIP, serverPort, inSubnet)
    ensures i < |r.scTenants| && r.scTenants[i].tenant in r.tenants && x.config == r.tenants[r.scTenants[i].tenant]
    ensures if x.IPResolver? then SubnetHit(r.scTenants[i], r, clientIP, inSubnet)
            else x.PortResolver? && PortHit(r.scTenants[i], r, serverPort)
  {
    i := ConnectSource(v, r, x);
  }

  /** A login too always has a tenant once one is installed, and it is an installed one or the default. */
  lemma CompleteMeans(v: Setup, r: Routing, at: At, inSubnet: SubnetTest, answer: Option<TenantConfig>)
    requires SetUpFor(v, r) && Aligned(r) && r.tenants != map[]
    requires IsComplete(v.scTenants, v.tenants, v.default, at, inSubnet, answer)
    ensures answer.Some?
    ensures answer != v.default ==> exists i :: 0 <= i < |r.scTenants| && Takes(r.scTenants[i], r.tenants, at, inSubnet)
                                               && answer == Some(r.tenants[r.scTenants[i].tenant])
  {
  }

  /** Two services set up for the same loaded configuration, by NewService or Reinitialize, have the same default. */
  lemma SameDefault(v: Setup, v2: Setup, r: Routing)
    requires SetUpFor(v, r) && SetUpFor(v2, r) && Aligned(r)
    ensures v.default == v2.default
  {
  }
}
