/**
 Rolling renewal (internal/renewal/service.go and attemptRollingRenewal in
 internal/handlers/base.go): a patron who shows up near or after the end of the account gets
 a new expiration date counted from today.
 */
module Renewal {
  import opened Outcome
  import opened Duration
  import opened Calendar

  datatype Config = Config(enabled: bool, renewWithin: string, extendFor: string, extendExpired: bool,
                           extendExpiredLimits: string, dryRun: bool, selectPatrons: bool, allowedPatrons: seq<string>)

  datatype User = User(expiration: Option<Instant>, group: string, active: bool)

  datatype Reason = Disabled | NoExpiration | GroupNotAllowed | ExpiredNotExtended | LimitFailed(limit: DateError)
                  | ExpiredTooLong | WindowFailed(window: DateError) | OutsideWindow | Eligible

  /** The date before which an expired account is expired for too long; None without a limit. */
  function Cutoff(cfg: Config, today: Instant): Result<Option<Instant>, DateError> {
    if cfg.extendExpiredLimits == "" then Ok(None)
    else
      match ParseDuration(cfg.extendExpiredLimits)
      case Err(e) => Err(Unparsed(e))
      case Ok(limit) =>
        match SubtractDuration(today, limit.value, limit.period)
        case Err(e) => Err(e)
        case Ok(cutoff) => Ok(Some(cutoff))
  }

  function CheckWindow(expiration: Instant, cfg: Config, today: Instant): Reason {
    match IsWithinPeriod(expiration, today, cfg.renewWithin)
    case Err(e) => WindowFailed(e)
    case Ok(within) => if within then Eligible else OutsideWindow
  }

  /** ShouldRenew; the decision is to renew exactly when the reason is Eligible. */
  function ShouldRenew(user: User, cfg: Config, today: Instant): Reason {
    if !cfg.enabled then Disabled
    else if user.expiration.None? then NoExpiration
    else if cfg.selectPatrons && user.group !in cfg.allowedPatrons then GroupNotAllowed
    else
      var expiration := user.expiration.value;
      if !IsExpired(expiration, today) then CheckWindow(expiration, cfg, today)
      else if !cfg.extendExpired then ExpiredNotExtended
      else
        match Cutoff(cfg, today)
        case Err(e) => LimitFailed(e)
        case Ok(Some(cutoff)) =>
          // An instant against a midnight: the only comparison here that keeps the time of day.
          if expiration < cutoff then ExpiredTooLong else CheckWindow(expiration, cfg, today)
        case Ok(None) => CheckWindow(expiration, cfg, today)
  }

  function CalculateNewExpiration(today: Instant, cfg: Config): Result<Instant, DateError> {
    match ParseDuration(cfg.extendFor)
    case Err(e) => Err(Unparsed(e))
    case Ok(d) => AddDuration(today, d.value, d.period)
  }

  /** One visit of the patron: the day, the tenant's configuration then, and what FOLIO made of the update. */
  datatype Visit = Visit(cfg: Config, today: Instant, updateAccepted: bool)

  predicate Renews(user: User, v: Visit) {
    ShouldRenew(user, v.cfg, v.today).Eligible? && CalculateNewExpiration(v.today, v.cfg).Ok?
    && !v.cfg.dryRun && v.updateAccepted
  }

  /** attemptRollingRenewal and UpdateUserExpiration: the user record afterwards. */
  function Attempt(user: User, v: Visit): User {
    if Renews(user, v) then
      user.(expiration := Some(CalculateNewExpiration(v.today, v.cfg).value), active := user.active || v.cfg.extendExpired)
    else user
  }

  // ---------------------------------------------------------------------------------------
  // Eligibility in terms of dates.

  /** The day `text` after (sign 1) or before (sign -1) a day. */
  function DayAway(day: int, text: string, sign: int): Option<int> {
    match ParseDuration(text)
    case Err(_) => None
    case Ok(d) => (match Shift(day, sign * d.value, d.period) case Ok(r) => Some(r) case Err(_) => None)
  }

  lemma WindowIs(expiration: Instant, cfg: Config, today: Instant)
    ensures CheckWindow(expiration, cfg, today).Eligible?
            <==> (var edge := DayAway(DayOf(today), cfg.renewWithin, 1); edge.Some? && DayOf(expiration) <= edge.value)
  {
  }

  lemma CutoffDay(cfg: Config, today: Instant)
    requires cfg.extendExpiredLimits != ""
    ensures match DayAway(DayOf(today), cfg.extendExpiredLimits, -1)
            case Some(day) => Cutoff(cfg, today) == Ok(Some(Midnight(day)))
            case None => Cutoff(cfg, today).Err?
  {
  }

  lemma CutoffIs(expiration: Instant, cfg: Config, today: Instant)
    requires cfg.extendExpiredLimits != ""
    ensures (Cutoff(cfg, today).Ok? && Cutoff(cfg, today).value.Some? && !(expiration < Cutoff(cfg, today).value.value))
            <==> (var edge := DayAway(DayOf(today), cfg.extendExpiredLimits, -1); edge.Some? && edge.value <= DayOf(expiration))
  {
    CutoffDay(cfg, today);
    match DayAway(DayOf(today), cfg.extendExpiredLimits, -1)
    case Some(day) => MidnightOrder(expiration, day);
    case None =>
  }

  /**
   A patron is renewed exactly when renewals are on, the account has an end date inside the
   window, the group is admitted, and an account already over may be and has not been over for
   longer than the limit.
   */
  lemma EligibleIff(user: User, cfg: Config, today: Instant)
    ensures ShouldRenew(user, cfg, today).Eligible? <==>
            && cfg.enabled
            && user.expiration.Some?
            && (cfg.selectPatrons ==> user.group in cfg.allowedPatrons)
            && (var day, over := DayOf(today), DayOf(user.expiration.value);
                var edge := DayAway(day, cfg.renewWithin, 1);
                && edge.Some? && over <= edge.value
                && (over < day ==>
                      && cfg.extendExpired
                      && (cfg.extendExpiredLimits != "" ==>
                            (var limit := DayAway(day, cfg.extendExpiredLimits, -1); limit.Some? && limit.value <= over))))
  {
    if user.expiration.Some? {
      var e := user.expiration.value;
      ExpiredByDate(e, today);
      WindowIs(e, cfg, today);
      if cfg.extendExpiredLimits != "" {
        CutoffIs(e, cfg, today);
      }
    }
  }

  // ---------------------------------------------------------------------------------------
  // Whole runs.

  /** On this day the new expiration date is no earlier than the edge of the renewal window. */
  predicate KeepsUp(v: Visit) {
    var day := DayOf(v.today);
    DayAway(day, v.cfg.renewWithin, 1).Some? && DayAway(day, v.cfg.extendFor, 1).Some?
    ==> DayAway(day, v.cfg.renewWithin, 1).value <= DayAway(day, v.cfg.extendFor, 1).value
  }

  lemma NewExpirationDay(v: Visit)
    ensures CalculateNewExpiration(v.today, v.cfg).Ok? <==> DayAway(DayOf(v.today), v.cfg.extendFor, 1).Some?
    ensures match CalculateNewExpiration(v.today, v.cfg)
            case Ok(e) => e == Midnight(DayAway(DayOf(v.today), v.cfg.extendFor, 1).value)
                          && DayOf(e) == DayAway(DayOf(v.today), v.cfg.extendFor, 1).value
            case Err(_) => true
  {
  }

  /** The expiration date, as a day. */
  function EndDay(user: User): int
    requires user.expiration.Some?
  {
    DayOf(user.expiration.value)
  }

  function Run(user: User, visits: seq<Visit>): (users: seq<User>)
    ensures |users| == |visits| + 1 && users[0] == user
    decreases |visits|
  {
    if visits == [] then [user] else [user] + Run(Attempt(user, visits[0]), visits[1..])
  }

  /** The later record of a patron has no earlier expiration date and is not deactivated. */
  predicate NotSetBack(earlier: User, later: User) {
    && earlier.expiration.Some? && later.expiration.Some?
    && EndDay(earlier) <= EndDay(later)
    && (earlier.active ==> later.active)
  }

  lemma VisitKeeps(user: User, v: Visit)
    requires user.expiration.Some? && KeepsUp(v)
    ensures NotSetBack(user, Attempt(user, v))
  {
    EligibleIff(user, v.cfg, v.today);
    NewExpirationDay(v);
  }

  lemma RunTail(user: User, visits: seq<Visit>, i: nat)
    requires visits != [] && 0 < i <= |visits|
    ensures Run(user, visits)[i] == Run(Attempt(user, visits[0]), visits[1..])[i - 1]
  {
  }

  /**
   Over any visits, in any order and under any configurations that keep up on the day they
   are used, the expiration date never moves backwards and an active account stays active.
   */
  lemma {:induction false} NeverBackwards(user: User, visits: seq<Visit>, i: nat, j: nat)
    requires user.expiration.Some?
    requires forall v :: v in visits ==> KeepsUp(v)
    requires i <= j <= |visits|
    ensures NotSetBack(Run(user, visits)[i], Run(user, visits)[j])
    decreases |visits|
  {
    if j > 0 {
      assert visits[0] in visits;
      var next := Attempt(user, visits[0]);
      VisitKeeps(user, visits[0]);
      RunTail(user, visits, j);
      if i > 0 {
        RunTail(user, visits, i);
        NeverBackwards(next, visits[1..], i - 1, j - 1);
      } else {
        NeverBackwards(next, visits[1..], 0, j - 1);
      }
    }
  }

  /** A visit that reaches the update when the patron is eligible. */
  predicate Armed(v: Visit) {
    && v.cfg.enabled && !v.cfg.dryRun && v.updateAccepted
    && ParseDuration(v.cfg.renewWithin).Ok? && ParseDuration(v.cfg.extendFor).Ok?
    && (v.cfg.selectPatrons ==> v.cfg.allowedPatrons != [])
  }

  /** A patron whose account ends on the last day of the window. */
  function AtEdge(v: Visit): User
    requires Armed(v)
  {
    User(Some(Midnight(DayAway(DayOf(v.today), v.cfg.renewWithin, 1).value)),
         if v.cfg.selectPatrons then v.cfg.allowedPatrons[0] else "", true)
  }

  lemma AtEdgeRenews(v: Visit)
    requires Armed(v)
    ensures var u := AtEdge(v);
            && Renews(u, v)
            && EndDay(u) == DayAway(DayOf(v.today), v.cfg.renewWithin, 1).value
            && EndDay(Attempt(u, v)) == DayAway(DayOf(v.today), v.cfg.extendFor, 1).value
  {
    var u := AtEdge(v);
    var day := DayOf(v.today);
    match ParseDuration(v.cfg.renewWithin)
    case Ok(d) =>
      ShiftForward(day, d.value, d.period);
      MidnightOrder(0, DayAway(day, v.cfg.renewWithin, 1).value);
      EligibleIff(u, v.cfg, v.today);
      NewExpirationDay(v);
  }

  lemma ShiftForward(day: int, value: int, p: string)
    requires value > 0 && IsPeriod(p)
    ensures Shift(day, value, p).Ok? && day < Shift(day, value, p).value
  {
    ShiftStrict(day, 0, value, p);
    AddDateIs(day, 0, 0, 0);
  }

  /**
   Keeping up is also necessary: on a day when it fails some eligible patron loses time.
   And a renewed patron is out of the window for the rest of the day exactly when the new
   date lies strictly beyond it.
   */
  lemma KeepsUpIff(v: Visit)
    requires Armed(v)
    ensures KeepsUp(v) <==> (forall u: User :: u.expiration.Some? ==> EndDay(u) <= EndDay(Attempt(u, v)))
    ensures DayAway(DayOf(v.today), v.cfg.renewWithin, 1).value < DayAway(DayOf(v.today), v.cfg.extendFor, 1).value
            <==> (forall u: User :: Renews(u, v) ==> !ShouldRenew(Attempt(u, v), v.cfg, v.today).Eligible?)
  {
    AtEdgeRenews(v);
    var within, extended := DayAway(DayOf(v.today), v.cfg.renewWithin, 1).value, DayAway(DayOf(v.today), v.cfg.extendFor, 1).value;
    if within <= extended {
      forall u: User | u.expiration.Some? ensures EndDay(u) <= EndDay(Attempt(u, v)) {
        VisitKeeps(u, v);
      }
    }
    forall u: User | Renews(u, v)
      ensures ShouldRenew(Attempt(u, v), v.cfg, v.today).Eligible? <==> extended <= within
    {
      RenewedAgainIff(u, v);
    }
    assert Renews(AtEdge(v), v);
  }

  lemma RenewedAgainIff(u: User, v: Visit)
    requires Renews(u, v)
    ensures var day := DayOf(v.today);
            ShouldRenew(Attempt(u, v), v.cfg, v.today).Eligible?
            <==> DayAway(day, v.cfg.extendFor, 1).value <= DayAway(day, v.cfg.renewWithin, 1).value
  {
    EligibleIff(u, v.cfg, v.today);
    EligibleIff(Attempt(u, v), v.cfg, v.today);
    NewExpirationDay(v);
    match ParseDuration(v.cfg.extendFor)
    case Ok(d) => ShiftForward(DayOf(v.today), d.value, d.period);
  }

  // ---------------------------------------------------------------------------------------
  // Which configurations keep up on every day.

  /** A duration in months, when it is counted in months or years. */
  function Months(d: Parsed): int {
    if d.period == "Y" then 12 * d.value else d.value
  }

  predicate InMonths(d: Parsed) {
    d.period == "M" || d.period == "Y"
  }

  lemma ShiftInMonths(day: int, d: Parsed)
    requires InMonths(d)
    ensures Shift(day, d.value, d.period) == Ok(AddDate(day, 0, Months(d), 0))
  {
    YearsAsMonths(day, d.value);
  }

  /** Keeping up, in terms of the two parsed durations. */
  lemma KeepsUpShift(v: Visit, within: Parsed, extend: Parsed)
    requires ParseDuration(v.cfg.renewWithin) == Ok(within) && ParseDuration(v.cfg.extendFor) == Ok(extend)
    ensures var day := DayOf(v.today);
            && Shift(day, within.value, within.period).Ok? && Shift(day, extend.value, extend.period).Ok?
            && (KeepsUp(v) <==> Shift(day, within.value, within.period).value <= Shift(day, extend.value, extend.period).value)
  {
  }

  /** Between durations in days, or in months and years, only the amounts matter. */
  lemma AlikeKeepUpIff(v: Visit, within: Parsed, extend: Parsed)
    requires ParseDuration(v.cfg.renewWithin) == Ok(within) && ParseDuration(v.cfg.extendFor) == Ok(extend)
    ensures within.period == "D" && extend.period == "D" ==> (KeepsUp(v) <==> within.value <= extend.value)
    ensures InMonths(within) && InMonths(extend) ==> (KeepsUp(v) <==> Months(within) <= Months(extend))
  {
    var day := DayOf(v.today);
    KeepsUpShift(v, within, extend);
    if within.period == "D" && extend.period == "D" {
      ShiftOrderIff(day, extend.value, within.value, "D");
    } else if InMonths(within) && InMonths(extend) {
      ShiftInMonths(day, within);
      ShiftInMonths(day, extend);
      ShiftOrderIff(day, Months(extend), Months(within), "M");
    }
  }

  /** The days from a day of this month to the same day m months on. */
  function Span(month: int, m: int): int {
    MonthStart(month + m) - MonthStart(month)
  }

  lemma ShiftSpan(day: int, d: Parsed)
    ensures InMonths(d) ==> Shift(day, d.value, d.period) == Ok(day + Span(MonthOf(day), Months(d)))
    ensures d.period == "D" ==> Shift(day, d.value, d.period) == Ok(day + d.value)
  {
    if InMonths(d) {
      ShiftInMonths(day, d);
      AddDateIs(day, 0, Months(d), 0);
    } else if d.period == "D" {
      AddDateIs(day, 0, 0, d.value);
    }
  }

  /** Days against months keep up exactly according to the lengths of the months that follow the visit. */
  lemma MixedKeepUpIff(v: Visit, within: Parsed, extend: Parsed)
    requires ParseDuration(v.cfg.renewWithin) == Ok(within) && ParseDuration(v.cfg.extendFor) == Ok(extend)
    ensures var month := MonthOf(DayOf(v.today));
            && (within.period == "D" && InMonths(extend) ==> (KeepsUp(v) <==> within.value <= Span(month, Months(extend))))
            && (InMonths(within) && extend.period == "D" ==> (KeepsUp(v) <==> Span(month, Months(within)) <= extend.value))
  {
    KeepsUpShift(v, within, extend);
    ShiftSpan(DayOf(v.today), within);
    ShiftSpan(DayOf(v.today), extend);
  }

  /** On every day, then, 28 days a month are few enough for the window and 31 enough for the extension. */
  lemma MixedKeepsUp(v: Visit, within: Parsed, extend: Parsed)
    requires ParseDuration(v.cfg.renewWithin) == Ok(within) && ParseDuration(v.cfg.extendFor) == Ok(extend)
    requires (within.period == "D" && InMonths(extend) && within.value <= 28 * Months(extend))
             || (InMonths(within) && extend.period == "D" && 31 * Months(within) <= extend.value)
    ensures KeepsUp(v)
  {
    var month := MonthOf(DayOf(v.today));
    MixedKeepUpIff(v, within, extend);
    SpanBounds(month, Months(if InMonths(within) then within else extend));
  }

  lemma SpanBounds(month: int, m: int)
    requires 0 <= m
    ensures 28 * m <= Span(month, m) <= 31 * m
  {
    MonthStartSpread(month, month + m);
  }

  /** Thirty days do not keep up with one month on 31 January: an account ending on 3 March is moved back to 2 March. */
  lemma ThirtyDaysFallBehind(y: int, v: Visit)
    requires !IsLeap(y) && DayOf(v.today) == DateDay(Civil(y, 1, 31))
    requires ParseDuration(v.cfg.renewWithin) == Ok(Parsed(1, "M")) && ParseDuration(v.cfg.extendFor) == Ok(Parsed(30, "D"))
    ensures !KeepsUp(v)
    ensures Armed(v) ==> EndDay(AtEdge(v)) == DateDay(Civil(y, 3, 3)) && EndDay(Attempt(AtEdge(v), v)) == DateDay(Civil(y, 3, 2))
  {
    var jan31 := DayOf(v.today);
    DayAwayIs(jan31, v.cfg.renewWithin, Parsed(1, "M"));
    DayAwayIs(jan31, v.cfg.extendFor, Parsed(30, "D"));
    FromJanuary(y);
    if Armed(v) {
      AtEdgeRenews(v);
    }
  }

  lemma FromJanuary(y: int)
    requires !IsLeap(y)
    ensures var jan31 := DateDay(Civil(y, 1, 31));
            && AddDate(jan31, 0, 1, 0) == DateDay(Civil(y, 3, 3))
            && AddDate(jan31, 0, 0, 30) == DateDay(Civil(y, 3, 2))
            && AddDate(jan31, 0, 0, 30) < AddDate(jan31, 0, 1, 0)
  {
    var jan31 := DateDay(Civil(y, 1, 31));
    assert AddDate(jan31, 0, 1, 0) == DateDay(Civil(y, 3, 3)) by { BaseOrderBroken(y); }
    assert AddDate(jan31, 0, 0, 30) == DateDay(Civil(y, 3, 2)) by { ThirtyDaysOn(y); }
    NextDay(y, 3, 2);
  }

  lemma NextDay(y: int, m: int, d: int)
    ensures DateDay(Civil(y, m, d + 1)) == DateDay(Civil(y, m, d)) + 1
  {
  }

  lemma DayAwayIs(day: int, text: string, d: Parsed)
    requires ParseDuration(text) == Ok(d) && (d.period == "D" || d.period == "M")
    ensures DayAway(day, text, 1) == Some(if d.period == "D" then AddDate(day, 0, 0, d.value) else AddDate(day, 0, d.value, 0))
  {
  }

  lemma ThirtyDaysOn(y: int)
    requires !IsLeap(y)
    ensures AddDate(DateDay(Civil(y, 1, 31)), 0, 0, 30) == DateDay(Civil(y, 3, 2))
  {
    AddDateIs(DateDay(Civil(y, 1, 31)), 0, 0, 30);
    MonthsInYear(y, 2);
  }

  // ---------------------------------------------------------------------------------------
  // RollingRenewalConfig.Validate

  predicate Validates(cfg: Config) {
    !cfg.enabled
    || (&& cfg.renewWithin != "" && ParseDuration(cfg.renewWithin).Ok?
        && cfg.extendFor != "" && ParseDuration(cfg.extendFor).Ok?
        && (cfg.extendExpiredLimits != "" ==> ParseDuration(cfg.extendExpiredLimits).Ok?)
        && (cfg.selectPatrons ==> |cfg.allowedPatrons| > 0))
  }

  predicate Failed(r: Reason) {
    r.LimitFailed? || r.WindowFailed?
  }

  /**
   Among enabled configurations the accepted ones are those that can select somebody, have a
   usable new expiration, and would never run into an unusable duration were extendExpired
   on: extendExpiredLimits is checked also where extendExpired leaves it unread.
   */
  lemma ValidatesIff(cfg: Config, today: Instant)
    requires cfg.enabled
    ensures Validates(cfg) <==>
            && (exists u: User :: ShouldRenew(u, cfg, today).Eligible?)
            && (forall u: User :: !Failed(ShouldRenew(u, cfg.(extendExpired := true), today)))
            && CalculateNewExpiration(today, cfg).Ok?
    ensures Validates(cfg) ==> forall u: User :: !Failed(ShouldRenew(u, cfg, today))
  {
    if Validates(cfg) {
      AcceptedWorks(cfg, today);
    } else if exists u: User :: ShouldRenew(u, cfg, today).Eligible? {
      var u: User :| ShouldRenew(u, cfg, today).Eligible?;
      RefusedFails(cfg, today, u);
    }
  }

  lemma AcceptedWorks(cfg: Config, today: Instant)
    requires cfg.enabled && Validates(cfg)
    ensures exists u: User :: ShouldRenew(u, cfg, today).Eligible?
    ensures forall u: User :: !Failed(ShouldRenew(u, cfg, today))
    ensures forall u: User :: !Failed(ShouldRenew(u, cfg.(extendExpired := true), today))
    ensures CalculateNewExpiration(today, cfg).Ok?
  {
    SomebodyEligible(cfg, today);
    NewExpirationDay(Visit(cfg, today, true));
    forall u: User ensures !Failed(ShouldRenew(u, cfg, today)) { NeverFails(u, cfg, today); }
    var on := cfg.(extendExpired := true);
    forall u: User ensures !Failed(ShouldRenew(u, on, today)) { NeverFails(u, on, today); }
  }

  lemma SomebodyEligible(cfg: Config, today: Instant)
    requires cfg.enabled && Validates(cfg)
    ensures exists u: User :: ShouldRenew(u, cfg, today).Eligible?
  {
    var v := Visit(cfg.(dryRun := false), today, true);
    AtEdgeRenews(v);
    SameDecision(AtEdge(v), cfg, today);
  }

  lemma NeverFails(u: User, cfg: Config, today: Instant)
    requires cfg.enabled && Validates(cfg)
    ensures !Failed(ShouldRenew(u, cfg, today))
  {
  }

  lemma RefusedFails(cfg: Config, today: Instant, u: User)
    requires cfg.enabled && !Validates(cfg) && ShouldRenew(u, cfg, today).Eligible?
    ensures CalculateNewExpiration(today, cfg).Err?
            || exists gone: User :: Failed(ShouldRenew(gone, cfg.(extendExpired := true), today))
  {
    NewExpirationDay(Visit(cfg, today, true));
    EligibleIff(u, cfg, today);
    if cfg.extendExpiredLimits != "" && ParseDuration(cfg.extendExpiredLimits).Err? {
      LimitIsRead(u, cfg.(extendExpired := true), today);
    }
  }

  lemma SameDecision(u: User, cfg: Config, today: Instant)
    ensures ShouldRenew(u, cfg, today).Eligible? <==> ShouldRenew(u, cfg.(dryRun := false), today).Eligible?
  {
  }

  /** The same patron, expired the day before, runs into the unusable limit. */
  lemma LimitIsRead(u: User, cfg: Config, today: Instant)
    requires cfg.enabled && cfg.extendExpired && (cfg.selectPatrons ==> u.group in cfg.allowedPatrons)
    requires cfg.extendExpiredLimits != "" && ParseDuration(cfg.extendExpiredLimits).Err?
    ensures exists gone: User :: Failed(ShouldRenew(gone, cfg, today))
  {
    var gone := u.(expiration := Some(Midnight(DayOf(today) - 1)));
    MidnightOrder(0, DayOf(today) - 1);
    ExpiredByDate(gone.expiration.value, today);
    assert Failed(ShouldRenew(gone, cfg, today));
  }
}
