/**
 internal/config/duration.go: amounts of days, months or years written as "6M", "30D", "1Y".
 */
module Duration {
  import opened Outcome
  import opened Text

  // The largest Go int on a 64-bit platform; strconv.Atoi refuses anything above it.
  const MAX_INT: int := 0x7FFF_FFFF_FFFF_FFFF

  datatype Parsed = Parsed(value: int, period: string)

  datatype DurationError = Empty | BadFormat | BadNumber | NotPositive

  predicate IsPeriod(p: string) {
    p == "D" || p == "M" || p == "Y"
  }

  predicate IsDigit(c: char) {
    '0' <= c <= '9'
  }

  predicate AllDigits(s: string) {
    forall k :: 0 <= k < |s| ==> IsDigit(s[k])
  }

  predicate IsPeriodLetter(c: char) {
    c == 'M' || c == 'D' || c == 'Y' || c == 'm' || c == 'd' || c == 'y'
  }

  function Upper(c: char): char
    requires IsPeriodLetter(c)
  {
    match c
    case 'm' => 'M'
    case 'd' => 'D'
    case 'y' => 'Y'
    case _ => c
  }

  /** What `^(\d+)([MDYmdy])$` accepts. */
  predicate Matches(s: string) {
    2 <= |s| && AllDigits(s[..|s| - 1]) && IsPeriodLetter(s[|s| - 1])
  }

  function Number(digits: string): nat
    requires AllDigits(digits)
  {
    if digits == "" then 0
    else
      var last := |digits| - 1;
      Number(digits[..last]) * 10 + (digits[last] - '0') as nat
  }

  function ParseDuration(s: string): (r: Result<Parsed, DurationError>)
    ensures r.Ok? ==> 0 < r.value.value <= MAX_INT && IsPeriod(r.value.period)
  {
    if s == "" then Err(Empty)
    else
      var t := TrimSpace(s);
      if !Matches(t) then Err(BadFormat)
      else
        var value := Number(t[..|t| - 1]);
        if value > MAX_INT then Err(BadNumber)
        else if value <= 0 then Err(NotPositive)
        else Ok(Parsed(value, [Upper(t[|t| - 1])]))
  }

  function Decimal(n: nat): (s: string)
    ensures |s| > 0 && AllDigits(s)
  {
    if n < 10 then [n as char + '0'] else Decimal(n / 10) + [(n % 10) as char + '0']
  }

  /** ParsedDuration.String */
  function Show(d: Parsed): string {
    (if d.value < 0 then "-" + Decimal(0 - d.value) else Decimal(d.value)) + d.period
  }

  lemma {:induction false} DecimalReadsBack(n: nat)
    ensures Number(Decimal(n)) == n
  {
    var s := Decimal(n);
    if n < 10 {
      assert s[..0] == "";
    } else {
      DecimalReadsBack(n / 10);
      assert s[..|s| - 1] == Decimal(n / 10);
    }
  }

  /** The text of a positive duration is already trimmed and of the accepted form. */
  lemma ShownForm(d: Parsed)
    requires 0 < d.value && IsPeriod(d.period)
    ensures var t := Show(d);
            t != "" && TrimSpace(t) == t && Matches(t) && t[..|t| - 1] == Decimal(d.value) && t[|t| - 1..] == d.period
  {
  }

  /** Exactly the durations with a positive 64-bit amount and a known period survive printing and parsing. */
  lemma PrintParseIff(d: Parsed)
    ensures ParseDuration(Show(d)) == Ok(d) <==> 0 < d.value <= MAX_INT && IsPeriod(d.period)
  {
    if 0 < d.value <= MAX_INT && IsPeriod(d.period) {
      ShownForm(d);
      DecimalReadsBack(d.value);
      var t := Show(d);
      assert [Upper(t[|t| - 1])] == d.period;
    }
  }

  /** Parsing, printing and parsing again is parsing: printing is a normal form of every accepted text. */
  lemma PrintNormalises(s: string)
    ensures match ParseDuration(s)
            case Ok(d) => ParseDuration(Show(d)) == ParseDuration(s)
            case Err(_) => true
  {
    match ParseDuration(s)
    case Ok(d) => PrintParseIff(d);
    case Err(_) =>
  }
}
