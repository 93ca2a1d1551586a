/**
 internal/helpers/utils.go: the sanitizers that keep FOLIO data from breaking the
 line-oriented, delimiter-separated wire format.
 */
module Sanitize {
  import opened Text

  /** isControlRune: C0 controls and DEL. */
  predicate IsControl(c: char) {
    c <= '\U{001F}' || c == '\U{007F}'
  }

  predicate IsGap(c: char) {
    c == ' ' || IsControl(c)
  }

  predicate AllGap(s: string) {
    forall i :: 0 <= i < |s| ==> IsGap(s[i])
  }

  predicate AllInk(s: string) {
    forall i :: 0 <= i < |s| ==> !IsGap(s[i])
  }

  predicate HasControl(s: string) {
    exists i :: 0 <= i < |s| && IsControl(s[i])
  }

  // ---------------------------------------------------------------------------------------
  // The declarative form: a value is an alternation of ink and gaps (spaces and controls).

  datatype Block = Ink(t: string) | Gap(t: string)

  predicate WellFormed(b: Block) {
    b.t != "" && if b.Ink? then AllInk(b.t) else AllGap(b.t)
  }

  /** The blocks are maximal: ink and gaps alternate. */
  predicate Blocked(bs: seq<Block>) {
    && (forall k :: 0 <= k < |bs| ==> WellFormed(bs[k]))
    && (forall k {:trigger bs[k]} :: 0 < k < |bs| ==> bs[k - 1].Ink? != bs[k].Ink?)
  }

  function Flatten(bs: seq<Block>): string {
    if bs == [] then "" else bs[0].t + Flatten(bs[1..])
  }

  function RunLength(s: string, gap: bool): (n: nat)
    ensures n <= |s|
    ensures forall i :: 0 <= i < n ==> IsGap(s[i]) == gap
    ensures n < |s| ==> IsGap(s[n]) != gap
  {
    if s != "" && IsGap(s[0]) == gap then 1 + RunLength(s[1..], gap) else 0
  }

  function FirstBlock(s: string): (b: Block)
    requires s != ""
    ensures WellFormed(b) && |b.t| <= |s| && b.Gap? == IsGap(s[0])
  {
    var gap := IsGap(s[0]);
    var n := RunLength(s, gap);
    if gap then Gap(s[..n]) else Ink(s[..n])
  }

  function Blocks(s: string): seq<Block>
    decreases |s|
  {
    if s == "" then [] else [FirstBlock(s)] + Blocks(s[|FirstBlock(s).t|..])
  }

  /** A gap holding a control shrinks to one space between ink, and vanishes at either end. */
  function TidyFrom(bs: seq<Block>, first: bool): seq<Block> {
    if bs == [] then []
    else if bs[0].Gap? && HasControl(bs[0].t) then
      (if first || |bs| == 1 then [] else [Gap(" ")]) + TidyFrom(bs[1..], false)
    else [bs[0]] + TidyFrom(bs[1..], false)
  }

  function Tidy(bs: seq<Block>): seq<Block> {
    TidyFrom(bs, true)
  }

  /** What SanitizeString must return. */
  function Sanitized(s: string): string {
    Flatten(Tidy(Blocks(s)))
  }

  /** The first block is a maximal piece of the value. */
  lemma FirstBlockCuts(s: string)
    requires s != ""
    ensures var n := |FirstBlock(s).t|;
            && s == FirstBlock(s).t + s[n..]
            && (n < |s| ==> IsGap(s[n..][0]) != FirstBlock(s).Gap?)
  {
    var n := |FirstBlock(s).t|;
    assert s == s[..n] + s[n..];
  }

  lemma BlockedCons(b: Block, rest: seq<Block>)
    requires WellFormed(b) && Blocked(rest) && (rest != [] ==> rest[0].Ink? != b.Ink?)
    ensures Blocked([b] + rest)
  {
    var bs := [b] + rest;
    forall k | 0 < k < |bs| ensures bs[k - 1].Ink? != bs[k].Ink? {
      assert bs[k] == rest[k - 1];
      if k > 1 { assert bs[k - 1] == rest[k - 2] && rest[k - 1].Ink? != rest[k - 2].Ink?; }
    }
  }

  lemma {:induction false} BlocksDecompose(s: string)
    ensures Blocked(Blocks(s)) && Flatten(Blocks(s)) == s
    ensures s != "" ==> Blocks(s) != [] && Blocks(s)[0].Gap? == IsGap(s[0])
    decreases |s|
  {
    if s != "" {
      var b := FirstBlock(s);
      var rest := s[|b.t|..];
      FirstBlockCuts(s);
      BlocksDecompose(rest);
      BlockedCons(b, Blocks(rest));
      FlattenCons(b, Blocks(rest));
    }
  }

  lemma FlattenCons(b: Block, rest: seq<Block>)
    ensures Flatten([b] + rest) == b.t + Flatten(rest)
  {
    assert ([b] + rest)[1..] == rest;
  }

  lemma {:induction false} FlattenStart(bs: seq<Block>)
    requires Blocked(bs) && bs != []
    ensures Flatten(bs) != "" && Flatten(bs)[0] == bs[0].t[0] && IsGap(Flatten(bs)[0]) == bs[0].Gap?
  {
  }

  lemma {:induction false} RunLengthIs(t: string, rest: string, gap: bool)
    requires forall i :: 0 <= i < |t| ==> IsGap(t[i]) == gap
    requires rest != "" ==> IsGap(rest[0]) != gap
    ensures RunLength(t + rest, gap) == |t|
    decreases |t|
  {
    if t == "" {
      assert t + rest == rest;
    } else {
      assert (t + rest)[1..] == t[1..] + rest;
      RunLengthIs(t[1..], rest, gap);
    }
  }

  lemma OneBlock(b: Block, rest: string)
    requires WellFormed(b) && (rest != "" ==> IsGap(rest[0]) != b.Gap?)
    ensures Blocks(b.t + rest) == [b] + Blocks(rest)
  {
    var s := b.t + rest;
    assert s[0] == b.t[0];
    RunLengthIs(b.t, rest, b.Gap?);
    assert s[..|b.t|] == b.t && s[|b.t|..] == rest;
    assert FirstBlock(s) == b;
  }

  lemma BlockedTail(bs: seq<Block>)
    requires Blocked(bs) && bs != []
    ensures Blocked(bs[1..]) && WellFormed(bs[0])
    ensures |bs| > 1 ==> bs[0].Ink? != bs[1..][0].Ink?
  {
  }

  /** There is only one way to cut a value into maximal blocks. */
  lemma {:induction false} BlocksUnique(bs: seq<Block>)
    requires Blocked(bs)
    ensures Blocks(Flatten(bs)) == bs
  {
    if bs != [] {
      BlockedTail(bs);
      BlocksUnique(bs[1..]);
      if |bs| > 1 { FlattenStart(bs[1..]); }
      OneBlock(bs[0], Flatten(bs[1..]));
    }
  }

  // ---------------------------------------------------------------------------------------
  // The scanner.

  datatype Scan = Scan(result: string, pending: bool)

  function DropSpaces(s: string): string {
    if s != "" && s[|s| - 1] == ' ' then DropSpaces(s[..|s| - 1]) else s
  }

  function Step(st: Scan, c: char): Scan {
    if IsControl(c) then Scan(if st.pending then st.result else DropSpaces(st.result), true)
    else if st.pending && c == ' ' then st
    else Scan((if st.pending then Separated(st.result) else st.result) + [c], false)
  }

  function Separated(r: string): string {
    if r == "" then "" else r + " "
  }

  function ScanAll(st: Scan, s: string): Scan
    decreases |s|
  {
    if s == "" then st else ScanAll(Step(st, s[0]), s[1..])
  }

  lemma {:induction false} ScanAppend(st: Scan, a: string, b: string)
    ensures ScanAll(st, a + b) == ScanAll(ScanAll(st, a), b)
    decreases |a|
  {
    if a == "" {
      assert a + b == b;
    } else {
      assert (a + b)[1..] == a[1..] + b;
      ScanAppend(Step(st, a[0]), a[1..], b);
    }
  }

  lemma {:induction false} ScanInk(r: string, t: string)
    requires AllInk(t)
    ensures ScanAll(Scan(r, false), t) == Scan(r + t, false)
    decreases |t|
  {
    if t == "" {
      assert r + t == r;
    } else {
      ScanInk(r + [t[0]], t[1..]);
      assert r + t == r + [t[0]] + t[1..];
    }
  }

  lemma {:induction false} ScanPendingGap(r: string, g: string)
    requires AllGap(g)
    ensures ScanAll(Scan(r, true), g) == Scan(r, true)
    decreases |g|
  {
    if g != "" {
      ScanPendingGap(r, g[1..]);
    }
  }

  function Spaces(n: nat): (s: string)
    ensures |s| == n && forall i :: 0 <= i < n ==> s[i] == ' '
  {
    seq(n, _ => ' ')
  }

  lemma {:induction false} DropSpacesStops(r: string, n: nat)
    requires r == "" || r[|r| - 1] != ' '
    ensures DropSpaces(r + Spaces(n)) == r
  {
    if n == 0 {
      assert r + Spaces(0) == r;
    } else {
      var s := r + Spaces(n);
      assert s[..|s| - 1] == r + Spaces(n - 1);
      DropSpacesStops(r, n - 1);
    }
  }

  /** A gap seen after `k` spaces of its own block: spaces pile up until the first control. */
  lemma {:induction false} ScanGap(r: string, k: nat, g: string)
    requires AllGap(g) && (r == "" || r[|r| - 1] != ' ')
    ensures ScanAll(Scan(r + Spaces(k), false), g)
         == if HasControl(g) then Scan(r, true) else Scan(r + Spaces(k) + g, false)
    decreases |g|
  {
    if g == "" {
      assert r + Spaces(k) + g == r + Spaces(k);
    } else if IsControl(g[0]) {
      DropSpacesStops(r, k);
      ScanPendingGap(r, g[1..]);
    } else {
      assert HasControl(g) <==> HasControl(g[1..]) by {
        if HasControl(g) {
          var i :| 0 <= i < |g| && IsControl(g[i]);
          assert IsControl(g[1..][i - 1]);
        }
        if HasControl(g[1..]) {
          var i :| 0 <= i < |g| - 1 && IsControl(g[1..][i]);
          assert IsControl(g[i + 1]);
        }
      }
      assert r + Spaces(k) + [g[0]] == r + Spaces(k + 1);
      assert r + Spaces(k) + g == r + Spaces(k + 1) + g[1..];
      ScanGap(r, k + 1, g[1..]);
    }
  }

  /** Scanning from a gap emits exactly the tidied blocks. */
  lemma {:induction false} ScanFromGap(r: string, bs: seq<Block>)
    requires Blocked(bs) && bs != [] && bs[0].Gap?
    requires r == "" || r[|r| - 1] != ' '
    ensures ScanAll(Scan(r, false), Flatten(bs)).result == r + Flatten(TidyFrom(bs, r == ""))
    decreases |bs|
  {
    var g, rest := bs[0], bs[1..];
    assert WellFormed(g) && Blocked(rest);
    var st := if HasControl(g.t) then Scan(r, true) else Scan(r + g.t, false);
    ScanAppend(Scan(r, false), g.t, Flatten(rest));
    assert ScanAll(Scan(r, false), g.t) == st by {
      ScanGap(r, 0, g.t);
      assert r + Spaces(0) == r;
    }
    if rest == [] {
      assert Flatten(bs) == g.t + "" == g.t;
      assert Flatten([g]) == g.t + "";
    } else {
      assert bs[0].Ink? != bs[1].Ink?;
      ScanFromInk(st, rest);
      assert bs == [g] + rest;
      TidyLead(g, rest, r == "");
      var tail := Flatten(TidyFrom(rest, false));
      Assoc(r, g.t, tail);
      Assoc(r, " ", tail);
    }
  }

  /** Scanning from ink first settles the pending gap. */
  lemma {:induction false} ScanFromInk(st: Scan, bs: seq<Block>)
    requires Blocked(bs) && bs != [] && bs[0].Ink?
    ensures ScanAll(st, Flatten(bs)).result
         == (if st.pending then Separated(st.result) else st.result) + Flatten(TidyFrom(bs, false))
    decreases |bs|
  {
    var b, rest := bs[0], bs[1..];
    assert WellFormed(b) && Blocked(rest);
    var base := if st.pending then Separated(st.result) else st.result;
    ScanAppend(st, b.t, Flatten(rest));
    ScanInkFrom(st, b.t);
    assert TidyFrom(bs, false)[1..] == TidyFrom(rest, false);
    if rest != [] {
      assert bs[0].Ink? != bs[1].Ink?;
      LastOf(base, b.t);
      ScanFromGap(base + b.t, rest);
    }
    Assoc(base, b.t, Flatten(TidyFrom(rest, false)));
  }

  lemma LastOf(base: string, t: string)
    requires t != ""
    ensures (base + t)[|base + t| - 1] == t[|t| - 1]
  {
  }

  lemma TidyFirstInk(bs: seq<Block>)
    ensures bs != [] && bs[0].Ink? ==> TidyFrom(bs, true) == TidyFrom(bs, false)
  {
  }

  lemma ScanInkFrom(st: Scan, t: string)
    requires AllInk(t) && t != ""
    ensures ScanAll(st, t) == Scan((if st.pending then Separated(st.result) else st.result) + t, false)
  {
    var base := if st.pending then Separated(st.result) else st.result;
    ScanInk(base + [t[0]], t[1..]);
    Assoc(base, [t[0]], t[1..]);
    assert [t[0]] + t[1..] == t;
  }

  lemma TidyLead(g: Block, rest: seq<Block>, first: bool)
    requires g.Gap? && rest != []
    ensures Flatten(TidyFrom([g] + rest, first))
         == (if HasControl(g.t) then (if first then "" else " ") else g.t) + Flatten(TidyFrom(rest, false))
  {
    var bs := [g] + rest;
    assert bs[1..] == rest;
    var t := TidyFrom(rest, false);
    if HasControl(g.t) {
      if first {
        assert TidyFrom(bs, first) == [] + t == t;
      } else {
        assert ([Gap(" ")] + t)[1..] == t;
      }
    } else {
      assert ([g] + t)[1..] == t;
    }
  }

  /** SanitizeString, as the loop over `result`, `inRun` and `pendingSep`. */
  method SanitizeString(s: string) returns (r: string)
    ensures r == Sanitized(s)
  {
    var result, inRun, pendingSep := "", false, false;
    for i := 0 to |s|
      invariant inRun == pendingSep
      invariant ScanAll(Scan(result, inRun), s[i..]) == ScanAll(Scan("", false), s)
    {
      var c := s[i];
      assert s[i..][1..] == s[i + 1..];
      if IsControl(c) {
        if !inRun {
          ghost var before := result;
          while |result| > 0 && result[|result| - 1] == ' '
            invariant DropSpaces(result) == DropSpaces(before)
          {
            result := result[..|result| - 1];
          }
          inRun := true;
          pendingSep := true;
        }
        continue;
      }
      if inRun {
        if c == ' ' { continue; }
        inRun := false;
      }
      if pendingSep {
        pendingSep := false;
        if |result| > 0 { result := result + [' ']; }
      }
      result := result + [c];
    }
    r := result;
    BlocksDecompose(s);
    if s != "" {
      if Blocks(s)[0].Gap? { ScanFromGap("", Blocks(s)); } else { ScanFromInk(Scan("", false), Blocks(s)); }
    }
    TidyFirstInk(Blocks(s));
  }

  // ---------------------------------------------------------------------------------------
  // What the sanitizer guarantees.

  predicate ControlFree(s: string) {
    !HasControl(s)
  }

  /** The blocks after tidying: no control left, ink untouched, still maximal. */
  predicate IsTidy(bs: seq<Block>) {
    forall k :: 0 <= k < |bs| ==> ControlFree(bs[k].t)
  }

  function InkOf(bs: seq<Block>): seq<string> {
    if bs == [] then [] else (if bs[0].Ink? then [bs[0].t] else []) + InkOf(bs[1..])
  }

  /** What the tidied blocks begin with. */
  lemma TidyStart(bs: seq<Block>, first: bool)
    requires bs != []
    ensures var t := TidyFrom(bs, first);
            && (bs[0].Ink? ==> t == [bs[0]] + TidyFrom(bs[1..], false))
            && (bs[0].Gap? && !HasControl(bs[0].t) ==> t == [bs[0]] + TidyFrom(bs[1..], false))
            && (bs[0].Gap? && HasControl(bs[0].t) && (first || |bs| == 1) ==> t == TidyFrom(bs[1..], false))
            && (bs[0].Gap? && HasControl(bs[0].t) && !first && |bs| > 1 ==> t == [Gap(" ")] + TidyFrom(bs[1..], false))
  {
  }

  lemma {:induction false} TidyBlocked(bs: seq<Block>, first: bool)
    requires Blocked(bs)
    ensures Blocked(TidyFrom(bs, first))
    ensures TidyFrom(bs, first) != [] && !(first && |bs| > 1) ==> bs != [] && TidyFrom(bs, first)[0].Ink? == bs[0].Ink?
    ensures IsTidy(TidyFrom(bs, first)) && InkOf(TidyFrom(bs, first)) == InkOf(bs)
  {
    if bs != [] {
      var rest := bs[1..];
      BlockedTail(bs);
      TidyBlocked(rest, false);
      TidyStart(bs, first);
      var t := TidyFrom(rest, false);
      if bs[0].Gap? && HasControl(bs[0].t) {
        if !first && |bs| > 1 { TidyCons(Gap(" "), t); }
      } else {
        TidyCons(bs[0], t);
      }
    }
  }

  lemma TidyCons(b: Block, t: seq<Block>)
    requires WellFormed(b) && ControlFree(b.t) && Blocked(t) && IsTidy(t) && (t != [] ==> t[0].Ink? != b.Ink?)
    ensures Blocked([b] + t) && IsTidy([b] + t)
    ensures InkOf([b] + t) == (if b.Ink? then [b.t] else []) + InkOf(t)
  {
    BlockedCons(b, t);
    assert ([b] + t)[1..] == t;
  }

  lemma {:induction false} TidyIdentity(bs: seq<Block>, first: bool)
    requires IsTidy(bs)
    ensures TidyFrom(bs, first) == bs
  {
    if bs != [] {
      assert ControlFree(bs[0].t);
      TidyIdentity(bs[1..], false);
    }
  }

  lemma {:induction false} FlattenTidyIff(bs: seq<Block>)
    ensures ControlFree(Flatten(bs)) <==> IsTidy(bs)
  {
    if bs != [] {
      FlattenTidyIff(bs[1..]);
      var h, t := bs[0].t, Flatten(bs[1..]);
      assert HasControl(h + t) <==> HasControl(h) || HasControl(t) by {
        if HasControl(h) {
          var i :| 0 <= i < |h| && IsControl(h[i]);
          assert IsControl((h + t)[i]);
        }
        if HasControl(t) {
          var i :| 0 <= i < |t| && IsControl(t[i]);
          assert IsControl((h + t)[|h| + i]);
        }
        if HasControl(h + t) {
          var i :| 0 <= i < |h + t| && IsControl((h + t)[i]);
          if i < |h| { assert IsControl(h[i]); } else { assert IsControl(t[i - |h|]); }
        }
      }
      assert IsTidy(bs) <==> ControlFree(h) && IsTidy(bs[1..]) by {
        if ControlFree(h) && IsTidy(bs[1..]) {
          forall k | 0 <= k < |bs| ensures ControlFree(bs[k].t) {
            if k > 0 { assert bs[k] == bs[1..][k - 1]; }
          }
        }
      }
    }
  }

  /**
   For every cut of `s` into maximal blocks, the result has no control character, cuts into
   the tidied blocks, and carries exactly the ink of `s`, in order.
   */
  lemma SanitizedBlockwise(s: string, bs: seq<Block>)
    requires Blocked(bs) && Flatten(bs) == s
    ensures Sanitized(s) == Flatten(Tidy(bs)) && Blocks(Sanitized(s)) == Tidy(bs)
    ensures ControlFree(Sanitized(s))
    ensures InkOf(Blocks(Sanitized(s))) == InkOf(bs)
  {
    BlocksUnique(bs);
    TidyBlocked(bs, true);
    BlocksUnique(Tidy(bs));
    FlattenTidyIff(Tidy(bs));
  }

  /** Clean values pass through, and only clean values do. */
  lemma SanitizedIdentityIff(s: string)
    ensures Sanitized(s) == s <==> ControlFree(s)
  {
    BlocksDecompose(s);
    SanitizedBlockwise(s, Blocks(s));
    if ControlFree(s) {
      FlattenTidyIff(Blocks(s));
      TidyIdentity(Blocks(s), true);
    }
  }

  lemma SanitizedIdempotent(s: string)
    ensures Sanitized(Sanitized(s)) == Sanitized(s)
  {
    BlocksDecompose(s);
    SanitizedBlockwise(s, Blocks(s));
    SanitizedIdentityIff(Sanitized(s));
  }

  // ---------------------------------------------------------------------------------------
  // Field values: the delimiter goes first, then the controls.

  function SanitizeFieldValue(value: string, delim: string): string {
    Sanitized(if delim != "" then ReplaceAll(value, delim, " ") else value)
  }

  /** A space between two texts separates the occurrences of space-free text. */
  lemma SpaceSeparates(a: string, b: string, d: string, j: nat)
    requires d != "" && ' ' !in d
    ensures OccursAt(a + " " + b, d, j) ==> if j < |a| then OccursAt(a, d, j) else j > |a| && OccursAt(b, d, j - |a| - 1)
  {
    var s := a + " " + b;
    if OccursAt(s, d, j) {
      OccursElems(s, d, j);
      OccursElem(s, d, j, |a| - j);
      assert s[|a|] == ' ';
      if j < |a| {
        ElemsOccur(a, d, j);
      } else {
        assert j != |a|;
        forall k | 0 <= k < |d| ensures b[j - |a| - 1 + k] == d[k] {
          assert s[j + k] == d[k];
        }
        ElemsOccur(b, d, j - |a| - 1);
      }
    }
  }

  lemma OccursInWhole(s: string, d: string, i: nat, j: nat)
    requires i <= |s|
    ensures OccursAt(s[..i], d, j) ==> OccursAt(s, d, j)
  {
    if OccursAt(s[..i], d, j) {
      assert s[..i][j..j + |d|] == s[j..j + |d|];
    }
  }

  lemma ReplaceFirst(s: string, d: string)
    requires d != ""
    ensures var i := Index(s, d);
            ReplaceAll(s, d, " ") == if i == -1 then s else s[..i] + " " + ReplaceAll(s[i + |d|..], d, " ")
  {
  }

  lemma NoneAcross(a: string, b: string, d: string, j: nat)
    requires d != "" && ' ' !in d
    requires if j < |a| then !OccursAt(a, d, j) else j > |a| ==> !OccursAt(b, d, j - |a| - 1)
    ensures !OccursAt(a + " " + b, d, j)
  {
    SpaceSeparates(a, b, d, j);
  }

  lemma FirstRemoved(s: string, d: string, r: string, tail: string, j: nat)
    requires d != "" && ' ' !in d && Contains(s, d) && r == s[..Index(s, d)] + " " + tail
    requires j > Index(s, d) ==> !OccursAt(tail, d, j - Index(s, d) - 1)
    ensures !OccursAt(r, d, j)
  {
    OccursInWhole(s, d, Index(s, d), j);
    NoneAcross(s[..Index(s, d)], tail, d, j);
  }

  lemma NothingToRemove(s: string, d: string, j: nat)
    requires d != "" && !Contains(s, d)
    ensures !OccursAt(ReplaceAll(s, d, " "), d, j)
  {
    ReplaceAllAbsent(s, d);
  }

  lemma ReplaceTail(s: string, d: string) returns (tail: string)
    requires d != "" && Contains(s, d)
    ensures tail == ReplaceAll(s[Index(s, d) + |d|..], d, " ")
    ensures ReplaceAll(s, d, " ") == s[..Index(s, d)] + " " + tail
  {
    tail := ReplaceAll(s[Index(s, d) + |d|..], d, " ");
  }

  lemma {:induction false} ReplaceAllRemoves(s: string, d: string, r: string, j: nat)
    requires d != "" && ' ' !in d && r == ReplaceAll(s, d, " ")
    ensures !OccursAt(r, d, j)
    decreases |s|
  {
    if Contains(s, d) {
      var i := Index(s, d);
      var tail := ReplaceTail(s, d);
      if j > i { ReplaceAllRemoves(s[i + |d|..], d, tail, j - i - 1); }
      FirstRemoved(s, d, r, tail, j);
    } else {
      NothingToRemove(s, d, j);
    }
  }

  /** Ink-only text occurs in a value exactly when it occurs inside one of its ink blocks. */
  lemma {:induction false} InkOccurs(bs: seq<Block>, d: string, j: nat)
    requires Blocked(bs) && d != "" && AllInk(d) && OccursAt(Flatten(bs), d, j)
    ensures exists t, i: nat :: t in InkOf(bs) && OccursAt(t, d, i)
  {
    var h, rest := bs[0].t, bs[1..];
    var s := Flatten(bs);
    assert WellFormed(bs[0]) && Blocked(rest);
    assert s == h + Flatten(rest);
    OccursElems(s, d, j);
    if rest != [] {
      assert bs[0].Ink? != bs[1].Ink?;
      FlattenStart(rest);
      assert s[|h|] == Flatten(rest)[0];
    }
    if j >= |h| {
      ElemsOccur(Flatten(rest), d, j - |h|);
      InkOccurs(rest, d, j - |h|);
      var t, i: nat :| t in InkOf(rest) && OccursAt(t, d, i);
      assert t in InkOf(bs);
    } else {
      assert s[j] == h[j] && s[j + 0] == d[0];
      OccursElem(s, d, j, |h| - j);
      ElemsOccur(h, d, j);
      assert h in InkOf(bs);
    }
  }

  lemma {:induction false} InkInside(bs: seq<Block>, d: string, t: string, i: nat)
    requires t in InkOf(bs) && OccursAt(t, d, i)
    ensures Contains(Flatten(bs), d)
  {
    var h, tail, s := bs[0].t, Flatten(bs[1..]), Flatten(bs);
    if bs[0].Ink? && t == h {
      OccursElems(h, d, i);
      ElemsOccur(s, d, i);
    } else {
      InkInside(bs[1..], d, t, i);
      var k := Index(tail, d);
      OccursElems(tail, d, k);
      ElemsOccur(s, d, |h| + k);
    }
  }

  /**
   A sanitized field value holds no control character and, when the delimiter has no space
   in it, no delimiter: no value can add a separator or break the line.
   */
  lemma FieldValueIsSafe(value: string, delim: string)
    ensures ControlFree(SanitizeFieldValue(value, delim))
    ensures delim != "" && ' ' !in delim ==> !Contains(SanitizeFieldValue(value, delim), delim)
  {
    var v := if delim != "" then ReplaceAll(value, delim, " ") else value;
    BlocksDecompose(v);
    SanitizedBlockwise(v, Blocks(v));
    if delim != "" && ' ' !in delim {
      forall j: nat { ReplaceAllRemoves(value, delim, ReplaceAll(value, delim, " "), j); }
      SanitizedAddsNoText(v, delim);
    }
  }

  /** Space-free text that does not occur in a value does not occur in the sanitized value. */
  lemma SanitizedAddsNoText(v: string, d: string)
    requires d != "" && ' ' !in d && !Contains(v, d)
    ensures !Contains(Sanitized(v), d)
  {
    BlocksDecompose(v);
    var bs := Blocks(v);
    SanitizedBlockwise(v, bs);
    var r := Sanitized(v);
    var j := Index(r, d);
    if j != -1 {
      OccursElems(r, d, j);
      assert AllInk(d) by {
        forall k | 0 <= k < |d| ensures !IsGap(d[k]) {
          assert !IsControl(r[j + k]);
        }
      }
      TidyBlocked(bs, true);
      InkOccurs(Tidy(bs), d, j);
      var t, i: nat :| t in InkOf(Tidy(bs)) && OccursAt(t, d, i);
      InkInside(bs, d, t, i);
    }
  }

  /** Values with neither a control nor the delimiter are sent byte for byte. */
  lemma FieldValueIdentity(value: string, delim: string)
    requires ControlFree(value) && (delim != "" ==> !Contains(value, delim))
    ensures SanitizeFieldValue(value, delim) == value
  {
    SanitizedIdentityIff(value);
  }

  lemma ReplaceAllAbsent(s: string, d: string)
    requires d != "" && !Contains(s, d)
    ensures ReplaceAll(s, d, " ") == s
  {
  }

  /** A value in which the delimiter itself stands in place of one of the delimiter's spaces. */
  function Nested(d: string, i: nat): string
    requires i < |d|
  {
    d[..i] + d + d[i + 1..]
  }

  lemma NestedIndex(d: string, i: nat)
    requires i < |d| && d[i] == ' ' && ' ' !in d[..i]
    ensures Index(Nested(d, i), d) == i
  {
    var v := Nested(d, i);
    assert v[i..i + |d|] == d;
    forall j: nat | j < i ensures !OccursAt(v, d, j) {
      assert v[j + i] == d[j] && d[j] in d[..i];
      OccursElem(v, d, j, i);
    }
    IndexIs(v, d, i);
  }

  /** Taking the inner delimiter out leaves the outer one. */
  lemma NestedReplaced(d: string, i: nat)
    requires i < |d| && d[i] == ' ' && ' ' !in d[..i]
    ensures ReplaceAll(Nested(d, i), d, " ") == d[..i] + " " + ReplaceAll(d[i + 1..], d, " ")
  {
    NestedIndex(d, i);
    var v := Nested(d, i);
    ReplaceFirst(v, d);
    assert v[..i] == d[..i] && v[i + |d|..] == d[i + 1..];
  }

  lemma NestedLeaks(d: string, i: nat)
    requires i < |d| && d[i] == ' ' && ' ' !in d[..i] && ControlFree(d)
    ensures SanitizeFieldValue(Nested(d, i), d) == d
  {
    NestedReplaced(d, i);
    ReplaceAllAbsent(d[i + 1..], d);
    assert d == d[..i] + " " + d[i + 1..];
    SanitizedIdentityIff(d);
  }

  lemma {:induction false} FirstSpace(d: string) returns (i: nat)
    requires ' ' in d
    ensures i < |d| && d[i] == ' ' && ' ' !in d[..i]
  {
    if d[0] == ' ' {
      i := 0;
    } else {
      assert d == [d[0]] + d[1..];
      i := FirstSpace(d[1..]);
      i := i + 1;
      assert d[..i] == [d[0]] + d[1..][..i - 1];
    }
  }

  lemma ControlInside(s: string, d: string, j: nat)
    requires OccursAt(s, d, j) && HasControl(d)
    ensures HasControl(s)
  {
    var k :| 0 <= k < |d| && IsControl(d[k]);
    OccursElems(s, d, j);
    assert IsControl(s[j + k]);
  }

  /**
   Exactly the delimiters without a space, or with a control character, are kept out of every
   sanitized value. Any other has a value that sanitizes to the delimiter itself.
   */
  lemma SafeDelimiterIff(d: string)
    requires d != ""
    ensures (forall v :: !Contains(SanitizeFieldValue(v, d), d)) <==> ' ' !in d || HasControl(d)
  {
    if ' ' !in d || HasControl(d) {
      forall v ensures !Contains(SanitizeFieldValue(v, d), d) {
        FieldValueIsSafe(v, d);
        var r := SanitizeFieldValue(v, d);
        if Contains(r, d) && HasControl(d) { ControlInside(r, d, Index(r, d)); }
      }
    } else {
      var i := FirstSpace(d);
      NestedLeaks(d, i);
      assert OccursAt(d, d, 0);
      assert Contains(SanitizeFieldValue(Nested(d, i), d), d);
    }
  }

  /** One gap with a control between two pieces of ink becomes one space. */
  lemma GapBetween(a: string, g: string, b: string)
    requires WellFormed(Ink(a)) && WellFormed(Gap(g)) && WellFormed(Ink(b)) && HasControl(g)
    ensures Sanitized(a + g + b) == a + " " + b
  {
    var bs := [Ink(a), Gap(g), Ink(b)];
    Flatten3(Ink(a), Gap(g), Ink(b));
    Flatten3(Ink(a), Gap(" "), Ink(b));
    TidyMiddle(Ink(a), Gap(g), Ink(b));
    SanitizedBlockwise(a + g + b, bs);
  }

  /** So does the delimiter "a b" appear, made from a line break. */
  lemma SpacedDelimiterLeaks()
    ensures SanitizeFieldValue("a\nb", "a b") == "a b"
  {
    var v := "a" + "\n" + "b";
    assert v == "a\nb" && "a" + " " + "b" == "a b";
    assert v[1] != "a b"[1];
    ReplaceAllAbsent(v, "a b");
    assert IsControl("\n"[0]);
    GapBetween("a", "\n", "b");
  }

  lemma TidyMiddle(a: Block, g: Block, b: Block)
    requires a.Ink? && g.Gap? && b.Ink? && HasControl(g.t)
    ensures Tidy([a, g, b]) == [a, Gap(" "), b]
  {
    assert [a, g, b][1..] == [g, b] && [g, b][1..] == [b];
    assert TidyFrom([b], false) == [b];
    assert TidyFrom([g, b], false) == [Gap(" ")] + [b];
  }

  lemma Flatten3(a: Block, b: Block, c: Block)
    ensures Flatten([a, b, c]) == a.t + b.t + c.t
  {
    assert [a, b, c][1..] == [b, c] && [b, c][1..] == [c] && Flatten([c]) == c.t + "" == c.t;
  }

  // ---------------------------------------------------------------------------------------
  // Fixed-width fields keep every position.

  predicate PositionKept(s: string, r: string) {
    |r| == |s| && forall i :: 0 <= i < |s| ==> r[i] == if IsControl(s[i]) then ' ' else s[i]
  }

  method SanitizeFixedWidthString(s: string) returns (r: string)
    ensures PositionKept(s, r) && ControlFree(r)
  {
    r := "";
    for i := 0 to |s|
      invariant PositionKept(s[..i], r)
    {
      r := r + [if IsControl(s[i]) then ' ' else s[i]];
      assert s[..i + 1] == s[..i] + [s[i]];
    }
    assert s[..|s|] == s;
  }
}
