/**
 The string operations the gateway takes from Go's `strings` package, with the laws the
 wire format needs. A string is a sequence of characters, one per byte on the wire.
 */
module Text {

  predicate OccursAt(s: string, p: string, i: nat) {
    i + |p| <= |s| && s[i..i + |p|] == p
  }

  /** The first occurrence of `p` at or after `from`, or -1. */
  function IndexFrom(s: string, p: string, from: nat): (i: int)
    requires from <= |s|
    ensures i == -1 || (from <= i && OccursAt(s, p, i))
    ensures i == -1 ==> forall j: nat :: from <= j ==> !OccursAt(s, p, j)
    ensures i != -1 ==> forall j: nat :: from <= j < i ==> !OccursAt(s, p, j)
    decreases |s| - from
  {
    if OccursAt(s, p, from) then from
    else if from == |s| then -1
    else IndexFrom(s, p, from + 1)
  }

  /** strings.Index */
  function Index(s: string, p: string): (i: int)
    ensures i == -1 || (0 <= i && OccursAt(s, p, i))
    ensures i == -1 ==> forall j: nat :: !OccursAt(s, p, j)
    ensures i != -1 ==> forall j: nat :: j < i ==> !OccursAt(s, p, j)
  {
    IndexFrom(s, p, 0)
  }

  predicate Contains(s: string, p: string) {
    Index(s, p) != -1
  }

  predicate HasSuffix(s: string, p: string) {
    |p| <= |s| && s[|s| - |p|..] == p
  }

  predicate HasPrefix(s: string, p: string) {
    |p| <= |s| && s[..|p|] == p
  }

  function TrimSuffix(s: string, p: string): string {
    if HasSuffix(s, p) then s[..|s| - |p|] else s
  }

  /** unicode.IsSpace */
  predicate IsSpace(c: char) {
    c in "\t\n " || c == '\U{000B}' || c == '\U{000C}' || c == '\r' || c == '\U{0085}' || c == '\U{00A0}'
    || c == '\U{1680}' || '\U{2000}' <= c <= '\U{200A}' || c == '\U{2028}' || c == '\U{2029}'
    || c == '\U{202F}' || c == '\U{205F}' || c == '\U{3000}'
  }

  /** strings.TrimSpace */
  function TrimSpace(s: string): string {
    TrimRightSpace(TrimLeftSpace(s))
  }

  function TrimLeftSpace(s: string): string {
    if s != "" && IsSpace(s[0]) then TrimLeftSpace(s[1..]) else s
  }

  function TrimRightSpace(s: string): string {
    if s != "" && IsSpace(s[|s| - 1]) then TrimRightSpace(s[..|s| - 1]) else s
  }

  lemma {:induction false} TrimLeftIsSuffix(s: string)
    ensures |TrimLeftSpace(s)| <= |s| && TrimLeftSpace(s) == s[|s| - |TrimLeftSpace(s)|..]
    ensures TrimLeftSpace(s) != "" ==> !IsSpace(TrimLeftSpace(s)[0])
    ensures forall i :: 0 <= i < |s| - |TrimLeftSpace(s)| ==> IsSpace(s[i])
  {
    if s != "" && IsSpace(s[0]) {
      TrimLeftIsSuffix(s[1..]);
    }
  }

  lemma {:induction false} TrimRightKeepsInk(s: string)
    ensures s != "" && !IsSpace(s[0]) ==> TrimRightSpace(s) != ""
  {
    if s != "" && IsSpace(s[|s| - 1]) && !IsSpace(s[0]) {
      TrimRightKeepsInk(s[..|s| - 1]);
    }
  }

  /** A string trims to nothing exactly when it is all white space. */
  lemma BlankIffAllSpace(s: string)
    ensures TrimSpace(s) == "" <==> forall i :: 0 <= i < |s| ==> IsSpace(s[i])
  {
    TrimLeftIsSuffix(s);
    var l := TrimLeftSpace(s);
    if l == "" {
      assert |s| - |l| == |s|;
    } else {
      TrimRightKeepsInk(l);
      assert s[|s| - |l|] == l[0];
    }
  }

  function Explode(s: string): seq<string> {
    seq(|s|, i requires 0 <= i < |s| => [s[i]])
  }

  /** strings.Split. An empty separator splits into single characters. */
  function Split(s: string, sep: string): (parts: seq<string>) {
    if sep == "" then Explode(s)
    else
      var i := Index(s, sep);
      if i == -1 then [s] else [s[..i]] + Split(s[i + |sep|..], sep)
  }

  /** `seg` can be written before `sep` and read back: the first separator is the real one. */
  predicate Clean(seg: string, sep: string) {
    Index(seg + sep, sep) == |seg|
  }

  /** Segments each followed by the separator. */
  function Terminated(segs: seq<string>, sep: string): string {
    if segs == [] then "" else segs[0] + sep + Terminated(segs[1..], sep)
  }

  function Join(segs: seq<string>, sep: string): string {
    if segs == [] then ""
    else if |segs| == 1 then segs[0]
    else segs[0] + sep + Join(segs[1..], sep)
  }

  lemma IndexIs(s: string, p: string, i: nat)
    requires OccursAt(s, p, i)
    requires forall j: nat :: j < i ==> !OccursAt(s, p, j)
    ensures Index(s, p) == i
  {
  }

  lemma OccursElems(s: string, p: string, i: nat)
    requires OccursAt(s, p, i)
    ensures forall k :: 0 <= k < |p| ==> s[i + k] == p[k]
  {
  }

  lemma OccursElem(s: string, p: string, i: nat, k: int)
    ensures OccursAt(s, p, i) && 0 <= k < |p| ==> s[i + k] == p[k]
  {
  }

  lemma ElemsOccur(s: string, p: string, i: nat)
    requires i + |p| <= |s| && forall k :: 0 <= k < |p| ==> s[i + k] == p[k]
    ensures OccursAt(s, p, i)
  {
  }

  lemma Assoc(a: string, b: string, c: string)
    ensures a + b + c == a + (b + c)
  {
  }

  /** What follows the first clean separator does not change where it is. */
  lemma CleanIndex(seg: string, sep: string, rest: string)
    requires Clean(seg, sep)
    ensures Index(seg + sep + rest, sep) == |seg|
  {
    var s := seg + sep + rest;
    assert OccursAt(seg + sep, sep, |seg|);
    assert s[|seg|..|seg| + |sep|] == sep;
    forall j: nat | j < |seg|
      ensures !OccursAt(s, sep, j)
    {
      assert s[j..j + |sep|] == (seg + sep)[j..j + |sep|];
      assert !OccursAt(seg + sep, sep, j);
    }
    IndexIs(s, sep, |seg|);
  }

  lemma SplitClean(seg: string, sep: string, rest: string)
    requires sep != "" && Clean(seg, sep)
    ensures Split(seg + sep + rest, sep) == [seg] + Split(rest, sep)
  {
    CleanIndex(seg, sep, rest);
    var s := seg + sep + rest;
    assert s[..|seg|] == seg;
    assert s[|seg| + |sep|..] == rest;
  }

  predicate AllClean(segs: seq<string>, sep: string) {
    forall k :: 0 <= k < |segs| ==> Clean(segs[k], sep)
  }

  /** Splitting undoes writing each segment with its separator. */
  lemma {:induction false} SplitTerminated(segs: seq<string>, sep: string, rest: string)
    requires sep != "" && AllClean(segs, sep)
    ensures Split(Terminated(segs, sep) + rest, sep) == segs + Split(rest, sep)
  {
    if segs == [] {
      assert Terminated(segs, sep) + rest == rest;
    } else {
      var tail := Terminated(segs[1..], sep) + rest;
      assert Terminated(segs, sep) + rest == segs[0] + sep + tail;
      assert Split(tail, sep) == segs[1..] + Split(rest, sep) by {
        SplitTerminated(segs[1..], sep, rest);
      }
      SplitClean(segs[0], sep, tail);
      Cons(segs, Split(rest, sep));
    }
  }

  lemma Cons(segs: seq<string>, rest: seq<string>)
    requires segs != []
    ensures [segs[0]] + (segs[1..] + rest) == segs + rest
  {
  }

  lemma CleanSingle(seg: string, sep: string)
    requires |sep| == 1
    ensures Clean(seg, sep) <==> sep[0] !in seg
  {
    var s := seg + sep;
    if sep[0] in seg {
      var j :| 0 <= j < |seg| && seg[j] == sep[0];
      assert OccursAt(s, sep, j);
    } else {
      forall j: nat | j < |seg|
        ensures !OccursAt(s, sep, j)
      {
        assert s[j..j + 1] == [seg[j]];
      }
      assert OccursAt(s, sep, |seg|);
      IndexIs(s, sep, |seg|);
    }
  }

  lemma ContainsSingle(s: string, p: string)
    requires |p| == 1
    ensures Contains(s, p) <==> p[0] in s
  {
    if p[0] in s {
      var j :| 0 <= j < |s| && s[j] == p[0];
      assert OccursAt(s, p, j);
    }
    var i := Index(s, p);
    if i != -1 {
      assert s[i..i + 1][0] == s[i];
    }
  }

  lemma JoinCons(head: string, tail: seq<string>, sep: string)
    requires tail != []
    ensures Join([head] + tail, sep) == head + sep + Join(tail, sep)
  {
  }

  lemma CutAt(s: string, sep: string, i: nat)
    requires OccursAt(s, sep, i)
    ensures s == s[..i] + sep + s[i + |sep|..]
  {
    assert s == s[..i] + s[i..i + |sep|] + s[i + |sep|..];
  }

  lemma {:induction false} JoinSplit(s: string, sep: string)
    requires sep != ""
    ensures Split(s, sep) != [] && Join(Split(s, sep), sep) == s
    decreases |s|
  {
    var i := Index(s, sep);
    if i != -1 {
      CutAt(s, sep, i);
      JoinSplit(s[i + |sep|..], sep);
      JoinCons(s[..i], Split(s[i + |sep|..], sep), sep);
    }
  }

  lemma {:induction false} SplitSegmentsFree(s: string, sep: string)
    requires |sep| == 1
    ensures forall k :: 0 <= k < |Split(s, sep)| ==> sep[0] !in Split(s, sep)[k]
    decreases |s|
  {
    var i := Index(s, sep);
    if i != -1 {
      SplitSegmentsFree(s[i + 1..], sep);
      forall j | 0 <= j < i ensures s[..i][j] != sep[0] {
        assert !OccursAt(s, sep, j);
        assert s[j..j + 1] == [s[j]];
      }
    } else {
      ContainsSingle(s, sep);
    }
  }

  lemma {:induction false} SplitJoin(segs: seq<string>, sep: string)
    requires |sep| == 1 && segs != []
    requires forall k :: 0 <= k < |segs| ==> sep[0] !in segs[k]
    ensures Split(Join(segs, sep), sep) == segs
  {
    if |segs| == 1 {
      ContainsSingle(segs[0], sep);
    } else {
      CleanSingle(segs[0], sep);
      SplitClean(segs[0], sep, Join(segs[1..], sep));
      SplitJoin(segs[1..], sep);
      assert segs == [segs[0]] + segs[1..];
    }
  }

  /** strings.ReplaceAll for a non-empty `old`: leftmost, non-overlapping. */
  function ReplaceAll(s: string, old_: string, new_: string): string
    requires old_ != ""
  {
    var i := Index(s, old_);
    if i == -1 then s else s[..i] + new_ + ReplaceAll(s[i + |old_|..], old_, new_)
  }
}
