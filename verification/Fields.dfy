/**
 internal/sip2/protocol/delimiter.go: coded variable-length fields, split by a delimiter.
 */
module Fields {
  import opened Text
  import opened Sanitize

  // ---------------------------------------------------------------------------------------
  // Reading.

  /** The values a list of parts gives one field code, in order. Parts under 2 characters are dropped. */
  function ValuesOf(parts: seq<string>, code: string): seq<string> {
    if parts == [] then []
    else (if |parts[0]| >= 2 && parts[0][..2] == code then [parts[0][2..]] else []) + ValuesOf(parts[1..], code)
  }

  function CodesOf(parts: seq<string>): set<string> {
    set p | p in parts && |p| >= 2 :: p[..2]
  }

  lemma {:induction false} CodeHasValue(parts: seq<string>, code: string)
    ensures code in CodesOf(parts) <==> ValuesOf(parts, code) != []
  {
    if parts != [] {
      CodeHasValue(parts[1..], code);
      assert parts == [parts[0]] + parts[1..];
      assert forall p :: p in parts <==> p == parts[0] || p in parts[1..];
    }
  }

  lemma {:induction false} ValuesAppend(a: seq<string>, b: seq<string>, code: string)
    ensures ValuesOf(a + b, code) == ValuesOf(a, code) + ValuesOf(b, code)
  {
    if a == [] {
      assert a + b == b;
    } else {
      assert (a + b)[1..] == a[1..] + b;
      ValuesAppend(a[1..], b, code);
    }
  }

  function Last(vs: seq<string>): string
    requires vs != []
  {
    vs[|vs| - 1]
  }

  function ListMap(parts: seq<string>): map<string, seq<string>> {
    map c | c in CodesOf(parts) :: ValuesOf(parts, c)
  }

  ghost predicate IsLastMap(parts: seq<string>, m: map<string, string>) {
    && m.Keys == CodesOf(parts)
    && forall c :: c in m ==> ValuesOf(parts, c) != [] && m[c] == Last(ValuesOf(parts, c))
  }

  function LastMap(parts: seq<string>): (m: map<string, string>)
    ensures IsLastMap(parts, m)
  {
    assert forall c :: c in CodesOf(parts) ==> ValuesOf(parts, c) != [] by {
      forall c { CodeHasValue(parts, c); }
    }
    map c | c in CodesOf(parts) :: Last(ValuesOf(parts, c))
  }

  lemma CodesAppend(parts: seq<string>, p: string)
    ensures CodesOf(parts + [p]) == CodesOf(parts) + (if |p| >= 2 then {p[..2]} else {})
  {
  }

  lemma ValuesSnoc(parts: seq<string>, p: string, code: string)
    ensures ValuesOf(parts + [p], code)
         == ValuesOf(parts, code) + (if |p| >= 2 && p[..2] == code then [p[2..]] else [])
    ensures code in CodesOf(parts) <==> ValuesOf(parts, code) != []
  {
    ValuesAppend(parts, [p], code);
    CodeHasValue(parts, code);
    assert ValuesOf([p][1..], code) == [];
  }

  lemma LastMapUnique(parts: seq<string>, m: map<string, string>)
    requires IsLastMap(parts, m)
    ensures m == LastMap(parts)
  {
  }

  lemma LastMapStep(parts: seq<string>, p: string, m: map<string, string>)
    requires IsLastMap(parts, m)
    ensures IsLastMap(parts + [p], if |p| < 2 then m else m[p[..2] := p[2..]])
  {
    CodesAppend(parts, p);
    var m' := if |p| < 2 then m else m[p[..2] := p[2..]];
    forall c | c in m'
      ensures ValuesOf(parts + [p], c) != [] && m'[c] == Last(ValuesOf(parts + [p], c))
    {
      ValuesSnoc(parts, p, c);
    }
  }

  lemma ListMapStep(parts: seq<string>, p: string)
    ensures var m := ListMap(parts);
            ListMap(parts + [p])
            == if |p| < 2 then m else m[p[..2] := (if p[..2] in m then m[p[..2]] else []) + [p[2..]]]
  {
    CodesAppend(parts, p);
    var m := ListMap(parts);
    var m' := if |p| < 2 then m else m[p[..2] := (if p[..2] in m then m[p[..2]] else []) + [p[2..]]];
    var all := ListMap(parts + [p]);
    assert all.Keys == m'.Keys;
    forall c | c in all
      ensures all[c] == m'[c]
    {
      ValuesSnoc(parts, p, c);
    }
  }

  /** ParseFields: later fields overwrite earlier ones with the same code. */
  method ParseFields(message: string, delim: string) returns (fields: map<string, string>)
    ensures fields == LastMap(Split(message, delim))
  {
    fields := map[];
    var parts := Split(message, delim);
    for i := 0 to |parts|
      invariant IsLastMap(parts[..i], fields)
    {
      var part := parts[i];
      LastMapStep(parts[..i], part, fields);
      assert parts[..i + 1] == parts[..i] + [part];
      if |part| < 2 { continue; }
      var code := part[0..2];
      var value := "";
      if |part| > 2 { value := part[2..]; }
      assert value == part[2..];
      fields := fields[code := value];
    }
    assert parts[..|parts|] == parts;
    LastMapUnique(parts, fields);
  }

  /** ParseMultiValueFields: every occurrence is kept, in order. */
  method ParseMultiValueFields(message: string, delim: string) returns (fields: map<string, seq<string>>)
    ensures fields == ListMap(Split(message, delim))
  {
    fields := map[];
    var parts := Split(message, delim);
    for i := 0 to |parts|
      invariant fields == ListMap(parts[..i])
    {
      var part := parts[i];
      ListMapStep(parts[..i], part);
      assert parts[..i + 1] == parts[..i] + [part];
      if |part| < 2 { continue; }
      var code := part[0..2];
      var value := "";
      if |part| > 2 { value := part[2..]; }
      assert value == part[2..];
      fields := fields[code := (if code in fields then fields[code] else []) + [value]];
    }
    assert parts[..|parts|] == parts;
  }

  /** The single-value map has the keys of the multi-value map and the last value of each list. */
  lemma SingleAgreesWithMulti(message: string, delim: string)
    ensures var parts := Split(message, delim);
            && LastMap(parts).Keys == ListMap(parts).Keys
            && forall c :: c in ListMap(parts) ==>
                 ListMap(parts)[c] != [] && LastMap(parts)[c] == Last(ListMap(parts)[c])
  {
  }

  // ---------------------------------------------------------------------------------------
  // Writing.

  /** An optional field: left out when the sanitized value is empty. */
  function BuildField(code: string, value: string, delim: string): string {
    var v := SanitizeFieldValue(value, delim);
    if v == "" then "" else code + v + delim
  }

  /** A required field: written even when blank. */
  function BuildRequiredField(code: string, value: string, delim: string): string {
    code + SanitizeFieldValue(value, delim) + delim
  }

  /** The delimiter-first shape the handlers concatenate. */
  function BuildPrefixedField(code: string, value: string, delim: string): string {
    delim + code + SanitizeFieldValue(value, delim)
  }

  datatype Field = Optional(code: string, value: string) | Required(code: string, value: string)

  function BuildAll(fs: seq<Field>, delim: string): string {
    if fs == [] then ""
    else
      (match fs[0]
       case Optional(c, v) => BuildField(c, v, delim)
       case Required(c, v) => BuildRequiredField(c, v, delim))
      + BuildAll(fs[1..], delim)
  }

  function PrefixAll(fs: seq<Field>, delim: string): string {
    if fs == [] then "" else BuildPrefixedField(fs[0].code, fs[0].value, delim) + PrefixAll(fs[1..], delim)
  }

  predicate OmitsIt(f: Field, delim: string) {
    f.Optional? && SanitizeFieldValue(f.value, delim) == ""
  }

  /** What a reader should see for `code`: the sanitized values, without the omitted fields. */
  function Expected(fs: seq<Field>, delim: string, code: string): seq<string> {
    if fs == [] then []
    else
      (if fs[0].code == code && !OmitsIt(fs[0], delim) then [SanitizeFieldValue(fs[0].value, delim)] else [])
      + Expected(fs[1..], delim, code)
  }

  function Segments(fs: seq<Field>, delim: string): seq<string> {
    if fs == [] then []
    else
      (if OmitsIt(fs[0], delim) then [] else [fs[0].code + SanitizeFieldValue(fs[0].value, delim)])
      + Segments(fs[1..], delim)
  }

  lemma {:induction false} BuildAllIsTerminated(fs: seq<Field>, delim: string)
    ensures BuildAll(fs, delim) == Terminated(Segments(fs, delim), delim)
  {
    if fs != [] {
      BuildAllIsTerminated(fs[1..], delim);
      var tail := Segments(fs[1..], delim);
      if OmitsIt(fs[0], delim) {
        assert [] + tail == tail;
      } else {
        assert ([fs[0].code + SanitizeFieldValue(fs[0].value, delim)] + tail)[1..] == tail;
      }
    }
  }

  predicate GoodCodes(fs: seq<Field>, delim: string) {
    forall k :: 0 <= k < |fs| ==> |fs[k].code| == 2 && !Contains(fs[k].code, delim)
  }

  lemma ValuesCons(c: string, v: string, rest: seq<string>, code: string)
    requires |c| == 2
    ensures ValuesOf([c + v] + rest, code) == (if c == code then [v] else []) + ValuesOf(rest, code)
  {
  }

  lemma {:induction false} SegmentValues(fs: seq<Field>, delim: string, code: string)
    requires forall k :: 0 <= k < |fs| ==> |fs[k].code| == 2
    ensures ValuesOf(Segments(fs, delim), code) == Expected(fs, delim, code)
  {
    if fs != [] {
      SegmentValues(fs[1..], delim, code);
      var tail := Segments(fs[1..], delim);
      if OmitsIt(fs[0], delim) {
        assert Segments(fs, delim) == tail;
      } else {
        ValuesCons(fs[0].code, SanitizeFieldValue(fs[0].value, delim), tail, code);
      }
    }
  }

  lemma {:induction false} SegmentsFree(fs: seq<Field>, delim: string)
    requires |delim| == 1 && delim != " " && GoodCodes(fs, delim)
    ensures forall k :: 0 <= k < |Segments(fs, delim)| ==> delim[0] !in Segments(fs, delim)[k]
  {
    if fs != [] {
      SegmentsFree(fs[1..], delim);
      SegmentFree(fs[0].code, fs[0].value, delim);
    }
  }

  lemma SegmentFree(code: string, value: string, delim: string)
    requires |delim| == 1 && delim != " " && !Contains(code, delim)
    ensures delim[0] !in code + SanitizeFieldValue(value, delim)
  {
    FieldValueIsSafe(value, delim);
    ContainsSingle(SanitizeFieldValue(value, delim), delim);
    ContainsSingle(code, delim);
  }

  /** Any clean parts written with the delimiter are read back, whatever follows the last one. */
  lemma TerminatedRoundTrip(segs: seq<string>, delim: string, code: string)
    requires delim != "" && AllClean(segs, delim)
    ensures ValuesOf(Split(Terminated(segs, delim), delim), code) == ValuesOf(segs, code)
  {
    SplitTerminated(segs, delim, "");
    assert Terminated(segs, delim) + "" == Terminated(segs, delim);
    assert Split("", delim) == [""];
    ValuesAppend(segs, [""], code);
    assert ValuesOf([""], code) == [];
  }

  /** Reading what was built gives what was meant, for every code. */
  ghost predicate ReadsAsBuilt(fs: seq<Field>, delim: string) {
    forall code :: ValuesOf(Split(BuildAll(fs, delim), delim), code) == Expected(fs, delim, code)
  }

  predicate TwoCharCodes(fs: seq<Field>) {
    forall k :: 0 <= k < |fs| ==> |fs[k].code| == 2
  }

  /**
   Reading the concatenation of built fields gives, per code and in order, exactly the
   sanitized values, without the optional fields whose value sanitizes away: for any
   delimiter, as long as each field, written out, is ended by its own delimiter.
   */
  lemma CleanFieldsRead(fs: seq<Field>, delim: string)
    requires delim != "" && TwoCharCodes(fs) && AllClean(Segments(fs, delim), delim)
    ensures ReadsAsBuilt(fs, delim)
  {
    forall code ensures ValuesOf(Split(BuildAll(fs, delim), delim), code) == Expected(fs, delim, code) {
      CleanFieldRead(fs, delim, code);
    }
  }

  lemma CleanFieldRead(fs: seq<Field>, delim: string, code: string)
    requires delim != "" && TwoCharCodes(fs) && AllClean(Segments(fs, delim), delim)
    ensures ValuesOf(Split(BuildAll(fs, delim), delim), code) == Expected(fs, delim, code)
  {
    BuildAllIsTerminated(fs, delim);
    TerminatedRoundTrip(Segments(fs, delim), delim, code);
    SegmentValues(fs, delim, code);
  }

  lemma SegmentsClean(fs: seq<Field>, delim: string)
    requires |delim| == 1 && delim != " " && GoodCodes(fs, delim)
    ensures AllClean(Segments(fs, delim), delim)
  {
    var segs := Segments(fs, delim);
    SegmentsFree(fs, delim);
    forall k | 0 <= k < |segs| ensures Clean(segs[k], delim) { CleanSingle(segs[k], delim); }
  }

  /** Every one-character delimiter but the space ends every field. */
  lemma FieldListRoundTrip(fs: seq<Field>, delim: string)
    requires |delim| == 1 && delim != " " && GoodCodes(fs, delim)
    ensures var parts := Split(BuildAll(fs, delim), delim);
            forall code :: ValuesOf(parts, code) == Expected(fs, delim, code)
                        && (code in ListMap(parts) <==> Expected(fs, delim, code) != [])
  {
    SegmentsClean(fs, delim);
    CleanFieldsRead(fs, delim);
    var parts := Split(BuildAll(fs, delim), delim);
    forall code
      ensures ValuesOf(parts, code) == Expected(fs, delim, code)
      ensures code in ListMap(parts) <==> Expected(fs, delim, code) != []
    {
      CodeHasValue(parts, code);
    }
  }

  /** The delimiter cannot begin inside the code. */
  predicate StartApart(seg: string, delim: string)
    requires delim != ""
  {
    |seg| >= 2 && seg[0] != delim[0] && seg[1] != delim[0]
  }

  predicate StartsApart(segs: seq<string>, delim: string)
    requires delim != ""
  {
    forall k :: 0 <= k < |segs| ==> StartApart(segs[k], delim)
  }

  lemma NotAtStart(s: string, delim: string)
    requires delim != "" && |s| >= 2 && StartApart(s[..2], delim)
    ensures forall j: nat :: j < 2 ==> !OccursAt(s, delim, j)
  {
    forall j: nat | j < 2 ensures !OccursAt(s, delim, j) {
      assert s[j] == s[..2][j];
      OccursElem(s, delim, j, 0);
    }
  }

  lemma UncleanIndex(seg: string, delim: string, rest: string)
    requires delim != "" && StartApart(seg, delim) && !Clean(seg, delim)
    ensures 2 <= Index(seg + delim + rest, delim) < |seg|
  {
    var s := seg + delim + rest;
    FoundByEnd(seg, delim);
    FoundInFront(seg + delim, rest, delim);
    assert s[..2] == seg[..2];
    NotAtStart(s, delim);
  }

  lemma FoundInFront(t: string, rest: string, p: string)
    requires Contains(t, p)
    ensures 0 <= Index(t + rest, p) <= Index(t, p)
  {
    OccursElems(t, p, Index(t, p));
    ElemsOccur(t + rest, p, Index(t, p));
  }

  /** A segment that is not ended by its own delimiter is read short. */
  lemma UncleanFirst(seg: string, delim: string, rest: string)
    requires delim != "" && StartApart(seg, delim) && !Clean(seg, delim)
    ensures var got := ValuesOf(Split(seg + delim + rest, delim), seg[..2]);
            got != [] && |got[0]| < |seg| - 2
  {
    var s := seg + delim + rest;
    UncleanIndex(seg, delim, rest);
    assert s[..2] == seg[..2];
    FirstPartRead(s, delim, seg[..2]);
  }

  lemma ValuesHead(seg: string, rest: seq<string>, code: string)
    requires |seg| >= 2
    ensures ValuesOf([seg] + rest, code) == (if seg[..2] == code then [seg[2..]] else []) + ValuesOf(rest, code)
  {
    assert ([seg] + rest)[1..] == rest;
  }

  lemma MisreadHere(seg: string, delim: string, tail: string, rest: seq<string>)
    requires delim != "" && StartApart(seg, delim) && !Clean(seg, delim)
    ensures ValuesOf(Split(seg + delim + tail, delim), seg[..2]) != ValuesOf([seg] + rest, seg[..2])
  {
    UncleanFirst(seg, delim, tail);
    ValuesHead(seg, rest, seg[..2]);
    assert ValuesOf([seg] + rest, seg[..2])[0] == seg[2..];
  }

  lemma MisreadLater(seg: string, delim: string, tail: string, rest: seq<string>, code: string)
    requires delim != "" && |seg| >= 2 && Clean(seg, delim)
    requires ValuesOf(Split(tail, delim), code) != ValuesOf(rest, code)
    ensures ValuesOf(Split(seg + delim + tail, delim), code) != ValuesOf([seg] + rest, code)
  {
    SplitClean(seg, delim, tail);
    ValuesHead(seg, Split(tail, delim), code);
    ValuesHead(seg, rest, code);
    SameHead(if seg[..2] == code then [seg[2..]] else [], ValuesOf(Split(tail, delim), code), ValuesOf(rest, code));
  }

  lemma SameHead(h: seq<string>, a: seq<string>, b: seq<string>)
    requires a != b
    ensures h + a != h + b
  {
    assert (h + a)[|h|..] == a && (h + b)[|h|..] == b;
  }

  /** Some code is misread as soon as one segment is not ended by its own delimiter. */
  lemma {:induction false} Misread(segs: seq<string>, delim: string) returns (code: string)
    requires delim != "" && StartsApart(segs, delim) && !AllClean(segs, delim)
    ensures ValuesOf(Split(Terminated(segs, delim), delim), code) != ValuesOf(segs, code)
  {
    var seg, rest := segs[0], segs[1..];
    var tail := Terminated(rest, delim);
    assert segs == [seg] + rest && StartApart(seg, delim);
    if Clean(seg, delim) {
      code := Misread(rest, delim);
      MisreadLater(seg, delim, tail, rest, code);
    } else {
      code := seg[..2];
      MisreadHere(seg, delim, tail, rest);
    }
  }

  /**
   For any delimiter whose first character is in no field code, a field list is read as built
   exactly when every field, written out, is ended by its own delimiter.
   */
  lemma FieldListReadsIff(fs: seq<Field>, delim: string)
    requires delim != "" && TwoCharCodes(fs) && forall k :: 0 <= k < |fs| ==> delim[0] !in fs[k].code
    ensures ReadsAsBuilt(fs, delim) <==> AllClean(Segments(fs, delim), delim)
  {
    if AllClean(Segments(fs, delim), delim) {
      CleanFieldsRead(fs, delim);
    } else {
      SegmentsApart(fs, delim);
      var code := Misread(Segments(fs, delim), delim);
      BuildAllIsTerminated(fs, delim);
      SegmentValues(fs, delim, code);
      assert ValuesOf(Split(BuildAll(fs, delim), delim), code) != Expected(fs, delim, code);
    }
  }

  lemma {:induction false} SegmentsApart(fs: seq<Field>, delim: string)
    requires delim != "" && TwoCharCodes(fs) && forall k :: 0 <= k < |fs| ==> delim[0] !in fs[k].code
    ensures StartsApart(Segments(fs, delim), delim)
  {
    if fs != [] {
      assert fs[0].code[0] in fs[0].code && fs[0].code[1] in fs[0].code;
      SegmentsApart(fs[1..], delim);
    }
  }

  lemma SplitFirst(s: string, sep: string)
    requires sep != ""
    ensures var i := Index(s, sep); Split(s, sep) == if i == -1 then [s] else [s[..i]] + Split(s[i + |sep|..], sep)
  {
  }

  lemma ShorterHasNone(s: string, p: string)
    requires |s| < |p|
    ensures Index(s, p) == -1
  {
  }

  lemma AccidentSplit(seg: string, d: string)
    requires |seg| >= 2 && d == seg + seg
    ensures Index(seg + d, d) == 0
    ensures Split(seg + d, d) == ["", seg]
  {
    var s := seg + d;
    assert s[..|d|] == d && s[|d|..] == seg;
    IndexIs(s, d, 0);
    ShorterHasNone(seg, d);
    SplitFirst(s, d);
    SplitFirst(seg, d);
  }

  /** Without that restriction one may be read by accident: a field of which the delimiter is two copies. */
  lemma ReadByAccident(code: string, value: string)
    requires |code| == 2 && value != "" && ControlFree(value)
    ensures var fs, delim := [Optional(code, value)], (code + value) + (code + value);
            ReadsAsBuilt(fs, delim) && !AllClean(Segments(fs, delim), delim)
  {
    var fs, seg := [Optional(code, value)], code + value;
    var delim := seg + seg;
    ShorterHasNone(value, delim);
    FieldValueIdentity(value, delim);
    assert fs[1..] == [] && Segments(fs, delim) == [seg];
    AccidentRead(seg);
    assert Segments(fs, delim)[0] == seg;
    BuildAllIsTerminated(fs, delim);
    forall c ensures ValuesOf(Split(BuildAll(fs, delim), delim), c) == Expected(fs, delim, c) {
      SegmentValues(fs, delim, c);
    }
  }

  lemma AccidentRead(seg: string)
    requires |seg| >= 2
    ensures !Clean(seg, seg + seg)
    ensures forall code :: ValuesOf(Split(Terminated([seg], seg + seg), seg + seg), code) == ValuesOf([seg], code)
  {
    AccidentSplit(seg, seg + seg);
    assert [seg][1..] == [];
    assert Terminated([seg], seg + seg) == seg + (seg + seg) + "" == seg + (seg + seg);
    forall code ensures ValuesOf(["", seg], code) == ValuesOf([seg], code) {
      assert ["", seg][1..] == [seg];
    }
  }

  lemma SpaceKept()
    ensures SanitizeFieldValue("x y", " ") == "x y"
  {
    var s := "x y";
    assert !OccursAt(s, " ", 0) by { OccursElem(s, " ", 0, 0); }
    assert s[1..2] == " ";
    IndexIs(s, " ", 1);
    assert s[..1] == "x" && s[2..] == "y";
    ContainsSingle("y", " ");
    assert ReplaceAll(s, " ", " ") == "x" + " " + "y";
    assert "x" + " " + "y" == s;
    SanitizedIdentityIff(s);
  }

  const SPACED := Optional("AA", "x y")

  lemma BuildFieldIs(code: string, value: string, v: string, delim: string)
    requires SanitizeFieldValue(value, delim) == v && v != ""
    ensures BuildField(code, value, delim) == code + v + delim
  {
  }

  lemma FoundLater(s: string, p: string, k: nat, at: nat)
    requires OccursAt(s, p, at) && forall j: nat :: j < k ==> !OccursAt(s, p, j)
    ensures Index(s, p) >= k
  {
  }

  lemma SpaceSent()
    ensures BuildField("AA", "x y", " ") == "AA" + "x y" + " "
  {
    SpaceKept();
    BuildFieldIs("AA", "x y", "x y", " ");
  }

  lemma SpaceIndex(sent: string)
    requires |sent| == 6 && sent[0] == 'A' && sent[1] == 'A' && sent[3] == ' '
    ensures Index(sent, " ") >= 2
  {
    forall j: nat | j < 2 ensures !OccursAt(sent, " ", j) { OccursElem(sent, " ", j, 0); }
    assert sent[3..4] == " ";
    FoundLater(sent, " ", 2, 3);
  }

  lemma SpaceRead()
    ensures var got := ValuesOf(Split(BuildField("AA", "x y", " "), " "), "AA");
            got != [] && got[0] != "x y"
  {
    SpaceSent();
    SpaceIndex("AA" + "x y" + " ");
    OnePartRead("AA", "x y", " ", "AA" + "x y" + " ");
    CleanSingle("AA" + "x y", " ");
    assert ("AA" + "x y")[3] == ' ';
  }

  /** With a space for a delimiter, "x y" is cut at its own space. */
  lemma SpaceCutsValue()
    ensures GoodCodes([SPACED], " ") && !ReadsAsBuilt([SPACED], " ")
  {
    ContainsSingle("AA", " ");
    var fs := [SPACED];
    assert fs[1..] == [];
    SpaceRead();
    var sent := BuildField("AA", "x y", " ");
    assert BuildAll(fs, " ") == sent + "" == sent;
    SpaceExpected();
  }

  lemma SpaceExpected()
    ensures Expected([SPACED], " ", "AA") == ["x y"]
  {
    SpaceKept();
    assert [SPACED][1..] == [];
  }

  /** Of the one-character delimiters, all but the space carry every field list. */
  lemma OneCharDelimiterIff(delim: string)
    requires |delim| == 1
    ensures (forall fs :: GoodCodes(fs, delim) ==> ReadsAsBuilt(fs, delim)) <==> delim != " "
  {
    if delim == " " {
      SpaceCutsValue();
    } else {
      forall fs | GoodCodes(fs, delim) ensures ReadsAsBuilt(fs, delim) {
        FieldListRoundTrip(fs, delim);
      }
    }
  }

  function Everywhere(fs: seq<Field>): seq<Field> {
    seq(|fs|, i requires 0 <= i < |fs| => Required(fs[i].code, fs[i].value))
  }

  lemma {:induction false} PrefixAllIsJoin(fs: seq<Field>, delim: string)
    ensures var segs := Segments(Everywhere(fs), delim);
            |segs| == |fs| && PrefixAll(fs, delim) == if fs == [] then "" else delim + Join(segs, delim)
  {
    if fs != [] {
      assert Everywhere(fs)[1..] == Everywhere(fs[1..]);
      PrefixAllIsJoin(fs[1..], delim);
      var v := SanitizeFieldValue(fs[0].value, delim);
      var tail := Segments(Everywhere(fs[1..]), delim);
      assert Segments(Everywhere(fs), delim) == [fs[0].code + v] + tail;
      Assoc(delim, fs[0].code, v);
      if tail != [] {
        JoinCons(fs[0].code + v, tail, delim);
        Assoc(fs[0].code + v, delim, Join(tail, delim));
        Assoc(delim, fs[0].code + v, delim + Join(tail, delim));
      }
    }
  }

  /** The delimiter-first shape reads back the same way, always including blank fields. */
  lemma PrefixedRoundTrip(fs: seq<Field>, delim: string, code: string)
    requires |delim| == 1 && delim != " " && GoodCodes(fs, delim)
    ensures ValuesOf(Split(PrefixAll(fs, delim), delim), code) == Expected(Everywhere(fs), delim, code)
  {
    var all := Everywhere(fs);
    var segs := Segments(all, delim);
    assert GoodCodes(all, delim);
    PrefixAllIsJoin(fs, delim);
    SegmentsFree(all, delim);
    SegmentValues(all, delim, code);
    if fs != [] {
      CleanSingle("", delim);
      SplitClean("", delim, Join(segs, delim));
      assert "" + delim + Join(segs, delim) == delim + Join(segs, delim);
      SplitJoin(segs, delim);
      ValuesAppend([""], segs, code);
    }
    assert Split("", delim) == [""] && ValuesOf([""], code) == [];
  }

  /**
   What is read of `v` sent under `code`: the text up to the first delimiter, which is `v`
   exactly when the field is clean; or, with that delimiter inside the code, nothing of the
   part before it.
   */
  predicate CutAtFirst(sent: string, code: string, v: string, delim: string)
    requires delim != ""
  {
    var at := Index(sent, delim);
    var got := ValuesOf(Split(sent, delim), code);
    && at != -1
    && (if at >= 2 then got != [] && got[0] == sent[2..at] && (got[0] == v <==> Clean(code + v, delim))
        else got == ValuesOf(Split(sent[at + |delim|..], delim), code) && !Clean(code + v, delim))
  }

  /**
   For any delimiter, the first value read back from one built field is cut at the first
   delimiter in what was sent. It is the whole value exactly when that text is clean. A cut
   inside the code itself loses the part before it.
   */
  lemma OneFieldRead(code: string, value: string, delim: string)
    requires delim != "" && |code| == 2 && SanitizeFieldValue(value, delim) != ""
    ensures var v := SanitizeFieldValue(value, delim);
            CutAtFirst(BuildField(code, value, delim), code, v, delim)
  {
    var v := SanitizeFieldValue(value, delim);
    BuildFieldIs(code, value, v, delim);
    OnePartRead(code, v, delim, BuildField(code, value, delim));
  }

  lemma OnePartRead(code: string, v: string, delim: string, sent: string)
    requires delim != "" && |code| == 2 && sent == code + v + delim
    ensures CutAtFirst(sent, code, v, delim)
  {
    FoundByEnd(code + v, delim);
    var at := Index(sent, delim);
    SliceOf(code, v, delim, if at >= 2 then at else 2);
    if at >= 2 {
      FirstPartRead(sent, delim, code);
    } else {
      FirstPartLost(sent, delim, code);
    }
  }

  lemma FoundByEnd(w: string, delim: string)
    ensures 0 <= Index(w + delim, delim) <= |w|
  {
    ElemsOccur(w + delim, delim, |w|);
  }

  lemma FirstPartLost(sent: string, delim: string, code: string)
    requires delim != "" && 0 <= Index(sent, delim) < 2
    ensures ValuesOf(Split(sent, delim), code) == ValuesOf(Split(sent[Index(sent, delim) + |delim|..], delim), code)
  {
    var i := Index(sent, delim);
    SplitFirst(sent, delim);
    DropShort(sent[..i], Split(sent[i + |delim|..], delim), code);
  }

  lemma DropShort(part: string, rest: seq<string>, code: string)
    requires |part| < 2
    ensures ValuesOf([part] + rest, code) == ValuesOf(rest, code)
  {
    assert ([part] + rest)[1..] == rest;
  }

  lemma FirstPartRead(sent: string, delim: string, code: string)
    requires delim != "" && |code| == 2 && |sent| >= 2 && sent[..2] == code && Index(sent, delim) >= 2
    ensures var got := ValuesOf(Split(sent, delim), code);
            got != [] && got[0] == sent[2..Index(sent, delim)]
  {
    var i := Index(sent, delim);
    SplitFirst(sent, delim);
    ValuesHead(sent[..i], Split(sent[i + |delim|..], delim), code);
    assert sent[..i][..2] == code && sent[..i][2..] == sent[2..i];
  }

  lemma SliceOf(code: string, v: string, delim: string, i: nat)
    requires |code| == 2 <= i <= |code + v|
    ensures (code + v + delim)[2..i] == v[..i - 2]
    ensures v[..i - 2] == v <==> i == |code + v|
    ensures (code + v + delim)[..2] == code
  {
  }

  /** With a two-character delimiter half of it may end the value: "x|" comes back as "x". */
  lemma DoubleBarLosesTail()
    ensures SanitizeFieldValue("x|", "||") == "x|"
    ensures var got := ValuesOf(Split(BuildField("AA", "x|", "||"), "||"), "AA");
            got != [] && got[0] == "x"
  {
    assert "x|"[0] != "||"[0];
    FieldValueIdentity("x|", "||");
    var s := "AA" + "x|" + "||";
    assert s[0] == 'A' && s[1] == 'A' && s[2] == 'x';
    forall j: nat | j < 3 ensures !OccursAt(s, "||", j) { OccursElem(s, "||", j, 0); }
    assert s[3..5] == "||";
    IndexIs(s, "||", 3);
    OneFieldRead("AA", "x|", "||");
    assert s[2..3] == "x";
  }
}
