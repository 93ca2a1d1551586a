/**
 internal/sip2/parser/checksum.go: the AY sequence number and AZ checksum fields of the
 3M Standard Interchange Protocol, version 2.00. A valid message's bytes, up to and
 including "AZ", plus its checksum are 0 modulo 2^16.
 */
module Checksum {
  import opened Outcome
  import opened Text

  type byte = x: int | 0 <= x < 256

  /** The charset encoder: any partial deterministic function from text to bytes. */
  type Encoder = string -> Option<seq<byte>>

  function Sum(bs: seq<byte>): nat {
    if bs == [] then 0 else Sum(bs[..|bs| - 1]) + bs[|bs| - 1]
  }

  // ---------------------------------------------------------------------------------------
  // Hexadecimal, as fmt.Sprintf("%04X") writes it and strconv.ParseInt(_, 16, 64) reads it.

  function HexDigit(d: nat): char
    requires d < 16
  {
    if d < 10 then ('0' as int + d) as char else ('A' as int + d - 10) as char
  }

  function Hex4(n: nat): (s: string)
    requires n < 0x1_0000
    ensures |s| == 4
  {
    [HexDigit(n / 4096), HexDigit(n / 256 % 16), HexDigit(n / 16 % 16), HexDigit(n % 16)]
  }

  function HexValue(c: char): (v: int)
    ensures -1 <= v < 16
  {
    if '0' <= c <= '9' then c as int - '0' as int
    else if 'A' <= c <= 'F' then c as int - 'A' as int + 10
    else if 'a' <= c <= 'f' then c as int - 'a' as int + 10
    else -1
  }

  function ParseDigits(s: string): Option<nat> {
    if s == "" then Some(0)
    else
      var v := HexValue(s[|s| - 1]);
      match ParseDigits(s[..|s| - 1])
      case Some(n) => if v == -1 then None else Some(n * 16 + v)
      case None => None
  }

  /** A sign is accepted, so "-0FF" is a checksum of -255. The four characters cannot overflow. */
  function ParseHex(s: string): Option<int>
    requires |s| == 4
  {
    if s[0] == '-' then
      (match ParseDigits(s[1..]) case Some(n) => Some(0 - n) case None => None)
    else
      (match ParseDigits(if s[0] == '+' then s[1..] else s) case Some(n) => Some(n) case None => None)
  }

  lemma HexDigitValue(d: nat)
    requires d < 16
    ensures HexValue(HexDigit(d)) == d && HexDigit(d) != '-' && HexDigit(d) != '+'
  {
  }

  lemma ParseDigit(s: string, c: char)
    ensures ParseDigits(s + [c])
         == match ParseDigits(s)
            case Some(n) => if HexValue(c) == -1 then None else Some(n * 16 + HexValue(c))
            case None => None
  {
  }

  lemma ParseFour(c0: char, c1: char, c2: char, c3: char)
    requires HexValue(c0) != -1 && HexValue(c1) != -1 && HexValue(c2) != -1 && HexValue(c3) != -1
    ensures ParseDigits([c0, c1, c2, c3])
         == Some(((HexValue(c0) * 16 + HexValue(c1)) * 16 + HexValue(c2)) * 16 + HexValue(c3))
  {
    ParseDigit("", c0);
    ParseDigit([c0], c1);
    ParseDigit([c0, c1], c2);
    ParseDigit([c0, c1, c2], c3);
    assert "" + [c0] == [c0] && [c0] + [c1] == [c0, c1];
    assert [c0, c1] + [c2] == [c0, c1, c2] && [c0, c1, c2] + [c3] == [c0, c1, c2, c3];
  }

  lemma NibblesOf(n: nat)
    requires n < 0x1_0000
    ensures n == ((n / 4096 * 16 + n / 256 % 16) * 16 + n / 16 % 16) * 16 + n % 16
    ensures n / 4096 < 16
  {
  }

  lemma HexRoundTrip(n: nat)
    requires n < 0x1_0000
    ensures ParseHex(Hex4(n)) == Some(n)
  {
    NibblesOf(n);
    var a, b, c, d := n / 4096, n / 256 % 16, n / 16 % 16, n % 16;
    HexDigitValue(a); HexDigitValue(b); HexDigitValue(c); HexDigitValue(d);
    ParseFour(HexDigit(a), HexDigit(b), HexDigit(c), HexDigit(d));
  }

  // ---------------------------------------------------------------------------------------
  // Writing.

  function ChecksumText(message: string, seqNo: string, delim: string): string {
    message + delim + "AY" + seqNo + "AZ"
  }

  function ChecksumOf(bs: seq<byte>): (n: nat)
    ensures n < 0x1_0000 && (Sum(bs) + n) % 0x1_0000 == 0
  {
    (-(Sum(bs) as int)) % 0x1_0000
  }

  datatype ChecksumError = Unencodable

  /** CalculateChecksum */
  method CalculateChecksum(message: string, seqNo: string, delim: string, enc: Encoder)
    returns (r: Result<string, ChecksumError>)
    ensures var text := ChecksumText(message, seqNo, delim);
            r == match enc(text) case None => Err(Unencodable) case Some(bs) => Ok(Hex4(ChecksumOf(bs)))
  {
    var encoded := enc(message + delim + "AY" + seqNo + "AZ");
    if encoded.None? { return Err(Unencodable); }
    var bytes := encoded.value;
    var sum := SumBytes(bytes);
    r := Ok(Hex4((-(sum as int)) % 0x1_0000));
  }

  method SumBytes(bytes: seq<byte>) returns (sum: nat)
    ensures sum == Sum(bytes)
  {
    sum := 0;
    for i := 0 to |bytes|
      invariant sum == Sum(bytes[..i])
    {
      assert bytes[..i + 1][..i] == bytes[..i];
      sum := sum + bytes[i];
    }
    assert bytes[..|bytes|] == bytes;
  }

  // ---------------------------------------------------------------------------------------
  // Checking.

  /** The last occurrence of `p` that starts before `n`, or -1. */
  function LastIndexBelow(s: string, p: string, n: nat): (i: int)
    ensures i == -1 || (0 <= i < n && OccursAt(s, p, i))
    ensures forall j: nat :: i < j < n ==> !OccursAt(s, p, j)
  {
    if n == 0 then -1
    else if OccursAt(s, p, n - 1) then n - 1
    else LastIndexBelow(s, p, n - 1)
  }

  datatype Marks = Marks(ay: int, az: int)

  /** Where a reader finds the fields: the first "AZ", and the last "AY" before it. */
  function FindMarks(content: string): (m: Marks)
    ensures m.az == -1 || (0 <= m.az && OccursAt(content, "AZ", m.az))
    ensures m.ay == -1 || (0 <= m.ay && OccursAt(content, "AY", m.ay))
    ensures m.ay != -1 && m.az != -1 ==> m.ay + 2 <= m.az
  {
    var az := Index(content, "AZ");
    var ay := LastIndexBelow(content, "AY", if az == -1 then |content| else az);
    OccursElem(content, "AY", if ay == -1 then 0 else ay, 1);
    OccursElem(content, "AZ", if az == -1 then 0 else az, 0);
    Marks(ay, az)
  }

  function SequenceOf(content: string): string {
    var m := FindMarks(content);
    if m.ay != -1 && m.az != -1 then content[m.ay + 2..m.az] else ""
  }

  /** The text ValidateChecksum rebuilds and sums; with an "AY" but no "AZ" the whole content is kept. */
  function CheckedText(content: string): string {
    var m := FindMarks(content);
    if m.ay != -1 && m.az != -1 then content[..m.ay] + "AY" + content[m.ay + 2..m.az] + "AZ"
    else if m.ay != -1 then content + "AY" + "AZ"
    else if m.az != -1 then content[..m.az] + "AZ"
    else content + "AZ"
  }

  /** The bytes ValidateChecksum sums. */
  function CheckedBytes(m: string, enc: Encoder): Option<seq<byte>> {
    if |m| < 4 then None else enc(CheckedText(m[..|m| - 4]))
  }

  datatype Verdict =
    | TooShort
    | CannotEncode
    | BadFormat(seqNo: string, field: string)
    | Checked(valid: bool, seqNo: string, field: string)

  function Judge(encoded: Option<seq<byte>>, seqNo: string, field: string): Verdict
    requires |field| == 4
  {
    match encoded
    case None => CannotEncode
    case Some(bs) =>
      match ParseHex(field)
      case None => BadFormat(seqNo, field)
      case Some(n) => Checked((Sum(bs) + n) % 0x1_0000 == 0, seqNo, field)
  }

  function Validated(message: string, enc: Encoder): Verdict {
    if |message| < 4 then TooShort
    else Judge(CheckedBytes(message, enc), SequenceOf(message[..|message| - 4]), message[|message| - 4..])
  }

  method ScanMarks(content: string) returns (ayIndex: int, azIndex: int)
    ensures Marks(ayIndex, azIndex) == FindMarks(content)
  {
    ayIndex, azIndex := -1, -1;
    var i := 0;
    while i < |content| - 1
      invariant 0 <= i <= |content|
      invariant forall j: nat :: j < i ==> !OccursAt(content, "AZ", j)
      invariant ayIndex == LastIndexBelow(content, "AY", i)
    {
      if content[i..i + 2] == "AY" { ayIndex := i; }
      if content[i..i + 2] == "AZ" {
        azIndex := i;
        assert "AZ"[1] != "AY"[1];
        IndexIs(content, "AZ", i);
        return;
      }
      i := i + 1;
    }
    assert Index(content, "AZ") == -1;
    assert LastIndexBelow(content, "AY", |content|) == ayIndex;
  }

  /** ValidateChecksum */
  method ValidateChecksum(message: string, enc: Encoder) returns (r: Verdict)
    ensures r == Validated(message, enc)
  {
    if |message| < 4 { return TooShort; }
    var checksumStr := message[|message| - 4..];
    var content := message[..|message| - 4];
    var ay, az := ScanMarks(content);
    var seqNo, actual := "", content;
    if ay != -1 && az != -1 {
      seqNo := content[ay + 2..az];
      actual := content[..ay];
    } else if az != -1 {
      actual := content[..az];
    }
    var full := if ay != -1 then actual + "AY" + seqNo + "AZ" else actual + "AZ";
    assert actual + "AY" + "" == actual + "AY";
    r := SumUp(full, seqNo, checksumStr, enc);
  }

  method SumUp(full: string, seqNo: string, checksumStr: string, enc: Encoder) returns (r: Verdict)
    requires |checksumStr| == 4
    ensures r == Judge(enc(full), seqNo, checksumStr)
  {
    var encoded := enc(full);
    if encoded.None? { return CannotEncode; }
    var sum := SumBytes(encoded.value);
    var checksum := ParseHex(checksumStr);
    if checksum.None? { return BadFormat(seqNo, checksumStr); }
    var total := (sum + checksum.value) % 0x1_0000;
    r := Checked(total == 0, seqNo, checksumStr);
  }

  /** What StripChecksum keeps: the text before the first "AY" anywhere in the message. */
  function Stripped(message: string): string {
    var i := Index(message, "AY");
    if i == -1 then message else message[..i]
  }

  method StripChecksum(message: string) returns (r: string)
    ensures r == Stripped(message)
  {
    var i := 0;
    while i < |message| - 1
      invariant 0 <= i <= |message|
      invariant forall j: nat :: j < i ==> !OccursAt(message, "AY", j)
    {
      if message[i..i + 2] == "AY" {
        IndexIs(message, "AY", i);
        return message[..i];
      }
      i := i + 1;
    }
    assert Index(message, "AY") == -1;
    r := message;
  }

  // ---------------------------------------------------------------------------------------
  // What the checksum guarantees.

  /** `body` ends in "AY" seq "AZ" checksum and holds no earlier "AZ". */
  predicate Sealed(body: string, text: string, seqNo: string) {
    |body| >= 4 && body[..|body| - 4] == text + "AY" + seqNo + "AZ"
    && Index(body[..|body| - 4], "AZ") == |text| + 2 + |seqNo|
  }

  /**
   A sealed message is summed over exactly the text that was sent. The sequence number is
   read back exactly when it has no "AY" of its own.
   */
  lemma SealedReadsBack(body: string, text: string, seqNo: string)
    requires Sealed(body, text, seqNo)
    ensures CheckedText(body[..|body| - 4]) == text + "AY" + seqNo + "AZ"
    ensures SequenceOf(body[..|body| - 4]) == seqNo <==> !Contains(seqNo, "AY")
  {
    var content := body[..|body| - 4];
    var az := |text| + 2 + |seqNo|;
    ElemsOccur(content, "AY", |text|);
    var ay := LastIndexBelow(content, "AY", az);
    assert FindMarks(content) == Marks(ay, az);
    assert ay >= |text|;
    Recut(content, ay, az);
    LastAYIn(content, text, seqNo, ay);
  }

  lemma LastFour(sent: string, field: string)
    requires |field| == 4
    ensures var body := sent + field; body[..|body| - 4] == sent && body[|body| - 4..] == field
  {
  }

  lemma JudgeOwn(bs: seq<byte>, seqNo: string)
    ensures Judge(Some(bs), seqNo, Hex4(ChecksumOf(bs))) == Checked(true, seqNo, Hex4(ChecksumOf(bs)))
  {
    HexRoundTrip(ChecksumOf(bs));
  }

  /** Sealing a text with its own checksum makes it valid. */
  lemma SealedIsValid(text: string, seqNo: string, enc: Encoder, bs: seq<byte>)
    requires var sent := text + "AY" + seqNo + "AZ";
             enc(sent) == Some(bs) && Index(sent, "AZ") == |text| + 2 + |seqNo|
    ensures var v := Validated(text + "AY" + seqNo + "AZ" + Hex4(ChecksumOf(bs)), enc);
            v.Checked? && v.valid && (v.seqNo == seqNo <==> !Contains(seqNo, "AY"))
  {
    var sent, field := text + "AY" + seqNo + "AZ", Hex4(ChecksumOf(bs));
    LastFour(sent, field);
    SealedReadsBack(sent + field, text, seqNo);
    JudgeOwn(bs, SequenceOf(sent));
  }

  /** The last "AY" before the "AZ" is the one in front of the sequence number unless it has its own. */
  lemma LastAYIn(content: string, text: string, seqNo: string, ay: nat)
    requires content == text + "AY" + seqNo + "AZ"
    requires |text| <= ay && ay + 2 <= |content| - 2 && OccursAt(content, "AY", ay)
    requires forall j: nat :: ay < j < |content| - 2 ==> !OccursAt(content, "AY", j)
    ensures content[ay + 2..|content| - 2] == seqNo <==> !Contains(seqNo, "AY")
  {
    assert content[|text| + 2..|content| - 2] == seqNo;
    if ay == |text| {
      var j := Index(seqNo, "AY");
      if j != -1 {
        OccursElems(seqNo, "AY", j);
        ElemsOccur(content, "AY", |text| + 2 + j);
      }
    } else {
      OccursElems(content, "AY", ay);
      assert content[|text| + 1] == 'Y' && "AY"[0] == 'A';
      ElemsOccur(seqNo, "AY", ay - |text| - 2);
      assert |content[ay + 2..|content| - 2]| < |seqNo|;
    }
  }

  lemma Recut(content: string, ay: nat, az: nat)
    requires ay + 2 <= az && OccursAt(content, "AY", ay) && OccursAt(content, "AZ", az) && az + 2 == |content|
    ensures content[..ay] + "AY" + content[ay + 2..az] + "AZ" == content
  {
  }

  /** If an "AZ" comes before every "AY", the reader sees no sequence number at all. */
  lemma EarlyAZHidesSequence(content: string, enc: Encoder, field: string)
    requires |field| == 4
    requires Contains(content, "AZ")
    requires forall j: nat :: j < Index(content, "AZ") ==> !OccursAt(content, "AY", j)
    ensures SequenceOf(content) == ""
    ensures var v := Validated(content + field, enc);
            (v.Checked? ==> v.seqNo == "") && CheckedText(content) == content[..Index(content, "AZ")] + "AZ"
  {
    assert (content + field)[..|content|] == content;
  }

  predicate IsValid(m: string, enc: Encoder) {
    Validated(m, enc).Checked? && Validated(m, enc).valid
  }

  predicate SameField(m1: string, m2: string) {
    |m1| >= 4 && |m2| >= 4 && m1[|m1| - 4..] == m2[|m2| - 4..]
  }

  /**
   Two messages with the same checksum field: when one is valid, the other is valid exactly
   when its bytes have the same sum modulo 2^16.
   */
  lemma SameFieldSameSum(m1: string, m2: string, enc: Encoder, b1: seq<byte>, b2: seq<byte>)
    requires SameField(m1, m2) && IsValid(m1, enc)
    requires CheckedBytes(m1, enc) == Some(b1) && CheckedBytes(m2, enc) == Some(b2)
    ensures Validated(m2, enc).Checked?
    ensures IsValid(m2, enc) <==> Sum(b1) % 0x1_0000 == Sum(b2) % 0x1_0000
  {
    JudgeSame(b1, b2, SequenceOf(m1[..|m1| - 4]), SequenceOf(m2[..|m2| - 4]), m1[|m1| - 4..]);
  }

  lemma JudgeSame(b1: seq<byte>, b2: seq<byte>, s1: string, s2: string, field: string)
    requires |field| == 4
    ensures var v1, v2 := Judge(Some(b1), s1, field), Judge(Some(b2), s2, field);
            v1.Checked? && v1.valid ==>
              v2.Checked? && (v2.valid <==> Sum(b1) % 0x1_0000 == Sum(b2) % 0x1_0000)
  {
    var n := ParseHex(field);
    if n.Some? && (Sum(b1) + n.value) % 0x1_0000 == 0 {
      ModSame(Sum(b1), Sum(b2), n.value);
    }
  }

  lemma ModSame(a: int, b: int, n: int)
    requires (a + n) % 0x1_0000 == 0
    ensures (b + n) % 0x1_0000 == 0 <==> a % 0x1_0000 == b % 0x1_0000
  {
  }

  lemma ModShift(a: int, delta: int)
    requires delta != 0 && -0x1_0000 < delta < 0x1_0000
    ensures a % 0x1_0000 != (a + delta) % 0x1_0000
  {
  }

  lemma {:induction false} SumUpdate(bs: seq<byte>, i: nat, b: byte)
    requires i < |bs|
    ensures Sum(bs[i := b]) == Sum(bs) - bs[i] + b
    decreases |bs|
  {
    var n := |bs| - 1;
    if i < n {
      assert bs[i := b][..n] == bs[..n][i := b];
      SumUpdate(bs[..n], i, b);
    } else {
      assert bs[i := b][..n] == bs[..n];
    }
  }

  lemma ChangedSum(bs: seq<byte>, i: nat, b: byte)
    requires i < |bs| && b != bs[i]
    ensures Sum(bs) % 0x1_0000 != Sum(bs[i := b]) % 0x1_0000
  {
    SumUpdate(bs, i, b);
    ModShift(Sum(bs), b - bs[i]);
  }

  /** Changing one checksummed byte is always detected. */
  lemma OneByteChangeDetected(m1: string, m2: string, enc: Encoder, bs: seq<byte>, i: nat, b: byte)
    requires SameField(m1, m2) && IsValid(m1, enc)
    requires CheckedBytes(m1, enc) == Some(bs) && i < |bs| && b != bs[i]
    requires CheckedBytes(m2, enc) == Some(bs[i := b])
    ensures Validated(m2, enc).Checked? && !IsValid(m2, enc)
  {
    ChangedSum(bs, i, b);
    SameFieldSameSum(m1, m2, enc, bs, bs[i := b]);
  }

  /** Exchanging two checksummed bytes is never detected. */
  lemma TranspositionUndetected(m1: string, m2: string, enc: Encoder, bs: seq<byte>, i: nat, j: nat)
    requires SameField(m1, m2) && IsValid(m1, enc)
    requires CheckedBytes(m1, enc) == Some(bs) && i < |bs| && j < |bs|
    requires CheckedBytes(m2, enc) == Some(bs[i := bs[j]][j := bs[i]])
    ensures IsValid(m2, enc)
  {
    var swapped := bs[i := bs[j]][j := bs[i]];
    assert Sum(bs) == Sum(swapped) by {
      SumUpdate(bs, i, bs[j]);
      SumUpdate(bs[i := bs[j]], j, bs[i]);
    }
    SameFieldSameSum(m1, m2, enc, bs, swapped);
  }
}
