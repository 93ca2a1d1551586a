/**
 internal/sip2/parser/parser.go: requests, from raw text to code, header and coded fields.
 */
module Parser {
  import opened Outcome
  import opened Text
  import opened Fields
  import opened Checksum
  import opened Builder

  datatype Message = Message(
    code: string, raw: string, fields: map<string, string>, multi: map<string, seq<string>>,
    seqNo: string, checksumValid: bool)

  datatype ParseError = MessageTooShort | UnsupportedCharset | ChecksumError(verdict: Verdict) | ChecksumInvalid

  /** `Panicked` is Go's slice-bounds panic, which no branch of Parse guards against. */
  datatype ParseResult = Parsed(m: Message) | Failed(error: ParseError) | Panicked

  // ---------------------------------------------------------------------------------------
  // Positional headers.

  /** The message types with a positional header. */
  datatype Kind =
    | Login | PatronStatus | Checkout | Checkin | PatronInformation | ItemInformation | Renew
    | RenewAll | EndPatronSession | FeePaid | ItemStatusUpdate | SCStatus | Headerless

  function KindOf(code: string): Kind {
    match code
    case "93" => Login
    case "23" => PatronStatus
    case "11" => Checkout
    case "09" => Checkin
    case "63" => PatronInformation
    case "17" => ItemInformation
    case "29" => Renew
    case "65" => RenewAll
    case "35" => EndPatronSession
    case "37" => FeePaid
    case "19" => ItemStatusUpdate
    case "99" => SCStatus
    case _ => Headerless
  }

  /** A header field: its name, its position, and the content length from which it is extracted. */
  datatype Slot = Slot(name: string, from: nat, to: nat, needs: nat)

  function Slots(kind: Kind): seq<Slot> {
    match kind
    case Login => [Slot("uid_algorithm", 0, 1, 2), Slot("pwd_algorithm", 1, 2, 2)]
    case PatronStatus => [Slot("language", 0, 3, 21), Slot("transaction_date", 3, 21, 21)]
    case Checkout => [Slot("sc_renewal_policy", 0, 1, 20), Slot("no_block", 1, 2, 20),
                      Slot("transaction_date", 2, 20, 20), Slot("nb_due_date", 20, 38, 38)]
    case Checkin => [Slot("no_block", 0, 1, 37), Slot("transaction_date", 1, 19, 37),
                     Slot("return_date", 19, 37, 37)]
    case PatronInformation => [Slot("language", 0, 3, 31), Slot("transaction_date", 3, 21, 31),
                               Slot("summary", 21, 31, 31)]
    case Renew => [Slot("third_party_allowed", 0, 1, 20), Slot("no_block", 1, 2, 20),
                   Slot("transaction_date", 2, 20, 20), Slot("nb_due_date", 20, 38, 38)]
    case FeePaid => [Slot("transaction_date", 0, 18, 20), Slot("fee_type", 18, 20, 20),
                     Slot("payment_type", 20, 22, 22), Slot("currency_type", 22, 25, 25)]
    case SCStatus => [Slot("status_code", 0, 1, 4), Slot("max_print_width", 1, 4, 4),
                      Slot("protocol_version", 4, 8, 8)]
    case Headerless => []
    case _ => [Slot("transaction_date", 0, 18, 18)]
  }

  /** The length of the header with every optional part present. */
  function FullHeader(kind: Kind): nat {
    match kind
    case Login => 2
    case PatronStatus => 21
    case Checkout => 38
    case Checkin => 37
    case PatronInformation => 31
    case Renew => 38
    case FeePaid => 25
    case SCStatus => 8
    case Headerless => 0
    case _ => 18
  }

  predicate Apart(a: string, b: string) {
    |a| != |b| || (a != "" && b != "" && a[0] != b[0])
  }

  /** Slots lie inside the full header, and their names are distinct and never two characters long. */
  predicate GoodSlots(slots: seq<Slot>, full: nat) {
    && (forall k :: 0 <= k < |slots| ==>
          slots[k].from <= slots[k].to <= slots[k].needs <= full && |slots[k].name| > 2)
    && SlotsApart(slots)
  }

  predicate SlotsApart(slots: seq<Slot>) {
    forall j, k :: 0 <= j < k < |slots| ==> Apart(slots[j].name, slots[k].name)
  }

  lemma SlotsInRange(kind: Kind)
    ensures forall k :: 0 <= k < |Slots(kind)| ==>
              var s := Slots(kind)[k];
              s.from <= s.to <= s.needs <= FullHeader(kind) && |s.name| > 2
  {
  }

  lemma CirculationApart(kind: Kind)
    requires kind == Checkout || kind == Renew || kind == Checkin
    ensures SlotsApart(Slots(kind))
  {
  }

  lemma AccountApart(kind: Kind)
    requires kind == FeePaid || kind == SCStatus || kind == Login
    ensures SlotsApart(Slots(kind))
  {
  }

  lemma SlotsNamedApart(kind: Kind)
    ensures SlotsApart(Slots(kind))
  {
    if kind == Checkout || kind == Renew || kind == Checkin {
      CirculationApart(kind);
    } else if kind == FeePaid || kind == SCStatus || kind == Login {
      AccountApart(kind);
    }
  }

  lemma SlotsGood(kind: Kind)
    ensures GoodSlots(Slots(kind), FullHeader(kind))
  {
    SlotsInRange(kind);
    SlotsNamedApart(kind);
  }

  /** The header fields that a content of this length yields. */
  function FixedFrom(slots: seq<Slot>, content: string): map<string, string>
    requires forall k :: 0 <= k < |slots| ==> slots[k].from <= slots[k].to <= slots[k].needs
  {
    if slots == [] then map[]
    else
      var s := slots[|slots| - 1];
      var m := FixedFrom(slots[..|slots| - 1], content);
      if s.needs <= |content| then m[s.name := content[s.from..s.to]] else m
  }

  function FixedFields(kind: Kind, content: string): map<string, string> {
    SlotsGood(kind);
    FixedFrom(Slots(kind), content)
  }

  method SetSlot(fixed: map<string, string>, content: string, slots: seq<Slot>) returns (r: map<string, string>)
    requires slots != [] && forall k :: 0 <= k < |slots| ==> slots[k].from <= slots[k].to <= slots[k].needs
    requires fixed == FixedFrom(slots[..|slots| - 1], content)
    ensures r == FixedFrom(slots, content)
  {
    var s := slots[|slots| - 1];
    r := fixed;
    if |content| >= s.needs {
      r := r[s.name := content[s.from..s.to]];
    }
  }

  /** ExtractFixedFields, on the raw message (which still carries AY and AZ). */
  method ExtractFixedFields(code: string, raw: string) returns (fixed: map<string, string>)
    ensures fixed == if |raw| < 2 then map[] else FixedFields(KindOf(code), raw[2..])
  {
    fixed := map[];
    if |raw| < 2 { return; }
    var content := raw[2..];
    var slots := Slots(KindOf(code));
    SlotsGood(KindOf(code));
    for i := 0 to |slots|
      invariant fixed == FixedFrom(slots[..i], content)
    {
      assert slots[..i + 1][..i] == slots[..i];
      fixed := SetSlot(fixed, content, slots[..i + 1]);
    }
    assert slots[..|slots|] == slots;
  }

  // ---------------------------------------------------------------------------------------
  // Parse.

  /** Where the coded fields start. Without a full header nothing is skipped, except that the
      nb due date of Checkout and Renew is optional. */
  function FieldsStart(kind: Kind, n: nat): (start: nat)
    ensures start <= n
  {
    if n >= FullHeader(kind) then FullHeader(kind)
    else if (kind == Checkout || kind == Renew) && n >= 20 then 20
    else 0
  }

  function Coded(kind: Kind, content: string): string {
    content[FieldsStart(kind, |content|)..]
  }

  /** The message for `text`, which is `raw` without its error-detection fields. */
  function Interpret(delim: string, raw: string, text: string, seqNo: string, checksumValid: bool): ParseResult
    requires |raw| >= 2
  {
    if |text| < 2 then Panicked
    else
      var code, content := text[..2], text[2..];
      var kind := KindOf(code);
      var parts := Split(Coded(kind, content), delim);
      Parsed(Message(code, raw,
                     (if Coded(kind, content) == "" then map[] else LastMap(parts)) + FixedFields(kind, raw[2..]),
                     if Coded(kind, content) == "" then map[] else ListMap(parts),
                     seqNo, checksumValid))
  }

  function ParseOf(cfg: WireConfig, raw: string): ParseResult {
    if |raw| < 2 then Failed(MessageTooShort)
    else if !cfg.errorDetection then Interpret(cfg.fieldDelimiter, raw, raw, "", false)
    else if cfg.encoder.None? then Failed(UnsupportedCharset)
    else
      var v := Validated(raw, cfg.encoder.value);
      if !v.Checked? then Failed(ChecksumError(v))
      else if !v.valid then Failed(ChecksumInvalid)
      else Interpret(cfg.fieldDelimiter, raw, Stripped(raw), v.seqNo, true)
  }

  method MergeInto(fields: map<string, string>, fixed: map<string, string>) returns (r: map<string, string>)
    ensures r == fields + fixed
  {
    r := fields;
    var todo := fixed.Keys;
    while todo != {}
      invariant todo <= fixed.Keys
      invariant r == fields + (fixed - todo)
      decreases todo
    {
      var key :| key in todo;
      r := r[key := fixed[key]];
      todo := todo - {key};
    }
    assert fixed - {} == fixed;
  }

  /** Parse */
  method Parse(cfg: WireConfig, raw: string) returns (r: ParseResult)
    ensures r == ParseOf(cfg, raw)
  {
    if |raw| < 2 { return Failed(MessageTooShort); }
    var rawMessage, seqNo, checksumValid := raw, "", false;
    if cfg.errorDetection {
      if cfg.encoder.None? { return Failed(UnsupportedCharset); }
      var v := ValidateChecksum(rawMessage, cfg.encoder.value);
      if !v.Checked? { return Failed(ChecksumError(v)); }
      checksumValid := v.valid;
      seqNo := v.seqNo;
      if !v.valid { return Failed(ChecksumInvalid); }
      rawMessage := StripChecksum(rawMessage);
    }
    if |rawMessage| < 2 { return Panicked; }
    var code := rawMessage[0..2];
    var content := rawMessage[2..];
    var fieldsStart := FieldsStart(KindOf(code), |content|);
    var fields: map<string, string> := map[];
    var multi: map<string, seq<string>> := map[];
    if fieldsStart < |content| {
      fields := ParseFields(content[fieldsStart..], cfg.fieldDelimiter);
      multi := ParseMultiValueFields(content[fieldsStart..], cfg.fieldDelimiter);
    }
    var fixed := ExtractFixedFields(code, raw);
    fields := MergeInto(fields, fixed);
    r := Parsed(Message(code, raw, fields, multi, seqNo, checksumValid));
  }

  // ---------------------------------------------------------------------------------------
  // The request round trip.

  /** A request: header text, coded fields as (code + value) parts, and a sequence number. */
  datatype Request = Request(code: string, header: string, parts: seq<string>, seqNo: string)

  function RequestText(delim: string, q: Request): string {
    q.code + q.header + Terminated(q.parts, delim)
  }

  function Render(cfg: WireConfig, q: Request): Option<string> {
    var text := RequestText(cfg.fieldDelimiter, q);
    if !cfg.errorDetection then Some(text)
    else if cfg.encoder.None? then None
    else
      match cfg.encoder.value(text + "AY" + q.seqNo + "AZ")
      case None => None
      case Some(bs) => Some(text + "AY" + q.seqNo + "AZ" + Hex4(ChecksumOf(bs)))
  }

  /** A full header, clean fields, and, with error detection, no "AY" or "AZ" to be taken for a marker. */
  predicate WellFormed(cfg: WireConfig, q: Request) {
    && |q.code| == 2 && |q.header| == FullHeader(KindOf(q.code))
    && cfg.fieldDelimiter != "" && AllClean(q.parts, cfg.fieldDelimiter)
    && (forall k :: 0 <= k < |q.parts| ==> |q.parts[k]| >= 2)
    && (cfg.errorDetection ==>
          var text := RequestText(cfg.fieldDelimiter, q);
          && !Contains(text, "AY") && !Contains(text, "AZ")
          && !Contains(q.seqNo, "AY") && !Contains(q.seqNo, "AZ"))
  }

  /** A two-character needle that is not in `a` and cannot straddle the seam is first found in `b`. */
  lemma SeamFree(a: string, b: string, p: string)
    requires |p| == 2 && !Contains(a, p) && b != "" && (b[0] != p[1] || a == "" || a[|a| - 1] != p[0])
    requires Contains(b, p)
    ensures Index(a + b, p) == |a| + Index(b, p)
  {
    var s, i := a + b, Index(b, p);
    OccursElems(b, p, i);
    ElemsOccur(s, p, |a| + i);
    forall j: nat | j < |a| + i
      ensures !OccursAt(s, p, j)
    {
      OccursElem(s, p, j, 0);
      OccursElem(s, p, j, 1);
      if OccursAt(s, p, j) {
        if j + 2 <= |a| {
          ElemsOccur(a, p, j);
        } else if |a| <= j {
          ElemsOccur(b, p, j - |a|);
        }
      }
    }
    IndexIs(s, p, |a| + i);
  }

  lemma FirstAY(text: string, rest: string)
    requires !Contains(text, "AY")
    ensures Index(text + ("AY" + rest), "AY") == |text|
  {
    var c := "AY" + rest;
    assert c[0] == 'A' && c[1] == 'Y' && c[0..2] == "AY";
    assert Index(c, "AY") == 0;
    SeamFree(text, c, "AY");
  }

  lemma FirstAZ(text: string, seqNo: string)
    requires !Contains(text, "AZ") && !Contains(seqNo, "AZ")
    ensures Index(text + ("AY" + (seqNo + "AZ")), "AZ") == |text| + 2 + |seqNo|
  {
    assert OccursAt("AZ", "AZ", 0);
    SeamFree(seqNo, "AZ", "AZ");
    var b := seqNo + "AZ";
    assert "AY"[1] != "AZ"[1];
    SeamFree("AY", b, "AZ");
    SeamFree(text, "AY" + b, "AZ");
  }

  lemma Grouped(text: string, seqNo: string, tail: string)
    ensures text + "AY" + seqNo + "AZ" == text + ("AY" + (seqNo + "AZ"))
    ensures text + "AY" + seqNo + "AZ" + tail == text + ("AY" + (seqNo + "AZ" + tail))
  {
  }

  /** Where the markers of a rendered request are. */
  lemma MarksOf(text: string, seqNo: string, tail: string)
    requires !Contains(text, "AY") && !Contains(text, "AZ") && !Contains(seqNo, "AZ")
    ensures Index(text + "AY" + seqNo + "AZ", "AZ") == |text| + 2 + |seqNo|
    ensures Index(text + "AY" + seqNo + "AZ" + tail, "AY") == |text|
  {
    FirstAZ(text, seqNo);
    FirstAY(text, seqNo + "AZ" + tail);
    Grouped(text, seqNo, tail);
  }

  /** With the whole header there, what follows it changes no header field. */
  lemma {:induction false} FixedFromHeader(slots: seq<Slot>, header: string, rest: string)
    requires forall k :: 0 <= k < |slots| ==> slots[k].from <= slots[k].to <= slots[k].needs <= |header|
    ensures FixedFrom(slots, header + rest) == FixedFrom(slots, header)
  {
    if slots != [] {
      var s := slots[|slots| - 1];
      FixedFromHeader(slots[..|slots| - 1], header, rest);
      assert (header + rest)[s.from..s.to] == header[s.from..s.to];
    }
  }

  /** Each slot's slice of the header is stored under its name, and nothing else is. */
  lemma FixedFromSlices(slots: seq<Slot>, header: string, full: nat)
    requires GoodSlots(slots, full) && |header| == full
    ensures var m := FixedFrom(slots, header);
            && (forall k :: 0 <= k < |slots| ==>
                  slots[k].name in m && m[slots[k].name] == header[slots[k].from..slots[k].to])
            && (forall name :: name in m ==> exists k :: 0 <= k < |slots| && slots[k].name == name)
  {
    var m := FixedFrom(slots, header);
    forall k | 0 <= k < |slots|
      ensures slots[k].name in m && m[slots[k].name] == header[slots[k].from..slots[k].to]
    {
      FixedValue(slots, header, full, k);
    }
    forall name | name in m ensures exists k :: 0 <= k < |slots| && slots[k].name == name {
      var k := FixedName(slots, header, name);
    }
  }

  lemma {:induction false} FixedValue(slots: seq<Slot>, header: string, full: nat, k: nat)
    requires GoodSlots(slots, full) && |header| == full && k < |slots|
    ensures var m := FixedFrom(slots, header);
            slots[k].name in m && m[slots[k].name] == header[slots[k].from..slots[k].to]
  {
    if k < |slots| - 1 {
      GoodPrefix(slots, full);
      FixedValue(slots[..|slots| - 1], header, full, k);
    }
  }

  lemma {:induction false} FixedName(slots: seq<Slot>, content: string, name: string) returns (k: nat)
    requires forall k :: 0 <= k < |slots| ==> slots[k].from <= slots[k].to <= slots[k].needs
    requires name in FixedFrom(slots, content)
    ensures k < |slots| && slots[k].name == name
  {
    k := |slots| - 1;
    if slots[k].name != name {
      k := FixedName(slots[..k], content, name);
    }
  }

  lemma GoodPrefix(slots: seq<Slot>, full: nat)
    requires GoodSlots(slots, full) && slots != []
    ensures GoodSlots(slots[..|slots| - 1], full)
    ensures forall k :: 0 <= k < |slots| - 1 ==> slots[k].name != slots[|slots| - 1].name
  {
  }

  lemma FixedNamesAreLong(kind: Kind, content: string)
    ensures forall name :: name in FixedFields(kind, content) ==> |name| > 2
  {
    SlotsGood(kind);
    LongNames(Slots(kind), FullHeader(kind), content);
  }

  lemma {:induction false} LongNames(slots: seq<Slot>, full: nat, content: string)
    requires GoodSlots(slots, full)
    ensures forall name :: name in FixedFrom(slots, content) ==> |name| > 2
  {
    if slots != [] {
      LongNames(slots[..|slots| - 1], full, content);
    }
  }

  /** What a well-formed request must parse to. */
  predicate ReadsBack(q: Request, m: Message, delim: string) {
    var slots := Slots(KindOf(q.code));
    SlotsGood(KindOf(q.code));
    && m.code == q.code && |q.header| == FullHeader(KindOf(q.code))
    && (forall k :: 0 <= k < |slots| ==>
          slots[k].name in m.fields && m.fields[slots[k].name] == q.header[slots[k].from..slots[k].to])
    && m.multi == ListMap(q.parts)
    && (forall c :: c in LastMap(q.parts) ==> c in m.fields && m.fields[c] == LastMap(q.parts)[c])
    && (forall c :: c in m.fields && |c| == 2 ==> c in LastMap(q.parts))
  }

  lemma StartOfFullHeader(kind: Kind, header: string, rest: string)
    requires |header| == FullHeader(kind)
    ensures Coded(kind, header + rest) == rest
  {
  }

  /** Interpreting the text of a well-formed request, whatever error-detection fields follow it. */
  lemma InterpretReadsBack(delim: string, q: Request, tail: string, seqNo: string, checksumValid: bool)
    requires |q.code| == 2 && |q.header| == FullHeader(KindOf(q.code))
    requires delim != "" && AllClean(q.parts, delim) && forall k :: 0 <= k < |q.parts| ==> |q.parts[k]| >= 2
    ensures var text := RequestText(delim, q);
            var r := Interpret(delim, text + tail, text, seqNo, checksumValid);
            && r.Parsed? && ReadsBack(q, r.m, delim)
            && r.m.seqNo == seqNo && r.m.checksumValid == checksumValid && r.m.raw == text + tail
  {
    var kind := KindOf(q.code);
    var text := RequestText(delim, q);
    var body := Terminated(q.parts, delim);
    assert text[..2] == q.code && text[2..] == q.header + body;
    assert (text + tail)[2..] == q.header + (body + tail);
    StartOfFullHeader(kind, q.header, body);
    SlotsGood(kind);
    FixedFromHeader(Slots(kind), q.header, body + tail);
    FixedFromSlices(Slots(kind), q.header, FullHeader(kind));
    FixedNamesAreLong(kind, q.header);
    CodedMaps(q.parts, delim);
  }

  /** The coded part of a request gives exactly the maps of its parts. */
  lemma CodedMaps(parts: seq<string>, delim: string)
    requires delim != "" && AllClean(parts, delim) && forall k :: 0 <= k < |parts| ==> |parts[k]| >= 2
    ensures var body := Terminated(parts, delim);
            && ListMap(parts) == (if body == "" then map[] else ListMap(Split(body, delim)))
            && LastMap(parts) == (if body == "" then map[] else LastMap(Split(body, delim)))
            && forall c :: c in LastMap(parts) ==> |c| == 2
  {
    var body := Terminated(parts, delim);
    if parts == [] {
      assert CodesOf(parts) == {};
    } else {
      forall c ensures ValuesOf(Split(body, delim), c) == ValuesOf(parts, c) {
        TerminatedRoundTrip(parts, delim, c);
      }
      SameMaps(Split(body, delim), parts);
    }
  }

  lemma SameMaps(a: seq<string>, b: seq<string>)
    requires forall c :: ValuesOf(a, c) == ValuesOf(b, c)
    ensures ListMap(a) == ListMap(b) && LastMap(a) == LastMap(b)
  {
    forall c ensures c in CodesOf(a) <==> c in CodesOf(b) {
      CodeHasValue(a, c);
      CodeHasValue(b, c);
    }
    assert CodesOf(a) == CodesOf(b);
  }

  lemma StrippedSealed(text: string, seqNo: string, field: string)
    requires Index(text + "AY" + seqNo + "AZ" + field, "AY") == |text|
    ensures Stripped(text + "AY" + seqNo + "AZ" + field) == text
    ensures text + "AY" + seqNo + "AZ" + field == text + ("AY" + seqNo + "AZ" + field)
  {
  }

  /**
   End to end: for every message type, a request with a full header parses back to its code,
   its header slices, its sequence number and the values of every field.
   */
  lemma RequestRoundTrip(cfg: WireConfig, q: Request)
    requires WellFormed(cfg, q) && Render(cfg, q).Some?
    ensures var r := ParseOf(cfg, Render(cfg, q).value);
            && r.Parsed? && ReadsBack(q, r.m, cfg.fieldDelimiter)
            && (if cfg.errorDetection then r.m.seqNo == q.seqNo && r.m.checksumValid
                else r.m.seqNo == "" && !r.m.checksumValid)
  {
    var text := RequestText(cfg.fieldDelimiter, q);
    if cfg.errorDetection {
      var sent := text + "AY" + q.seqNo + "AZ";
      var bs := cfg.encoder.value(sent).value;
      var field := Hex4(ChecksumOf(bs));
      MarksOf(text, q.seqNo, field);
      SealedIsValid(text, q.seqNo, cfg.encoder.value, bs);
      StrippedSealed(text, q.seqNo, field);
      InterpretReadsBack(cfg.fieldDelimiter, q, "AY" + q.seqNo + "AZ" + field, q.seqNo, true);
    } else {
      assert text + "" == text;
      InterpretReadsBack(cfg.fieldDelimiter, q, "", "", false);
    }
  }

  // ---------------------------------------------------------------------------------------
  // The positions against the layout of the standard.

  /** The width SIP2 2.00 gives each fixed-length field. */
  function Width(name: string): nat {
    match name
    case "transaction_date" => 18
    case "nb_due_date" => 18
    case "return_date" => 18
    case "summary" => 10
    case "protocol_version" => 4
    case "language" => 3
    case "currency_type" => 3
    case "max_print_width" => 3
    case "fee_type" => 2
    case "payment_type" => 2
    case _ => 1
  }

  /** The slots lie side by side from the start of the header to its end. */
  ghost predicate Tiles(slots: seq<Slot>, full: nat) {
    && (forall k :: 0 <= k < |slots| ==> slots[k].from <= slots[k].to)
    && (forall j, k :: 0 <= j < k < |slots| && k == j + 1 ==> slots[j].to == slots[k].from)
    && (if slots == [] then full == 0 else slots[0].from == 0 && slots[|slots| - 1].to == full)
  }

  lemma SlotsTile(kind: Kind)
    ensures Tiles(Slots(kind), FullHeader(kind))
  {
  }

  lemma SlotWidths(kind: Kind, k: nat)
    requires k < |Slots(kind)|
    ensures Slots(kind)[k].to - Slots(kind)[k].from == Width(Slots(kind)[k].name)
  {
  }

  function Header(values: seq<string>): string {
    if values == [] then "" else Header(values[..|values| - 1]) + values[|values| - 1]
  }

  predicate Fits(values: seq<string>, slots: seq<Slot>) {
    |values| == |slots| && forall k :: 0 <= k < |slots| ==> |values[k]| == Width(slots[k].name)
  }

  lemma {:induction false} HeaderLength(values: seq<string>, slots: seq<Slot>, full: nat)
    requires Tiles(slots, full) && |values| == |slots|
    requires forall k :: 0 <= k < |slots| ==> |values[k]| == slots[k].to - slots[k].from
    ensures |Header(values)| == full
  {
    if slots != [] {
      var n := |slots| - 1;
      TilesPrefix(slots, full);
      HeaderLength(values[..n], slots[..n], slots[n].from);
    }
  }

  lemma {:induction false} HeaderSlice(values: seq<string>, slots: seq<Slot>, full: nat, k: nat)
    requires Tiles(slots, full) && |values| == |slots| && k < |slots|
    requires forall k :: 0 <= k < |slots| ==> |values[k]| == slots[k].to - slots[k].from
    ensures slots[k].to <= full == |Header(values)| && Header(values)[slots[k].from..slots[k].to] == values[k]
  {
    var n := |slots| - 1;
    TilesPrefix(slots, full);
    HeaderLength(values, slots, full);
    HeaderLength(values[..n], slots[..n], slots[n].from);
    if k < n {
      HeaderSlice(values[..n], slots[..n], slots[n].from, k);
      SliceBefore(Header(values[..n]), values[n], slots[k].from, slots[k].to, values[k]);
    } else {
      SliceLast(Header(values[..n]), values[n]);
    }
  }

  lemma TilesPrefix(slots: seq<Slot>, full: nat)
    requires Tiles(slots, full) && slots != []
    ensures Tiles(slots[..|slots| - 1], slots[|slots| - 1].from)
  {
    var n := |slots| - 1;
    if n > 0 {
      assert slots[n - 1].to == slots[n].from;
    }
  }

  lemma SliceLast(front: string, last: string)
    ensures (front + last)[|front|..|front| + |last|] == last
  {
  }

  lemma SliceBefore(front: string, last: string, from: nat, to: nat, v: string)
    requires from <= to <= |front| && front[from..to] == v
    ensures (front + last)[from..to] == v
  {
  }

  /**
   Values of the standard's widths, written one after another in the standard's order, are
   the header fields a parser finds under their names, whatever follows.
   */
  lemma NamedHeaderReadsBack(kind: Kind, values: seq<string>, rest: string)
    requires Fits(values, Slots(kind))
    ensures |Header(values)| == FullHeader(kind)
    ensures forall k :: 0 <= k < |values| ==>
              var m := FixedFields(kind, Header(values) + rest);
              Slots(kind)[k].name in m && m[Slots(kind)[k].name] == values[k]
  {
    var slots := Slots(kind);
    SlotsTile(kind);
    forall k | 0 <= k < |slots| ensures |values[k]| == slots[k].to - slots[k].from { SlotWidths(kind, k); }
    HeaderLength(values, slots, FullHeader(kind));
    forall k | 0 <= k < |slots| ensures slots[k].to <= FullHeader(kind) && Header(values)[slots[k].from..slots[k].to] == values[k] {
      HeaderSlice(values, slots, FullHeader(kind), k);
    }
    SlotsGood(kind);
    FixedFromHeader(slots, Header(values), rest);
    FixedFromSlices(slots, Header(values), FullHeader(kind));
  }

  // ---------------------------------------------------------------------------------------
  // Where the two views of a message part company.

  /**
   Header fields are read from the raw message but the coded fields start after a header
   measured on the stripped one. They agree exactly when no slot is completed only by the
   error-detection fields.
   */
  lemma HeaderViewsAgreeIff(kind: Kind, stripped: string, tail: string)
    ensures FixedFields(kind, stripped + tail) == FixedFields(kind, stripped)
            <==> forall k :: 0 <= k < |Slots(kind)| && Slots(kind)[k].needs <= |stripped + tail| ==>
                   Slots(kind)[k].needs <= |stripped|
  {
    SlotsGood(kind);
    ViewsAgree(Slots(kind), FullHeader(kind), stripped, tail);
  }

  lemma {:induction false} ViewsAgree(slots: seq<Slot>, full: nat, stripped: string, tail: string)
    requires GoodSlots(slots, full)
    ensures FixedFrom(slots, stripped + tail) == FixedFrom(slots, stripped)
            <==> forall k :: 0 <= k < |slots| && slots[k].needs <= |stripped + tail| ==> slots[k].needs <= |stripped|
    ensures forall name :: name in FixedFrom(slots, stripped) || name in FixedFrom(slots, stripped + tail) ==>
              exists k :: 0 <= k < |slots| && slots[k].name == name
  {
    if slots != [] {
      var n := |slots| - 1;
      var s := slots[n];
      var init := slots[..n];
      ViewsAgree(init, full, stripped, tail);
      var a, b := FixedFrom(init, stripped + tail), FixedFrom(init, stripped);
      assert s.name !in a && s.name !in b;
      if s.needs <= |stripped| {
        assert (stripped + tail)[s.from..s.to] == stripped[s.from..s.to];
      }
      if a != b {
        DifferAfter(a, b, s.name, FixedFrom(slots, stripped + tail), FixedFrom(slots, stripped));
      }
    }
  }

  lemma DifferAfter(a: map<string, string>, b: map<string, string>, k: string,
                    a': map<string, string>, b': map<string, string>)
    requires a != b && k !in a && k !in b
    requires a' == a || (k in a' && a' == a[k := a'[k]])
    requires b' == b || (k in b' && b' == b[k := b'[k]])
    ensures a' != b'
  {
    assert a == a' - {k};
    assert b == b' - {k};
  }

  /** Without its nb due date, a Checkout or Renew is read correctly exactly when it is short. */
  lemma ShortHeaderReadIff(kind: Kind, header: string, rest: string)
    requires (kind == Checkout || kind == Renew) && |header| == 20
    ensures Coded(kind, header + rest) == rest <==> |rest| < 18
  {
  }

  /** Parse panics exactly on a valid message whose first "AY" leaves no room for a code. */
  lemma ParsePanicsIff(cfg: WireConfig, raw: string)
    ensures ParseOf(cfg, raw).Panicked?
            <==> |raw| >= 2 && cfg.errorDetection && cfg.encoder.Some?
                 && IsValid(raw, cfg.encoder.value) && 0 <= Index(raw, "AY") < 2
  {
  }

  /** Such messages exist for every encoder that can encode five ASCII characters. */
  lemma ParsePanicWitness(cfg: WireConfig)
    requires cfg.errorDetection && cfg.encoder.Some? && cfg.encoder.value("AY" + "0" + "AZ").Some?
    ensures exists raw :: ParseOf(cfg, raw).Panicked?
  {
    var sent := "" + "AY" + "0" + "AZ";
    assert sent == "AY" + "0" + "AZ";
    var bs := cfg.encoder.value(sent).value;
    var field := Hex4(ChecksumOf(bs));
    NoMarksInZero();
    MarksOf("", "0", field);
    SealedIsValid("", "0", cfg.encoder.value, bs);
    StartsWithAY(cfg, sent + field);
  }

  lemma NoMarksInZero()
    ensures !Contains("", "AY") && !Contains("", "AZ") && !Contains("0", "AY") && !Contains("0", "AZ")
  {
  }

  lemma StartsWithAY(cfg: WireConfig, raw: string)
    requires |raw| >= 2 && cfg.errorDetection && cfg.encoder.Some?
    requires IsValid(raw, cfg.encoder.value) && Index(raw, "AY") == 0
    ensures ParseOf(cfg, raw).Panicked?
  {
    ParsePanicsIff(cfg, raw);
  }
}
