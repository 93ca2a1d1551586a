/**
 internal/sip2/builder/builder.go: responses with their error-detection fields.
 */
module Builder {
  import opened Outcome
  import opened Text
  import opened Fields
  import opened Sanitize
  import opened Checksum

  /** The tenant settings the wire format depends on. `encoder` is None for an unknown charset. */
  datatype WireConfig = WireConfig(
    errorDetection: bool, messageDelimiter: string, fieldDelimiter: string, encoder: Option<Encoder>)

  datatype BuildError = NoEncoder | ChecksumFailed

  /** Code and content with exactly the delimiter AY needs in front of it. */
  function Delimited(text: string, delim: string): string {
    if HasSuffix(text, delim) then text else text + delim
  }

  /** The message before its checksum and message delimiter. */
  function SentText(cfg: WireConfig, code: string, content: string, seqNo: string): string {
    Delimited(code + content, cfg.fieldDelimiter) + "AY" + seqNo + "AZ"
  }

  function SummedText(cfg: WireConfig, code: string, content: string, seqNo: string): string {
    ChecksumText(code + TrimSuffix(content, cfg.fieldDelimiter), seqNo, cfg.fieldDelimiter)
  }

  function Built(cfg: WireConfig, code: string, content: string, seqNo: string): Result<string, BuildError> {
    if !cfg.errorDetection && seqNo == "" then Ok(code + content + cfg.messageDelimiter)
    else if !cfg.errorDetection then
      Ok(Delimited(code + content, cfg.fieldDelimiter) + "AY" + seqNo + cfg.messageDelimiter)
    else
      match cfg.encoder
      case None => Err(NoEncoder)
      case Some(enc) =>
        match enc(SummedText(cfg, code, content, seqNo))
        case None => Err(ChecksumFailed)
        case Some(bs) => Ok(SentText(cfg, code, content, seqNo) + Hex4(ChecksumOf(bs)) + cfg.messageDelimiter)
  }

  /** Build */
  method Build(cfg: WireConfig, code: string, content: string, seqNo: string)
    returns (r: Result<string, BuildError>)
    ensures r == Built(cfg, code, content, seqNo)
  {
    var response := code + content;
    if cfg.errorDetection || seqNo != "" {
      var checksumContent := content;
      if HasSuffix(checksumContent, cfg.fieldDelimiter) {
        checksumContent := TrimSuffix(checksumContent, cfg.fieldDelimiter);
      }
      if !HasSuffix(response, cfg.fieldDelimiter) {
        response := response + cfg.fieldDelimiter;
      }
      response := response + "AY" + seqNo;
      if cfg.errorDetection {
        if cfg.encoder.None? { return Err(NoEncoder); }
        var checksum := CalculateChecksum(code + checksumContent, seqNo, cfg.fieldDelimiter, cfg.encoder.value);
        if checksum.Err? { return Err(ChecksumFailed); }
        response := response + "AZ" + checksum.value;
        assert response == SentText(cfg, code, content, seqNo) + checksum.value;
      }
    }
    response := response + cfg.messageDelimiter;
    r := Ok(response);
  }

  /** The delimiter added to the response and the one added to the checksummed text are the same one. */
  predicate DelimitersAgree(cfg: WireConfig, code: string, content: string) {
    HasSuffix(code + content, cfg.fieldDelimiter) ==> HasSuffix(content, cfg.fieldDelimiter)
  }

  /**
   The checksummed text is the sent text exactly when the field delimiter does not straddle
   the message code and the content.
   */
  lemma SummedIsSentIff(cfg: WireConfig, code: string, content: string, seqNo: string)
    ensures SummedText(cfg, code, content, seqNo) == SentText(cfg, code, content, seqNo)
            <==> DelimitersAgree(cfg, code, content)
  {
    var d := cfg.fieldDelimiter;
    if HasSuffix(content, d) {
      assert content == TrimSuffix(content, d) + d;
      assert (code + content)[|code + content| - |d|..] == d;
      assert code + TrimSuffix(content, d) + d == code + content;
    } else if HasSuffix(code + content, d) {
      assert |SummedText(cfg, code, content, seqNo)| == |SentText(cfg, code, content, seqNo)| + |d|;
      assert d != "" by { assert content[|content|..] == ""; }
    }
  }

  /** Only a content shorter than the delimiter can be straddled. */
  lemma LongContentAgrees(cfg: WireConfig, code: string, content: string)
    requires |cfg.fieldDelimiter| <= |content|
    ensures DelimitersAgree(cfg, code, content)
  {
    var n := |cfg.fieldDelimiter|;
    assert (code + content)[|code + content| - n..] == content[|content| - n..];
  }

  /**
   One that is: the content "1" of an accepted login response, code 94, under the delimiter
   "41". The message is summed with a delimiter that is not sent.
   */
  lemma StraddlingDelimiter(cfg: WireConfig, seqNo: string)
    requires cfg.fieldDelimiter == "41"
    ensures !DelimitersAgree(cfg, "94", "1")
    ensures SummedText(cfg, "94", "1", seqNo) != SentText(cfg, "94", "1", seqNo)
  {
    assert "94" + "1" == "941" && "941"[1..] == "41";
    SummedIsSentIff(cfg, "94", "1", seqNo);
  }

  /** What is left of a message built with error detection once its message delimiter is taken off. */
  lemma BuiltBody(cfg: WireConfig, code: string, content: string, seqNo: string)
    requires cfg.errorDetection && Built(cfg, code, content, seqNo).Ok?
    ensures exists field :: |field| == 4
              && WithoutDelimiter(cfg, Built(cfg, code, content, seqNo).value) == SentText(cfg, code, content, seqNo) + field
  {
    var bs := cfg.encoder.value(SummedText(cfg, code, content, seqNo)).value;
    var body := SentText(cfg, code, content, seqNo) + Hex4(ChecksumOf(bs));
    TrimAdded(body, cfg.messageDelimiter);
  }

  lemma TrimAdded(s: string, d: string)
    ensures TrimSuffix(s + d, d) == s
  {
  }

  function WithoutDelimiter(cfg: WireConfig, r: string): string {
    TrimSuffix(r, cfg.messageDelimiter)
  }

  /**
   Every built message, less its message delimiter, is valid; its sequence number is read
   back exactly when that number has no "AY".
   */
  lemma BuildThenValidate(cfg: WireConfig, code: string, content: string, seqNo: string)
    requires cfg.errorDetection && cfg.encoder.Some? && Built(cfg, code, content, seqNo).Ok?
    requires DelimitersAgree(cfg, code, content)
    requires var sent := SentText(cfg, code, content, seqNo); Index(sent, "AZ") == |sent| - 2
    ensures var v := Validated(WithoutDelimiter(cfg, Built(cfg, code, content, seqNo).value), cfg.encoder.value);
            v.Checked? && v.valid && (v.seqNo == seqNo <==> !Contains(seqNo, "AY"))
  {
    var sent := SentText(cfg, code, content, seqNo);
    var text := Delimited(code + content, cfg.fieldDelimiter);
    SummedIsSentIff(cfg, code, content, seqNo);
    var bs := cfg.encoder.value(sent).value;
    var body := sent + Hex4(ChecksumOf(bs));
    assert WithoutDelimiter(cfg, body + cfg.messageDelimiter) == body;
    SealedIsValid(text, seqNo, cfg.encoder.value, bs);
  }

  // ---------------------------------------------------------------------------------------
  // One response builder as a client: Renew Response (30).

  datatype Renewal = Renewal(
    ok: bool, renewalOk: bool, magneticMedia: bool, desensitize: bool, date: string,
    institution: string, patron: string, item: string, title: string, dueDate: Option<string>,
    screen: seq<string>, print_: seq<string>)

  function AllOptional(code: string, values: seq<string>): seq<Field> {
    seq(|values|, i requires 0 <= i < |values| => Optional(code, values[i]))
  }

  function RenewalHeader(r: Renewal): string {
    (if r.ok then "1" else "0") + (if r.renewalOk then "Y" else "N")
    + (if r.magneticMedia then "Y" else "U") + (if r.desensitize then "Y" else "U") + r.date
  }

  function RenewalFields(r: Renewal): seq<Field> {
    PatronFields(r)
    + (match r.dueDate case Some(d) => [Optional("AH", d)] case None => [])
    + AllOptional("AF", r.screen) + AllOptional("AG", r.print_)
  }

  lemma {:induction false} BuildAllAppend(a: seq<Field>, b: seq<Field>, delim: string)
    ensures BuildAll(a + b, delim) == BuildAll(a, delim) + BuildAll(b, delim)
  {
    if a == [] {
      assert a + b == b;
    } else {
      assert (a + b)[1..] == a[1..] + b;
      BuildAllAppend(a[1..], b, delim);
    }
  }

  lemma BuildAllSnoc(fs: seq<Field>, code: string, value: string, delim: string)
    ensures BuildAll(fs + [Optional(code, value)], delim) == BuildAll(fs, delim) + BuildField(code, value, delim)
  {
    BuildAllAppend(fs, [Optional(code, value)], delim);
    assert BuildAll([Optional(code, value)][1..], delim) == "";
  }

  method AppendEach(content: string, code: string, values: seq<string>, delim: string) returns (r: string)
    ensures r == content + BuildAll(AllOptional(code, values), delim)
  {
    r := content;
    assert content + "" == content;
    for i := 0 to |values|
      invariant r == content + BuildAll(AllOptional(code, values[..i]), delim)
    {
      EachTake(content, code, values, i, delim);
      r := r + BuildField(code, values[i], delim);
    }
    assert values[..|values|] == values;
  }

  lemma EachGrows(code: string, values: seq<string>, i: nat, delim: string)
    requires i < |values|
    ensures BuildAll(AllOptional(code, values[..i + 1]), delim)
         == BuildAll(AllOptional(code, values[..i]), delim) + BuildField(code, values[i], delim)
  {
    assert values[..i + 1] == values[..i] + [values[i]];
    EachSnoc(code, values[..i], values[i], delim);
  }

  lemma EachTake(content: string, code: string, values: seq<string>, i: nat, delim: string)
    requires i < |values|
    ensures content + BuildAll(AllOptional(code, values[..i]), delim) + BuildField(code, values[i], delim)
         == content + BuildAll(AllOptional(code, values[..i + 1]), delim)
  {
    EachGrows(code, values, i, delim);
    Assoc(content, BuildAll(AllOptional(code, values[..i]), delim), BuildField(code, values[i], delim));
  }

  lemma EachSnoc(code: string, values: seq<string>, v: string, delim: string)
    ensures BuildAll(AllOptional(code, values + [v]), delim)
         == BuildAll(AllOptional(code, values), delim) + BuildField(code, v, delim)
  {
    assert AllOptional(code, values + [v]) == AllOptional(code, values) + [Optional(code, v)];
    BuildAllSnoc(AllOptional(code, values), code, v, delim);
  }

  /** One more optional field on a content that already holds `fs`. */
  method Append(header: string, fs: seq<Field>, content: string, code: string, value: string, delim: string)
    returns (r: string)
    requires content == header + BuildAll(fs, delim)
    ensures r == header + BuildAll(fs + [Optional(code, value)], delim)
  {
    BuildAllSnoc(fs, code, value, delim);
    Assoc(header, BuildAll(fs, delim), BuildField(code, value, delim));
    r := content + BuildField(code, value, delim);
  }

  /** BuildRenewResponse */
  method BuildRenewResponse(cfg: WireConfig, r: Renewal, seqNo: string) returns (m: Result<string, BuildError>)
    ensures m == Built(cfg, "30", RenewalHeader(r) + BuildAll(RenewalFields(r), cfg.fieldDelimiter), seqNo)
  {
    var d := cfg.fieldDelimiter;
    var content := if r.ok then "1" else "0";
    content := content + (if r.renewalOk then "Y" else "N");
    if r.magneticMedia { content := content + "Y"; } else { content := content + "U"; }
    if r.desensitize { content := content + "Y"; } else { content := content + "U"; }
    content := content + r.date;
    content := AppendRenewalFields(r, content, d);
    m := Build(cfg, "30", content, seqNo);
  }

  function PatronFields(r: Renewal): seq<Field> {
    [Optional("AO", r.institution)] + [Optional("AA", r.patron)] + [Optional("AB", r.item)]
    + [Optional("AJ", r.title)]
  }

  method AppendPatronFields(r: Renewal, header: string, d: string) returns (content: string)
    ensures content == header + BuildAll(PatronFields(r), d)
  {
    assert header + "" == header;
    content := Append(header, [], header, "AO", r.institution, d);
    var fs := [Optional("AO", r.institution)];
    assert [] + fs == fs;
    content := Append(header, fs, content, "AA", r.patron, d);
    fs := fs + [Optional("AA", r.patron)];
    content := Append(header, fs, content, "AB", r.item, d);
    fs := fs + [Optional("AB", r.item)];
    if r.title != "" {
      content := Append(header, fs, content, "AJ", r.title, d);
    } else {
      BlankOmitted(d);
      BuildAllSnoc(fs, "AJ", "", d);
    }
  }

  lemma AppendAll(header: string, a: seq<Field>, b: seq<Field>, d: string)
    ensures header + BuildAll(a, d) + BuildAll(b, d) == header + BuildAll(a + b, d)
  {
    BuildAllAppend(a, b, d);
    Assoc(header, BuildAll(a, d), BuildAll(b, d));
  }

  method AppendRenewalFields(r: Renewal, header: string, d: string) returns (content: string)
    ensures content == header + BuildAll(RenewalFields(r), d)
  {
    content := AppendPatronFields(r, header, d);
    var fs := PatronFields(r);
    if r.dueDate.Some? {
      content := Append(header, fs, content, "AH", r.dueDate.value, d);
      fs := fs + [Optional("AH", r.dueDate.value)];
    } else {
      assert fs + [] == fs;
    }
    var af, ag := AllOptional("AF", r.screen), AllOptional("AG", r.print_);
    AppendAll(header, fs, af, d);
    content := AppendEach(content, "AF", r.screen, d);
    AppendAll(header, fs + af, ag, d);
    content := AppendEach(content, "AG", r.print_, d);
  }

  lemma BlankOmitted(d: string)
    ensures BuildField("AJ", "", d) == ""
  {
  }

  /** What a reader should get for a code: single fields, then every screen message and print line in order, blanks left out. */
  function RenewalValues(r: Renewal, d: string, code: string): seq<string> {
    Expected(PatronFields(r), d, code)
    + Expected(match r.dueDate case Some(x) => [Optional("AH", x)] case None => [], d, code)
    + (if code == "AF" then NonBlank(r.screen, d) else [])
    + (if code == "AG" then NonBlank(r.print_, d) else [])
  }

  lemma RenewalExpected(r: Renewal, d: string, code: string)
    ensures Expected(RenewalFields(r), d, code) == RenewalValues(r, d, code)
  {
    var due := match r.dueDate case Some(x) => [Optional("AH", x)] case None => [];
    var af, ag := AllOptional("AF", r.screen), AllOptional("AG", r.print_);
    ExpectedAppend(PatronFields(r) + due + af, ag, d, code);
    ExpectedAppend(PatronFields(r) + due, af, d, code);
    ExpectedAppend(PatronFields(r), due, d, code);
    ExpectedOfEach("AF", r.screen, d, code);
    ExpectedOfEach("AG", r.print_, d, code);
  }

  /** Its fields, written out, are each ended by their own delimiter. */
  predicate RenewalClean(r: Renewal, d: string) {
    d != "" && AllClean(Segments(RenewalFields(r), d), d)
  }

  lemma RenewalCodes(r: Renewal)
    ensures TwoCharCodes(RenewalFields(r))
  {
  }

  /** Every field of the response is read back, sanitized. */
  lemma RenewalReadsBack(r: Renewal, d: string, code: string)
    requires RenewalClean(r, d)
    ensures ValuesOf(Split(BuildAll(RenewalFields(r), d), d), code) == RenewalValues(r, d, code)
  {
    RenewalCodes(r);
    CleanFieldRead(RenewalFields(r), d, code);
    RenewalExpected(r, d, code);
  }

  /** Any one character that is neither a space nor a letter of the codes will do for a delimiter. */
  lemma OneCharRenewalClean(r: Renewal, d: string)
    requires |d| == 1 && d[0] !in " AOBJHFG"
    ensures RenewalClean(r, d)
  {
    var fs := RenewalFields(r);
    forall k | 0 <= k < |fs| ensures |fs[k].code| == 2 && !Contains(fs[k].code, d) {
      ContainsSingle(fs[k].code, d);
    }
    SegmentsClean(fs, d);
  }

  /** The sanitized values that are not blank, in order. */
  function NonBlank(values: seq<string>, d: string): seq<string> {
    if values == [] then []
    else
      var v := SanitizeFieldValue(values[0], d);
      (if v == "" then [] else [v]) + NonBlank(values[1..], d)
  }

  lemma {:induction false} ExpectedOfEach(c: string, values: seq<string>, d: string, code: string)
    ensures Expected(AllOptional(c, values), d, code) == if c == code then NonBlank(values, d) else []
  {
    if values != [] {
      assert AllOptional(c, values)[1..] == AllOptional(c, values[1..]);
      ExpectedOfEach(c, values[1..], d, code);
    }
  }

  lemma {:induction false} ExpectedAppend(a: seq<Field>, b: seq<Field>, d: string, code: string)
    ensures Expected(a + b, d, code) == Expected(a, d, code) + Expected(b, d, code)
  {
    if a == [] {
      assert a + b == b;
    } else {
      assert (a + b)[1..] == a[1..] + b;
      ExpectedAppend(a[1..], b, d, code);
    }
  }
}
