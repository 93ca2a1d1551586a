/**
 internal/server/connection.go: messages on a byte stream, ended by a configured delimiter.
 */
module Framing {
  import opened Outcome
  import opened Text
  import opened Checksum
  import opened Builder
  import opened Fields
  import Parser

  const MAX_SIP2_MESSAGE_BYTES := 64 * 1024

  datatype ReadResult = Message(text: string) | EndOfInput | TooLong

  /** What one read returns, and what it leaves unread. */
  datatype Reading = Reading(result: ReadResult, rest: string)

  /** A stray LF in front of a message is dropped unless the delimiter itself starts with LF. */
  predicate DropsLF(d: string) {
    d == "" || d[0] != '\n'
  }

  function SkipLF(s: string, d: string): string {
    if DropsLF(d) && s != "" && s[0] == '\n' then SkipLF(s[1..], d) else s
  }

  function TrimRightCR(s: string): string {
    if s != "" && s[|s| - 1] == '\r' then TrimRightCR(s[..|s| - 1]) else s
  }

  function Payload(m: string, d: string): string {
    if d == "\n" then TrimRightCR(m) else m
  }

  /** What reading up to the delimiter must do, on input whose leading LFs are already dropped. */
  function ReadRaw(t: string, d: string): Reading {
    var i := Index(t, d);
    if d == "" && t != "" then Reading(Message(t[..1]), t[1..])
    else if d != "" && i != -1 && i + |d| <= MAX_SIP2_MESSAGE_BYTES + 1 then
      Reading(Message(t[..i]), t[i + |d|..])
    else if |t| > MAX_SIP2_MESSAGE_BYTES then Reading(TooLong, t[MAX_SIP2_MESSAGE_BYTES + 1..])
    else Reading(EndOfInput, "")
  }

  /** What reading one message from `s` must do. */
  function Read(s: string, d: string): Reading {
    var raw := ReadRaw(SkipLF(s, d), d);
    if raw.result.Message? then Reading(Message(Payload(raw.result.text, d)), raw.rest) else raw
  }

  /** The buffered connection: what has arrived and is not read yet. */
  class Reader {
    var rest: string

    constructor (s: string)
      ensures rest == s
    {
      rest := s;
    }

    /** Reads one byte; false at the end of the input. */
    method ReadByte() returns (ok: bool, b: char)
      modifies this
      ensures ok == (old(rest) != "")
      ensures ok ==> b == old(rest)[0] && rest == old(rest)[1..]
      ensures !ok ==> rest == old(rest)
    {
      ok, b := rest != "", '\0';
      if ok {
        b, rest := rest[0], rest[1..];
      }
    }
  }

  /** No delimiter ends within the first `n` bytes. */
  ghost predicate NoneYet(t: string, d: string, n: nat) {
    d != "" ==> forall j: nat :: j + |d| <= n ==> !OccursAt(t, d, j)
  }

  lemma DelimiterFound(t: string, d: string, message: string, rest: string)
    requires t == message + rest && message != "" && HasSuffix(message, d)
    requires NoneYet(t, d, |message| - 1) && |message| <= MAX_SIP2_MESSAGE_BYTES + 1
    requires d == "" ==> |message| == 1
    ensures ReadRaw(t, d) == Reading(Message(message[..|message| - |d|]), rest)
  {
    var n := |message| - |d|;
    assert t[..n] == message[..n] && t[|message|..] == rest;
    if d != "" {
      assert t[n..n + |d|] == message[n..];
      IndexIs(t, d, n);
    }
  }

  lemma DelimiterMissing(t: string, d: string, message: string, rest: string)
    requires t == message + rest && NoneYet(t, d, |message|) && (d == "" ==> message == "")
    requires rest == "" && |message| <= MAX_SIP2_MESSAGE_BYTES
    ensures ReadRaw(t, d) == Reading(EndOfInput, "")
  {
  }

  /** The byte loop of readMessage. */
  method ReadToDelimiter(reader: Reader, d: string) returns (r: ReadResult)
    modifies reader
    ensures Reading(r, reader.rest) == ReadRaw(SkipLF(old(reader.rest), d), d)
  {
    var message := "";
    ghost var t := SkipLF(reader.rest, d);
    while true
      invariant if message == "" then SkipLF(reader.rest, d) == t else message + reader.rest == t
      invariant |message| <= MAX_SIP2_MESSAGE_BYTES && (d == "" ==> message == "")
      invariant NoneYet(t, d, |message|)
      decreases |reader.rest|
    {
      var ok, b := reader.ReadByte();
      if !ok {
        assert message + reader.rest == t;
        DelimiterMissing(t, d, message, reader.rest);
        return EndOfInput;
      }
      if |message| == 0 && b == '\n' && (|d| == 0 || d[0] != '\n') { continue; }
      message := message + [b];
      assert message + reader.rest == t;
      if |message| >= |d| {
        var tail := message[|message| - |d|..];
        if tail == d {
          DelimiterFound(t, d, message, reader.rest);
          return Message(message[..|message| - |d|]);
        }
        NotHere(t, d, message, reader.rest);
      }
      if |message| > MAX_SIP2_MESSAGE_BYTES {
        DelimiterOverrun(t, d, message, reader.rest);
        return TooLong;
      }
    }
  }

  lemma NotHere(t: string, d: string, message: string, rest: string)
    requires t == message + rest && message != "" && |message| >= |d| && !HasSuffix(message, d)
    requires NoneYet(t, d, |message| - 1)
    ensures NoneYet(t, d, |message|)
  {
  }

  lemma DelimiterOverrun(t: string, d: string, message: string, rest: string)
    requires t == message + rest && NoneYet(t, d, |message|) && d != ""
    requires |message| == MAX_SIP2_MESSAGE_BYTES + 1
    ensures ReadRaw(t, d) == Reading(TooLong, rest)
  {
  }

  /** readMessage */
  method ReadMessage(reader: Reader, d: string) returns (r: ReadResult)
    modifies reader
    ensures Reading(r, reader.rest) == Read(old(reader.rest), d)
  {
    r := ReadToDelimiter(reader, d);
    if r.Message? && |d| == 1 && d[0] == '\n' {
      var message := TrimCR(r.text);
      r := Message(message);
    }
  }

  method TrimCR(m: string) returns (r: string)
    ensures r == TrimRightCR(m)
  {
    r := m;
    while r != "" && r[|r| - 1] == '\r'
      invariant TrimRightCR(r) == TrimRightCR(m)
      decreases |r|
    {
      r := r[..|r| - 1];
    }
  }

  // ---------------------------------------------------------------------------------------
  // Round trips.

  lemma SkipLFStops(s: string, d: string)
    requires DropsLF(d) && s != "" ==> s[0] != '\n'
    ensures SkipLF(s, d) == s
  {
  }

  lemma TrimRightCRStops(s: string)
    requires s != "" ==> s[|s| - 1] != '\r'
    ensures TrimRightCR(s) == s
  {
  }

  predicate StartsSafely(m: string, d: string) {
    DropsLF(d) && m != "" ==> m[0] != '\n'
  }

  /**
   A delimited payload is accepted exactly when it has at most 65536 - |delimiter| + 1 bytes;
   a longer one is an error. (65536 itself fits only a one-byte delimiter.)
   */
  lemma AcceptedIff(m: string, d: string, rest: string)
    requires d != "" && Clean(m, d) && StartsSafely(m, d)
    ensures var r := Read(m + d + rest, d);
            if |m| <= MAX_SIP2_MESSAGE_BYTES - |d| + 1
            then r == Reading(Message(Payload(m, d)), rest)
            else r.result == TooLong
  {
    var s := m + d + rest;
    assert s[0] == if m != "" then m[0] else d[0];
    SkipLFStops(s, d);
    CleanIndex(m, d, rest);
    assert s[..|m|] == m && s[|m| + |d|..] == rest;
  }

  /** Messages that survive one trip: the first delimiter is the real one, and nothing is trimmed. */
  predicate Frameable(m: string, d: string) {
    && d != "" && Clean(m, d) && StartsSafely(m, d)
    && |m| <= MAX_SIP2_MESSAGE_BYTES - |d| + 1
    && (d == "\n" && m != "" ==> m[|m| - 1] != '\r')
  }

  /** Reads `n` messages, or stops at the first failure. */
  function ReadMany(s: string, d: string, n: nat): (seq<string>, string)
    decreases n
  {
    if n == 0 then ([], s)
    else
      var r := Read(s, d);
      if r.result.Message? then
        var (ms, rest) := ReadMany(r.rest, d, n - 1);
        ([r.result.text] + ms, rest)
      else ([], r.rest)
  }

  lemma ReadCons(s: string, d: string, m: string, tail: string, n: nat)
    requires Read(s, d) == Reading(Message(m), tail)
    ensures ReadMany(s, d, n + 1) == ([m] + ReadMany(tail, d, n).0, ReadMany(tail, d, n).1)
  {
  }

  lemma TerminatedCons(ms: seq<string>, d: string, rest: string)
    requires ms != []
    ensures Terminated(ms, d) + rest == ms[0] + d + (Terminated(ms[1..], d) + rest)
    ensures [ms[0]] + ms[1..] == ms
  {
    Assoc(ms[0] + d, Terminated(ms[1..], d), rest);
  }

  lemma ReadFramed(m: string, d: string, tail: string)
    requires Frameable(m, d)
    ensures Read(m + d + tail, d) == Reading(Message(m), tail)
  {
    AcceptedIff(m, d, tail);
    if d == "\n" { TrimRightCRStops(m); }
  }

  /** Reading the concatenated frames gives back exactly the messages, in order. */
  lemma {:induction false} FramingRoundTrip(ms: seq<string>, d: string, rest: string)
    requires forall k :: 0 <= k < |ms| ==> Frameable(ms[k], d)
    ensures ReadMany(Terminated(ms, d) + rest, d, |ms|) == (ms, rest)
  {
    if ms == [] {
      assert "" + rest == rest;
    } else {
      var tail := Terminated(ms[1..], d) + rest;
      TerminatedCons(ms, d, rest);
      ReadFramed(ms[0], d, tail);
      FramingRoundTrip(ms[1..], d, rest);
      ReadCons(ms[0] + d + tail, d, ms[0], tail, |ms| - 1);
    }
  }

  /** One CR-ended message, with or without the LF a CRLF sender left in front of it. */
  lemma ReadPastLF(m: string, tail: string, pending: bool)
    requires Frameable(m, "\r")
    ensures Read((if pending then "\n" else "") + (m + "\r" + tail), "\r") == Reading(Message(m), tail)
  {
    var t := m + "\r" + tail;
    assert t[0] == if m != "" then m[0] else '\r';
    AcceptedIff(m, "\r", tail);
    SkipLFStops(t, "\r");
    if pending {
      assert ("\n" + t)[0] == '\n' && ("\n" + t)[1..] == t;
    } else {
      assert "" + t == t;
    }
  }

  /** A reader that expects CR, fed CRLF: the LF left behind is dropped by the next read. */
  lemma {:induction false} CRLFOnCRReader(ms: seq<string>, pending: bool)
    requires forall k :: 0 <= k < |ms| ==> Frameable(ms[k], "\r")
    ensures var s := (if pending then "\n" else "") + Terminated(ms, "\r\n");
            ReadMany(s, "\r", |ms|) == (ms, if ms == [] then s else "\n")
  {
    if ms != [] {
      var lead := if pending then "\n" else "";
      var tail := "\n" + Terminated(ms[1..], "\r\n");
      CRLFCons(ms);
      assert Frameable(ms[0], "\r");
      ReadPastLF(ms[0], tail, pending);
      CRLFOnCRReader(ms[1..], true);
      ReadCons(lead + Terminated(ms, "\r\n"), "\r", ms[0], tail, |ms| - 1);
      if ms[1..] == [] { assert tail == "\n"; }
    }
  }

  lemma CRLFCons(ms: seq<string>)
    requires ms != []
    ensures Terminated(ms, "\r\n") == ms[0] + "\r" + ("\n" + Terminated(ms[1..], "\r\n"))
    ensures [ms[0]] + ms[1..] == ms
  {
    TerminatedSplit(ms, "\r\n");
    CRLFPieces(ms[0], Terminated(ms[1..], "\r\n"));
  }

  lemma CRLFPieces(m: string, t: string)
    ensures m + "\r\n" + t == m + "\r" + ("\n" + t)
  {
    assert "\r\n" == "\r" + "\n";
    Regroup(m, "\r", "\n", t);
  }

  lemma Regroup(a: string, b: string, c: string, t: string)
    ensures a + (b + c) + t == a + b + (c + t)
  {
  }

  /** A reader that expects LF, fed CRLF: the CR is trimmed. */
  lemma {:induction false} CRLFOnLFReader(ms: seq<string>, rest: string)
    requires forall k :: 0 <= k < |ms| ==> Frameable(ms[k], "\n") && |ms[k]| < MAX_SIP2_MESSAGE_BYTES
    ensures ReadMany(Terminated(ms, "\r\n") + rest, "\n", |ms|) == (ms, rest)
  {
    if ms == [] {
      assert "" + rest == rest;
    } else {
      var tail := Terminated(ms[1..], "\r\n") + rest;
      TerminatedCons(ms, "\r\n", rest);
      assert ms[0] + "\r\n" + tail == ms[0] + "\r" + "\n" + tail;
      assert Frameable(ms[0], "\n");
      ReadCRLF(ms[0], tail);
      CRLFOnLFReader(ms[1..], rest);
      ReadCons(ms[0] + "\r" + "\n" + tail, "\n", ms[0], tail, |ms| - 1);
    }
  }

  lemma ReadCRLF(m: string, tail: string)
    requires Frameable(m, "\n") && |m| < MAX_SIP2_MESSAGE_BYTES
    ensures Read(m + "\r" + "\n" + tail, "\n") == Reading(Message(m), tail)
  {
    CleanSingle(m, "\n");
    CleanSingle(m + "\r", "\n");
    AcceptedIff(m + "\r", "\n", tail);
    assert (m + "\r")[..|m|] == m;
    TrimRightCRStops(m);
  }

  // ---------------------------------------------------------------------------------------
  // From the builder to the peer.

  /** sendMessage adds the delimiter unless it is there: the wire always carries one frame. */
  method SendMessage(cfg: WireConfig, message: string) returns (wire: string)
    ensures wire == TrimSuffix(message, cfg.messageDelimiter) + cfg.messageDelimiter
  {
    wire := message;
    if !HasSuffix(message, cfg.messageDelimiter) {
      wire := wire + cfg.messageDelimiter;
    }
  }

  datatype Response = Response(code: string, content: string, seqNo: string)

  predicate Sendable(cfg: WireConfig, r: Response) {
    && Built(cfg, r.code, r.content, r.seqNo).Ok?
    && DelimitersAgree(cfg, r.code, r.content)
    && (var sent := SentText(cfg, r.code, r.content, r.seqNo); Index(sent, "AZ") == |sent| - 2)
    && Frameable(Body(cfg, r), cfg.messageDelimiter)
  }

  /** The text handed to sendMessage. */
  function TextOf(cfg: WireConfig, r: Response): string {
    match Built(cfg, r.code, r.content, r.seqNo)
    case Ok(text) => text
    case Err(_) => ""
  }

  function Body(cfg: WireConfig, r: Response): string {
    WithoutDelimiter(cfg, TextOf(cfg, r))
  }

  function Bodies(cfg: WireConfig, rs: seq<Response>): seq<string> {
    if rs == [] then [] else [Body(cfg, rs[0])] + Bodies(cfg, rs[1..])
  }

  /** Everything the connection writes for a list of built responses. */
  function WireOf(cfg: WireConfig, rs: seq<Response>): string {
    if rs == [] then "" else Delimited(TextOf(cfg, rs[0]), cfg.messageDelimiter) + WireOf(cfg, rs[1..])
  }

  lemma {:induction false} BodyAt(cfg: WireConfig, rs: seq<Response>, k: nat)
    requires k < |rs|
    ensures |Bodies(cfg, rs)| == |rs| && Bodies(cfg, rs)[k] == Body(cfg, rs[k])
  {
    if k > 0 {
      BodyAt(cfg, rs[1..], k - 1);
    } else if |rs| > 1 {
      BodyAt(cfg, rs[1..], 0);
    }
  }

  /** A built response ends its own frame: what is written is its body and one delimiter. */
  lemma DelimitedBuilt(cfg: WireConfig, r: Response)
    requires Built(cfg, r.code, r.content, r.seqNo).Ok?
    ensures Delimited(TextOf(cfg, r), cfg.messageDelimiter) == Body(cfg, r) + cfg.messageDelimiter
  {
    BuiltEndsFrame(cfg, r.code, r.content, r.seqNo);
  }

  lemma {:induction false} WireIsTerminated(cfg: WireConfig, rs: seq<Response>)
    requires forall k :: 0 <= k < |rs| ==> Built(cfg, rs[k].code, rs[k].content, rs[k].seqNo).Ok?
    ensures WireOf(cfg, rs) == Terminated(Bodies(cfg, rs), cfg.messageDelimiter)
  {
    if rs != [] {
      DelimitedBuilt(cfg, rs[0]);
      WireIsTerminated(cfg, rs[1..]);
      assert Bodies(cfg, rs)[1..] == Bodies(cfg, rs[1..]);
      TerminatedSplit(Bodies(cfg, rs), cfg.messageDelimiter);
    }
  }

  lemma TerminatedSplit(ms: seq<string>, d: string)
    requires ms != []
    ensures Terminated(ms, d) == ms[0] + d + Terminated(ms[1..], d)
  {
  }

  lemma BuiltEndsFrame(cfg: WireConfig, code: string, content: string, seqNo: string)
    requires Built(cfg, code, content, seqNo).Ok?
    ensures var r := Built(cfg, code, content, seqNo).value;
            HasSuffix(r, cfg.messageDelimiter) && r == WithoutDelimiter(cfg, r) + cfg.messageDelimiter
  {
  }

  /**
   A peer with the same settings reads back every response that was built and sent, in
   order, and each one carries a valid checksum and its own sequence number.
   */
  lemma BuiltResponsesReachThePeer(cfg: WireConfig, rs: seq<Response>)
    requires cfg.errorDetection && cfg.encoder.Some?
    requires forall k :: 0 <= k < |rs| ==> Sendable(cfg, rs[k]) && !Contains(rs[k].seqNo, "AY")
    ensures var (ms, rest) := ReadMany(WireOf(cfg, rs), cfg.messageDelimiter, |rs|);
            && |ms| == |rs| && rest == ""
            && forall k :: 0 <= k < |rs| ==>
                 var v := Validated(ms[k], cfg.encoder.value);
                 ms[k] == Body(cfg, rs[k]) && v.Checked? && v.valid && v.seqNo == rs[k].seqNo
  {
    WireIsTerminated(cfg, rs);
    var ms := Bodies(cfg, rs);
    if rs != [] { BodyAt(cfg, rs, 0); }
    forall k | 0 <= k < |rs|
      ensures ms[k] == Body(cfg, rs[k]) && Frameable(ms[k], cfg.messageDelimiter)
      ensures var v := Validated(ms[k], cfg.encoder.value);
              v.Checked? && v.valid && v.seqNo == rs[k].seqNo
    {
      BodyAt(cfg, rs, k);
      BuildThenValidate(cfg, rs[k].code, rs[k].content, rs[k].seqNo);
    }
    FramingRoundTrip(ms, cfg.messageDelimiter, "");
    assert WireOf(cfg, rs) + "" == WireOf(cfg, rs);
  }

  // ---------------------------------------------------------------------------------------
  // A renew response all the way to its reader.

  function RenewResponse(cfg: WireConfig, r: Renewal, seqNo: string): Response {
    Response("30", RenewalHeader(r) + BuildAll(RenewalFields(r), cfg.fieldDelimiter), seqNo)
  }

  /** What the peer reads for a code: error-detection fields stripped, code and header skipped, the rest split. */
  function ValuesIn(m: string, header: nat, d: string, code: string): seq<string>
    requires 2 + header <= |Stripped(m)|
  {
    ValuesOf(Split(Stripped(m)[2 + header..], d), code)
  }

  /** The delimiter in front of AY is the last field's own, or stands alone when there is no field. */
  lemma CodedTail(head: string, segs: seq<string>, d: string)
    ensures var tail := Terminated(segs, d);
            Delimited(head + tail, d) == head + tail || (segs == [] && Delimited(head + tail, d) == head + d)
  {
    if segs == [] {
      assert head + "" == head;
    } else {
      TerminatedEnds(segs, d);
      var tail := Terminated(segs, d);
      assert (head + tail)[|head + tail| - |d|..] == tail[|tail| - |d|..];
    }
  }

  lemma {:induction false} TerminatedEnds(segs: seq<string>, d: string)
    requires segs != []
    ensures HasSuffix(Terminated(segs, d), d)
  {
    var rest := Terminated(segs[1..], d);
    if segs[1..] == [] {
      assert segs[0] + d + "" == segs[0] + d;
    } else {
      TerminatedEnds(segs[1..], d);
      assert (segs[0] + d + rest)[|segs[0] + d + rest| - |d|..] == rest[|rest| - |d|..];
    }
  }

  lemma LoneDelimiter(d: string, code: string)
    requires d != ""
    ensures ValuesOf(Split(d, d), code) == [] && ValuesOf(Split("", d), code) == []
  {
    assert d[..0] == "" && d[|d|..] == "";
    IndexIs(d, d, 0);
    ShorterHasNone("", d);
    SplitFirst(d, d);
    SplitFirst("", d);
    DropShort("", [], code);
    DropShort("", [""], code);
    assert [""] + [] == [""];
  }

  /** The text in front of AY carries the header and, behind it, exactly the fields. */
  lemma RenewalText(r: Renewal, d: string, code: string)
    requires RenewalClean(r, d)
    ensures var head := "30" + RenewalHeader(r);
            var text := Delimited("30" + (RenewalHeader(r) + BuildAll(RenewalFields(r), d)), d);
            && |head| <= |text| && text[..|head|] == head
            && ValuesOf(Split(text[|head|..], d), code) == RenewalValues(r, d, code)
  {
    var head, fs := "30" + RenewalHeader(r), RenewalFields(r);
    var segs := Segments(fs, d);
    BuildAllIsTerminated(fs, d);
    Assoc("30", RenewalHeader(r), BuildAll(fs, d));
    CodedTail(head, segs, d);
    RenewalReadsBack(r, d, code);
    if segs == [] { LoneDelimiter(d, code); }
    Behind(head, Terminated(segs, d));
    Behind(head, d);
  }

  lemma Behind(head: string, tail: string)
    ensures (head + tail)[..|head|] == head && (head + tail)[|head|..] == tail
  {
  }

  lemma StrippedBody(cfg: WireConfig, r: Response)
    requires cfg.errorDetection && Built(cfg, r.code, r.content, r.seqNo).Ok?
    requires !Contains(Delimited(r.code + r.content, cfg.fieldDelimiter), "AY")
    ensures Stripped(Body(cfg, r)) == Delimited(r.code + r.content, cfg.fieldDelimiter)
  {
    var text := Delimited(r.code + r.content, cfg.fieldDelimiter);
    BuiltBody(cfg, r.code, r.content, r.seqNo);
    var field :| |field| == 4 && Body(cfg, r) == SentText(cfg, r.code, r.content, r.seqNo) + field;
    Parser.FirstAY(text, r.seqNo + "AZ" + field);
    Parser.Grouped(text, r.seqNo, field);
    Parser.StrippedSealed(text, r.seqNo, field);
  }

  /**
   A renew response that is built, framed and sent is read back by a peer with the same
   settings: the frame, a valid checksum and the sequence number, the header, and under every
   code the sanitized values in order.
   */
  lemma RenewalReachesThePeer(cfg: WireConfig, r: Renewal, seqNo: string, rest: string, code: string)
    requires cfg.errorDetection && cfg.encoder.Some?
    requires Sendable(cfg, RenewResponse(cfg, r, seqNo)) && RenewalClean(r, cfg.fieldDelimiter)
    requires !Contains(seqNo, "AY")
    requires !Contains(Delimited("30" + RenewResponse(cfg, r, seqNo).content, cfg.fieldDelimiter), "AY")
    ensures var m := Body(cfg, RenewResponse(cfg, r, seqNo));
            && Read(WireOf(cfg, [RenewResponse(cfg, r, seqNo)]) + rest, cfg.messageDelimiter) == Reading(Message(m), rest)
            && (var v := Validated(m, cfg.encoder.value); v.Checked? && v.valid && v.seqNo == seqNo)
            && 2 + |RenewalHeader(r)| <= |Stripped(m)|
            && Stripped(m)[..2 + |RenewalHeader(r)|] == "30" + RenewalHeader(r)
            && ValuesIn(m, |RenewalHeader(r)|, cfg.fieldDelimiter, code) == RenewalValues(r, cfg.fieldDelimiter, code)
  {
    var q := RenewResponse(cfg, r, seqNo);
    OneOnTheWire(cfg, q, rest);
    JudgedByPeer(cfg, q);
    FieldsAtPeer(cfg, q, r, code);
  }

  lemma JudgedByPeer(cfg: WireConfig, q: Response)
    requires cfg.errorDetection && cfg.encoder.Some? && Sendable(cfg, q) && !Contains(q.seqNo, "AY")
    requires !Contains(Delimited(q.code + q.content, cfg.fieldDelimiter), "AY")
    ensures var v := Validated(Body(cfg, q), cfg.encoder.value); v.Checked? && v.valid && v.seqNo == q.seqNo
  {
    BuildThenValidate(cfg, q.code, q.content, q.seqNo);
  }

  lemma FieldsAtPeer(cfg: WireConfig, q: Response, r: Renewal, code: string)
    requires cfg.errorDetection && RenewalClean(r, cfg.fieldDelimiter)
    requires Built(cfg, q.code, q.content, q.seqNo).Ok?
    requires q.code == "30" && q.content == RenewalHeader(r) + BuildAll(RenewalFields(r), cfg.fieldDelimiter)
    requires !Contains(Delimited(q.code + q.content, cfg.fieldDelimiter), "AY")
    ensures var m := Body(cfg, q);
            && 2 + |RenewalHeader(r)| <= |Stripped(m)|
            && Stripped(m)[..2 + |RenewalHeader(r)|] == "30" + RenewalHeader(r)
            && ValuesIn(m, |RenewalHeader(r)|, cfg.fieldDelimiter, code) == RenewalValues(r, cfg.fieldDelimiter, code)
  {
    StrippedBody(cfg, q);
    assert "30" == q.code;
    TextReadBack(Body(cfg, q), r, cfg.fieldDelimiter, code);
  }

  lemma TextReadBack(m: string, r: Renewal, d: string, code: string)
    requires RenewalClean(r, d)
    requires Stripped(m) == Delimited("30" + (RenewalHeader(r) + BuildAll(RenewalFields(r), d)), d)
    ensures 2 + |RenewalHeader(r)| <= |Stripped(m)|
    ensures Stripped(m)[..2 + |RenewalHeader(r)|] == "30" + RenewalHeader(r)
    ensures ValuesIn(m, |RenewalHeader(r)|, d, code) == RenewalValues(r, d, code)
  {
    RenewalText(r, d, code);
  }

  lemma WireOfOne(cfg: WireConfig, q: Response)
    ensures WireOf(cfg, [q]) == Delimited(TextOf(cfg, q), cfg.messageDelimiter)
  {
    var text := Delimited(TextOf(cfg, q), cfg.messageDelimiter);
    assert WireOf(cfg, [q][1..]) == "" && text + "" == text;
  }

  lemma OneOnTheWire(cfg: WireConfig, q: Response, rest: string)
    requires Sendable(cfg, q)
    ensures Read(WireOf(cfg, [q]) + rest, cfg.messageDelimiter) == Reading(Message(Body(cfg, q)), rest)
  {
    WireOfOne(cfg, q);
    DelimitedBuilt(cfg, q);
    ReadFramed(Body(cfg, q), cfg.messageDelimiter, rest);
  }
}
