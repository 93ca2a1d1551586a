/**
 internal/folio/cql.go: quoting device-supplied values inside a CQL query.
 */
module Cql {
  import opened Outcome

  predicate IsSpecial(c: char) {
    c == '\\' || c == '"' || c == '*' || c == '?' || c == '^'
  }

  /** The single-pass replacer: each special character gets a backslash. */
  function Escape(v: string): string {
    if v == "" then "" else (if IsSpecial(v[0]) then ['\\', v[0]] else [v[0]]) + Escape(v[1..])
  }

  function CqlQuote(v: string): string {
    "\"" + Escape(v) + "\""
  }

  // ---------------------------------------------------------------------------------------
  // A CQL reader, for a quoted term.

  /** Inside quotes "*" and "?" mask characters and "^" anchors; a backslash makes the next one literal. */
  datatype Token = Literal(c: char) | AnyString | AnyChar | Anchor

  datatype Term = Term(tokens: seq<Token>, rest: string)

  function TokenOf(c: char): Token {
    if c == '*' then AnyString else if c == '?' then AnyChar else if c == '^' then Anchor else Literal(c)
  }

  /** Reads to the closing quote; None when the input ends first. */
  function ReadQuoted(s: string): Option<Term>
    decreases |s|
  {
    if s == "" then None
    else if s[0] == '"' then Some(Term([], s[1..]))
    else if s[0] == '\\' then
      if |s| == 1 then None
      else
        match ReadQuoted(s[2..])
        case Some(t) => Some(Term([Literal(s[1])] + t.tokens, t.rest))
        case None => None
    else
      match ReadQuoted(s[1..])
      case Some(t) => Some(Term([TokenOf(s[0])] + t.tokens, t.rest))
      case None => None
  }

  function ReadTerm(s: string): Option<Term> {
    if s != "" && s[0] == '"' then ReadQuoted(s[1..]) else None
  }

  function Literals(v: string): seq<Token> {
    seq(|v|, i requires 0 <= i < |v| => Literal(v[i]))
  }

  lemma {:induction false} EscapedReadsBack(v: string, t: string)
    ensures ReadQuoted(Escape(v) + "\"" + t) == Some(Term(Literals(v), t))
  {
    var s := Escape(v) + "\"" + t;
    if v == "" {
      assert s == "\"" + t && s[1..] == t;
    } else {
      EscapedReadsBack(v[1..], t);
      var tail := Escape(v[1..]) + "\"" + t;
      assert s == (if IsSpecial(v[0]) then ['\\', v[0]] else [v[0]]) + tail;
      assert if IsSpecial(v[0]) then s[2..] == tail else s[1..] == tail;
      assert Literals(v) == [Literal(v[0])] + Literals(v[1..]);
    }
  }

  /**
   Whatever the value and whatever follows, a reader stops exactly at the closing quote,
   having read the value literally: no wildcard, no anchor, no early end.
   */
  lemma QuoteReadsBack(v: string, t: string)
    ensures ReadTerm(CqlQuote(v) + t) == Some(Term(Literals(v), t))
  {
    EscapedReadsBack(v, t);
    assert (CqlQuote(v) + t)[1..] == Escape(v) + "\"" + t;
  }

  lemma LiteralsInjective(a: string, b: string)
    requires Literals(a) == Literals(b)
    ensures a == b
  {
    assert |Literals(a)| == |a| && |Literals(b)| == |b|;
    forall i | 0 <= i < |a| ensures a[i] == b[i] {
      assert Literals(a)[i] == Literals(b)[i];
    }
  }

  /** Different values never produce the same query, even with different continuations. */
  lemma QuoteInjective(v1: string, t1: string, v2: string, t2: string)
    ensures CqlQuote(v1) + t1 == CqlQuote(v2) + t2 <==> v1 == v2 && t1 == t2
  {
    QuoteReadsBack(v1, t1);
    QuoteReadsBack(v2, t2);
    if CqlQuote(v1) + t1 == CqlQuote(v2) + t2 {
      LiteralsInjective(v1, v2);
    }
  }

  /** Left unquoted, a value is read literally exactly when it holds none of the special characters. */
  lemma {:induction false} RawReadsBackIff(v: string, t: string)
    ensures ReadQuoted(v + "\"" + t) == Some(Term(Literals(v), t)) <==> forall i :: 0 <= i < |v| ==> !IsSpecial(v[i])
  {
    var s := v + "\"" + t;
    if v == "" {
      assert s == "\"" + t && s[1..] == t;
    } else {
      var tail := v[1..] + "\"" + t;
      assert s == [v[0]] + tail && s[1..] == tail;
      RawReadsBackIff(v[1..], t);
      assert Literals(v) == [Literal(v[0])] + Literals(v[1..]);
      assert Literals(v)[1..] == Literals(v[1..]);
      if v[0] == '\\' {
        ReadLength(s);
        ReadLength(s[2..]);
      } else if ReadQuoted(s) == Some(Term(Literals(v), t)) && v[0] != '"' {
        var r := ReadQuoted(tail).value;
        assert ([TokenOf(v[0])] + r.tokens)[1..] == r.tokens;
        assert ([TokenOf(v[0])] + r.tokens)[0] == Literals(v)[0];
      }
      assert (forall i :: 0 <= i < |v| ==> !IsSpecial(v[i]))
             <==> !IsSpecial(v[0]) && forall i :: 0 <= i < |v| - 1 ==> !IsSpecial(v[1..][i]) by {
        assert forall i :: 0 < i < |v| ==> v[i] == v[1..][i - 1];
      }
    }
  }

  /** A term reads at most as many tokens as there are characters before its closing quote. */
  lemma {:induction false} ReadLength(s: string)
    ensures var r := ReadQuoted(s); r.Some? ==> |r.value.tokens| + 1 + |r.value.rest| <= |s|
    decreases |s|
  {
    if s != "" && s[0] != '"' {
      if s[0] != '\\' {
        ReadLength(s[1..]);
      } else if |s| > 1 {
        ReadLength(s[2..]);
      }
    }
  }

  // ---------------------------------------------------------------------------------------
  // The query for one payable account (internal/folio/fees.go).

  const ELIGIBLE := "status.name==\"Open\" and paymentStatus.name<>\"Suspended claim returned\""

  function AccountQuery(accountId: string, userId: string): string {
    "id==" + CqlQuote(accountId) + (" and userId==" + CqlQuote(userId) + (" and " + ELIGIBLE))
  }

  datatype ReadAccount = ReadAccount(id: seq<Token>, user: seq<Token>, rest: string)

  function Expect(s: string, prefix: string): Option<string> {
    if |prefix| <= |s| && s[..|prefix|] == prefix then Some(s[|prefix|..]) else None
  }

  /** Reads `id==<term> and userId==<term>` and keeps the rest of the query. */
  function ReadAccountQuery(q: string): Option<ReadAccount> {
    match Expect(q, "id==")
    case None => None
    case Some(s1) =>
      match ReadTerm(s1)
      case None => None
      case Some(t1) =>
        match Expect(t1.rest, " and userId==")
        case None => None
        case Some(s2) =>
          match ReadTerm(s2)
          case None => None
          case Some(t2) => Some(ReadAccount(t1.tokens, t2.tokens, t2.rest))
  }

  lemma ExpectPrefix(prefix: string, s: string)
    ensures Expect(prefix + s, prefix) == Some(s)
  {
  }

  lemma Regroup(a: string, b: string, c: string, d: string, e: string)
    ensures a + b + (c + d + e) == a + (b + (c + (d + e)))
  {
  }

  /** The two terms are read off whatever surrounds them. */
  lemma TermsReadBack(accountId: string, userId: string, rest: string)
    ensures ReadAccountQuery("id==" + (CqlQuote(accountId) + (" and userId==" + (CqlQuote(userId) + rest))))
         == Some(ReadAccount(Literals(accountId), Literals(userId), rest))
  {
    var r2 := CqlQuote(userId) + rest;
    var r1 := " and userId==" + r2;
    ExpectPrefix("id==", CqlQuote(accountId) + r1);
    QuoteReadsBack(accountId, r1);
    ExpectPrefix(" and userId==", r2);
    QuoteReadsBack(userId, rest);
  }

  /** No account or user ID can change the shape of the query or drop its eligibility test. */
  lemma AccountQueryReadsBack(accountId: string, userId: string)
    ensures ReadAccountQuery(AccountQuery(accountId, userId))
         == Some(ReadAccount(Literals(accountId), Literals(userId), " and " + ELIGIBLE))
  {
    Regroup("id==", CqlQuote(accountId), " and userId==", CqlQuote(userId), " and " + ELIGIBLE);
    TermsReadBack(accountId, userId, " and " + ELIGIBLE);
  }
}
