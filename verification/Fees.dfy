/**
 Fee payment (37), internal/handlers/fee_paid.go: which payment is posted to FOLIO, for how
 much, and what the 38 reports about it. Amounts are exact reals.
 */
module Fees {
  import opened Outcome

  datatype Account = Account(id: string, remaining: real, feeFineID: string)

  /** GetEligibleAccountByID: an error, no eligible account of this patron, or the account. */
  datatype EligibleReply = EligibleError | NotEligible | Eligible(account: Account)

  datatype OpenReply = OpenError | Open(accounts: seq<Account>)

  /** PayAccount: the remaining amount FOLIO reports, as its text. */
  datatype PayReply = PayError | Paid(remaining: string)

  /** What FOLIO would answer to each request. */
  datatype Folio = Folio(eligible: EligibleReply, pay: PayReply, open: OpenReply, bulkAccepted: bool)

  /** A request that moves money. */
  datatype Post = PostAccount(id: string, amount: real) | PostBulk(ids: seq<string>, amount: real)

  datatype PaymentResult = PaymentResult(account: Option<Account>, response: Option<string>, applied: real, success: bool)

  const FAILED := PaymentResult(None, None, 0.0, false)

  function Total(accounts: seq<Account>): real {
    if accounts == [] then 0.0 else Total(accounts[..|accounts| - 1]) + accounts[|accounts| - 1].remaining
  }

  function Min(a: real, b: real): real {
    if a <= b then a else b
  }

  function Ids(accounts: seq<Account>): seq<string> {
    seq(|accounts|, i requires 0 <= i < |accounts| => accounts[i].id)
  }

  // ---------------------------------------------------------------------------------------
  // The payments.

  method PaySingleAccount(folio: Folio, amount: real) returns (result: PaymentResult, fallback: bool, posts: seq<Post>)
    ensures match folio.eligible
            case EligibleError => result == FAILED && !fallback && posts == []
            case NotEligible => result == FAILED && fallback && posts == []
            case Eligible(a) =>
              && !fallback && posts == [PostAccount(a.id, amount)]
              && result == (match folio.pay
                            case PayError => FAILED
                            case Paid(text) => PaymentResult(Some(a), Some(text), amount, true))
  {
    match folio.eligible {
      case EligibleError => return FAILED, false, [];
      case NotEligible => return FAILED, true, [];
      case Eligible(a) =>
        posts := [PostAccount(a.id, amount)];
        match folio.pay {
          case PayError => return FAILED, false, posts;
          case Paid(text) => return PaymentResult(Some(a), Some(text), amount, true), false, posts;
        }
    }
  }

  function Shared(accounts: seq<Account>, amount: real): seq<PaymentResult>
    requires accounts != []
  {
    seq(|accounts|, i requires 0 <= i < |accounts| =>
          PaymentResult(Some(accounts[i]), None, amount / |accounts| as real, true))
  }

  method PayBulkAccounts(folio: Folio, requested: real) returns (results: seq<PaymentResult>, posts: seq<Post>)
    ensures match folio.open
            case OpenError => results == [FAILED] && posts == []
            case Open(accounts) =>
              if accounts == [] then results == [] && posts == []
              else
                var amount := Min(requested, Total(accounts));
                && posts == [PostBulk(Ids(accounts), amount)]
                && results == if folio.bulkAccepted then Shared(accounts, amount) else [FAILED]
  {
    if folio.open.OpenError? { return [FAILED], []; }
    var accounts := folio.open.accounts;
    if |accounts| == 0 { return [], []; }

    var totalOutstanding := 0.0;
    var i := 0;
    while i < |accounts|
      invariant 0 <= i <= |accounts| && totalOutstanding == Total(accounts[..i])
    {
      assert accounts[..i + 1][..i] == accounts[..i];
      totalOutstanding := totalOutstanding + accounts[i].remaining;
      i := i + 1;
    }
    assert accounts[..i] == accounts;
    var amount := requested;
    if requested > totalOutstanding { amount := totalOutstanding; }

    var ids := [];
    i := 0;
    while i < |accounts|
      invariant 0 <= i <= |accounts| && ids == Ids(accounts)[..i]
    {
      ids := ids + [accounts[i].id];
      i := i + 1;
    }
    assert ids == Ids(accounts);
    posts := [PostBulk(ids, amount)];
    if !folio.bulkAccepted { return [FAILED], posts; }

    var amountPerAccount := amount / |accounts| as real;
    results := [];
    i := 0;
    while i < |accounts|
      invariant 0 <= i <= |accounts| && results == Shared(accounts, amount)[..i]
    {
      results := results + [PaymentResult(Some(accounts[i]), None, amountPerAccount, true)];
      i := i + 1;
    }
  }

  // ---------------------------------------------------------------------------------------
  // The message.

  /** The remaining balance as reported: FOLIO's own text, or computed. */
  datatype Balance = AsText(text: string) | Computed(amount: real)

  /** The repeated fields of one paid account: CG, FA, FE and FG. */
  datatype Line = Line(cg: string, fa: Balance, fe: string, fg: real)

  datatype Response = Refused | Accepted(lines: seq<Line>, bulk: bool)

  /** A 37: the amount (None if unreadable), its account ID, and whether token, patron and password checks pass. */
  datatype Request = Request(amount: Option<real>, accountID: string, admitted: bool, acceptBulk: bool)

  function LineOf(r: PaymentResult): Line
    requires r.account.Some?
  {
    var a := r.account.value;
    var left := a.remaining - r.applied;
    Line(a.id, if r.response.Some? then AsText(r.response.value) else Computed(if left < 0.0 then 0.0 else left), a.feeFineID, r.applied)
  }

  /** One line for each result that succeeded. */
  function Lines(results: seq<PaymentResult>): seq<Line> {
    if results == [] then []
    else
      var last := results[|results| - 1];
      Lines(results[..|results| - 1]) + if last.success && last.account.Some? then [LineOf(last)] else []
  }

  method BuildLines(results: seq<PaymentResult>) returns (lines: seq<Line>)
    ensures lines == Lines(results)
  {
    lines := [];
    var i := 0;
    while i < |results|
      invariant 0 <= i <= |results| && lines == Lines(results[..i])
    {
      assert results[..i + 1][..i] == results[..i];
      if results[i].success && results[i].account.Some? {
        lines := lines + [LineOf(results[i])];
      }
      i := i + 1;
    }
    assert results[..i] == results;
  }

  /** What is posted and answered, by cases. */
  predicate Settles(q: Request, folio: Folio, response: Response, posts: seq<Post>) {
    if q.amount.None? || q.amount.value <= 0.0 || !q.admitted then response == Refused && posts == []
    else if q.accountID != "" && !folio.eligible.NotEligible? then
      (match folio.eligible
       case Eligible(a) =>
         && posts == [PostAccount(a.id, q.amount.value)]
         && response == (match folio.pay
                         case Paid(text) => Accepted([Line(a.id, AsText(text), a.feeFineID, q.amount.value)], false)
                         case PayError => Refused)
       case _ => response == Refused && posts == [])
    else if !q.acceptBulk || folio.open.OpenError? || folio.open.accounts == [] then response == Refused && posts == []
    else
      var accounts := folio.open.accounts;
      var amount := Min(q.amount.value, Total(accounts));
      && posts == [PostBulk(Ids(accounts), amount)]
      && response == if folio.bulkAccepted then Accepted(Lines(Shared(accounts, amount)), true) else Refused
  }

  method HandleFeePaid(q: Request, folio: Folio) returns (response: Response, posts: seq<Post>)
    ensures Settles(q, folio, response, posts)
  {
    if q.amount.None? || q.amount.value <= 0.0 || !q.admitted { return Refused, []; }
    var results, bulk := [], false;
    posts := [];
    if q.accountID != "" {
      var result, fallback;
      result, fallback, posts := PaySingleAccount(folio, q.amount.value);
      if result.success {
        results := [result];
      } else if fallback && q.acceptBulk {
        results, posts := PayBulkAccounts(folio, q.amount.value);
        bulk := true;
      } else {
        return Refused, posts;
      }
    } else if q.acceptBulk {
      results, posts := PayBulkAccounts(folio, q.amount.value);
      bulk := true;
    } else {
      return Refused, [];
    }
    var successCount, i := 0, 0;
    while i < |results|
      invariant 0 <= i <= |results| && successCount >= 0
      invariant successCount > 0 <==> exists k :: 0 <= k < i && results[k].success
    {
      if results[i].success { successCount := successCount + 1; }
      i := i + 1;
    }
    if successCount == 0 { return Refused, posts; }
    var lines := BuildLines(results);
    SingleLine(results);
    return Accepted(lines, bulk), posts;
  }

  lemma SingleLine(results: seq<PaymentResult>)
    ensures |results| == 1 && results[0].success && results[0].account.Some? ==> Lines(results) == [LineOf(results[0])]
  {
  }

  // ---------------------------------------------------------------------------------------
  // What the patron can rely on.

  /**
   Each 37 moves money at most once, so a bulk payment never follows a posted single payment;
   never more than asked, and in bulk never more than is owed; and the 38 says accepted
   exactly when FOLIO took that payment.
   */
  lemma PaidOnce(q: Request, folio: Folio, response: Response, posts: seq<Post>)
    requires Settles(q, folio, response, posts)
    ensures |posts| <= 1
    ensures posts != [] ==> q.amount.Some? && posts[0].amount <= q.amount.value
    ensures posts != [] && posts[0].PostBulk? ==>
              && folio.open.Open? && posts[0].amount <= Total(folio.open.accounts) && posts[0].ids == Ids(folio.open.accounts)
              && (q.accountID == "" || folio.eligible.NotEligible?)
    ensures response.Accepted? <==> posts != [] && (if posts[0].PostBulk? then folio.bulkAccepted else folio.pay.Paid?)
  {
  }

  function SumFG(lines: seq<Line>): real {
    if lines == [] then 0.0 else SumFG(lines[..|lines| - 1]) + lines[|lines| - 1].fg
  }

  function SumFA(lines: seq<Line>): real
    requires forall l :: l in lines ==> l.fa.Computed?
  {
    if lines == [] then 0.0 else SumFA(lines[..|lines| - 1]) + lines[|lines| - 1].fa.amount
  }

  /** The lines of accounts that each take the same share. */
  function ShareLines(accounts: seq<Account>, share: real): seq<Line> {
    Lines(seq(|accounts|, i requires 0 <= i < |accounts| => PaymentResult(Some(accounts[i]), None, share, true)))
  }

  lemma ShareLinesStep(accounts: seq<Account>, share: real)
    requires accounts != []
    ensures var n := |accounts| - 1;
            ShareLines(accounts, share) == ShareLines(accounts[..n], share) + [LineOf(PaymentResult(Some(accounts[n]), None, share, true))]
  {
    var n := |accounts| - 1;
    var all := seq(|accounts|, i requires 0 <= i < |accounts| => PaymentResult(Some(accounts[i]), None, share, true));
    assert all[..n] == seq(n, i requires 0 <= i < n => PaymentResult(Some(accounts[..n][i]), None, share, true));
  }

  /** n equal shares. */
  function Shares(n: nat, share: real): real {
    if n == 0 then 0.0 else Shares(n - 1, share) + share
  }

  lemma {:induction false} SharesAre(n: nat, share: real)
    ensures Shares(n, share) == n as real * share
  {
    if n > 0 {
      SharesAre(n - 1, share);
      OneMore((n - 1) as real, share);
    }
  }

  lemma OneMore(x: real, share: real)
    ensures (x + 1.0) * share == x * share + share
  {
  }

  predicate LineFor(l: Line, a: Account, share: real) {
    l.cg == a.id && l.fg == share && l.fa.Computed? && l.fa.amount >= 0.0
  }

  lemma {:induction false} ShareShape(accounts: seq<Account>, share: real)
    ensures var lines := ShareLines(accounts, share);
            |lines| == |accounts| && forall k :: 0 <= k < |lines| ==> LineFor(lines[k], accounts[k], share)
  {
    if accounts != [] {
      var n := |accounts| - 1;
      ShareLinesStep(accounts, share);
      ShareShape(accounts[..n], share);
      var front := ShareLines(accounts[..n], share);
      assert forall k :: 0 <= k < n ==> LineFor(front[k], accounts[..n][k], share);
    }
  }

  lemma {:induction false} ShareFG(accounts: seq<Account>, share: real)
    ensures SumFG(ShareLines(accounts, share)) == Shares(|accounts|, share)
  {
    if accounts != [] {
      var n := |accounts| - 1;
      ShareShape(accounts[..n], share);
      ShareLinesStep(accounts, share);
      ShareFG(accounts[..n], share);
      var lines := ShareLines(accounts, share);
      assert lines[..|lines| - 1] == ShareLines(accounts[..n], share);
    }
  }

  lemma AllComputed(accounts: seq<Account>, share: real)
    ensures forall l :: l in ShareLines(accounts, share) ==> l.fa.Computed?
  {
    ShareShape(accounts, share);
    var lines := ShareLines(accounts, share);
    forall l | l in lines ensures l.fa.Computed? {
      var k :| 0 <= k < |lines| && lines[k] == l;
      assert LineFor(lines[k], accounts[k], share);
    }
  }

  /** How far the reported balances exceed what is owed less the shares. */
  function Excess(accounts: seq<Account>, share: real): (e: real)
    ensures e >= 0.0
    ensures e == 0.0 <==> forall k :: 0 <= k < |accounts| ==> accounts[k].remaining >= share
  {
    if accounts == [] then 0.0
    else
      var n := |accounts| - 1;
      var front := Excess(accounts[..n], share);
      assert forall k :: 0 <= k < n ==> accounts[..n][k] == accounts[k];
      front + if accounts[n].remaining >= share then 0.0 else share - accounts[n].remaining
  }

  lemma {:induction false} ShareFA(accounts: seq<Account>, share: real)
    ensures forall l :: l in ShareLines(accounts, share) ==> l.fa.Computed?
    ensures SumFA(ShareLines(accounts, share)) == Total(accounts) - Shares(|accounts|, share) + Excess(accounts, share)
  {
    AllComputed(accounts, share);
    if accounts != [] {
      var n := |accounts| - 1;
      ShareShape(accounts[..n], share);
      ShareLinesStep(accounts, share);
      ShareFA(accounts[..n], share);
      var lines := ShareLines(accounts, share);
      assert lines[..|lines| - 1] == ShareLines(accounts[..n], share);
    }
  }

  /**
   A bulk payment's report adds up: one line per account, the amounts applied sum to the
   amount posted, no balance is negative, and the balances sum to at least what is owed less
   what was paid, exactly that when no account owes less than its equal share.
   */
  lemma BulkAddsUp(q: Request, folio: Folio, response: Response, posts: seq<Post>)
    requires Settles(q, folio, response, posts) && response.Accepted? && response.bulk
    ensures folio.open.Open? && folio.open.accounts != [] && |posts| == 1
    ensures posts[0].amount == Min(q.amount.value, Total(folio.open.accounts))
    ensures var accounts := folio.open.accounts;
            AddsUp(accounts, posts[0].amount, posts[0].amount / |accounts| as real, response.lines)
  {
    var accounts, paid := folio.open.accounts, posts[0].amount;
    var share := paid / |accounts| as real;
    assert response.lines == ShareLines(accounts, share);
    EqualShares(paid, |accounts|);
    ReportAddsUp(accounts, paid, share);
  }

  predicate AddsUp(accounts: seq<Account>, paid: real, share: real, lines: seq<Line>) {
    && |lines| == |accounts|
    && (forall k :: 0 <= k < |lines| ==> lines[k].cg == accounts[k].id && lines[k].fa.Computed? && lines[k].fa.amount >= 0.0)
    && (forall l :: l in lines ==> l.fa.Computed?)
    && SumFG(lines) == paid
    && SumFA(lines) >= Total(accounts) - paid
    && (SumFA(lines) == Total(accounts) - paid <==> forall k :: 0 <= k < |accounts| ==> accounts[k].remaining >= share)
  }

  lemma ReportAddsUp(accounts: seq<Account>, paid: real, share: real)
    requires Shares(|accounts|, share) == paid
    ensures AddsUp(accounts, paid, share, ShareLines(accounts, share))
  {
    ShareShape(accounts, share);
    ShareFG(accounts, share);
    ShareFA(accounts, share);
    forall k | 0 <= k < |accounts|
      ensures LineFor(ShareLines(accounts, share)[k], accounts[k], share)
    {
    }
  }

  lemma EqualShares(paid: real, n: nat)
    requires n > 0
    ensures Shares(n, paid / n as real) == paid
  {
    SharesAre(n, paid / n as real);
  }
}
