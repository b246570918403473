/** The rollover debt waterfall of debt/optimise.go: every active loan pays its EMI, and the
    extra budget plus the EMIs freed by closed loans goes to one priority loan a month. */
module Waterfall {
  import opened Amortisation
  import opened Prepayment

  datatype Strategy = Avalanche | Snowball

  datatype Acct = Acct(bal: int, r: real, emi: int, rate: real)

  /** The accounts of simulateWaterfall: loans with something outstanding. */
  function Opened(loans: seq<Loan>): seq<Acct> {
    if loans == [] then []
    else
      var l := loans[|loans| - 1];
      var before := Opened(loans[..|loans| - 1]);
      if l.principal <= 0 then before
      else before + [Acct(l.principal, MonthlyRate(l.annualRatePct), LoanEmi(l), l.annualRatePct)]
  }

  predicate AnyActive(accts: seq<Acct>) {
    exists i :: 0 <= i < |accts| && accts[i].bal > 0
  }

  // ---------------------------------------------------------------- the priority loan

  /** a goes before b under the strategy: lower balance for snowball, higher rate for avalanche. */
  predicate Precedes(a: Acct, b: Acct, strategy: Strategy) {
    if strategy.Snowball? then a.bal < b.bal else a.rate > b.rate
  }

  /** The loan picked among the first n, or -1. */
  function TargetOf(accts: seq<Acct>, strategy: Strategy, n: nat): (t: int)
    requires n <= |accts|
    ensures t == -1 || (0 <= t < n && accts[t].bal > 0)
  {
    if n == 0 then -1
    else
      var best := TargetOf(accts, strategy, n - 1);
      if accts[n - 1].bal > 0 && (best == -1 || Precedes(accts[n - 1], accts[best], strategy)) then n - 1 else best
  }

  /** It is the first of the active loans that no active loan precedes. */
  lemma {:induction false} TargetIsPriority(accts: seq<Acct>, strategy: Strategy, n: nat)
    requires n <= |accts|
    ensures var t := TargetOf(accts, strategy, n);
      if t == -1 then forall i :: 0 <= i < n ==> accts[i].bal <= 0
      else forall i :: 0 <= i < n && accts[i].bal > 0 ==>
        && !Precedes(accts[i], accts[t], strategy)
        && (i < t ==> Precedes(accts[t], accts[i], strategy))
  {
    if n > 0 {
      TargetIsPriority(accts, strategy, n - 1);
    }
  }

  method PickTarget(accts: array<Acct>, strategy: Strategy) returns (best: int)
    ensures best == TargetOf(accts[..], strategy, accts.Length)
  {
    best := -1;
    for i := 0 to accts.Length
      invariant best == TargetOf(accts[..], strategy, i)
    {
      if accts[i].bal <= 0 {
        continue;
      }
      if best == -1 {
        best := i;
        continue;
      }
      if strategy == Snowball {
        if accts[i].bal < accts[best].bal {
          best := i;
        }
      } else {
        if accts[i].rate > accts[best].rate {
          best := i;
        }
      }
    }
  }

  // ---------------------------------------------------------------- one month

  function AccrualOf(a: Acct): int {
    if a.bal <= 0 then 0 else Interest(a.bal, a.r)
  }

  /** Step 1 for one account: interest accrues, the EMI's principal part is repaid. */
  function AfterEmi(a: Acct): Acct {
    if a.bal <= 0 || a.emi - AccrualOf(a) <= 0 then a
    else a.(bal := a.bal - Min(a.emi - AccrualOf(a), a.bal))
  }

  function Accruals(accts: seq<Acct>, n: nat): int
    requires n <= |accts|
  {
    if n == 0 then 0 else Accruals(accts, n - 1) + AccrualOf(accts[n - 1])
  }

  function AfterEmis(accts: seq<Acct>): seq<Acct> {
    seq(|accts|, i requires 0 <= i < |accts| => AfterEmi(accts[i]))
  }

  function Freed(accts: seq<Acct>, n: nat): int
    requires n <= |accts|
  {
    if n == 0 then 0 else Freed(accts, n - 1) + if accts[n - 1].bal <= 0 then accts[n - 1].emi else 0
  }

  /** Step 3: the pool is poured onto the priority loan. */
  function Poured(accts: seq<Acct>, pool: int, strategy: Strategy): seq<Acct> {
    var t := TargetOf(accts, strategy, |accts|);
    if t >= 0 && pool > 0 then accts[t := accts[t].(bal := accts[t].bal - Min(pool, accts[t].bal))] else accts
  }

  function AfterMonth(accts: seq<Acct>, extra: int, strategy: Strategy): seq<Acct> {
    var paid := AfterEmis(accts);
    Poured(paid, extra + Freed(paid, |paid|), strategy)
  }

  /** The accounts, months and interest when at most `cap` more months are simulated. */
  datatype Outcome = Outcome(accts: seq<Acct>, months: nat, interest: int)

  function Simulate(accts: seq<Acct>, extra: int, strategy: Strategy, cap: nat): Outcome
    decreases cap, accts
  {
    if cap == 0 || !AnyActive(accts) then Outcome(accts, 0, 0)
    else
      var rest := Simulate(AfterMonth(accts, extra, strategy), extra, strategy, cap - 1);
      Outcome(rest.accts, rest.months + 1, Accruals(accts, |accts|) + rest.interest)
  }

  // ---------------------------------------------------------------- what one month does

  /** A month's EMI on one account: interest is added, the EMI taken off, unless it does not cover the
      interest. */
  ghost predicate EmiPaid(before: Acct, after: Acct) {
    && after == before.(bal := after.bal)
    && var interest := Interest(before.bal, before.r);
       if before.bal <= 0 || before.emi <= interest then after.bal == before.bal
       else if before.bal + interest > before.emi then after.bal == before.bal + interest - before.emi
       else after.bal == 0
  }

  /** The EMIs of the loans with nothing outstanding. */
  function ClosedEmis(accts: seq<Acct>): int {
    if accts == [] then 0 else (if accts[0].bal <= 0 then accts[0].emi else 0) + ClosedEmis(accts[1..])
  }

  /** The interest of the month on what is outstanding. */
  function InterestDue(accts: seq<Acct>): int {
    if accts == [] then 0 else (if accts[0].bal > 0 then Interest(accts[0].bal, accts[0].r) else 0) + InterestDue(accts[1..])
  }

  /** The loan that comes first: the highest rate for avalanche, the lowest balance for snowball, and
      the first of those that tie. */
  ghost predicate ComesFirst(accts: seq<Acct>, strategy: Strategy, t: int) {
    && 0 <= t < |accts| && accts[t].bal > 0
    && forall i :: 0 <= i < |accts| && accts[i].bal > 0 ==>
         match strategy
         case Avalanche => accts[i].rate <= accts[t].rate && (i < t ==> accts[i].rate < accts[t].rate)
         case Snowball => accts[i].bal >= accts[t].bal && (i < t ==> accts[i].bal > accts[t].bal)
  }

  /** With every EMI paid, the budget and the EMIs of closed loans go to the loan that comes first, as
      far as it takes them; nothing else changes. */
  ghost predicate MonthDone(before: seq<Acct>, mid: seq<Acct>, after: seq<Acct>, extra: int, strategy: Strategy) {
    && |before| == |mid|
    && (forall i :: 0 <= i < |before| ==> EmiPaid(before[i], mid[i]))
    && PouredOn(mid, after, extra + ClosedEmis(mid), strategy)
  }

  ghost predicate PouredOn(mid: seq<Acct>, after: seq<Acct>, pool: int, strategy: Strategy) {
    if pool <= 0 || forall i :: 0 <= i < |mid| ==> mid[i].bal <= 0 then after == mid
    else exists t :: ComesFirst(mid, strategy, t)
                     && after == mid[t := mid[t].(bal := if pool < mid[t].bal then mid[t].bal - pool else 0)]
  }

  lemma EmiIsPaid(a: Acct)
    ensures EmiPaid(a, AfterEmi(a))
  {
    hide Interest;
  }

  lemma {:induction false} FreedIsClosed(accts: seq<Acct>, n: nat)
    requires n <= |accts|
    ensures Freed(accts, n) == ClosedEmis(accts[..n])
  {
    if n > 0 {
      FreedIsClosed(accts, n - 1);
      ClosedNext(accts[..n - 1], accts[n - 1]);
      assert accts[..n] == accts[..n - 1] + [accts[n - 1]];
    }
  }

  lemma {:induction false} ClosedNext(accts: seq<Acct>, a: Acct)
    ensures ClosedEmis(accts + [a]) == ClosedEmis(accts) + if a.bal <= 0 then a.emi else 0
    ensures InterestDue(accts + [a]) == InterestDue(accts) + if a.bal > 0 then Interest(a.bal, a.r) else 0
  {
    hide Interest;
    if accts == [] {
      assert accts + [a] == [a];
    } else {
      assert (accts + [a])[1..] == accts[1..] + [a];
      ClosedNext(accts[1..], a);
    }
  }

  lemma {:induction false} AccrualsAreDue(accts: seq<Acct>, n: nat)
    requires n <= |accts|
    ensures Accruals(accts, n) == InterestDue(accts[..n])
  {
    hide Interest;
    if n > 0 {
      AccrualsAreDue(accts, n - 1);
      ClosedNext(accts[..n - 1], accts[n - 1]);
      assert accts[..n] == accts[..n - 1] + [accts[n - 1]];
    }
  }

  lemma MonthMeans(accts: seq<Acct>, extra: int, strategy: Strategy)
    ensures MonthDone(accts, AfterEmis(accts), AfterMonth(accts, extra, strategy), extra, strategy)
    ensures Accruals(accts, |accts|) == InterestDue(accts)
  {
    hide Interest, EmiPaid, AfterEmi, ClosedEmis, InterestDue, Freed, TargetOf, ComesFirst, Poured, PouredOn, Accruals;
    var mid := AfterEmis(accts);
    forall i | 0 <= i < |accts|
      ensures EmiPaid(accts[i], mid[i])
    {
      EmiIsPaid(accts[i]);
    }
    AccrualsAreDue(accts, |accts|);
    FreedIsClosed(mid, |mid|);
    assert accts[..|accts|] == accts && mid[..|mid|] == mid;
    PourMeans(mid, extra + ClosedEmis(mid), strategy);
  }

  lemma PourMeans(mid: seq<Acct>, pool: int, strategy: Strategy)
    ensures PouredOn(mid, Poured(mid, pool, strategy), pool, strategy)
  {
    hide TargetOf, ComesFirst;
    TargetComesFirst(mid, strategy);
  }

  lemma TargetComesFirst(accts: seq<Acct>, strategy: Strategy)
    ensures var t := TargetOf(accts, strategy, |accts|);
      if t == -1 then forall i :: 0 <= i < |accts| ==> accts[i].bal <= 0 else ComesFirst(accts, strategy, t)
  {
    TargetIsPriority(accts, strategy, |accts|);
  }

  // ---------------------------------------------------------------- the simulation

  method OpenAccounts(loans: seq<Loan>) returns (accts: array<Acct>)
    ensures accts[..] == Opened(loans) && fresh(accts)
  {
    var listed: seq<Acct> := [];
    for i := 0 to |loans|
      invariant listed == Opened(loans[..i])
    {
      var l := loans[i];
      assert loans[..i + 1][..i] == loans[..i];
      if l.principal > 0 {
        listed := listed + [Acct(l.principal, MonthlyRate(l.annualRatePct), LoanEmi(l), l.annualRatePct)];
      }
    }
    assert loans[..|loans|] == loans;
    accts := new Acct[|listed|](i requires 0 <= i < |listed| => listed[i]);
  }

  method PayEmi(a: Acct) returns (a': Acct, interest: int)
    ensures a' == AfterEmi(a) && interest == AccrualOf(a)
  {
    hide Interest;
    a', interest := a, 0;
    if a.bal > 0 {
      interest := Interest(a.bal, a.r);
      var principal := a.emi - interest;
      if principal > 0 {
        if principal > a.bal {
          principal := a.bal;
        }
        a' := a.(bal := a.bal - principal);
      }
    }
  }

  method PayEmis(accts: array<Acct>) returns (interest: int)
    modifies accts
    ensures interest == Accruals(old(accts[..]), accts.Length)
    ensures accts[..] == AfterEmis(old(accts[..]))
  {
    hide AfterEmi, AccrualOf;
    ghost var was := accts[..];
    interest := 0;
    for i := 0 to accts.Length
      invariant interest == Accruals(was, i)
      invariant forall j :: 0 <= j < i ==> accts[j] == AfterEmi(was[j])
      invariant forall j :: i <= j < accts.Length ==> accts[j] == was[j]
    {
      var a, charge := PayEmi(accts[i]);
      accts[i] := a;
      interest := interest + charge;
    }
  }

  method FreedEmis(accts: array<Acct>) returns (freed: int)
    ensures freed == Freed(accts[..], accts.Length)
  {
    freed := 0;
    for i := 0 to accts.Length
      invariant freed == Freed(accts[..], i)
    {
      if accts[i].bal <= 0 {
        freed := freed + accts[i].emi;
      }
    }
  }

  method SomeActive(accts: array<Acct>) returns (active: bool)
    ensures active == AnyActive(accts[..])
  {
    for i := 0 to accts.Length
      invariant forall j :: 0 <= j < i ==> accts[j].bal <= 0
    {
      if accts[i].bal > 0 {
        assert accts[..][i].bal > 0;
        return true;
      }
    }
    return false;
  }

  method SimulateMonth(accts: array<Acct>, extra: int, strategy: Strategy) returns (interest: int)
    modifies accts
    ensures interest == Accruals(old(accts[..]), accts.Length)
    ensures accts[..] == AfterMonth(old(accts[..]), extra, strategy)
    ensures interest == InterestDue(old(accts[..]))
    ensures exists mid :: MonthDone(old(accts[..]), mid, accts[..], extra, strategy)
  {
    hide TargetOf, AfterEmis, Freed, Accruals, MonthDone, InterestDue;
    MonthMeans(accts[..], extra, strategy);
    interest := PayEmis(accts);
    var freed := FreedEmis(accts);
    var pool := extra + freed;
    var target := PickTarget(accts, strategy);
    if target >= 0 && pool > 0 {
      var pay := pool;
      if pay > accts[target].bal {
        pay := accts[target].bal;
      }
      accts[target] := accts[target].(bal := accts[target].bal - pay);
    }
  }

  method SimulateWaterfall(loans: seq<Loan>, extra: int, strategy: Strategy)
    returns (totalInterest: int, month: nat, converged: bool)
    ensures var end := Simulate(Opened(loans), extra, strategy, MONTH_CAP);
      totalInterest == end.interest && month == end.months && converged == !AnyActive(end.accts)
  {
    hide Opened, AnyActive, AfterMonth, Accruals;
    var accts := OpenAccounts(loans);
    totalInterest, month := 0, 0;
    var active := SomeActive(accts);
    ghost var end := Simulate(accts[..], extra, strategy, MONTH_CAP);
    while month < MONTH_CAP && active
      invariant month <= MONTH_CAP && active == AnyActive(accts[..])
      invariant var rest := Simulate(accts[..], extra, strategy, MONTH_CAP - month);
        end == Outcome(rest.accts, month + rest.months, totalInterest + rest.interest)
      decreases MONTH_CAP - month
    {
      month := month + 1;
      var interest := SimulateMonth(accts, extra, strategy);
      totalInterest := totalInterest + interest;
      active := SomeActive(accts);
    }
    converged := !active;
  }

  // ---------------------------------------------------------------- never worse than standing alone

  /** A loan at a non-negative rate. Nothing is asked of its EMI: one that does not cover the
      interest leaves the balance where it is. */
  ghost predicate Accruing(a: Acct) {
    a.r >= 0.0 && a.bal >= 0
  }

  ghost predicate AllAccruing(accts: seq<Acct>) {
    forall i :: 0 <= i < |accts| ==> Accruing(accts[i])
  }

  /** The balance of one account after n months on its own, without prepayment. */
  function Alone(a: Acct, n: nat): Acct
    decreases n, a
  {
    if n == 0 then a else Alone(AfterEmi(a), n - 1)
  }

  /** ... and of all accounts after n months of the waterfall. */
  function Together(accts: seq<Acct>, extra: int, strategy: Strategy, n: nat): seq<Acct>
    decreases n, accts
  {
    if n == 0 then accts else Together(AfterMonth(accts, extra, strategy), extra, strategy, n - 1)
  }

  /** b is a with the same terms and a balance that is no higher. */
  ghost predicate Dominates(b: Acct, a: Acct) {
    b.(bal := a.bal) == a && 0 <= b.bal <= a.bal
  }

  lemma EmiKeepsDominance(b: Acct, a: Acct)
    requires Accruing(a) && Dominates(b, a)
    ensures Dominates(AfterEmi(b), AfterEmi(a)) && Dominates(AfterEmi(a), a)
    ensures 0 <= AccrualOf(b) <= AccrualOf(a)
    ensures Accruing(AfterEmi(a))
  {
    hide Interest;
    InterestMonotone(b.bal, a.bal, a.r);
    InterestMonotone(a.bal, a.bal, a.r);
  }

  /** In one month, the waterfall brings every loan at least as low as its EMI alone would. */
  lemma MonthDominates(accts: seq<Acct>, extra: int, strategy: Strategy, i: nat)
    requires AllAccruing(accts) && i < |accts|
    ensures |AfterMonth(accts, extra, strategy)| == |accts|
    ensures Dominates(AfterMonth(accts, extra, strategy)[i], AfterEmi(accts[i]))
  {
    hide Interest;
    assert Accruing(accts[i]);
    EmiKeepsDominance(accts[i], accts[i]);
  }

  lemma MonthKeepsAccruing(accts: seq<Acct>, extra: int, strategy: Strategy)
    requires AllAccruing(accts)
    ensures AllAccruing(AfterMonth(accts, extra, strategy))
    ensures |AfterMonth(accts, extra, strategy)| == |accts|
  {
    hide Interest, AfterMonth, AfterEmi;
    var next := AfterMonth(accts, extra, strategy);
    MonthLength(accts, extra, strategy);
    forall i | 0 <= i < |next|
      ensures Accruing(next[i])
    {
      var a := accts[i];
      EmiKeepsDominance(a, a);
      MonthDominates(accts, extra, strategy, i);
      EmiKeepsDominance(next[i], AfterEmi(a));
    }
  }

  lemma MonthLength(accts: seq<Acct>, extra: int, strategy: Strategy)
    ensures |AfterMonth(accts, extra, strategy)| == |accts|
  {
  }

  lemma {:induction false} AloneMonotone(b: Acct, a: Acct, n: nat)
    requires Accruing(a) && Dominates(b, a)
    ensures Dominates(Alone(b, n), Alone(a, n))
    decreases n
  {
    if n > 0 {
      EmiKeepsDominance(b, a);
      AloneMonotone(AfterEmi(b), AfterEmi(a), n - 1);
    }
  }

  /** At every month, each loan's balance in the waterfall is no more than it would be alone. */
  lemma {:induction false} TogetherBelowAlone(accts: seq<Acct>, extra: int, strategy: Strategy, n: nat, i: nat)
    requires AllAccruing(accts) && i < |accts|
    ensures |Together(accts, extra, strategy, n)| == |accts|
    ensures Dominates(Together(accts, extra, strategy, n)[i], Alone(accts[i], n))
    decreases n
  {
    hide Interest, AfterMonth, AfterEmi;
    var a := accts[i];
    assert Accruing(a);
    if n > 0 {
      var next := AfterMonth(accts, extra, strategy);
      MonthKeepsAccruing(accts, extra, strategy);
      MonthDominates(accts, extra, strategy, i);
      TogetherBelowAlone(next, extra, strategy, n - 1, i);
      EmiKeepsDominance(a, a);
      AloneMonotone(next[i], AfterEmi(a), n - 1);
    }
  }

  // ---------------------------------------------------------------- interest and months

  function AloneInterest(a: Acct, cap: nat): int
    decreases cap, a
  {
    if cap == 0 || a.bal <= 0 then 0 else AccrualOf(a) + AloneInterest(AfterEmi(a), cap - 1)
  }

  function AloneMonths(a: Acct, cap: nat): nat
    decreases cap, a
  {
    if cap == 0 || a.bal <= 0 then 0 else 1 + AloneMonths(AfterEmi(a), cap - 1)
  }

  lemma {:induction false} AloneCostsMonotone(b: Acct, a: Acct, cap: nat)
    requires Accruing(a) && Dominates(b, a)
    ensures 0 <= AloneInterest(b, cap) <= AloneInterest(a, cap)
    ensures AloneMonths(b, cap) <= AloneMonths(a, cap)
    decreases cap
  {
    hide Interest, AfterEmi, AccrualOf;
    if cap > 0 {
      EmiKeepsDominance(b, a);
      AloneCostsMonotone(AfterEmi(b), AfterEmi(a), cap - 1);
    }
  }

  function AloneTotal(accts: seq<Acct>, cap: nat, n: nat): int
    requires n <= |accts|
  {
    if n == 0 then 0 else AloneTotal(accts, cap, n - 1) + AloneInterest(accts[n - 1], cap)
  }

  lemma {:induction false} MonthTotals(accts: seq<Acct>, extra: int, strategy: Strategy, cap: nat, n: nat)
    requires AllAccruing(accts) && n <= |accts| && cap > 0
    ensures |AfterMonth(accts, extra, strategy)| == |accts|
    ensures Accruals(accts, n) + AloneTotal(AfterMonth(accts, extra, strategy), cap - 1, n) <= AloneTotal(accts, cap, n)
  {
    hide Interest, AfterMonth, AfterEmi;
    MonthLength(accts, extra, strategy);
    if n > 0 {
      var a := accts[n - 1];
      assert Accruing(a);
      MonthTotals(accts, extra, strategy, cap, n - 1);
      MonthDominates(accts, extra, strategy, n - 1);
      EmiKeepsDominance(a, a);
      AloneCostsMonotone(AfterMonth(accts, extra, strategy)[n - 1], AfterEmi(a), cap - 1);
    }
  }

  /** The waterfall pays no more interest than all loans together would alone, and lasts no
      longer than the longest of them. */
  lemma {:induction false} SimulateBelowAlone(accts: seq<Acct>, extra: int, strategy: Strategy, cap: nat, longest: nat)
    requires AllAccruing(accts)
    requires forall i :: 0 <= i < |accts| ==> AloneMonths(accts[i], cap) <= longest
    ensures Simulate(accts, extra, strategy, cap).interest <= AloneTotal(accts, cap, |accts|)
    ensures Simulate(accts, extra, strategy, cap).months <= longest
    decreases cap
  {
    hide Interest, AfterMonth, AfterEmi, AloneInterest, AccrualOf;
    AloneTotalNonNegative(accts, cap, |accts|);
    if cap > 0 && AnyActive(accts) {
      var next := AfterMonth(accts, extra, strategy);
      MonthKeepsAccruing(accts, extra, strategy);
      MonthTotals(accts, extra, strategy, cap, |accts|);
      forall i | 0 <= i < |next|
        ensures AloneMonths(next[i], cap - 1) <= longest - 1
      {
        var a := accts[i];
        assert Accruing(a);
        EmiKeepsDominance(a, a);
        MonthDominates(accts, extra, strategy, i);
        AloneCostsMonotone(next[i], AfterEmi(a), cap - 1);
      }
      SimulateBelowAlone(next, extra, strategy, cap - 1, longest - 1);
    }
  }

  lemma {:induction false} AloneTotalNonNegative(accts: seq<Acct>, cap: nat, n: nat)
    requires AllAccruing(accts) && n <= |accts|
    ensures AloneTotal(accts, cap, n) >= 0
  {
    hide Interest, AloneInterest;
    if n > 0 {
      var a := accts[n - 1];
      assert Accruing(a);
      AloneTotalNonNegative(accts, cap, n - 1);
      AloneCostsMonotone(a, a, cap);
    }
  }

  // ---------------------------------------------------------------- alone is the schedule without prepayment

  /** `Alone` is prepaySchedule with no prepayments. */
  lemma {:induction false} AloneIsSchedule(a: Acct, k: nat)
    requires Serviceable(a.bal, a.r, a.emi) && 1 <= k <= MONTH_CAP + 1
    ensures var rows := PrepayRows(a.bal, a.r, a.emi, map[], k);
      && InterestSum(rows) == AloneInterest(a, MONTH_CAP + 1 - k)
      && |rows| == AloneMonths(a, MONTH_CAP + 1 - k)
      && forall n :: 0 <= n < |rows| ==> rows[n].balance == Alone(a, n + 1).bal
    decreases MONTH_CAP - k
  {
    hide Interest, Serviceable;
    ServiceableFacts(a.bal, a.r, a.emi);
    if k <= MONTH_CAP && a.bal > 0 {
      var rows, rest := PrepayRows(a.bal, a.r, a.emi, map[], k), PrepayRows(AfterEmi(a).bal, a.r, a.emi, map[], k + 1);
      EmiKeepsDominance(a, a);
      ServiceableBelow(AfterEmi(a).bal, a.bal, a.r, a.emi);
      AloneIsSchedule(AfterEmi(a), k + 1);
      assert rows[1..] == rest;
      forall n | 0 <= n < |rows|
        ensures rows[n].balance == Alone(a, n + 1).bal
      {
        if n > 0 {
          assert rows[n] == rest[n - 1];
        } else {
          assert Alone(a, 1) == Alone(AfterEmi(a), 0);
        }
      }
    }
  }

  /** The accounts that the simulation ends with are those after its last month. */
  lemma {:induction false} SimulateIsTogether(accts: seq<Acct>, extra: int, strategy: Strategy, cap: nat)
    ensures var end := Simulate(accts, extra, strategy, cap);
      end.accts == Together(accts, extra, strategy, end.months)
    decreases cap
  {
    hide AfterMonth;
    if cap > 0 && AnyActive(accts) {
      SimulateIsTogether(AfterMonth(accts, extra, strategy), extra, strategy, cap - 1);
    }
  }

  /** The interest of the first n months. */
  function InterestOver(accts: seq<Acct>, extra: int, strategy: Strategy, n: nat): int {
    if n == 0 then 0
    else InterestOver(accts, extra, strategy, n - 1) + InterestDue(Together(accts, extra, strategy, n - 1))
  }

  lemma {:induction false} InterestFromNext(accts: seq<Acct>, extra: int, strategy: Strategy, n: nat)
    ensures InterestOver(accts, extra, strategy, n + 1)
         == InterestDue(accts) + InterestOver(AfterMonth(accts, extra, strategy), extra, strategy, n)
    decreases n
  {
    hide AfterMonth, InterestDue;
    if n > 0 {
      InterestFromNext(accts, extra, strategy, n - 1);
    } else {
      assert InterestOver(accts, extra, strategy, 0) == 0;
      assert Together(accts, extra, strategy, 0) == accts;
    }
  }

  /** The simulation goes on while something is owed, at most as long as the cap, and adds up the
      interest of its months. */
  lemma {:induction false} SimulateMeans(accts: seq<Acct>, extra: int, strategy: Strategy, cap: nat)
    ensures var end := Simulate(accts, extra, strategy, cap);
      && end.months <= cap
      && (end.months < cap ==> !AnyActive(Together(accts, extra, strategy, end.months)))
      && (forall n :: 0 <= n < end.months ==> AnyActive(Together(accts, extra, strategy, n)))
      && end.interest == InterestOver(accts, extra, strategy, end.months)
    decreases cap
  {
    hide AfterMonth, InterestDue, AnyActive, Accruals, InterestOver;
    NoMonths(accts, extra, strategy);
    if cap > 0 && AnyActive(accts) {
      var next := AfterMonth(accts, extra, strategy);
      var rest := Simulate(next, extra, strategy, cap - 1);
      SimulateMeans(next, extra, strategy, cap - 1);
      InterestFromNext(accts, extra, strategy, rest.months);
      AccrualsAreDue(accts, |accts|);
      assert accts[..|accts|] == accts;
      forall n | 0 <= n < rest.months + 1
        ensures AnyActive(Together(accts, extra, strategy, n))
      {
        if n > 0 {
          assert Together(accts, extra, strategy, n) == Together(next, extra, strategy, n - 1);
        }
      }
    }
  }

  lemma NoMonths(accts: seq<Acct>, extra: int, strategy: Strategy)
    ensures InterestOver(accts, extra, strategy, 0) == 0 && Together(accts, extra, strategy, 0) == accts
  {
  }

  /** A loan that is repaid stays repaid. */
  lemma {:induction false} AloneStaysClear(a: Acct, cap: nat, n: nat)
    requires Serviceable(a.bal, a.r, a.emi) && AloneMonths(a, cap) < cap && AloneMonths(a, cap) <= n
    ensures Alone(a, n).bal == 0
    decreases n
  {
    hide Interest, Serviceable;
    ServiceableFacts(a.bal, a.r, a.emi);
    if n > 0 {
      EmiKeepsDominance(a, a);
      ServiceableBelow(AfterEmi(a).bal, a.bal, a.r, a.emi);
      AloneStaysClear(AfterEmi(a), if a.bal <= 0 then cap else cap - 1, n - 1);
    }
  }

  /** Month by month, a loan in the waterfall owes no more than its own schedule says, and
      nothing once that schedule is over. */
  lemma BalanceBelowSchedule(accts: seq<Acct>, extra: int, strategy: Strategy, n: nat, i: nat)
    requires AllAccruing(accts) && i < |accts| && Serviceable(accts[i].bal, accts[i].r, accts[i].emi)
    ensures var rows := PrepayRows(accts[i].bal, accts[i].r, accts[i].emi, map[], 1);
      var together := Together(accts, extra, strategy, n);
      && |together| == |accts|
      && (0 < n <= |rows| ==> together[i].bal <= rows[n - 1].balance)
      && (|rows| <= n && |rows| < MONTH_CAP ==> together[i].bal == 0)
  {
    hide Interest, Serviceable, AfterMonth, AfterEmi, AloneMonths, AloneInterest, PrepayRows;
    var a := accts[i];
    TogetherBelowAlone(accts, extra, strategy, n, i);
    AloneIsSchedule(a, 1);
    var rows := PrepayRows(a.bal, a.r, a.emi, map[], 1);
    if |rows| <= n && |rows| < MONTH_CAP {
      AloneStaysClear(a, MONTH_CAP, n);
    }
  }

  // ---------------------------------------------------------------- for the loans themselves

  function StandAlone(l: Loan): seq<Row> {
    PrepayScheduleOf(l.principal, l.annualRatePct, LoanEmi(l), map[])
  }

  function StandAloneInterest(loans: seq<Loan>): int {
    if loans == [] then 0
    else StandAloneInterest(loans[..|loans| - 1]) + InterestSum(StandAlone(loans[|loans| - 1]))
  }

  function AcctOf(l: Loan): Acct {
    Acct(l.principal, MonthlyRate(l.annualRatePct), LoanEmi(l), l.annualRatePct)
  }

  /** A loan whose schedule tells all it costs: its EMI covers the first interest, or there is none. */
  ghost predicate Covered(l: Loan) {
    Sound(l) || Interest(l.principal, MonthlyRate(l.annualRatePct)) == 0
  }

  lemma LoanAlone(l: Loan, a: Acct)
    requires Sound(l) && l.principal > 0 && a == AcctOf(l)
    ensures Serviceable(a.bal, a.r, a.emi)
    ensures InterestSum(StandAlone(l)) == AloneInterest(a, MONTH_CAP)
    ensures |StandAlone(l)| == AloneMonths(a, MONTH_CAP)
    ensures forall n :: 0 <= n < |StandAlone(l)| ==> StandAlone(l)[n].balance == Alone(a, n + 1).bal
  {
    InterestMonotone(0, l.principal, a.r);
    AloneIsSchedule(a, 1);
  }

  /** A loan whose EMI does not cover the interest is charged the same every month, for ever. */
  lemma {:induction false} AloneIsStuck(a: Acct, cap: nat)
    requires a.bal > 0 && a.emi <= AccrualOf(a)
    ensures AloneInterest(a, cap) == cap * AccrualOf(a) && AloneMonths(a, cap) == cap
    decreases cap
  {
    hide AccrualOf;
    if cap > 0 {
      AloneIsStuck(a, cap - 1);
      assert cap * AccrualOf(a) == (cap - 1) * AccrualOf(a) + AccrualOf(a);
    }
  }

  /** Its schedule is empty, so it hides those charges. */
  lemma LoanStuck(l: Loan, a: Acct)
    requires l.annualRatePct >= 0.0 && l.principal > 0 && !Sound(l) && a == AcctOf(l)
    ensures StandAlone(l) == [] && InterestSum(StandAlone(l)) == 0
    ensures AloneMonths(a, MONTH_CAP) == MONTH_CAP
    ensures AccrualOf(a) >= 0 && AloneInterest(a, MONTH_CAP) == MONTH_CAP * AccrualOf(a)
    ensures AccrualOf(a) == Interest(l.principal, MonthlyRate(l.annualRatePct))
  {
    InterestMonotone(0, l.principal, a.r);
    InterestMonotone(l.principal, l.principal, a.r);
    AloneIsStuck(a, MONTH_CAP);
  }

  /** Month for month the account costs at least what the schedule says, and the same exactly when
      the loan is covered. */
  lemma LoanCosts(l: Loan, a: Acct)
    requires l.annualRatePct >= 0.0 && l.principal > 0 && a == AcctOf(l)
    ensures Accruing(a)
    ensures 0 <= InterestSum(StandAlone(l)) <= AloneInterest(a, MONTH_CAP)
    ensures InterestSum(StandAlone(l)) == AloneInterest(a, MONTH_CAP) <==> Covered(l)
    ensures |StandAlone(l)| <= AloneMonths(a, MONTH_CAP)
    ensures AloneMonths(a, MONTH_CAP) == if Sound(l) then |StandAlone(l)| else MONTH_CAP
  {
    hide Sound, StandAlone, AloneMonths, AloneInterest, Interest, LoanEmi, AccrualOf;
    if Sound(l) {
      LoanAlone(l, a);
      AloneCostsMonotone(a, a, MONTH_CAP);
    } else {
      LoanStuck(l, a);
    }
  }

  lemma {:induction false} AloneTotalPrefix(accts: seq<Acct>, a: Acct, cap: nat, n: nat)
    requires n <= |accts|
    ensures AloneTotal(accts + [a], cap, n) == AloneTotal(accts, cap, n)
  {
    if n > 0 {
      AloneTotalPrefix(accts, a, cap, n - 1);
    }
  }

  lemma {:induction false} ListedCosts(loans: seq<Loan>)
    requires forall l :: l in loans ==> l.annualRatePct >= 0.0
    ensures AllAccruing(Opened(loans))
    ensures StandAloneInterest(loans) <= AloneTotal(Opened(loans), MONTH_CAP, |Opened(loans)|)
    ensures StandAloneInterest(loans) == AloneTotal(Opened(loans), MONTH_CAP, |Opened(loans)|) <==> forall l :: l in loans ==> Covered(l)
  {
    hide Interest, Sound, Covered, StandAlone, AloneMonths, AloneInterest, AcctOf, Accruing;
    if loans != [] {
      var before, l := loans[..|loans| - 1], loans[|loans| - 1];
      ListedCosts(before);
      assert forall m :: m in loans <==> m in before || m == l by { assert loans == before + [l]; }
      OpenedNext(loans);
      if l.principal > 0 {
        LoanCosts(l, AcctOf(l));
        AloneTotalPrefix(Opened(before), AcctOf(l), MONTH_CAP, |Opened(before)|);
      } else {
        NothingOwed(l);
      }
    }
  }

  lemma OpenedNext(loans: seq<Loan>)
    requires loans != []
    ensures var before, l := Opened(loans[..|loans| - 1]), loans[|loans| - 1];
      Opened(loans) == if l.principal <= 0 then before else before + [AcctOf(l)]
  {
  }

  /** Loans with something outstanding are opened in their order. */
  lemma {:induction false} OpenedInOrder(loans: seq<Loan>)
    requires forall l :: l in loans ==> l.principal > 0
    ensures |Opened(loans)| == |loans|
    ensures forall i :: 0 <= i < |loans| ==>
      var a, l := Opened(loans)[i], loans[i];
      && a.bal == l.principal && a.rate == l.annualRatePct && a.r == MonthlyRate(l.annualRatePct)
      && a.emi == if l.emi > 0 then l.emi else EMI(l.principal, l.annualRatePct, l.months)
  {
    hide MonthlyRate, EMI;
    if loans != [] {
      assert forall l :: l in loans[..|loans| - 1] ==> l in loans;
      assert loans[|loans| - 1] in loans;
      OpenedInOrder(loans[..|loans| - 1]);
    }
  }

  /** How long the accounts last alone. */
  lemma {:induction false} ListedMonths(loans: seq<Loan>, longest: nat)
    requires forall l :: l in loans ==> l.annualRatePct >= 0.0 && |StandAlone(l)| <= longest
    ensures (forall i :: 0 <= i < |Opened(loans)| ==> AloneMonths(Opened(loans)[i], MONTH_CAP) <= longest)
        <==> longest >= MONTH_CAP || forall l :: l in loans ==> Sound(l)
  {
    hide Interest, Sound, StandAlone, AloneMonths, AloneInterest, AcctOf, Accruing, Opened;
    if loans == [] {
      NoLoans();
    } else {
      var before, l := loans[..|loans| - 1], loans[|loans| - 1];
      ListedMonths(before, longest);
      assert forall m :: m in loans <==> m in before || m == l by { assert loans == before + [l]; }
      OpenedNext(loans);
      var accts := Opened(loans);
      if l.principal > 0 {
        LoanCosts(l, AcctOf(l));
        assert accts[|accts| - 1] == AcctOf(l) && accts[..|accts| - 1] == Opened(before);
        assert forall i :: 0 <= i < |Opened(before)| ==> accts[i] == Opened(before)[i];
      } else {
        NothingOwed(l);
      }
    }
  }

  lemma NoLoans()
    ensures Opened([]) == []
  {
  }

  lemma NothingOwed(l: Loan)
    requires l.principal <= 0 && l.annualRatePct >= 0.0
    ensures InterestSum(StandAlone(l)) == 0 && Sound(l) && Covered(l)
  {
  }

  /** For either strategy and any extra budget, the waterfall pays no more interest than the
      loans would alone without prepayment, and takes no longer than the longest of them. */
  lemma WaterfallNeverWorse(loans: seq<Loan>, extra: int, strategy: Strategy, longest: nat)
    requires forall l :: l in loans ==> Sound(l) && |StandAlone(l)| <= longest
    ensures var end := Simulate(Opened(loans), extra, strategy, MONTH_CAP);
      end.interest <= StandAloneInterest(loans) && end.months <= longest
  {
    hide Interest, StandAlone, AloneMonths, AloneInterest, Simulate, AloneTotal, Opened, StandAloneInterest;
    ListedCosts(loans);
    ListedMonths(loans, longest);
    SimulateBelowAlone(Opened(loans), extra, strategy, MONTH_CAP, longest);
  }

  // ---------------------------------------------------------------- exactly when

  /** What the EMIs can add to the pool at most. */
  function AllEmis(accts: seq<Acct>, n: nat): int
    requires n <= |accts|
  {
    if n == 0 then 0 else AllEmis(accts, n - 1) + if accts[n - 1].emi > 0 then accts[n - 1].emi else 0
  }

  lemma {:induction false} FreedAtMost(accts: seq<Acct>, n: nat)
    requires n <= |accts|
    ensures Freed(AfterEmis(accts), n) <= AllEmis(accts, n) && AllEmis(AfterEmis(accts), n) == AllEmis(accts, n)
  {
    if n > 0 {
      FreedAtMost(accts, n - 1);
    }
  }

  lemma {:induction false} EmisTotals(accts: seq<Acct>, cap: nat, n: nat)
    requires n <= |accts| && cap > 0
    ensures Accruals(accts, n) + AloneTotal(AfterEmis(accts), cap - 1, n) == AloneTotal(accts, cap, n)
  {
    hide Interest;
    if n > 0 {
      EmisTotals(accts, cap, n - 1);
      var a := accts[n - 1];
      if a.bal <= 0 {
        assert AfterEmi(a) == a && AccrualOf(a) == 0;
      }
    }
  }

  /** With a budget that takes back every freed EMI nothing is ever poured, and the bounds of
      SimulateBelowAlone are reached. */
  lemma {:induction false} NothingPoured(accts: seq<Acct>, extra: int, strategy: Strategy, cap: nat)
    requires extra + AllEmis(accts, |accts|) <= 0
    ensures Simulate(accts, extra, strategy, cap).interest == AloneTotal(accts, cap, |accts|)
    ensures forall i :: 0 <= i < |accts| ==> AloneMonths(accts[i], cap) <= Simulate(accts, extra, strategy, cap).months
    decreases cap
  {
    hide Interest, AccrualOf, AfterEmi, Freed, AllEmis, Accruals, TargetOf, AloneTotal;
    if cap > 0 && AnyActive(accts) {
      FreedAtMost(accts, |accts|);
      var next := AfterMonth(accts, extra, strategy);
      assert next == AfterEmis(accts);
      EmisTotals(accts, cap, |accts|);
      NothingPoured(next, extra, strategy, cap - 1);
      assert forall i :: 0 <= i < |accts| ==> next[i] == AfterEmi(accts[i]);
    } else {
      NoneActive(accts, cap, |accts|);
    }
  }

  lemma {:induction false} NoneActive(accts: seq<Acct>, cap: nat, n: nat)
    requires n <= |accts| && (cap == 0 || !AnyActive(accts))
    ensures AloneTotal(accts, cap, n) == 0
    ensures forall i :: 0 <= i < n ==> AloneMonths(accts[i], cap) == 0
  {
    if n > 0 {
      NoneActive(accts, cap, n - 1);
    }
  }

  /** At rates that are not negative: the interest stays within the stand-alone schedules for every
      budget and strategy exactly when every loan is covered, and the months exactly when every EMI
      covers its first interest or the limit of months is the bound anyway. */
  lemma WaterfallNeverWorseExactly(loans: seq<Loan>, longest: nat)
    requires forall l :: l in loans ==> l.annualRatePct >= 0.0 && |StandAlone(l)| <= longest
    ensures (forall extra, strategy :: Simulate(Opened(loans), extra, strategy, MONTH_CAP).interest <= StandAloneInterest(loans))
        <==> forall l :: l in loans ==> Covered(l)
    ensures (forall extra, strategy :: Simulate(Opened(loans), extra, strategy, MONTH_CAP).months <= longest)
        <==> longest >= MONTH_CAP || forall l :: l in loans ==> Sound(l)
  {
    hide Interest, Sound, Covered, StandAlone, AloneMonths, AloneInterest, Simulate, AloneTotal, Opened, StandAloneInterest, AllEmis;
    var accts := Opened(loans);
    ListedCosts(loans);
    ListedMonths(loans, longest);
    NothingPoured(accts, -AllEmis(accts, |accts|), Avalanche, MONTH_CAP);
    forall extra, strategy
      ensures Simulate(accts, extra, strategy, MONTH_CAP).interest <= AloneTotal(accts, MONTH_CAP, |accts|)
      ensures (forall i :: 0 <= i < |accts| ==> AloneMonths(accts[i], MONTH_CAP) <= longest) ==>
        Simulate(accts, extra, strategy, MONTH_CAP).months <= longest
    {
      SimulateInterest(accts, extra, strategy);
      if forall i :: 0 <= i < |accts| ==> AloneMonths(accts[i], MONTH_CAP) <= longest {
        SimulateBelowAlone(accts, extra, strategy, MONTH_CAP, longest);
      }
    }
  }

  lemma SimulateInterest(accts: seq<Acct>, extra: int, strategy: Strategy)
    requires AllAccruing(accts)
    ensures Simulate(accts, extra, strategy, MONTH_CAP).interest <= AloneTotal(accts, MONTH_CAP, |accts|)
  {
    hide Simulate, AloneTotal, AloneMonths, AloneInterest;
    forall i | 0 <= i < |accts|
      ensures AloneMonths(accts[i], MONTH_CAP) <= MONTH_CAP
    {
      AloneMonthsCapped(accts[i], MONTH_CAP);
    }
    SimulateBelowAlone(accts, extra, strategy, MONTH_CAP, MONTH_CAP);
  }

  lemma {:induction false} AloneMonthsCapped(a: Acct, cap: nat)
    ensures AloneMonths(a, cap) <= cap
    decreases cap
  {
    hide AfterEmi;
    if cap > 0 {
      AloneMonthsCapped(AfterEmi(a), cap - 1);
    }
  }

  lemma {:induction false} AccrualsNonNegative(accts: seq<Acct>, n: nat)
    requires AllAccruing(accts) && n <= |accts|
    ensures Accruals(accts, n) >= 0
  {
    hide AccrualOf, Accruing;
    if n > 0 {
      AccrualsNonNegative(accts, n - 1);
      assert Accruing(accts[n - 1]);
      DominatesItself(accts[n - 1]);
      EmiKeepsDominance(accts[n - 1], accts[n - 1]);
    }
  }

  lemma DominatesItself(a: Acct)
    requires Accruing(a)
    ensures Dominates(a, a)
  {
  }

  /** The first month's interest is never undone. */
  lemma {:induction false} FirstMonthCounts(accts: seq<Acct>, extra: int, strategy: Strategy, cap: nat)
    requires AllAccruing(accts)
    ensures Simulate(accts, extra, strategy, cap).interest >= 0
    ensures cap > 0 && AnyActive(accts) ==> Simulate(accts, extra, strategy, cap).interest >= Accruals(accts, |accts|)
    decreases cap
  {
    hide AccrualOf, AfterMonth, Accruals, Accruing;
    AccrualsNonNegative(accts, |accts|);
    if cap > 0 && AnyActive(accts) {
      MonthKeepsAccruing(accts, extra, strategy);
      FirstMonthCounts(AfterMonth(accts, extra, strategy), extra, strategy, cap - 1);
    }
  }

  // ---------------------------------------------------------------- one loan, month by month

  /** The budget as a prepayment of every month but the first: the waterfall pours at the end of a
      month, prepaySchedule at the start. */
  function Monthly(extra: int): Plan {
    map k | 0 <= k <= MONTH_CAP && AfterFirst(k) :: extra
  }

  predicate AfterFirst(k: int) {
    k >= 2
  }

  /** From month k on: an account from which the month's extra is already taken costs the interest of
      the schedule that still has to take it. */
  lemma {:induction false} OneLoanFrom(a: Acct, owed: int, extra: int, strategy: Strategy, k: int)
    requires Serviceable(owed, a.r, a.emi) && extra > 0 && 1 <= k <= MONTH_CAP + 1
    requires a.bal == if k == 1 then owed else owed - Min(extra, owed)
    ensures var rows, end := PrepayRows(owed, a.r, a.emi, Monthly(extra), k), Simulate([a], extra, strategy, MONTH_CAP + 1 - k);
      && end.interest == InterestSum(rows)
      && end.months <= |rows| <= end.months + 1
    decreases MONTH_CAP - k
  {
    hide Interest, Serviceable, PrepayRows, InterestSum, AfterMonth;
    ServiceableFacts(owed, a.r, a.emi);
    ServiceableBelow(a.bal, owed, a.r, a.emi);
    if k > MONTH_CAP || owed == 0 {
      NoRows(owed, a.r, a.emi, Monthly(extra), k);
    } else {
      PrepayStep(owed, a.r, a.emi, Monthly(extra), k);
      assert owed - Min(Extra(Monthly(extra), k), owed) == a.bal;
      if a.bal > 0 {
        assert AnyActive([a]) by { assert [a][0].bal > 0; }
        var left := a.bal - Min(a.emi - Interest(a.bal, a.r), a.bal);
        ServiceableBelow(left, a.bal, a.r, a.emi);
        var next := a.(bal := left - Min(extra, left));
        ServiceableFacts(a.bal, a.r, a.emi);
        OneMonth(a, extra, strategy);
        OneLoanFrom(next, left, extra, strategy, k + 1);
      }
    }
  }

  lemma OneMonth(a: Acct, extra: int, strategy: Strategy)
    requires a.bal > 0 && a.emi > Interest(a.bal, a.r) && extra > 0
    ensures var left := a.bal - Min(a.emi - Interest(a.bal, a.r), a.bal);
      AfterMonth([a], extra, strategy) == [a.(bal := left - Min(extra, left))]
    ensures Accruals([a], 1) == Interest(a.bal, a.r)
  {
    hide Interest;
    var left := a.bal - Min(a.emi - Interest(a.bal, a.r), a.bal);
    var mid := [a.(bal := left)];
    assert AfterEmis([a]) == mid;
    assert TargetOf(mid, strategy, 0) == -1;
    assert TargetOf(mid, strategy, 1) == if left > 0 then 0 else -1;
    assert Freed(mid, 0) == 0;
    assert Freed(mid, 1) == if left <= 0 then a.emi else 0;
    assert Accruals([a], 0) == 0;
  }

  /** The waterfall of one loan and a positive budget is its schedule with the budget paid as an
      extra every month from the second on: the same interest, and the same months but for a row that
      only closes the loan. */
  lemma OneLoanIsPrepaid(l: Loan, extra: int, strategy: Strategy)
    requires Sound(l) && extra > 0
    ensures var rows := PrepayScheduleOf(l.principal, l.annualRatePct, LoanEmi(l), Monthly(extra));
      var end := Simulate(Opened([l]), extra, strategy, MONTH_CAP);
      && end.interest == InterestSum(rows)
      && end.months <= |rows| <= end.months + 1
  {
    hide Interest, PrepayRows, Simulate, LoanEmi, MonthlyRate;
    assert [l][..0] == [];
    if l.principal > 0 {
      var a := AcctOf(l);
      assert Opened([l]) == [a];
      SoundFacts(l);
      RateSign(l.annualRatePct);
      InterestMonotone(0, l.principal, a.r);
      OneLoanFrom(a, l.principal, extra, strategy, 1);
    } else {
      NothingSimulated(extra, strategy);
    }
  }

  lemma NothingSimulated(extra: int, strategy: Strategy)
    ensures Simulate([], extra, strategy, MONTH_CAP) == Outcome([], 0, 0)
  {
  }

  /** For one loan the condition decides for every single budget, positive ones included. */
  lemma OneLoanNeverWorseExactly(l: Loan, extra: int, strategy: Strategy)
    requires l.annualRatePct >= 0.0
    ensures Simulate(Opened([l]), extra, strategy, MONTH_CAP).interest <= StandAloneInterest([l]) <==> Covered(l)
  {
    hide Interest, Sound, StandAlone, AloneMonths, AloneInterest, Simulate, AloneTotal;
    assert [l][..0] == [];
    ListedCosts([l]);
    SimulateInterest(Opened([l]), extra, strategy);
    if !Covered(l) {
      if l.principal <= 0 {
        NothingOwed(l);
      } else {
        LoanStuck(l, AcctOf(l));
        InterestMonotone(0, l.principal, MonthlyRate(l.annualRatePct));
        var accts := Opened([l]);
        assert accts == [AcctOf(l)] && accts[0].bal > 0;
        assert Accruals(accts, 1) == AccrualOf(accts[0]);
        FirstMonthCounts(accts, extra, strategy, MONTH_CAP);
      }
    }
  }
}
