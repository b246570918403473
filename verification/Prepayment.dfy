/** Prepayments at a fixed instalment (debt/optimise.go): what extra principal does to interest
    and tenure, for arbitrary prepayment plans. */
module Prepayment {
  import opened Amortisation

  const MONTH_CAP := 1200

  datatype Loan = Loan(principal: int, annualRatePct: real, months: int, emi: int)

  /** The loan's EMI, derived when it is not supplied. */
  function LoanEmi(l: Loan): int {
    if l.emi > 0 then l.emi else EMI(l.principal, l.annualRatePct, l.months)
  }

  /** month -> extra principal; entries that are not positive are ignored. */
  type Plan = map<int, int>

  function Extra(plan: Plan, k: int): (e: int)
    ensures e >= 0
  {
    if k in plan && plan[k] > 0 then plan[k] else 0
  }

  function Min(x: int, y: int): int {
    if x <= y then x else y
  }

  // ---------------------------------------------------------------- the schedule

  /** What prepaySchedule does from month k on. */
  function PrepayRows(balance: int, r: real, emi: int, plan: Plan, k: int): seq<Row>
    decreases MONTH_CAP - k, balance
  {
    if k > MONTH_CAP || balance <= 0 then []
    else
      var extra := Min(Extra(plan, k), balance);
      var owed := balance - extra;
      if extra > 0 && owed == 0 then [Row(k, 0, extra, 0)]
      else if emi - Interest(owed, r) <= 0 then []
      else
        var principal := Min(emi - Interest(owed, r), owed);
        [Row(k, Interest(owed, r), principal, owed - principal)] + PrepayRows(owed - principal, r, emi, plan, k + 1)
  }

  function PrepayScheduleOf(principal: int, annualRatePct: real, emi: int, plan: Plan): seq<Row> {
    if principal <= 0 || emi <= 0 then [] else PrepayRows(principal, MonthlyRate(annualRatePct), emi, plan, 1)
  }

  method PrepaySchedule(principal: int, annualRatePct: real, emi: int, plan: Plan) returns (rows: seq<Row>)
    ensures rows == PrepayScheduleOf(principal, annualRatePct, emi, plan)
  {
    hide Interest, MonthlyRate, PrepayRows;
    rows := [];
    if principal <= 0 || emi <= 0 {
      return;
    }
    var r := MonthlyRate(annualRatePct);
    var balance := principal;
    var k := 1;
    ghost var all := PrepayRows(principal, r, emi, plan, 1);
    while k <= MONTH_CAP && balance > 0
      invariant rows + PrepayRows(balance, r, emi, plan, k) == all
      decreases MONTH_CAP - k
    {
      PrepayUnfolds(balance, r, emi, plan, k);
      if k in plan && plan[k] > 0 {
        var extra := plan[k];
        if extra > balance {
          extra := balance;
        }
        balance := balance - extra;
        if balance == 0 {
          rows := rows + [Row(k, 0, extra, 0)];
          return;
        }
      }
      var interest := Interest(balance, r);
      var repaid := emi - interest;
      if repaid <= 0 {
        return;
      }
      if repaid >= balance {
        repaid := balance;
      }
      balance := balance - repaid;
      Regroup(rows, Row(k, interest, repaid, balance), PrepayRows(balance, r, emi, plan, k + 1));
      rows := rows + [Row(k, interest, repaid, balance)];
      k := k + 1;
    }
    PrepayUnfolds(balance, r, emi, plan, k);
  }

  lemma Regroup(rows: seq<Row>, row: Row, rest: seq<Row>)
    ensures rows + ([row] + rest) == (rows + [row]) + rest
  {
  }

  lemma PrepayUnfolds(balance: int, r: real, emi: int, plan: Plan, k: int)
    ensures PrepayRows(balance, r, emi, plan, k) ==
      if k > MONTH_CAP || balance <= 0 then []
      else
        var extra := if k in plan && plan[k] > 0 then Min(plan[k], balance) else 0;
        var owed := balance - extra;
        var principal := Min(emi - Interest(owed, r), owed);
        if extra > 0 && owed == 0 then [Row(k, 0, extra, 0)]
        else if emi - Interest(owed, r) <= 0 then []
        else [Row(k, Interest(owed, r), principal, owed - principal)] + PrepayRows(owed - principal, r, emi, plan, k + 1)
  {
    hide Interest;
  }

  // ---------------------------------------------------------------- what the rows say

  /** What is paid extra in month k on a balance. */
  function ExtraDue(plan: Plan, k: int, balance: int): int {
    if k in plan && plan[k] > 0 then (if plan[k] > balance then balance else plan[k]) else 0
  }

  /** Row i: after the extra payment, either it closes the loan alone, or the month's rounded interest
      is paid and the rest of the EMI, or of the balance, repaid. */
  ghost predicate RowFollows(rows: seq<Row>, principal: int, r: real, emi: int, plan: Plan, k: int, i: nat)
    requires i < |rows|
  {
    var before, row := Before(principal, rows, i), rows[i];
    var owed := before - ExtraDue(plan, k + i, before);
    && before > 0 && row.month == k + i <= 1200
    && if owed == 0 then row.interest == 0 && row.principal == before && row.balance == 0
       else
         && row.interest == Interest(owed, r)
         && row.principal > 0 && row.balance == owed - row.principal >= 0
         && row.interest + row.principal <= emi
         && (row.balance > 0 ==> row.interest + row.principal == emi)
  }

  ghost predicate AllFollow(rows: seq<Row>, principal: int, r: real, emi: int, plan: Plan, k: int) {
    forall i: nat :: i < |rows| ==> RowFollows(rows, principal, r, emi, plan, k, i)
  }

  /** The rows stop only when nothing is owed, after 1200 months, or where the EMI does not cover the
      interest. */
  ghost predicate StopsRightly(rows: seq<Row>, principal: int, r: real, emi: int, plan: Plan, k: int) {
    var left, month := Before(principal, rows, |rows|), k + |rows|;
    var owed := left - ExtraDue(plan, month, left);
    left <= 0 || month > 1200 || (owed > 0 && emi <= Interest(owed, r))
  }

  lemma {:induction false} RowsFollow(balance: int, r: real, emi: int, plan: Plan, k: int)
    ensures var rows := PrepayRows(balance, r, emi, plan, k);
      && AllFollow(rows, balance, r, emi, plan, k)
      && StopsRightly(rows, balance, r, emi, plan, k)
    decreases MONTH_CAP - k
  {
    hide Interest, PrepayRows, RowFollows, StopsRightly;
    var rows := PrepayRows(balance, r, emi, plan, k);
    PrepayUnfolds(balance, r, emi, plan, k);
    if k > MONTH_CAP || balance <= 0 {
      StopsAtOnce(balance, r, emi, plan, k);
    } else {
      var owed := balance - ExtraDue(plan, k, balance);
      if owed > 0 && emi - Interest(owed, r) <= 0 {
        StopsAtOnce(balance, r, emi, plan, k);
      } else {
        FirstRowFollows(balance, r, emi, plan, k);
        if owed > 0 {
          var rest := PrepayRows(rows[0].balance, r, emi, plan, k + 1);
          RowsFollow(rows[0].balance, r, emi, plan, k + 1);
          ConsFollows(rows[0], rest, balance, r, emi, plan, k);
        }
      }
    }
  }

  lemma StopsAtOnce(balance: int, r: real, emi: int, plan: Plan, k: int)
    requires
      || k > MONTH_CAP || balance <= 0
      || (balance - ExtraDue(plan, k, balance) > 0 && emi <= Interest(balance - ExtraDue(plan, k, balance), r))
    ensures StopsRightly([], balance, r, emi, plan, k)
  {
    hide Interest;
  }

  lemma FirstRowFollows(balance: int, r: real, emi: int, plan: Plan, k: int)
    requires k <= MONTH_CAP && balance > 0
    requires var owed := balance - ExtraDue(plan, k, balance); owed > 0 ==> emi > Interest(owed, r)
    ensures var rows := PrepayRows(balance, r, emi, plan, k);
      && rows != [] && RowFollows(rows, balance, r, emi, plan, k, 0)
      && if balance == ExtraDue(plan, k, balance) then |rows| == 1 && StopsRightly(rows, balance, r, emi, plan, k)
         else rows == [rows[0]] + PrepayRows(rows[0].balance, r, emi, plan, k + 1)
  {
    hide Interest, PrepayRows;
    PrepayUnfolds(balance, r, emi, plan, k);
  }

  lemma ConsFollows(row: Row, rest: seq<Row>, balance: int, r: real, emi: int, plan: Plan, k: int)
    requires RowFollows([row] + rest, balance, r, emi, plan, k, 0)
    requires AllFollow(rest, row.balance, r, emi, plan, k + 1)
    requires StopsRightly(rest, row.balance, r, emi, plan, k + 1)
    ensures AllFollow([row] + rest, balance, r, emi, plan, k)
    ensures StopsRightly([row] + rest, balance, r, emi, plan, k)
  {
    hide Interest;
    var rows := [row] + rest;
    forall i: nat | i < |rows|
      ensures RowFollows(rows, balance, r, emi, plan, k, i)
    {
      if i > 0 {
        assert RowFollows(rest, row.balance, r, emi, plan, k + 1, i - 1);
        assert Before(balance, rows, i) == Before(row.balance, rest, i - 1);
      }
    }
    assert Before(balance, rows, |rows|) == Before(row.balance, rest, |rest|);
  }

  // ---------------------------------------------------------------- dominance

  /** The instalment covers the interest on this balance, as it must for the loan to shrink. */
  ghost predicate Serviceable(balance: int, r: real, emi: int) {
    r >= 0.0 && balance >= 0 && (balance > 0 ==> emi > Interest(balance, r))
  }

  lemma ServiceableBelow(b1: int, b2: int, r: real, emi: int)
    requires Serviceable(b2, r, emi) && 0 <= b1 <= b2
    ensures Serviceable(b1, r, emi)
    ensures 0 <= Interest(b1, r) <= Interest(b2, r)
  {
    InterestMonotone(b1, b2, r);
  }

  lemma ServiceableFacts(balance: int, r: real, emi: int)
    requires Serviceable(balance, r, emi)
    ensures r >= 0.0 && balance >= 0 && (balance > 0 ==> emi > Interest(balance, r))
  {
  }

  /** Extra principal paid in months k..j. */
  function Paid(plan: Plan, k: int, j: int): int
    decreases j - k
  {
    if k > j then 0 else Extra(plan, k) + Paid(plan, k + 1, j)
  }

  /** How far plan a is ahead of plan b at the end of month j, given a head start in month k. */
  function Lead(a: Plan, b: Plan, slack: int, k: int, j: int): int {
    slack + Paid(a, k, j) - Paid(b, k, j)
  }

  /** Plan a is never behind plan b from month k on. */
  ghost predicate Ahead(a: Plan, b: Plan, slack: int, k: int) {
    forall j :: k <= j <= MONTH_CAP ==> Lead(a, b, slack, k, j) >= 0
  }

  lemma AheadStep(a: Plan, b: Plan, slack: int, k: int)
    requires Ahead(a, b, slack, k) && k <= MONTH_CAP
    ensures slack + Extra(a, k) - Extra(b, k) >= 0
    ensures Ahead(a, b, slack + Extra(a, k) - Extra(b, k), k + 1)
  {
    hide Extra;
    assert Lead(a, b, slack, k, k) == slack + Extra(a, k) - Extra(b, k) by {
      assert Paid(a, k + 1, k) == Paid(b, k + 1, k) == 0;
    }
    var slack', k' := slack + Extra(a, k) - Extra(b, k), k + 1;
    forall j | k' <= j <= MONTH_CAP
      ensures Lead(a, b, slack', k', j) >= 0
    {
      assert Lead(a, b, slack, k, j) >= 0;
    }
  }

  /** `x` is the better balance by at least `slack`, or it is cleared. */
  ghost predicate Better(x: int, y: int, slack: int) {
    0 <= slack && 0 <= x && 0 <= y && (x == 0 || x <= y - slack)
  }

  /** One month of prepaySchedule, for a loan that it does not abandon. */
  lemma PrepayStep(balance: int, r: real, emi: int, plan: Plan, k: int)
    requires Serviceable(balance, r, emi) && balance > 0 && k <= MONTH_CAP
    ensures var owed := balance - Min(Extra(plan, k), balance);
      && 0 <= owed <= balance && Serviceable(owed, r, emi)
      && var rows, left := PrepayRows(balance, r, emi, plan, k), owed - Min(emi - Interest(owed, r), owed);
      if owed == 0 then |rows| == 1 && InterestSum(rows) == 0
      else
        && 0 <= left < owed && Serviceable(left, r, emi)
        && |rows| == 1 + |PrepayRows(left, r, emi, plan, k + 1)|
        && InterestSum(rows) == Interest(owed, r) + InterestSum(PrepayRows(left, r, emi, plan, k + 1))
  {
    hide Interest, Serviceable;
    var owed := balance - Min(Extra(plan, k), balance);
    ServiceableBelow(owed, balance, r, emi);
    ServiceableFacts(owed, r, emi);
    if owed == 0 {
      assert PrepayRows(balance, r, emi, plan, k) == [Row(k, 0, balance, 0)];
    } else {
      var left := owed - Min(emi - Interest(owed, r), owed);
      ServiceableBelow(left, owed, r, emi);
      assert PrepayRows(balance, r, emi, plan, k)[1..] == PrepayRows(left, r, emi, plan, k + 1);
    }
  }

  lemma {:induction false} InterestSumNonNegative(balance: int, r: real, emi: int, plan: Plan, k: int)
    requires Serviceable(balance, r, emi)
    ensures InterestSum(PrepayRows(balance, r, emi, plan, k)) >= 0
    ensures balance > 0 && k <= MONTH_CAP ==> |PrepayRows(balance, r, emi, plan, k)| >= 1
    decreases MONTH_CAP - k
  {
    hide Interest, Serviceable, PrepayRows, InterestSum;
    if k > MONTH_CAP || balance <= 0 {
      NoRows(balance, r, emi, plan, k);
    } else {
      PrepayStep(balance, r, emi, plan, k);
      var owed := balance - Min(Extra(plan, k), balance);
      if owed > 0 {
        ServiceableBelow(owed, owed, r, emi);
        InterestSumNonNegative(owed - Min(emi - Interest(owed, r), owed), r, emi, plan, k + 1);
      }
    }
  }

  /** Paying in advance never costs: the plan that is never behind pays no more interest and
      takes no more months. */
  lemma {:induction false} AheadIsCheaper(x: int, y: int, r: real, emi: int, a: Plan, b: Plan, slack: int, k: int)
    requires Serviceable(x, r, emi) && Serviceable(y, r, emi)
    requires Better(x, y, slack) && Ahead(a, b, slack, k)
    ensures InterestSum(PrepayRows(x, r, emi, a, k)) <= InterestSum(PrepayRows(y, r, emi, b, k))
    ensures |PrepayRows(x, r, emi, a, k)| <= |PrepayRows(y, r, emi, b, k)|
    decreases MONTH_CAP - k
  {
    hide Interest, Serviceable, Ahead, PrepayRows, InterestSum;
    InterestSumNonNegative(y, r, emi, b, k);
    if k > MONTH_CAP || x == 0 {
      NoRows(x, r, emi, a, k);
    } else {
      AheadStep(a, b, slack, k);
      PrepayStep(x, r, emi, a, k);
      PrepayStep(y, r, emi, b, k);
      var owedX, owedY := x - Min(Extra(a, k), x), y - Min(Extra(b, k), y);
      if owedX > 0 {
        ServiceableBelow(owedX, owedY, r, emi);
        var leftX := owedX - Min(emi - Interest(owedX, r), owedX);
        var leftY := owedY - Min(emi - Interest(owedY, r), owedY);
        AheadIsCheaper(leftX, leftY, r, emi, a, b, slack + Extra(a, k) - Extra(b, k), k + 1);
      }
    }
  }

  /** Month for month, the balance of the plan ahead is lower by its lead, or cleared. */
  lemma {:induction false} BalancesLead(x: int, y: int, r: real, emi: int, a: Plan, b: Plan, slack: int, k: int, i: nat)
    requires Serviceable(x, r, emi) && Serviceable(y, r, emi)
    requires Better(x, y, slack) && Ahead(a, b, slack, k) && i < |PrepayRows(x, r, emi, a, k)|
    ensures i < |PrepayRows(y, r, emi, b, k)|
    ensures var rowsA, rowsB := PrepayRows(x, r, emi, a, k), PrepayRows(y, r, emi, b, k);
      rowsA[i].balance == 0 || rowsA[i].balance <= rowsB[i].balance - Lead(a, b, slack, k, k + i)
    decreases MONTH_CAP - k
  {
    hide Interest, Serviceable, Ahead, PrepayRows, InterestSum;
    AheadIsCheaper(x, y, r, emi, a, b, slack, k);
    RunsOut(x, r, emi, a, k);
    AheadStep(a, b, slack, k);
    PrepayStep(x, r, emi, a, k);
    PrepayStep(y, r, emi, b, k);
    FirstBalance(x, r, emi, a, k);
    FirstBalance(y, r, emi, b, k);
    LeadStep(a, b, slack, k, k + i);
    var owedX, owedY := x - Min(Extra(a, k), x), y - Min(Extra(b, k), y);
    if owedX > 0 {
      ServiceableBelow(owedX, owedY, r, emi);
      var leftX := owedX - Min(emi - Interest(owedX, r), owedX);
      var leftY := owedY - Min(emi - Interest(owedY, r), owedY);
      if i > 0 {
        BalancesLead(leftX, leftY, r, emi, a, b, slack + Extra(a, k) - Extra(b, k), k + 1, i - 1);
      }
    }
  }

  lemma RunsOut(balance: int, r: real, emi: int, plan: Plan, k: int)
    requires PrepayRows(balance, r, emi, plan, k) != []
    ensures k <= MONTH_CAP && balance > 0
  {
  }

  /** The first row, and the rest, for a loan that is not abandoned. */
  lemma FirstBalance(balance: int, r: real, emi: int, plan: Plan, k: int)
    requires Serviceable(balance, r, emi) && balance > 0 && k <= MONTH_CAP
    ensures var rows, owed := PrepayRows(balance, r, emi, plan, k), balance - Min(Extra(plan, k), balance);
      && |rows| > 0
      && if owed == 0 then |rows| == 1 && rows[0].balance == 0
         else
           var left := owed - Min(emi - Interest(owed, r), owed);
           rows[0].balance == left && rows[1..] == PrepayRows(left, r, emi, plan, k + 1)
  {
    hide Interest, Serviceable, PrepayRows;
    var owed := balance - Min(Extra(plan, k), balance);
    ServiceableBelow(owed, balance, r, emi);
    ServiceableFacts(owed, r, emi);
    PrepayUnfolds(balance, r, emi, plan, k);
  }

  lemma LeadStep(a: Plan, b: Plan, slack: int, k: int, j: int)
    requires k <= j
    ensures Lead(a, b, slack, k, j) == Lead(a, b, slack + Extra(a, k) - Extra(b, k), k + 1, j)
  {
  }

  /** A lump sum is worth at least itself: from its month on the balance is lower by that much than
      without it, or cleared. */
  lemma LumpCounts(principal: int, r: real, emi: int, month: int, amount: int, i: nat)
    requires Serviceable(principal, r, emi) && 1 <= month && amount > 0
    requires i < |PrepayRows(principal, r, emi, map[month := amount], 1)|
    ensures i < |PrepayRows(principal, r, emi, map[], 1)|
    ensures var rows, base := PrepayRows(principal, r, emi, map[month := amount], 1), PrepayRows(principal, r, emi, map[], 1);
      i + 1 >= month ==> rows[i].balance == 0 || rows[i].balance <= base[i].balance - amount
  {
    hide Interest, Serviceable, PrepayRows;
    ServiceableFacts(principal, r, emi);
    LumpAhead(month, amount, month, amount);
    BalancesLead(principal, principal, r, emi, Lump(month, amount), map[], 0, 1, i);
    LumpPaid(month, amount, 1, i + 1);
  }

  lemma NoRows(balance: int, r: real, emi: int, plan: Plan, k: int)
    requires k > MONTH_CAP || balance <= 0
    ensures PrepayRows(balance, r, emi, plan, k) == [] && InterestSum(PrepayRows(balance, r, emi, plan, k)) == 0
  {
  }

  /** For whole schedules: if by every month plan a has put in at least as much extra principal
      as plan b, it never pays more interest and never takes longer. */
  lemma EarlierAndMoreIsCheaper(principal: int, annualRatePct: real, emi: int, a: Plan, b: Plan)
    requires annualRatePct >= 0.0 && (principal > 0 ==> emi > Interest(principal, MonthlyRate(annualRatePct)))
    requires Ahead(a, b, 0, 1)
    ensures InterestSum(PrepayScheduleOf(principal, annualRatePct, emi, a))
         <= InterestSum(PrepayScheduleOf(principal, annualRatePct, emi, b))
    ensures |PrepayScheduleOf(principal, annualRatePct, emi, a)| <= |PrepayScheduleOf(principal, annualRatePct, emi, b)|
  {
    if principal > 0 {
      AheadIsCheaper(principal, principal, MonthlyRate(annualRatePct), emi, a, b, 0, 1);
    }
  }

  // ---------------------------------------------------------------- one lump sum

  function Lump(month: int, amount: int): Plan {
    map[month := amount]
  }

  lemma {:induction false} LumpPaid(month: int, amount: int, k: int, j: int)
    ensures Paid(Lump(month, amount), k, j) == if k <= month <= j && amount > 0 then amount else 0
    ensures Paid(map[], k, j) == 0
    decreases j - k
  {
    if k <= j {
      LumpPaid(month, amount, k + 1, j);
    }
  }

  /** A larger lump sum, or the same one in an earlier month, is ahead; any lump sum is ahead
      of none. */
  lemma LumpAhead(m1: int, a1: int, m2: int, a2: int)
    requires m1 <= m2 && a1 >= a2 && 1 <= m1
    ensures Ahead(Lump(m1, a1), Lump(m2, a2), 0, 1)
    ensures Ahead(Lump(m1, a1), map[], 0, 1)
  {
    forall j | 1 <= j <= MONTH_CAP
      ensures Paid(Lump(m1, a1), 1, j) - Paid(Lump(m2, a2), 1, j) >= 0
      ensures Paid(Lump(m1, a1), 1, j) - Paid(map[], 1, j) >= 0
    {
      LumpPaid(m1, a1, 1, j);
      LumpPaid(m2, a2, 1, j);
    }
  }

  datatype PrepaymentResult = PrepaymentResult(
    interestSaved: int, tenureReduced: int, baselineMonths: int, newMonths: int,
    baselineInterest: int, newInterest: int, converged: bool)

  predicate Converged(rows: seq<Row>) {
    rows == [] || rows[|rows| - 1].balance == 0
  }

  function Clamped(x: int): int {
    if x < 0 then 0 else x
  }

  method PrepaymentImpact(loan: Loan, extra: int, extraMonth: int) returns (res: PrepaymentResult)
    ensures res == ImpactOf(loan, extra, extraMonth)
    ensures
      var emi := if loan.emi > 0 then loan.emi else EMI(loan.principal, loan.annualRatePct, loan.months);
      var base := PrepayScheduleOf(loan.principal, loan.annualRatePct, emi, map[]);
      var prepay := PrepayScheduleOf(loan.principal, loan.annualRatePct, emi, map[(if extraMonth < 1 then 1 else extraMonth) := extra]);
      && res.baselineMonths == |base| && res.newMonths == |prepay|
      && res.baselineInterest == InterestSum(base) && res.newInterest == InterestSum(prepay)
      && res.interestSaved == (if InterestSum(base) > InterestSum(prepay) then InterestSum(base) - InterestSum(prepay) else 0)
      && res.tenureReduced == (if |base| > |prepay| then |base| - |prepay| else 0)
      && (res.converged <==> (base == [] || base[|base| - 1].balance == 0) && (prepay == [] || prepay[|prepay| - 1].balance == 0))
  {
    hide PrepayScheduleOf, InterestSum, EMI;
    var emi := LoanEmi(loan);
    var month := if extraMonth < 1 then 1 else extraMonth;
    var base := PrepaySchedule(loan.principal, loan.annualRatePct, emi, map[]);
    var prepay := PrepaySchedule(loan.principal, loan.annualRatePct, emi, map[month := extra]);
    var baseInt := TotalInterest(base);
    var newInt := TotalInterest(prepay);
    var saved := baseInt - newInt;
    if saved < 0 {
      saved := 0;
    }
    var reduced := |base| - |prepay|;
    if reduced < 0 {
      reduced := 0;
    }
    res := PrepaymentResult(saved, reduced, |base|, |prepay|, baseInt, newInt, Converged(base) && Converged(prepay));
  }

  function ImpactOf(loan: Loan, extra: int, extraMonth: int): PrepaymentResult {
    var month := if extraMonth < 1 then 1 else extraMonth;
    var base := PrepayScheduleOf(loan.principal, loan.annualRatePct, LoanEmi(loan), map[]);
    var prepay := PrepayScheduleOf(loan.principal, loan.annualRatePct, LoanEmi(loan), Lump(month, extra));
    PrepaymentResult(
      Clamped(InterestSum(base) - InterestSum(prepay)), Clamped(|base| - |prepay|), |base|, |prepay|,
      InterestSum(base), InterestSum(prepay), Converged(base) && Converged(prepay))
  }

  /** The EMI covers the first month's interest at a non-negative rate. */
  ghost predicate Sound(loan: Loan) {
    loan.annualRatePct >= 0.0
    && (loan.principal > 0 ==> LoanEmi(loan) > Interest(loan.principal, MonthlyRate(loan.annualRatePct)))
  }

  /** The differences that PrepaymentImpact reports are the plain ones. */
  predicate ClampsIdle(loan: Loan, extra: int, extraMonth: int) {
    var res := ImpactOf(loan, extra, extraMonth);
    res.interestSaved == res.baselineInterest - res.newInterest && res.tenureReduced == res.baselineMonths - res.newMonths
  }

  /** The lump sum turns a loan that prepaySchedule abandons at once into one that it repays. */
  ghost predicate Rescues(loan: Loan, extra: int, extraMonth: int) {
    && !Sound(loan) && LoanEmi(loan) > 0 && extraMonth <= 1 && extra > 0
    && (extra >= loan.principal || LoanEmi(loan) > Interest(loan.principal - extra, MonthlyRate(loan.annualRatePct)))
  }

  /** An abandoned loan has no rows, unless a lump sum of the first month rescues it. */
  lemma AbandonedRows(loan: Loan, extra: int, month: int)
    requires loan.annualRatePct >= 0.0 && !Sound(loan) && month >= 1
    ensures var rows := PrepayScheduleOf(loan.principal, loan.annualRatePct, LoanEmi(loan), Lump(month, extra));
      && (rows != [] <==> Rescues(loan, extra, month))
      && InterestSum(rows) >= 0
    ensures PrepayScheduleOf(loan.principal, loan.annualRatePct, LoanEmi(loan), map[]) == []
  {
    hide Interest, PrepayRows, MonthlyRate, LoanEmi;
    var r, emi := MonthlyRate(loan.annualRatePct), LoanEmi(loan);
    RateSign(loan.annualRatePct);
    PrepayUnfolds(loan.principal, r, emi, Lump(month, extra), 1);
    PrepayUnfolds(loan.principal, r, emi, map[], 1);
    if Rescues(loan, extra, month) {
      var owed := loan.principal - Min(extra, loan.principal);
      InterestMonotone(0, owed, r);
      if owed > 0 {
        var rows := PrepayRows(loan.principal, r, emi, Lump(month, extra), 1);
        var left := owed - Min(emi - Interest(owed, r), owed);
        var rest := PrepayRows(left, r, emi, Lump(month, extra), 2);
        InterestMonotone(owed, owed, r);
        InterestMonotone(left, owed, r);
        InterestSumNonNegative(left, r, emi, Lump(month, extra), 2);
        assert rows[1..] == rest;
      }
    }
  }

  lemma RateSign(annualRatePct: real)
    requires annualRatePct >= 0.0
    ensures MonthlyRate(annualRatePct) >= 0.0
  {
  }

  /** The clamps of PrepaymentImpact stay idle exactly when the lump sum does not rescue a loan that
      was abandoned; and when the EMI covers the first interest the savings are never negative. */
  lemma ImpactIsExact(loan: Loan, extra: int, extraMonth: int)
    requires loan.annualRatePct >= 0.0
    ensures ClampsIdle(loan, extra, extraMonth) <==> !Rescues(loan, extra, extraMonth)
    ensures Sound(loan) ==>
      var res := ImpactOf(loan, extra, extraMonth);
      && res.interestSaved == res.baselineInterest - res.newInterest >= 0
      && res.tenureReduced == res.baselineMonths - res.newMonths >= 0
  {
    hide Interest, PrepayRows, MonthlyRate, LoanEmi, Sound;
    var month := if extraMonth < 1 then 1 else extraMonth;
    if Sound(loan) {
      LumpAhead(month, extra, month, extra);
      SoundFacts(loan);
      EarlierAndMoreIsCheaper(loan.principal, loan.annualRatePct, LoanEmi(loan), Lump(month, extra), map[]);
    } else {
      AbandonedRows(loan, extra, month);
    }
  }

  lemma SoundFacts(loan: Loan)
    requires Sound(loan)
    ensures loan.principal > 0 ==> LoanEmi(loan) > Interest(loan.principal, MonthlyRate(loan.annualRatePct))
  {
  }

  /** A larger lump sum, or the same one earlier, saves at least as much interest and tenure. */
  lemma ImpactIsMonotone(loan: Loan, e1: int, m1: int, e2: int, m2: int)
    requires loan.annualRatePct >= 0.0 && e1 >= e2 && m1 <= m2
    ensures ImpactOf(loan, e1, m1).interestSaved >= ImpactOf(loan, e2, m2).interestSaved
    ensures ImpactOf(loan, e1, m1).tenureReduced >= ImpactOf(loan, e2, m2).tenureReduced
  {
    hide Interest, PrepayRows, MonthlyRate, LoanEmi, Sound;
    var k1, k2 := if m1 < 1 then 1 else m1, if m2 < 1 then 1 else m2;
    if Sound(loan) {
      LumpAhead(k1, e1, k2, e2);
      SoundFacts(loan);
      EarlierAndMoreIsCheaper(loan.principal, loan.annualRatePct, LoanEmi(loan), Lump(k1, e1), Lump(k2, e2));
    } else {
      AbandonedRows(loan, e1, k1);
      AbandonedRows(loan, e2, k2);
    }
  }

  /** An input on which they fire: the baseline has no month, paying the loan off takes one. */
  lemma ClampsFire()
    ensures var loan := Loan(100000, 120.0, 12, 10000);
      Rescues(loan, 100000, 1) && ImpactOf(loan, 100000, 1).tenureReduced == 0
      && ImpactOf(loan, 100000, 1).baselineMonths == 0 && ImpactOf(loan, 100000, 1).newMonths == 1
  {
    var loan := Loan(100000, 120.0, 12, 10000);
    hide PrepayRows;
    assert MonthlyRate(120.0) == 0.1;
    assert Interest(100000, 0.1) == 10000;
    PrepayUnfolds(100000, 0.1, 10000, Lump(1, 100000), 1);
    PrepayUnfolds(100000, 0.1, 10000, map[], 1);
  }
}
