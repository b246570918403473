/** Loan amortisation in whole paise (debt/amortisation.go). Rates are reals; only the
    rounding to paise that the source performs at each step is modelled. */
module Amortisation {
  import opened RealPower

  datatype Row = Row(month: int, interest: int, principal: int, balance: int)

  function MonthlyRate(annualRatePct: real): real {
    annualRatePct / 12.0 / 100.0
  }

  /** math.Round: to the nearest integer, halves away from zero. */
  function RoundPaise(x: real): int {
    if x >= 0.0 then (x + 0.5).Floor else -((-x + 0.5).Floor)
  }

  lemma RoundWithinHalf(x: real)
    ensures -0.5 <= RoundPaise(x) as real - x <= 0.5
    ensures x >= 0.0 ==> RoundPaise(x) >= 0
    ensures x <= 0.0 ==> RoundPaise(x) <= 0
  {
  }

  lemma RoundMonotone(x: real, y: real)
    requires x <= y
    ensures RoundPaise(x) <= RoundPaise(y)
  {
  }

  /** It is a twelfth of a hundredth. */
  lemma RateMeans(annualRatePct: real)
    ensures 1200.0 * MonthlyRate(annualRatePct) == annualRatePct
  {
  }

  /** Rounding is symmetric, moves with whole paise, and sends half a paisa up. */
  lemma RoundMeans(x: real, n: nat)
    ensures RoundPaise(-x) == -RoundPaise(x)
    ensures x >= 0.0 ==> RoundPaise(x + n as real) == RoundPaise(x) + n
    ensures RoundPaise(n as real + 0.5) == n + 1
    ensures RoundPaise(n as real) == n
  {
  }

  /** Interest of one month on a balance. */
  function Interest(balance: int, r: real): int {
    RoundPaise(balance as real * r)
  }

  lemma InterestMonotone(b1: int, b2: int, r: real)
    requires b1 <= b2 && r >= 0.0
    ensures Interest(b1, r) <= Interest(b2, r)
    ensures b1 >= 0 ==> Interest(b1, r) >= 0
  {
    hide Interest, RoundPaise;
    var x1, x2 := b1 as real * r, b2 as real * r;
    InterestRounds(b1, r, x1);
    InterestRounds(b2, r, x2);
    ScaledOrder(b1 as real, b2 as real, r);
    RoundMonotone(x1, x2);
    if b1 >= 0 {
      ScaledOrder(0.0, b1 as real, r);
    }
    RoundWithinHalf(x1);
  }

  lemma InterestRounds(balance: int, r: real, charge: real)
    requires charge == balance as real * r
    ensures Interest(balance, r) == RoundPaise(charge)
  {
  }

  lemma ScaledOrder(x: real, y: real, r: real)
    requires x <= y && r >= 0.0
    ensures x * r <= y * r
  {
    assert (y - x) * r >= 0.0;
  }

  /** The unrounded level instalment. Where the source divides by zero it gets an infinity,
      which roundPaise turns into 0. */
  function ExactEMI(principal: int, r: real, months: nat): real
    requires months > 0
  {
    var pow := Pow(1.0 + r, months);
    if r == 0.0 then principal as real / months as real
    else if pow == 1.0 then 0.0
    else principal as real * r * pow / (pow - 1.0)
  }

  function EMI(principal: int, annualRatePct: real, months: int): int {
    if months <= 0 || principal <= 0 then 0
    else RoundPaise(ExactEMI(principal, MonthlyRate(annualRatePct), months))
  }

  /** The instalment is the exact one to half a paisa. */
  lemma EMINearExact(principal: int, annualRatePct: real, months: nat)
    requires principal > 0 && months > 0
    ensures -0.5 <= EMI(principal, annualRatePct, months) as real - ExactEMI(principal, MonthlyRate(annualRatePct), months) <= 0.5
  {
    RoundWithinHalf(ExactEMI(principal, MonthlyRate(annualRatePct), months));
  }

  // ---------------------------------------------------------------- the schedule

  /** What Schedule does from month k on. */
  function Rows(balance: int, r: real, emi: int, k: int, months: int): seq<Row>
    decreases months - k
  {
    if k > months || balance <= 0 then []
    else
      var interest := Interest(balance, r);
      var principal := if k == months || emi - interest >= balance then balance else emi - interest;
      [Row(k, interest, principal, balance - principal)] + Rows(balance - principal, r, emi, k + 1, months)
  }

  /** The value of Schedule; nil is the empty sequence. */
  function ScheduleOf(principal: int, annualRatePct: real, months: int): seq<Row> {
    var r, emi := MonthlyRate(annualRatePct), EMI(principal, annualRatePct, months);
    if months <= 0 || principal <= 0 || emi <= 0 || (r > 0.0 && emi <= Interest(principal, r)) then []
    else Rows(principal, r, emi, 1, months)
  }

  method Schedule(principal: int, annualRatePct: real, months: int) returns (rows: seq<Row>)
    ensures rows == ScheduleOf(principal, annualRatePct, months)
  {
    hide RoundPaise, Interest, EMI;
    if months <= 0 || principal <= 0 {
      return [];
    }
    var emi := EMI(principal, annualRatePct, months);
    if emi <= 0 {
      return [];
    }
    var r := MonthlyRate(annualRatePct);
    if r > 0.0 {
      var firstInterest := Interest(principal, r);
      if emi <= firstInterest {
        return [];
      }
    }
    rows := [];
    var balance := principal;
    var k := 1;
    while k <= months && balance > 0
      invariant 1 <= k
      invariant rows + Rows(balance, r, emi, k, months) == Rows(principal, r, emi, 1, months)
      decreases months - k
    {
      var interest := Interest(balance, r);
      var repaid := emi - interest;
      if k == months || repaid >= balance {
        repaid := balance;
        interest := Interest(balance, r);
      }
      ghost var rest := Rows(balance - repaid, r, emi, k + 1, months);
      assert rows + ([Row(k, interest, repaid, balance - repaid)] + rest)
          == (rows + [Row(k, interest, repaid, balance - repaid)]) + rest;
      balance := balance - repaid;
      rows := rows + [Row(k, interest, repaid, balance)];
      k := k + 1;
    }
    assert Rows(balance, r, emi, k, months) == [];
  }

  function InterestSum(rows: seq<Row>): int {
    if rows == [] then 0 else rows[0].interest + InterestSum(rows[1..])
  }

  function PrincipalSum(rows: seq<Row>): int {
    if rows == [] then 0 else rows[0].principal + PrincipalSum(rows[1..])
  }

  lemma {:induction false} SumsSnoc(rows: seq<Row>, row: Row)
    ensures InterestSum(rows + [row]) == InterestSum(rows) + row.interest
    ensures PrincipalSum(rows + [row]) == PrincipalSum(rows) + row.principal
  {
    if rows == [] {
      assert [] + [row] == [row];
    } else {
      assert (rows + [row])[1..] == rows[1..] + [row];
      SumsSnoc(rows[1..], row);
    }
  }

  method TotalInterest(rows: seq<Row>) returns (total: int)
    ensures total == InterestSum(rows)
  {
    total := 0;
    for i := 0 to |rows|
      invariant total == InterestSum(rows[..i])
    {
      SumsSnoc(rows[..i], rows[i]);
      assert rows[..i + 1] == rows[..i] + [rows[i]];
      total := total + rows[i].interest;
    }
    assert rows[..|rows|] == rows;
  }

  method TotalPrincipal(rows: seq<Row>) returns (total: int)
    ensures total == PrincipalSum(rows)
  {
    total := 0;
    for i := 0 to |rows|
      invariant total == PrincipalSum(rows[..i])
    {
      SumsSnoc(rows[..i], rows[i]);
      assert rows[..i + 1] == rows[..i] + [rows[i]];
      total := total + rows[i].principal;
    }
    assert rows[..|rows|] == rows;
  }

  // ---------------------------------------------------------------- shape of a schedule

  /** The outstanding balance before row i. */
  function Before(principal: int, rows: seq<Row>, i: nat): int
    requires i <= |rows|
  {
    if i == 0 then principal else rows[i - 1].balance
  }

  /** Row i charges the rounded interest on what is owed, never more than the row before, and
      repays some principal; it pays exactly `emi` unless it is the last. */
  ghost predicate RowRepays(rows: seq<Row>, principal: int, r: real, emi: int, k: int, i: nat)
    requires i < |rows|
  {
    && rows[i].month == k + i
    && rows[i].interest == Interest(Before(principal, rows, i), r)
    && rows[i].principal == Before(principal, rows, i) - rows[i].balance
    && 0 <= rows[i].balance < Before(principal, rows, i)
    && (i > 0 ==> rows[i].interest <= rows[i - 1].interest)
    && (i < |rows| - 1 ==> rows[i].interest + rows[i].principal == emi)
  }

  /** A schedule that repays `principal` to the last paisa. */
  ghost predicate Repays(rows: seq<Row>, principal: int, r: real, emi: int, k: int) {
    && |rows| > 0
    && (forall i :: 0 <= i < |rows| ==> RowRepays(rows, principal, r, emi, k, i))
    && rows[|rows| - 1].balance == 0
    && PrincipalSum(rows) == principal
  }

  lemma {:induction false} RowsRepay(balance: int, r: real, emi: int, k: int, months: int)
    requires balance > 0 && r >= 0.0 && emi > Interest(balance, r) && k <= months
    ensures Repays(Rows(balance, r, emi, k, months), balance, r, emi, k)
    ensures |Rows(balance, r, emi, k, months)| <= months - k + 1
    ensures var rows := Rows(balance, r, emi, k, months);
      |rows| < months - k + 1 ==> rows[|rows| - 1].interest + rows[|rows| - 1].principal <= emi
    decreases months - k
  {
    hide RoundPaise, Interest;
    var rows := Rows(balance, r, emi, k, months);
    var row, rest := rows[0], Rows(rows[0].balance, r, emi, k + 1, months);
    assert rows == [row] + rest && rows[1..] == rest;
    if row.balance > 0 {
      InterestMonotone(row.balance, balance, r);
      RowsRepay(row.balance, r, emi, k + 1, months);
      ConsRepays(row, rest, balance, r, emi, k);
    } else {
      assert rest == [] && PrincipalSum(rest) == 0;
      assert RowRepays(rows, balance, r, emi, k, 0);
    }
  }

  lemma ConsRepays(row: Row, rest: seq<Row>, balance: int, r: real, emi: int, k: int)
    requires Repays(rest, row.balance, r, emi, k + 1)
    requires row == Row(k, Interest(balance, r), balance - row.balance, row.balance)
    requires 0 <= row.balance < balance && row.interest + row.principal == emi
    requires Interest(row.balance, r) <= Interest(balance, r)
    ensures Repays([row] + rest, balance, r, emi, k)
  {
    hide RoundPaise, Interest;
    var rows := [row] + rest;
    assert rows[1..] == rest;
    forall i | 0 <= i < |rows|
      ensures RowRepays(rows, balance, r, emi, k, i)
    {
      if i > 0 {
        assert RowRepays(rest, row.balance, r, emi, k + 1, i - 1);
      }
      if i == 1 {
        assert rest[0].interest == Interest(row.balance, r);
      }
    }
  }

  /** A schedule that is not nil has at most `months` rows and repays the loan exactly. */
  lemma ScheduleRepays(principal: int, annualRatePct: real, months: int)
    requires annualRatePct >= 0.0
    ensures var rows := ScheduleOf(principal, annualRatePct, months);
      rows != [] ==>
        && |rows| <= months
        && Repays(rows, principal, MonthlyRate(annualRatePct), EMI(principal, annualRatePct, months), 1)
  {
    if ScheduleOf(principal, annualRatePct, months) != [] {
      RowsRepay(principal, MonthlyRate(annualRatePct), EMI(principal, annualRatePct, months), 1, months);
    }
  }

  // ---------------------------------------------------------------- when there is a schedule

  /** At rates that are not negative a schedule is nil exactly when the term, the loan or the EMI is
      not positive, or the EMI does not exceed the first month's rounded interest. */
  lemma ScheduleNilExactly(principal: int, annualRatePct: real, months: int)
    requires annualRatePct >= 0.0
    ensures ScheduleOf(principal, annualRatePct, months) == [] <==>
      || months <= 0 || principal <= 0 || EMI(principal, annualRatePct, months) <= 0
      || (annualRatePct > 0.0 && EMI(principal, annualRatePct, months) <= RoundPaise(principal as real * annualRatePct / 1200.0))
  {
    hide RoundPaise, EMI, Rows, Interest;
    var r, emi := MonthlyRate(annualRatePct), EMI(principal, annualRatePct, months);
    var charge := principal as real * annualRatePct / 1200.0;
    ChargeMeans(principal as real, annualRatePct);
    InterestRounds(principal, r, charge);
    if months > 0 && principal > 0 {
      RowsExist(principal, r, emi, 1, months);
    }
  }

  lemma ChargeMeans(p: real, annualRatePct: real)
    ensures p * MonthlyRate(annualRatePct) == p * annualRatePct / 1200.0
  {
    var r := annualRatePct / 1200.0;
    assert MonthlyRate(annualRatePct) == r;
    var x := p * annualRatePct;
    assert p * (r * 1200.0) == (p * r) * 1200.0;
  }

  /** The exact EMI exceeds the exact first interest by what, paid monthly, grows to the principal. */
  lemma ExactEMIExceeds(principal: int, r: real, months: nat)
    requires principal > 0 && r >= 0.0 && months > 0
    ensures Growth(r, months) > 0.0
    ensures (ExactEMI(principal, r, months) - principal as real * r) * Growth(r, months) == principal as real
  {
    hide ExactEMI, Pow, Growth;
    var p, e, w, g := principal as real, ExactEMI(principal, r, months), Pow(1.0 + r, months), Growth(r, months);
    ExactBalanceEndsAtZero(principal, r, months);
    GrowthClosedForm(r, months);
    GrowthClosedForm(r, months - 1);
    GrowthStep(r, Growth(r, months - 1));
    GrowthNext(r, months - 1);
    assert p * w - e * g == 0.0;
    Excess(p, e, w, g, r);
  }

  lemma Excess(p: real, e: real, w: real, g: real, r: real)
    requires e * g == p * w && r * g == w - 1.0
    ensures (e - p * r) * g == p
  {
    var x := p * r;
    assert x * g == p * (r * g);
    assert p * (w - 1.0) == p * w - p;
    assert (e - x) * g == e * g - x * g;
  }

  /** A loan that is at least what one paisa a month grows to over its term has a schedule, whatever
      its rate. */
  lemma ScheduleExists(principal: int, annualRatePct: real, months: nat)
    requires annualRatePct >= 0.0 && months > 0 && principal > 0
    requires principal as real >= Growth(MonthlyRate(annualRatePct), months)
    ensures ScheduleOf(principal, annualRatePct, months) != []
  {
    hide RoundPaise, ExactEMI, Growth;
    var r := MonthlyRate(annualRatePct);
    var x, e, g := principal as real * r, ExactEMI(principal, r, months), Growth(r, months);
    ExactEMIExceeds(principal, r, months);
    AtLeastOne(e - x, g, principal as real);
    InterestMonotone(0, principal, r);
    InterestRounds(principal, r, x);
    RoundMonotone(x + 1.0, e);
    RateNonNegative(principal as real, r);
    RoundMeans(x, 1);
    assert EMI(principal, annualRatePct, months) == RoundPaise(e);
    var rows := Rows(principal, r, EMI(principal, annualRatePct, months), 1, months);
    assert |rows| > 0;
  }

  lemma AtLeastOne(d: real, g: real, p: real)
    requires g > 0.0 && d * g == p && p >= g
    ensures d >= 1.0
  {
    var x := 1.0 - d;
    assert x * g == g - p;
    assert x > 0.0 ==> x * g > 0.0;
  }

  lemma RateNonNegative(p: real, r: real)
    requires p >= 0.0 && r >= 0.0
    ensures p * r >= 0.0
  {
  }

  /** Without interest the condition is exact: half a paisa a month. */
  lemma InterestFreeExactly(principal: int, months: nat)
    requires principal > 0 && months > 0
    ensures ScheduleOf(principal, 0.0, months) != [] <==> 2 * principal >= months
  {
    hide Rows;
    var x := principal as real / months as real;
    assert MonthlyRate(0.0) == 0.0;
    assert x * months as real == principal as real;
    assert EMI(principal, 0.0, months) == RoundPaise(x);
    HalfReached(x, principal, months);
    assert RoundPaise(x) > 0 <==> x >= 0.5;
    RowsExist(principal, 0.0, EMI(principal, 0.0, months), 1, months);
  }

  lemma RowsExist(balance: int, r: real, emi: int, k: int, months: int)
    requires balance > 0 && k <= months
    ensures Rows(balance, r, emi, k, months) != []
  {
  }

  lemma HalfReached(x: real, p: int, n: nat)
    requires n > 0 && x * n as real == p as real
    ensures x >= 0.5 <==> 2 * p >= n
  {
    var d := x - 0.5;
    assert d * n as real == p as real - n as real / 2.0;
    assert d >= 0.0 ==> d * n as real >= 0.0;
    assert d < 0.0 ==> d * n as real < 0.0;
  }

  // ---------------------------------------------------------------- rounding drift

  /** What one paisa paid every month grows to after k months. */
  function Growth(r: real, k: nat): real {
    if k == 0 then 0.0 else (1.0 + r) * Growth(r, k - 1) + 1.0
  }

  lemma {:induction false} GrowthClosedForm(r: real, k: nat)
    ensures r * Growth(r, k) == Pow(1.0 + r, k) - 1.0
    ensures r == 0.0 ==> Growth(r, k) == k as real
    ensures r >= 0.0 ==> Growth(r, k) >= 0.0
  {
    if k > 0 {
      GrowthClosedForm(r, k - 1);
      GrowthStep(r, Growth(r, k - 1));
    }
  }

  lemma GrowthStep(r: real, g: real)
    ensures r * ((1.0 + r) * g + 1.0) == (1.0 + r) * (r * g) + r
    ensures r >= 0.0 && g >= 0.0 ==> (1.0 + r) * g >= 0.0
  {
  }

  /** The unrounded balance after k instalments of the unrounded EMI. */
  function ExactBalance(principal: int, e: real, r: real, k: nat): real {
    principal as real * Pow(1.0 + r, k) - e * Growth(r, k)
  }

  lemma ExactBalanceStep(principal: int, e: real, r: real, k: nat)
    ensures ExactBalance(principal, e, r, k + 1) == (1.0 + r) * ExactBalance(principal, e, r, k) - e
  {
    var p, w, g := principal as real, Pow(1.0 + r, k), Growth(r, k);
    assert p * ((1.0 + r) * w) == (1.0 + r) * (p * w);
    assert e * ((1.0 + r) * g + 1.0) == (1.0 + r) * (e * g) + e;
    assert (1.0 + r) * (p * w - e * g) == (1.0 + r) * (p * w) - (1.0 + r) * (e * g);
  }

  /** The unrounded EMI clears the unrounded loan exactly at the last month. */
  lemma ExactBalanceEndsAtZero(principal: int, r: real, months: nat)
    requires months > 0 && r >= 0.0 && principal > 0
    ensures ExactBalance(principal, ExactEMI(principal, r, months), r, months) == 0.0
    ensures ExactEMI(principal, r, months) > 0.0
  {
    var p, e, w, g := principal as real, ExactEMI(principal, r, months), Pow(1.0 + r, months), Growth(r, months);
    GrowthClosedForm(r, months);
    PowAtLeastOne(1.0 + r, months);
    if r == 0.0 {
      assert e * months as real == p;
      PowOfOne(months);
    } else {
      assert e * (w - 1.0) == p * r * w;
      assert e * (r * g) == r * (e * g);
      assert r * (e * g) == r * (p * w);
      CancelFactor(r, e * g, p * w);
      assert p * r * w > 0.0;
    }
  }

  lemma {:induction false} PowOfOne(k: nat)
    ensures Pow(1.0, k) == 1.0
  {
    if k > 0 {
      PowOfOne(k - 1);
    }
  }

  lemma CancelFactor(r: real, x: real, y: real)
    requires r != 0.0 && r * x == r * y
    ensures x == y
  {
    assert r * (x - y) == 0.0;
  }

  /** ... and is not negative before. */
  lemma {:induction false} ExactBalanceNonNegative(principal: int, r: real, months: nat, k: nat)
    requires k <= months && months > 0 && r >= 0.0 && principal > 0
    ensures ExactBalance(principal, ExactEMI(principal, r, months), r, k) >= 0.0
    decreases months - k
  {
    var e := ExactEMI(principal, r, months);
    ExactBalanceEndsAtZero(principal, r, months);
    if k < months {
      ExactBalanceNonNegative(principal, r, months, k + 1);
      ExactBalanceStep(principal, e, r, k);
      var x := ExactBalance(principal, e, r, k);
      if x < 0.0 {
        assert (1.0 + r) * x < 0.0;
      }
    }
  }

  ghost predicate Within(x: real, y: real, bound: real) {
    -bound <= x - y <= bound
  }

  /** One month: an error d on the balance grows to at most (1 + r) d + 1, because interest and
      EMI are each rounded by at most half a paisa. */
  lemma DriftStep(balance: int, exact: real, r: real, emi: int, e: real, bound: real)
    requires r >= 0.0 && Within(balance as real, exact, bound) && Within(emi as real, e, 0.5)
    ensures Within((balance + Interest(balance, r) - emi) as real, (1.0 + r) * exact - e, (1.0 + r) * bound + 1.0)
  {
    hide RoundPaise;
    var b, i, f := balance as real, Interest(balance, r) as real, 1.0 + r;
    var charge, scaled, scaledExact, scaledBound := b * r, f * b, f * exact, f * bound;
    InterestNear(balance, r);
    assert Within(scaled, scaledExact, scaledBound) by {
      ScaleWithin(b, exact, bound, f);
    }
    assert scaled == b + charge by {
      Distribute(b, r);
    }
    SumWithin(b, charge, scaled, i, emi as real, e, scaledExact, scaledBound);
  }

  lemma InterestNear(balance: int, r: real)
    ensures Within(Interest(balance, r) as real, balance as real * r, 0.5)
  {
    RoundWithinHalf(balance as real * r);
  }

  lemma Distribute(b: real, r: real)
    ensures (1.0 + r) * b == b + b * r
  {
  }

  lemma SumWithin(b: real, charge: real, scaled: real, i: real, emi: real, e: real, exact: real, bound: real)
    requires scaled == b + charge && Within(scaled, exact, bound) && Within(i, charge, 0.5) && Within(emi, e, 0.5)
    ensures Within(b + i - emi, exact - e, bound + 1.0)
  {
  }

  lemma ScaleWithin(x: real, y: real, bound: real, factor: real)
    requires Within(x, y, bound) && factor >= 0.0
    ensures Within(factor * x, factor * y, factor * bound)
  {
    assert 0.0 <= factor * (x - y + bound) == factor * x - factor * y + factor * bound;
    assert 0.0 <= factor * (bound - (x - y)) == factor * bound - (factor * x - factor * y);
  }

  /** The balance that row i would leave if it paid exactly `emi`. */
  function Unadjusted(principal: int, rows: seq<Row>, emi: int, i: nat): int
    requires i < |rows|
  {
    Before(principal, rows, i) + rows[i].interest - emi
  }

  lemma {:induction false} RowsDrift(rows: seq<Row>, principal: int, r: real, emi: int, e: real, i: nat)
    requires r >= 0.0 && Repays(rows, principal, r, emi, 1) && Within(emi as real, e, 0.5) && i < |rows|
    ensures Within(Unadjusted(principal, rows, emi, i) as real, ExactBalance(principal, e, r, i + 1), Growth(r, i + 1))
  {
    hide RoundPaise, Interest, ExactBalance, Growth, Repays;
    var before := Before(principal, rows, i);
    RowOf(rows, principal, r, emi, i);
    ExactBalanceStep(principal, e, r, i);
    if i == 0 {
      ExactBalanceStart(principal, e, r, i);
    } else {
      RowsDrift(rows, principal, r, emi, e, i - 1);
      RowOf(rows, principal, r, emi, i - 1);
      assert before == Unadjusted(principal, rows, emi, i - 1);
    }
    DriftStep(before, ExactBalance(principal, e, r, i), r, emi, e, Growth(r, i));
    GrowthNext(r, i);
  }

  lemma RowOf(rows: seq<Row>, principal: int, r: real, emi: int, i: nat)
    requires Repays(rows, principal, r, emi, 1) && i < |rows|
    ensures RowRepays(rows, principal, r, emi, 1, i)
  {
  }

  lemma GrowthNext(r: real, i: nat)
    ensures Growth(r, i + 1) == (1.0 + r) * Growth(r, i) + 1.0
  {
  }

  lemma ExactBalanceStart(principal: int, e: real, r: real, k: nat)
    requires k == 0
    ensures Within(principal as real, ExactBalance(principal, e, r, k), Growth(r, k))
  {
    var p, w, g := principal as real, Pow(1.0 + r, k), Growth(r, k);
    assert w == 1.0 && g == 0.0;
    assert p * w == p && e * g == 0.0;
    assert ExactBalance(principal, e, r, k) == p * w - e * g == p;
  }

  lemma InterestFree(balance: int, r: real)
    ensures r == 0.0 ==> Interest(balance, r) == 0
  {
  }

  /** While the schedule is running its balance after m months is within Growth(r, m) paise of
      the exact one, and the last instalment differs from the EMI by no more than that. */
  lemma ScheduleDrift(principal: int, annualRatePct: real, months: int, i: nat)
    requires annualRatePct >= 0.0 && i < |ScheduleOf(principal, annualRatePct, months)|
    ensures var rows, r := ScheduleOf(principal, annualRatePct, months), MonthlyRate(annualRatePct);
      && (i < |rows| - 1 ==>
            Within(rows[i].balance as real, ExactBalance(principal, ExactEMI(principal, r, months), r, i + 1), Growth(r, i + 1)))
      && (i == |rows| - 1 ==>
            Within((rows[i].interest + rows[i].principal) as real, EMI(principal, annualRatePct, months) as real, Growth(r, |rows|)))
  {
    hide RoundPaise, Interest, ExactBalance, Growth, ExactEMI, Rows;
    var rows, r := ScheduleOf(principal, annualRatePct, months), MonthlyRate(annualRatePct);
    var emi, e := EMI(principal, annualRatePct, months), ExactEMI(principal, r, months);
    ScheduleRepays(principal, annualRatePct, months);
    RoundWithinHalf(e);
    RowsDrift(rows, principal, r, emi, e, i);
    assert RowRepays(rows, principal, r, emi, 1, i);
    if i == |rows| - 1 {
      InterestFree(principal, r);
      RowsRepay(principal, r, emi, 1, months);
      ExactBalanceNonNegative(principal, r, months, i + 1);
      ExactBalanceEndsAtZero(principal, r, months);
    }
  }
}
