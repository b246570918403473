/** How spread a portfolio is, scored 0 to 100 (healthscore/derive.go). Values are whole paise. */
module Diversification {

  datatype Category = Category(name: string)

  datatype Holding = Holding(category: string, value: int)

  /** A holding without a category belongs to "other". */
  function ClassOf(h: Holding): Category {
    Category(if h.category == "" then "other" else h.category)
  }

  // ---------------------------------------------------------------- sums over classes

  ghost function Sum(m: map<Category, int>): int
    decreases |m|
  {
    if m == map[] then 0 else var k :| k in m; m[k] + Sum(m - {k})
  }

  function Squares(m: map<Category, int>): map<Category, int> {
    map k | k in m :: m[k] * m[k]
  }

  lemma {:induction false} SumPick(m: map<Category, int>, k: Category)
    requires k in m
    ensures Sum(m) == m[k] + Sum(m - {k})
    decreases |m|
  {
    var j :| j in m && Sum(m) == m[j] + Sum(m - {j});
    if j != k {
      SumPick(m - {j}, k);
      assert m - {j} - {k} == m - {k} - {j};
      SumPick(m - {k}, j);
    }
  }

  lemma SumPut(m: map<Category, int>, k: Category, v: int)
    ensures Sum(m[k := v]) == Sum(m) + v - (if k in m then m[k] else 0)
  {
    var n := m[k := v];
    SumPick(n, k);
    assert n - {k} == m - {k};
    if k in m {
      SumPick(m, k);
    } else {
      assert m - {k} == m;
    }
  }

  lemma SquaresPick(m: map<Category, int>, k: Category)
    requires k in m
    ensures Sum(Squares(m)) == m[k] * m[k] + Sum(Squares(m - {k}))
  {
    SumPick(Squares(m), k);
    assert Squares(m) - {k} == Squares(m - {k});
  }

  function Deviations(m: map<Category, int>, a: int, s: int): map<Category, int> {
    map k | k in m :: (a * m[k] - s) * (a * m[k] - s)
  }

  function Expanded(a: int, s: int, squares: int, sum: int, n: int): int {
    a * a * squares - 2 * (a * s) * sum + s * s * n
  }

  lemma {:induction false} DeviationsExpand(m: map<Category, int>, a: int, s: int)
    ensures Sum(Deviations(m, a, s)) == Expanded(a, s, Sum(Squares(m)), Sum(m), |m|)
    decreases |m|
  {
    hide Sum, Squares, Expanded, Deviations;
    if m == map[] {
      ExpandStart(a, s);
    } else {
      var k :| k in m;
      var rest := m - {k};
      assert |m| == |rest| + 1 by { assert m.Keys == rest.Keys + {k}; }
      DeviationsExpand(rest, a, s);
      SumPick(m, k);
      SquaresPick(m, k);
      DeviationsPick(m, k, a, s);
      ExpandStep(a, s, m[k], Sum(Squares(rest)), Sum(rest), |rest|);
    }
  }

  lemma DeviationsPick(m: map<Category, int>, k: Category, a: int, s: int)
    requires k in m
    ensures Sum(Deviations(m, a, s)) == (a * m[k] - s) * (a * m[k] - s) + Sum(Deviations(m - {k}, a, s))
  {
    hide Sum;
    SumPick(Deviations(m, a, s), k);
    assert Deviations(m, a, s) - {k} == Deviations(m - {k}, a, s);
  }

  lemma ExpandStart(a: int, s: int)
    ensures Sum(Deviations(map[], a, s)) == Expanded(a, s, Sum(Squares(map[])), Sum(map[]), 0)
  {
    SumEmpty();
    assert Deviations(map[], a, s) == map[];
  }

  lemma ExpandStep(a: int, s: int, v: int, q: int, t: int, n: int)
    ensures (a * v - s) * (a * v - s) + Expanded(a, s, q, t, n) == Expanded(a, s, v * v + q, v + t, n + 1)
  {
    assert (a * v - s) * (a * v - s) == a * a * (v * v) - 2 * (a * s) * v + s * s;
    assert a * a * (v * v + q) == a * a * (v * v) + a * a * q;
    assert 2 * (a * s) * (v + t) == 2 * (a * s) * v + 2 * (a * s) * t;
    assert s * s * (n + 1) == s * s * n + s * s;
  }

  /** A sum of non-negative terms is zero exactly when each term is. */
  lemma {:induction false} SumZero(m: map<Category, int>)
    requires forall k :: k in m ==> m[k] >= 0
    ensures Sum(m) >= 0
    ensures Sum(m) == 0 <==> forall k :: k in m ==> m[k] == 0
    decreases |m|
  {
    if m != map[] {
      var k :| k in m;
      SumPick(m, k);
      SumZero(m - {k});
      assert forall j :: j in m ==> j == k || j in m - {k};
    }
  }

  ghost predicate AllEqual(m: map<Category, int>) {
    forall j, k :: j in m && k in m ==> m[j] == m[k]
  }

  ghost predicate AllPositive(m: map<Category, int>) {
    forall k :: k in m ==> m[k] > 0
  }

  lemma {:induction false} SumEqual(m: map<Category, int>, v: int)
    requires forall k :: k in m ==> m[k] == v
    ensures Sum(m) == |m| * v
    decreases |m|
  {
    hide Sum;
    if m == map[] {
      SumEmpty();
    } else {
      var k :| k in m;
      SumPick(m, k);
      SumEqual(m - {k}, v);
      var n := |m - {k}|;
      assert |m| == n + 1 by { assert m.Keys == (m - {k}).Keys + {k}; }
      assert (n + 1) * v == n * v + v;
    }
  }

  lemma DeviationsZero(m: map<Category, int>, n: int, s: int)
    ensures Sum(Deviations(m, n, s)) >= 0
    ensures Sum(Deviations(m, n, s)) == 0 <==> forall k :: k in m ==> n * m[k] == s
  {
    hide Sum;
    var dev := Deviations(m, n, s);
    forall k | k in m ensures k in dev && dev[k] >= 0 && (dev[k] == 0 <==> n * m[k] == s) {
      SquareSign(n * m[k] - s);
    }
    SumZero(dev);
  }

  /** The terms all are the n-th part of the sum exactly when they are equal. */
  lemma SharesEqual(m: map<Category, int>)
    requires m != map[]
    ensures (forall k :: k in m ==> |m| * m[k] == Sum(m)) <==> AllEqual(m)
  {
    hide Sum;
    if AllEqual(m) {
      var k :| k in m;
      SumEqual(m, m[k]);
    } else {
      var j, k :| j in m && k in m && m[j] != m[k];
      DifferentMultiples(|m|, m[j], m[k]);
    }
  }

  /** Cauchy-Schwarz: n times the sum of squares is at least the square of the sum, with equality
      exactly for equal terms. */
  lemma CauchySchwarz(m: map<Category, int>)
    requires m != map[]
    ensures |m| * Sum(Squares(m)) >= Sum(m) * Sum(m)
    ensures |m| * Sum(Squares(m)) == Sum(m) * Sum(m) <==> AllEqual(m)
  {
    hide Sum, Squares, Deviations, AllEqual, Expanded;
    DeviationsExpand(m, |m|, Sum(m));
    DeviationsZero(m, |m|, Sum(m));
    SharesEqual(m);
    SignOfSpread(|m|, Sum(m), Sum(Squares(m)));
  }

  lemma SquareSign(x: int)
    ensures x * x >= 0 && (x * x == 0 <==> x == 0)
  {
  }

  lemma SignOfSpread(n: int, s: int, q: int)
    requires n > 0
    ensures Expanded(n, s, q, s, n) >= 0 <==> n * q >= s * s
    ensures Expanded(n, s, q, s, n) == 0 <==> n * q == s * s
  {
    var x := n * q - s * s;
    assert Expanded(n, s, q, s, n) == n * x by {
      assert n * n * q == n * (n * q) && (n * s) * s == n * (s * s) && s * s * n == n * (s * s);
    }
    assert x >= 0 ==> n * x >= 0;
    assert x < 0 ==> n * x < 0;
  }

  lemma DifferentMultiples(n: int, x: int, y: int)
    requires n > 0 && x != y
    ensures n * x != n * y
  {
    assert n * (x - y) != 0;
  }

  /** Two or more positive terms: the sum of squares stays below the square of the sum. */
  lemma {:induction false} SquaresBelow(m: map<Category, int>)
    requires AllPositive(m) && m != map[]
    ensures Sum(m) > 0 && 0 < Sum(Squares(m)) <= Sum(m) * Sum(m)
    ensures |m| > 1 ==> Sum(Squares(m)) < Sum(m) * Sum(m)
    decreases |m|
  {
    hide Sum, Squares;
    var k :| k in m;
    var rest := m - {k};
    SumPick(m, k);
    SquaresPick(m, k);
    assert |m| == |rest| + 1 by { assert m.Keys == rest.Keys + {k}; }
    if rest == map[] {
      SumEmpty();
    } else {
      SquaresBelow(rest);
    }
    SquareStep(m[k], Sum(rest), Sum(Squares(rest)));
  }

  lemma SumEmpty()
    ensures Squares(map[]) == map[] && Sum(map[]) == 0
  {
  }

  lemma SquareStep(v: int, t: int, q: int)
    requires v > 0 && t >= 0 && 0 <= q <= t * t
    ensures 0 < v * v + q <= (v + t) * (v + t)
    ensures t > 0 ==> v * v + q < (v + t) * (v + t)
  {
    assert (v + t) * (v + t) == v * v + 2 * (v * t) + t * t;
    assert v * v > 0 && v * t >= 0;
    assert t > 0 ==> v * t > 0;
  }

  // ---------------------------------------------------------------- what is held

  /** The classes in which something of positive value is held. */
  ghost function Classes(hs: seq<Holding>): set<Category> {
    set h | h in hs && h.value > 0 :: ClassOf(h)
  }

  function ClassTotal(hs: seq<Holding>, k: Category): int {
    if hs == [] then 0
    else
      var h := hs[|hs| - 1];
      ClassTotal(hs[..|hs| - 1], k) + if h.value > 0 && ClassOf(h) == k then h.value else 0
  }

  ghost function Totals(hs: seq<Holding>): map<Category, int> {
    map k | k in Classes(hs) :: ClassTotal(hs, k)
  }

  lemma ClassesExtend(hs: seq<Holding>, h: Holding)
    ensures Classes(hs + [h]) == Classes(hs) + if h.value > 0 then {ClassOf(h)} else {}
  {
    hide ClassOf;
    var all := hs + [h];
    forall k | k in Classes(hs) ensures k in Classes(all) {
      var x :| x in hs && x.value > 0 && ClassOf(x) == k;
      assert x in all;
    }
    assert h in all;
  }

  lemma ClassTotalExtend(hs: seq<Holding>, h: Holding, k: Category)
    ensures ClassTotal(hs + [h], k) == ClassTotal(hs, k) + if h.value > 0 && ClassOf(h) == k then h.value else 0
  {
    assert (hs + [h])[..|hs|] == hs;
  }

  lemma TotalsExtend(hs: seq<Holding>, h: Holding)
    ensures var k, m := ClassOf(h), Totals(hs);
      Totals(hs + [h]) == if h.value <= 0 then m else m[k := (if k in m then m[k] else 0) + h.value]
  {
    hide ClassOf, ClassTotal, Classes;
    ClassesExtend(hs, h);
    forall k ensures ClassTotal(hs + [h], k) == ClassTotal(hs, k) + if h.value > 0 && ClassOf(h) == k then h.value else 0 {
      ClassTotalExtend(hs, h, k);
    }
    if ClassOf(h) !in Classes(hs) {
      NothingHeld(hs, ClassOf(h));
    }
  }

  lemma {:induction false} NothingHeld(hs: seq<Holding>, k: Category)
    requires k !in Classes(hs)
    ensures ClassTotal(hs, k) == 0
  {
    if hs != [] {
      var front := hs[..|hs| - 1];
      assert forall h :: h in front ==> h in hs;
      assert hs[|hs| - 1] in hs;
      NothingHeld(front, k);
    }
  }

  lemma {:induction false} TotalsPositive(hs: seq<Holding>)
    ensures AllPositive(Totals(hs))
  {
    if hs != [] {
      var front := hs[..|hs| - 1];
      TotalsPositive(front);
      assert front + [hs[|hs| - 1]] == hs;
      TotalsExtend(front, hs[|hs| - 1]);
    }
  }

  // ---------------------------------------------------------------- the score

  function Clamp(v: real, low: real, high: real): real {
    if v < low then low else if v > high then high else v
  }

  ghost function Herfindahl(m: map<Category, int>): real
    requires Sum(m) != 0
  {
    Sum(Squares(m)) as real / (Sum(m) * Sum(m)) as real
  }

  function Evenness(n: nat, hhi: real): real {
    if n > 1 then (1.0 - hhi) / (1.0 - 1.0 / n as real) else 0.0
  }

  function Breadth(n: nat): real {
    Clamp(n as real / 4.0, 0.0, 1.0)
  }

  ghost function Score(m: map<Category, int>): real {
    if Sum(m) <= 0 || m == map[] then 0.0
    else Clamp(100.0 * (0.6 * Breadth(|m|) + 0.4 * Evenness(|m|, Herfindahl(m))), 0.0, 100.0)
  }

  /** The index of n classes is at least 1/n, exactly 1/n when they are held in equal totals, and
      below 1 when there is more than one. */
  lemma HerfindahlRange(m: map<Category, int>)
    requires AllPositive(m) && m != map[]
    ensures Sum(m) > 0 && |m| > 0
    ensures 1.0 / |m| as real <= Herfindahl(m) <= 1.0
    ensures Herfindahl(m) == 1.0 / |m| as real <==> AllEqual(m)
    ensures |m| > 1 ==> Herfindahl(m) < 1.0
  {
    SquaresBelow(m);
    CauchySchwarz(m);
    Ratio(|m|, Sum(Squares(m)), Sum(m) * Sum(m));
  }

  lemma Ratio(n: nat, q: int, d: int)
    requires n > 0 && d > 0
    ensures n * q >= d ==> q as real / d as real >= 1.0 / n as real
    ensures n * q == d <==> q as real / d as real == 1.0 / n as real
    ensures q <= d ==> q as real / d as real <= 1.0
    ensures q < d ==> q as real / d as real < 1.0
  {
    var x, y, z := q as real, d as real, n as real;
    var zx := z * x;
    assert (n * q) as real == zx;
    RealRatio(x, y, z);
  }

  lemma RealRatio(x: real, y: real, z: real)
    requires y > 0.0 && z > 0.0
    ensures z * x >= y <==> x / y >= 1.0 / z
    ensures z * x == y <==> x / y == 1.0 / z
    ensures x < y <==> x / y < 1.0
    ensures x == y <==> x / y == 1.0
  {
    var f, g := x / y, 1.0 / z;
    var h := y * g;
    assert y * f == x && z * g == 1.0;
    assert z * h == y by { assert z * h == y * (z * g); }
    ScaledOrder(f, g, y);
    ScaledOrder(x, h, z);
    ScaledOrder(f, 1.0, y);
  }

  /** Multiplying by a positive factor keeps the order. */
  lemma ScaledOrder(a: real, b: real, c: real)
    requires c > 0.0
    ensures a < b <==> c * a < c * b
    ensures a == b <==> c * a == c * b
  {
    assert c * b - c * a == c * (b - a);
    assert b - a > 0.0 ==> c * (b - a) > 0.0;
    assert b - a < 0.0 ==> c * (b - a) < 0.0;
  }

  /** With two classes or more evenness lies in (0, 1], and is 1 exactly for equal totals. */
  lemma EvennessRange(m: map<Category, int>)
    requires AllPositive(m) && |m| > 1
    ensures Sum(m) > 0
    ensures 0.0 < Evenness(|m|, Herfindahl(m)) <= 1.0
    ensures Evenness(|m|, Herfindahl(m)) == 1.0 <==> AllEqual(m)
  {
    hide Sum, Herfindahl, AllEqual, Evenness;
    HerfindahlRange(m);
    EvennessOf(|m|, Herfindahl(m));
  }

  lemma EvennessOf(n: nat, hhi: real)
    requires n > 1 && 1.0 / n as real <= hhi < 1.0
    ensures 0.0 < Evenness(n, hhi) <= 1.0
    ensures Evenness(n, hhi) == 1.0 <==> hhi == 1.0 / n as real
  {
    var a, b := 1.0 - hhi, 1.0 - 1.0 / n as real;
    var f := a / b;
    assert f * b == a;
    assert f <= 0.0 ==> f * b <= 0.0;
    assert f > 1.0 ==> (f - 1.0) * b > 0.0;
  }

  /** The outer clamp never fires: the score of a portfolio is its blend of breadth and evenness. */
  lemma OuterClampIdle(hs: seq<Holding>)
    requires Totals(hs) != map[]
    ensures var m := Totals(hs);
      && Sum(m) > 0
      && Score(m) == 100.0 * (0.6 * Breadth(|m|) + 0.4 * Evenness(|m|, Herfindahl(m)))
      && 15.0 <= Score(m) <= 100.0
  {
    var m := Totals(hs);
    TotalsPositive(hs);
    HerfindahlRange(m);
    if |m| > 1 {
      EvennessRange(m);
    }
    assert 0.25 <= Breadth(|m|) <= 1.0;
  }

  /** Full marks exactly for four classes or more held in equal totals. */
  lemma FullMarksIff(hs: seq<Holding>)
    ensures Score(Totals(hs)) == 100.0 <==> |Totals(hs)| >= 4 && AllEqual(Totals(hs))
  {
    var m := Totals(hs);
    TotalsPositive(hs);
    if m != map[] {
      OuterClampIdle(hs);
      if |m| > 1 {
        EvennessRange(m);
      }
    }
  }

  /** Any number of holdings in one class score 15, and nothing else does. */
  lemma OneClassIff(hs: seq<Holding>)
    ensures Score(Totals(hs)) == 15.0 <==> |Totals(hs)| == 1
  {
    var m := Totals(hs);
    TotalsPositive(hs);
    if m != map[] {
      OuterClampIdle(hs);
      if |m| > 1 {
        EvennessRange(m);
      }
    }
  }

  // ---------------------------------------------------------------- what scores look like

  /** Classes held in equal totals: 15 for one, 70, 85 and 100 for two, three and four, and no more for
      more. */
  lemma EqualTotalsScore(m: map<Category, int>)
    requires AllPositive(m) && m != map[] && AllEqual(m)
    ensures Score(m) == if |m| == 1 then 15.0 else if |m| == 2 then 70.0 else if |m| == 3 then 85.0 else 100.0
  {
    hide Sum, Herfindahl, AllEqual, Evenness, AllPositive;
    HerfindahlRange(m);
    if |m| > 1 {
      EvennessRange(m);
    } else {
      NoEvenness(Herfindahl(m));
    }
  }

  lemma NoEvenness(hhi: real)
    ensures Evenness(1, hhi) == 0.0
  {
  }

  /** Two classes with totals x and y: 30 for being two, and up to 40 for how even they are. */
  lemma TwoClassesScore(j: Category, k: Category, x: int, y: int)
    requires j != k && x > 0 && y > 0
    ensures Score(map[j := x, k := y]) == 30.0 + 160.0 * (x * y) as real / ((x + y) * (x + y)) as real
  {
    hide Sum, Squares, Evenness, Herfindahl, Clamp;
    var m := map[j := x, k := y];
    assert |m| == 2 by { assert m.Keys == {j, k}; }
    HerfindahlRange(m);
    EvennessRange(m);
    TwoHerfindahl(j, k, x, y);
    Spread(x, y);
    var e := Evenness(2, Herfindahl(m));
    ClampInside(100.0 * (0.6 * Breadth(2) + 0.4 * e));
    HalfBreadth();
    assert 40.0 * e == 40.0 * (4.0 * (x * y) as real / ((x + y) * (x + y)) as real);
    Regrouped((x * y) as real, ((x + y) * (x + y)) as real);
  }

  lemma TwoHerfindahl(j: Category, k: Category, x: int, y: int)
    requires j != k && x > 0 && y > 0
    ensures var m := map[j := x, k := y];
      Sum(m) == x + y && (x + y) * (x + y) > 0 && Herfindahl(m) == (x * x + y * y) as real / ((x + y) * (x + y)) as real
  {
    hide Sum;
    var m := map[j := x, k := y];
    SumOfTwo(j, k, x, y);
    assert Squares(m) == map[j := x * x, k := y * y];
    SumOfTwo(j, k, x * x, y * y);
  }

  lemma ClampInside(v: real)
    ensures 0.0 <= v <= 100.0 ==> Clamp(v, 0.0, 100.0) == v
  {
  }

  lemma HalfBreadth()
    ensures Breadth(2) == 0.5
  {
  }

  lemma Regrouped(p: real, t: real)
    requires t > 0.0
    ensures 40.0 * (4.0 * p / t) == 160.0 * p / t
  {
    var g := p / t;
    assert g * t == p;
    assert (4.0 * g) * t == 4.0 * p && (160.0 * g) * t == 160.0 * p;
    assert 4.0 * p / t == 4.0 * g && 160.0 * p / t == 160.0 * g;
  }

  lemma SumOfTwo(j: Category, k: Category, x: int, y: int)
    requires j != k
    ensures Sum(map[j := x, k := y]) == x + y
  {
    var m := map[j := x, k := y];
    SumPick(m, j);
    assert m - {j} == map[k := y];
    SumPick(map[k := y], k);
    assert map[k := y] - {k} == map[];
    SumEmpty();
  }

  lemma Spread(x: int, y: int)
    requires x > 0 && y > 0
    ensures var t := ((x + y) * (x + y)) as real;
      t > 0.0 && Evenness(2, (x * x + y * y) as real / t) == 4.0 * (x * y) as real / t
  {
    var t, q, p := (x + y) * (x + y), x * x + y * y, x * y;
    assert t == q + 2 * p;
    assert t > 0;
    var f, g := q as real / t as real, p as real / t as real;
    assert f * t as real == q as real && g * t as real == p as real;
    var d := 1.0 - f - 2.0 * g;
    assert d * t as real == 0.0;
    assert (1.0 - f) / (1.0 - 1.0 / 2.0) == 2.0 * (1.0 - f);
    assert 4.0 * p as real / t as real == 4.0 * g;
  }

  /** Moving value from a larger class to a smaller one, but not so much that they change places,
      raises the score. */
  lemma MovingRaisesScore(m: map<Category, int>, from: Category, to: Category, amount: int)
    requires AllPositive(m) && from in m && to in m && 0 < amount < m[from] - m[to]
    ensures Score(m[from := m[from] - amount][to := m[to] + amount]) > Score(m)
  {
    hide Sum, Squares, Evenness;
    var x, y := m[from], m[to];
    var m1 := m[from := x - amount];
    var m2 := m1[to := y + amount];
    SumPut(m, from, x - amount);
    SumPut(m1, to, y + amount);
    SquaresPut(m, from, x - amount);
    SquaresPut(m1, to, y + amount);
    MoveShrinks(x, y, amount);
    assert m2.Keys == m.Keys;
    assert |m2| == |m2.Keys| == |m|;
    assert |m| > 1 by { assert {from, to} <= m.Keys; TwoOf(m.Keys, from, to); }
    HerfindahlRange(m);
    HerfindahlRange(m2);
    EvennessRange(m);
    EvennessRange(m2);
    RatioOrder(Sum(Squares(m2)), Sum(Squares(m)), Sum(m) * Sum(m));
    EvennessFalls(|m|, Herfindahl(m2), Herfindahl(m));
  }

  lemma TwoOf(s: set<Category>, j: Category, k: Category)
    requires j in s && k in s && j != k
    ensures |s| > 1
  {
    assert |s - {j}| == |s| - 1 && k in s - {j};
  }

  lemma SquaresPut(m: map<Category, int>, k: Category, v: int)
    requires k in m
    ensures Sum(Squares(m[k := v])) == Sum(Squares(m)) + v * v - m[k] * m[k]
  {
    hide Sum;
    SumPut(Squares(m), k, v * v);
    assert Squares(m)[k := v * v] == Squares(m[k := v]);
  }

  lemma MoveShrinks(x: int, y: int, d: int)
    requires 0 < d < x - y
    ensures (x - d) * (x - d) + (y + d) * (y + d) < x * x + y * y
  {
    assert (x - d) * (x - d) + (y + d) * (y + d) == x * x + y * y - 2 * (d * (x - y - d));
    assert d * (x - y - d) > 0;
  }

  lemma RatioOrder(a: int, b: int, d: int)
    requires a < b && d > 0
    ensures a as real / d as real < b as real / d as real
  {
    var f, g, t := a as real / d as real, b as real / d as real, d as real;
    assert f * t == a as real && g * t == b as real;
    ScaledOrder(f, g, t);
  }

  lemma EvennessFalls(n: nat, low: real, high: real)
    requires n > 1 && low < high
    ensures Evenness(n, low) > Evenness(n, high)
  {
    var b := 1.0 - 1.0 / n as real;
    assert b > 0.0;
    var f, g := (1.0 - high) / b, (1.0 - low) / b;
    assert f * b == 1.0 - high && g * b == 1.0 - low;
    ScaledOrder(f, g, b);
  }

  /** The value of all holdings, but for those that are not positive. */
  function Worth(hs: seq<Holding>): int {
    if hs == [] then 0 else Worth(hs[..|hs| - 1]) + if hs[|hs| - 1].value > 0 then hs[|hs| - 1].value else 0
  }

  /** The class totals add up to it: no value is lost or counted twice. */
  lemma {:induction false} TotalsAddUp(hs: seq<Holding>)
    ensures Sum(Totals(hs)) == Worth(hs)
  {
    hide Sum, Totals, ClassOf;
    if hs == [] {
      NothingGrouped();
      SumEmpty();
    } else {
      var front, h := hs[..|hs| - 1], hs[|hs| - 1];
      assert front + [h] == hs;
      TotalsAddUp(front);
      TotalsExtend(front, h);
      var k, m := ClassOf(h), Totals(front);
      SumPut(m, k, (if k in m then m[k] else 0) + h.value);
    }
  }

  /** Holdings without a category count with those of category other. */
  lemma BlankIsOther(hs: seq<Holding>, value: int)
    ensures Totals(hs + [Holding("", value)]) == Totals(hs + [Holding("other", value)])
    ensures value > 0 ==> Category("other") in Totals(hs + [Holding("", value)])
  {
    hide Totals, ClassTotal, Classes;
    TotalsExtend(hs, Holding("", value));
    TotalsExtend(hs, Holding("other", value));
    assert ClassOf(Holding("", value)) == Category("other") == ClassOf(Holding("other", value));
  }

  /** The value held in each class, and in all of them. */
  method GroupByClass(holdings: seq<Holding>) returns (byCategory: map<Category, int>, total: int)
    ensures byCategory == Totals(holdings) && total == Sum(byCategory)
  {
    hide Sum, Totals;
    NothingGrouped();
    SumEmpty();
    byCategory, total := map[], 0;
    for i := 0 to |holdings|
      invariant byCategory == Totals(holdings[..i]) && total == Sum(byCategory)
    {
      var h := holdings[i];
      assert holdings[..i + 1] == holdings[..i] + [h];
      TotalsExtend(holdings[..i], h);
      if h.value <= 0 {
        continue;
      }
      var category := if h.category == "" then Category("other") else Category(h.category);
      var sum := (if category in byCategory then byCategory[category] else 0) + h.value;
      SumPut(byCategory, category, sum);
      byCategory := byCategory[category := sum];
      total := total + h.value;
    }
    assert holdings[..|holdings|] == holdings;
  }

  lemma NothingGrouped()
    ensures Totals([]) == map[]
  {
  }

  /** What is left of the index when `pending` is still to be counted. */
  ghost function Rest(pending: map<Category, int>, total: int): real
    requires total > 0
  {
    Sum(Squares(pending)) as real / (total * total) as real
  }

  function Square(v: int, total: int): real
    requires total > 0
  {
    var w := v as real / total as real;
    w * w
  }

  lemma RestPick(pending: map<Category, int>, k: Category, total: int)
    requires k in pending && total > 0
    ensures Rest(pending, total) == Square(pending[k], total) + Rest(pending - {k}, total)
    ensures |pending - {k}| < |pending|
  {
    hide Sum, Squares;
    SquaresPick(pending, k);
    Share(pending[k], total, Sum(Squares(pending - {k})));
    assert pending.Keys == (pending - {k}).Keys + {k};
  }

  method Concentration(byCategory: map<Category, int>, total: int) returns (hhi: real)
    requires total == Sum(byCategory) && total > 0
    ensures hhi == Herfindahl(byCategory)
  {
    hide Sum, Squares, Rest, Square;
    hhi := 0.0;
    var pending := byCategory;
    while pending != map[]
      invariant pending.Keys <= byCategory.Keys && forall k :: k in pending ==> pending[k] == byCategory[k]
      invariant hhi + Rest(pending, total) == Rest(byCategory, total)
      decreases |pending|
    {
      var k :| k in pending;
      RestPick(pending, k, total);
      hhi := hhi + Square(byCategory[k], total);
      pending := pending - {k};
    }
    RestIsHerfindahl(byCategory, total);
  }

  lemma RestIsHerfindahl(m: map<Category, int>, total: int)
    requires total == Sum(m) && total > 0
    ensures total * total > 0 && Rest(map[], total) == 0.0 && Rest(m, total) == Herfindahl(m)
  {
    SumEmpty();
    Share(0, total, 0);
  }

  method Diversification(holdings: seq<Holding>) returns (score: real)
    ensures score == Score(Totals(holdings))
  {
    hide Sum, Totals, Herfindahl;
    var byCategory, total := GroupByClass(holdings);
    if total <= 0 || |byCategory| == 0 {
      return 0.0;
    }
    var hhi := Concentration(byCategory, total);
    var evenness := 0.0;
    var n := |byCategory| as real;
    if n > 1.0 {
      evenness := (1.0 - hhi) / (1.0 - 1.0 / n);
    }
    var breadth := Clamp(|byCategory| as real / 4.0, 0.0, 1.0);
    return Clamp(100.0 * (0.6 * breadth + 0.4 * evenness), 0.0, 100.0);
  }

  lemma Share(v: int, total: int, rest: int)
    requires total > 0
    ensures total * total > 0
    ensures (v as real / total as real) * (v as real / total as real) + rest as real / (total * total) as real
         == (v * v + rest) as real / (total * total) as real
  {
    var x, y, r := v as real, total as real, rest as real;
    var w, d := x / y, y * y;
    assert (total * total) as real == d && (v * v) as real == x * x;
    assert w * y == x;
    assert (w * w) * d == x * x by { assert (w * w) * (y * y) == (w * y) * (w * y); }
    var f := r / d;
    assert f * d == r;
    assert (w * w + f) * d == x * x + r;
    assert (x * x + r) / d == w * w + f;
  }
}
