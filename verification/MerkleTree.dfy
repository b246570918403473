/** The Merkle root of chaincode/finix/main.go: levels are hashed pairwise, an odd last hash is
    paired with itself. */
module MerkleTree {
  import opened EventChain

  /** The string that node i of the next level hashes. */
  function Pair(level: seq<string>, i: nat): string
    requires 2 * i < |level|
  {
    level[2 * i] + (if 2 * i + 1 < |level| then level[2 * i + 1] else level[2 * i])
  }

  function NextLevel(env: Env, level: seq<string>): (next: seq<string>)
    ensures |next| == (|level| + 1) / 2
  {
    seq((|level| + 1) / 2, i requires 0 <= i < (|level| + 1) / 2 => env.sha(Pair(level, i)))
  }

  function RootOf(env: Env, level: seq<string>): string
    decreases |level|
  {
    if level == [] then ""
    else if |level| == 1 then level[0]
    else RootOf(env, NextLevel(env, level))
  }

  method MerkleRoot(env: Env, hashes: seq<string>) returns (root: string)
    ensures root == RootOf(env, hashes)
  {
    if |hashes| == 0 {
      return "";
    }
    var level := hashes;
    while |level| > 1
      invariant |level| > 0 && RootOf(env, level) == RootOf(env, hashes)
      decreases |level|
    {
      var next: seq<string> := [];
      var i := 0;
      while i < |level|
        invariant 0 <= i <= |level| + 1 && i % 2 == 0 && |next| == i / 2
        invariant forall k :: 0 <= k < |next| ==> next[k] == env.sha(Pair(level, k))
      {
        assert 2 * (i / 2) == i;
        if i + 1 >= |level| {
          next := next + [env.sha(level[i] + level[i])];
        } else {
          next := next + [env.sha(level[i] + level[i + 1])];
        }
        i := i + 2;
      }
      assert next == NextLevel(env, level);
      level := next;
    }
    return level[0];
  }

  /** Every string that is hashed on the way to the root. */
  ghost function TreeHashed(env: Env, level: seq<string>): set<string>
    decreases |level|
  {
    if |level| <= 1 then {}
    else (set i | 0 <= i < (|level| + 1) / 2 :: Pair(level, i)) + TreeHashed(env, NextLevel(env, level))
  }

  ghost predicate Digests(level: seq<string>) {
    forall i :: 0 <= i < |level| ==> |level[i]| == 64
  }

  lemma PairPinsHalves(x: string, y: string, v: string, w: string)
    requires |x| == |v| && x + y == v + w
    ensures x == v && y == w
  {
    assert x == (x + y)[..|x|] && v == (v + w)[..|v|];
    assert y == (x + y)[|x|..] && w == (v + w)[|v|..];
  }

  lemma LevelPinned(env: Env, a: seq<string>, b: seq<string>)
    requires Digests(a) && Digests(b) && |a| == |b| > 1
    requires NextLevel(env, a) == NextLevel(env, b)
    requires NoCollision(env, TreeHashed(env, a) + TreeHashed(env, b))
    ensures a == b
  {
    forall i | 0 <= i < (|a| + 1) / 2
      ensures a[2 * i] == b[2 * i]
      ensures 2 * i + 1 < |a| ==> a[2 * i + 1] == b[2 * i + 1]
    {
      assert NextLevel(env, a)[i] == env.sha(Pair(a, i)) && NextLevel(env, b)[i] == env.sha(Pair(b, i));
      assert Pair(a, i) in TreeHashed(env, a) && Pair(b, i) in TreeHashed(env, b);
      PairPinsHalves(a[2 * i], Pair(a, i)[64..], b[2 * i], Pair(b, i)[64..]);
      assert 2 * i + 1 < |a| ==> Pair(a, i)[64..] == a[2 * i + 1] && Pair(b, i)[64..] == b[2 * i + 1];
    }
    forall k | 0 <= k < |a|
      ensures a[k] == b[k]
    {
      assert k == 2 * (k / 2) || k == 2 * (k / 2) + 1;
    }
  }

  /** Two lists of digests of the same length with the same Merkle root are equal. */
  lemma {:induction false} RootPinsList(env: Env, a: seq<string>, b: seq<string>)
    requires Shaped(env) && Digests(a) && Digests(b) && |a| == |b| && RootOf(env, a) == RootOf(env, b)
    requires NoCollision(env, TreeHashed(env, a) + TreeHashed(env, b))
    ensures a == b
    decreases |a|
  {
    if |a| > 1 {
      RootPinsList(env, NextLevel(env, a), NextLevel(env, b));
      LevelPinned(env, a, b);
    }
  }

  /** The length matters: repeating the last hash of an odd list keeps the root. */
  lemma OddListKeepsRoot(env: Env, a: seq<string>)
    requires |a| % 2 == 1 && |a| > 1
    ensures RootOf(env, a + [a[|a| - 1]]) == RootOf(env, a)
  {
    var b := a + [a[|a| - 1]];
    assert forall i :: 0 <= i < (|a| + 1) / 2 ==> Pair(a, i) == Pair(b, i);
    assert NextLevel(env, a) == NextLevel(env, b);
  }

  // ---------------------------------------------------------------- the shape of the tree

  function PowerOfTwo(k: nat): nat {
    if k == 0 then 1 else 2 * PowerOfTwo(k - 1)
  }

  lemma LevelsJoin(env: Env, a: seq<string>, b: seq<string>)
    requires |a| % 2 == 0
    ensures NextLevel(env, a + b) == NextLevel(env, a) + NextLevel(env, b)
  {
    var whole, next := a + b, NextLevel(env, a + b);
    forall i | 0 <= i < |next|
      ensures next[i] == (NextLevel(env, a) + NextLevel(env, b))[i]
    {
      if i < |a| / 2 {
        assert Pair(whole, i) == Pair(a, i);
      } else {
        var j := i - |a| / 2;
        assert 2 * i == |a| + 2 * j;
        assert Pair(whole, i) == Pair(b, j);
      }
    }
  }

  /** A tree of two full halves hashes the root of the left one before that of the right one. */
  lemma {:induction false} RootOfHalves(env: Env, a: seq<string>, b: seq<string>, k: nat)
    requires |a| == |b| == PowerOfTwo(k)
    ensures RootOf(env, a + b) == env.sha(RootOf(env, a) + RootOf(env, b))
    decreases k
  {
    if k == 0 {
      var level := a + b;
      assert Pair(level, 0) == a[0] + b[0];
      assert NextLevel(env, level) == [env.sha(a[0] + b[0])];
    } else {
      LevelsJoin(env, a, b);
      RootOfHalves(env, NextLevel(env, a), NextLevel(env, b), k - 1);
    }
  }

  /** A single hash is its own root, and no hash at all has none. */
  lemma SmallRoots(env: Env, x: string)
    ensures RootOf(env, [x]) == x && RootOf(env, []) == ""
  {
  }

  // ---------------------------------------------------------------- the length is what it takes

  function Copies(x: string, n: nat): seq<string> {
    seq(n, i => x)
  }

  /** How many levels are above a list of n hashes. */
  function Height(n: nat): nat {
    if n <= 1 then 0 else 1 + Height((n + 1) / 2)
  }

  /** A hash paired with itself, k times over. */
  function Paired(env: Env, x: string, k: nat): string
    decreases k
  {
    if k == 0 then x else Paired(env, env.sha(x + x), k - 1)
  }

  /** The strings hashed on the way. */
  ghost function Ladder(env: Env, x: string, k: nat): set<string>
    decreases k
  {
    if k == 0 then {} else {x + x} + Ladder(env, env.sha(x + x), k - 1)
  }

  lemma CopiesNext(env: Env, x: string, n: nat)
    requires n > 1
    ensures NextLevel(env, Copies(x, n)) == Copies(env.sha(x + x), (n + 1) / 2)
    ensures forall i :: 0 <= i < (n + 1) / 2 ==> Pair(Copies(x, n), i) == x + x
  {
    var level, next := Copies(x, n), NextLevel(env, Copies(x, n));
    assert forall i :: 0 <= i < (n + 1) / 2 ==> Pair(level, i) == x + x;
    assert forall i :: 0 <= i < |next| ==> next[i] == env.sha(Pair(level, i));
    assert next == Copies(env.sha(x + x), (n + 1) / 2);
  }

  lemma {:induction false} CopiesRoot(env: Env, x: string, n: nat)
    requires n > 0
    ensures RootOf(env, Copies(x, n)) == Paired(env, x, Height(n))
    ensures TreeHashed(env, Copies(x, n)) <= Ladder(env, x, Height(n))
    decreases n
  {
    if n > 1 {
      CopiesNext(env, x, n);
      CopiesRoot(env, env.sha(x + x), (n + 1) / 2);
    }
  }

  lemma {:induction false} PairedSplits(env: Env, x: string, k: nat, h: nat)
    ensures Paired(env, Paired(env, x, k), h) == Paired(env, x, k + h)
    ensures Ladder(env, Paired(env, x, k), h) <= Ladder(env, x, k + h)
    ensures Shaped(env) && |x| == 64 ==> |Paired(env, x, k)| == 64
    decreases k
  {
    if k > 0 {
      PairedSplits(env, env.sha(x + x), k - 1, h);
    }
  }

  /** For any two lengths there are lists of digests with the same root; no collision is needed. */
  lemma SameRootAt(env: Env, x: string, n: nat, m: nat) returns (a: seq<string>, b: seq<string>)
    requires Shaped(env) && |x| == 64 && 0 < m && 0 < n && Height(m) <= Height(n)
    ensures |a| == n && |b| == m && Digests(a) && Digests(b) && RootOf(env, a) == RootOf(env, b)
    ensures TreeHashed(env, a) + TreeHashed(env, b) <= Ladder(env, x, Height(n))
  {
    hide RootOf, TreeHashed, Ladder, Height, Paired;
    var k := Height(n) - Height(m);
    a, b := Copies(x, n), Copies(Paired(env, x, k), m);
    PairedSplits(env, x, k, Height(m));
    CopiesRoot(env, x, n);
    CopiesRoot(env, Paired(env, x, k), m);
  }

  /** The root fixes the lists among those of n and of m digests. */
  ghost predicate RootPins(env: Env, n: nat, m: nat) {
    forall a, b ::
      (|a| == n && |b| == m && Digests(a) && Digests(b) && RootOf(env, a) == RootOf(env, b)
       && NoCollision(env, TreeHashed(env, a) + TreeHashed(env, b)))
      ==> a == b
  }

  /** It does exactly when the lengths are equal: the event count that a proof carries beside the
      root is needed. `x` is any digest whose ladder of self-pairs has no collision. */
  lemma RootPinsExactly(env: Env, n: nat, m: nat, x: string)
    requires Shaped(env) && n > 0 && m > 0
    requires |x| == 64 && NoCollision(env, Ladder(env, x, Height(n)) + Ladder(env, x, Height(m)))
    ensures RootPins(env, n, m) <==> n == m
  {
    hide RootOf, TreeHashed, Ladder, Height, Shaped;
    if n == m {
      forall a, b | |a| == n && |b| == m && Digests(a) && Digests(b) && RootOf(env, a) == RootOf(env, b)
                    && NoCollision(env, TreeHashed(env, a) + TreeHashed(env, b))
        ensures a == b
      {
        RootPinsList(env, a, b);
      }
    } else if Height(m) <= Height(n) {
      var a, b := SameRootAt(env, x, n, m);
      assert |a| != |b|;
    } else {
      var b, a := SameRootAt(env, x, m, n);
      assert |a| != |b|;
      assert TreeHashed(env, a) + TreeHashed(env, b) == TreeHashed(env, b) + TreeHashed(env, a);
    }
  }
}
