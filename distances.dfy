/**
 * The value maps the two clustering algorithms keep per cluster (entity
 * name -> value for a phase, beat id -> value for an entity group), the
 * key-wise sum a merge performs on them, and the squared "changes" distance
 * both compute before taking its square root.
 */
module Distances {

  /** A map lookup defaulting to 0, as the distance and merge code treat a missing key. */
  function Get<K>(m: map<K, real>, k: K): real {
    if k in m then m[k] else 0.0
  }

  /**
   * The map a merge leaves behind: every key of either map, with the two
   * values added where both have the key.
   */
  function MergeAdd<K>(a: map<K, real>, b: map<K, real>): map<K, real>
  {
    map k | k in a.Keys + b.Keys :: Get(a, k) + Get(b, k)
  }

  /** What a merge keeps: every key of either map, the values added where both have one. */
  lemma MergeAddMeaning<K>(a: map<K, real>, b: map<K, real>)
    ensures MergeAdd(a, b).Keys == a.Keys + b.Keys
    ensures forall k :: k in a && k !in b ==> MergeAdd(a, b)[k] == a[k]
    ensures forall k :: k !in a && k in b ==> MergeAdd(a, b)[k] == b[k]
    ensures forall k :: k in a && k in b ==> MergeAdd(a, b)[k] == a[k] + b[k]
  {
  }

  lemma MergeAddAssociative<K>(a: map<K, real>, b: map<K, real>, c: map<K, real>)
    ensures MergeAdd(MergeAdd(a, b), c) == MergeAdd(a, MergeAdd(b, c))
  {
    var l, r := MergeAdd(MergeAdd(a, b), c), MergeAdd(a, MergeAdd(b, c));
    assert l.Keys == r.Keys;
    forall k | k in l ensures l[k] == r[k] {
      assert Get(MergeAdd(a, b), k) == Get(a, k) + Get(b, k);
      assert Get(MergeAdd(b, c), k) == Get(b, k) + Get(c, k);
    }
  }

  lemma MergeAddEmptyLeft<K>(a: map<K, real>)
    ensures MergeAdd(map[], a) == a
  {
  }

  /** The key-wise sum of a sequence of maps, folded from the left as merges happen. */
  function Total<K>(ms: seq<map<K, real>>): map<K, real>
  {
    if ms == [] then map[] else MergeAdd(Total(ms[..|ms| - 1]), ms[|ms| - 1])
  }

  /** Merging two clusters' totals is the total of their concatenation. */
  lemma {:induction false} TotalAppend<K>(a: seq<map<K, real>>, b: seq<map<K, real>>)
    ensures Total(a + b) == MergeAdd(Total(a), Total(b))
    decreases |b|
  {
    if b == [] {
      assert a + b == a;
      var t := Total(a);
      assert MergeAdd(t, map[]) == t;
    } else {
      var b' := b[..|b| - 1];
      assert (a + b)[..|a + b| - 1] == a + b';
      TotalAppend(a, b');
      MergeAddAssociative(Total(a), Total(b'), b[|b| - 1]);
    }
  }

  lemma TotalSingle<K>(m: map<K, real>)
    ensures Total([m]) == m
  {
    assert [m][..0] == [];
    MergeAddEmptyLeft(m);
  }

  function Square(x: real): real { x * x }

  lemma SquareNonNegative(x: real)
    ensures Square(x) >= 0.0
  {
    if x < 0.0 {
      assert Square(x) == (-x) * (-x);
    }
  }

  /** The sum of (small[k] - big[k])^2 over `keys`, a missing big[k] read as 0. */
  ghost function SumOfSquares<K>(small: map<K, real>, big: map<K, real>, keys: set<K>): real
    requires keys <= small.Keys
    decreases |keys|
  {
    if keys == {} then 0.0
    else
      var k :| k in keys;
      Square(small[k] - Get(big, k)) + SumOfSquares(small, big, keys - {k})
  }

  /** The sum does not depend on the order the keys are visited in. */
  lemma {:induction false} SumOfSquaresPick<K>(small: map<K, real>, big: map<K, real>, keys: set<K>, k: K)
    requires keys <= small.Keys && k in keys
    ensures SumOfSquares(small, big, keys) == Square(small[k] - Get(big, k)) + SumOfSquares(small, big, keys - {k})
    decreases |keys|
  {
    var j :| j in keys && SumOfSquares(small, big, keys) == Square(small[j] - Get(big, j)) + SumOfSquares(small, big, keys - {j});
    if j != k {
      var rest := keys - {j} - {k};
      assert keys - {k} - {j} == rest;
      SumOfSquaresPick(small, big, keys - {j}, k);
      SumOfSquaresPick(small, big, keys - {k}, j);
      var sj, sk := Square(small[j] - Get(big, j)), Square(small[k] - Get(big, k));
      assert SumOfSquares(small, big, keys - {j}) == sk + SumOfSquares(small, big, rest);
      assert SumOfSquares(small, big, keys - {k}) == sj + SumOfSquares(small, big, rest);
    }
  }

  lemma {:induction false} SumOfSquaresNonNegative<K>(small: map<K, real>, big: map<K, real>, keys: set<K>)
    requires keys <= small.Keys
    ensures SumOfSquares(small, big, keys) >= 0.0
    decreases |keys|
  {
    if keys != {} {
      var k :| k in keys;
      SumOfSquaresPick(small, big, keys, k);
      SquareNonNegative(small[k] - Get(big, k));
      SumOfSquaresNonNegative(small, big, keys - {k});
    }
  }

  lemma {:induction false} SumOfSquaresSelf<K>(m: map<K, real>, keys: set<K>)
    requires keys <= m.Keys
    ensures SumOfSquares(m, m, keys) == 0.0
    decreases |keys|
  {
    if keys != {} {
      var k :| k in keys;
      SumOfSquaresPick(m, m, keys, k);
      assert m[k] - Get(m, k) == 0.0;
      SumOfSquaresSelf(m, keys - {k});
    }
  }

  /** Only the big map's values at the small map's keys matter. */
  lemma {:induction false} SumOfSquaresOnlySmallKeys<K>(small: map<K, real>, big: map<K, real>, big': map<K, real>, keys: set<K>)
    requires keys <= small.Keys
    requires forall k :: k in keys ==> Get(big, k) == Get(big', k)
    ensures SumOfSquares(small, big, keys) == SumOfSquares(small, big', keys)
    decreases |keys|
  {
    if keys != {} {
      var k :| k in keys && SumOfSquares(small, big, keys) == Square(small[k] - Get(big, k)) + SumOfSquares(small, big, keys - {k});
      SumOfSquaresPick(small, big', keys, k);
      SumOfSquaresOnlySmallKeys(small, big, big', keys - {k});
    }
  }

  /**
   * The merge loop of mergePhases / mergeEntityGroups: each key of the
   * absorbed map is put into the survivor's map, added to the value already
   * there if any.
   */
  method MergeInto<K>(cur: map<K, real>, absorbed: map<K, real>) returns (m: map<K, real>)
    ensures m == MergeAdd(cur, absorbed)
  {
    m := cur;
    var rest := absorbed.Keys;
    ghost var done: set<K> := {};
    MergeStart(cur, absorbed);
    while rest != {}
      invariant rest <= absorbed.Keys && done == absorbed.Keys - rest
      invariant m == MergeAdd(cur, Restrict(absorbed, done))
      decreases |rest|
    {
      var k :| k in rest;
      var newValue := absorbed[k];
      if k in m {
        newValue := newValue + m[k];
      }
      MergeStep(cur, absorbed, done, k, m, newValue);
      m := m[k := newValue];
      rest := rest - {k};
      done := done + {k};
    }
    MergeEnd(cur, absorbed, done);
  }

  function Restrict<K>(a: map<K, real>, keys: set<K>): map<K, real>
  {
    map k | k in keys && k in a :: a[k]
  }

  lemma MergeStart<K>(cur: map<K, real>, absorbed: map<K, real>)
    ensures cur == MergeAdd(cur, Restrict(absorbed, {}))
  {
    assert Restrict(absorbed, {}) == map[];
  }

  lemma MergeEnd<K>(cur: map<K, real>, absorbed: map<K, real>, done: set<K>)
    requires done == absorbed.Keys
    ensures MergeAdd(cur, Restrict(absorbed, done)) == MergeAdd(cur, absorbed)
  {
    assert Restrict(absorbed, done) == absorbed;
  }

  lemma MergeStep<K>(cur: map<K, real>, absorbed: map<K, real>, done: set<K>, k: K, m: map<K, real>, v: real)
    requires k in absorbed && k !in done
    requires m == MergeAdd(cur, Restrict(absorbed, done))
    requires v == absorbed[k] + Get(m, k)
    ensures m[k := v] == MergeAdd(cur, Restrict(absorbed, done + {k}))
  {
    var l := MergeAdd(cur, Restrict(absorbed, done + {k}));
    assert l.Keys == m[k := v].Keys;
    forall j | j in l ensures l[j] == m[k := v][j] {
    }
  }

  /** The smaller map is the first argument unless the second has strictly fewer keys. */
  function SmallFirst<K>(a: map<K, real>, b: map<K, real>): (r: (map<K, real>, map<K, real>))
    ensures |r.0| <= |r.1|
    ensures r == (a, b) || r == (b, a)
    ensures |a| == |b| ==> r == (a, b)
  {
    if |a| > |b| then (b, a) else (a, b)
  }

  /** The squared changes distance: the sum over the smaller map's keys only. */
  ghost function ChangeDistanceSq<K>(a: map<K, real>, b: map<K, real>): real
  {
    var (small, big) := SmallFirst(a, b);
    SumOfSquares(small, big, small.Keys)
  }

  /** calculateDistance / calculateChangesDistance up to the square root: the stream sum over the smaller map. */
  method SquaredChangeDistance<K>(a: map<K, real>, b: map<K, real>) returns (s: real)
    ensures s == ChangeDistanceSq(a, b)
    ensures s >= 0.0
  {
    var (small, big) := SmallFirst(a, b);
    var rest := small.Keys;
    s := 0.0;
    while rest != {}
      invariant rest <= small.Keys
      invariant s + SumOfSquares(small, big, rest) == SumOfSquares(small, big, small.Keys)
      decreases |rest|
    {
      var k :| k in rest;
      SumOfSquaresPick(small, big, rest, k);
      s := s + Square(small[k] - Get(big, k));
      rest := rest - {k};
    }
    SumOfSquaresNonNegative(small, big, small.Keys);
  }

  /** The distance of a map to itself is 0, and it is never negative. */
  lemma ChangeDistanceBasics<K>(a: map<K, real>, b: map<K, real>)
    ensures ChangeDistanceSq(a, a) == 0.0
    ensures ChangeDistanceSq(a, b) >= 0.0
  {
    SumOfSquaresSelf(a, a.Keys);
    var (small, big) := SmallFirst(a, b);
    SumOfSquaresNonNegative(small, big, small.Keys);
  }

  /**
   * Keys only in the larger map are ignored, and on a size tie the first
   * argument's keys are the ones visited, so the distance is not symmetric:
   * {x: 1} against {y: 2} gives 1, the other way round 4.
   */
  lemma ChangeDistanceAsymmetricOnTies()
    ensures ChangeDistanceSq(map[1 := 1.0], map[2 := 2.0]) == 1.0
    ensures ChangeDistanceSq(map[2 := 2.0], map[1 := 1.0]) == 4.0
  {
    var a: map<int, real> := map[1 := 1.0];
    var b: map<int, real> := map[2 := 2.0];
    SumOfSquaresPick(a, b, a.Keys, 1);
    assert a.Keys - {1} == {};
    SumOfSquaresPick(b, a, b.Keys, 2);
    assert b.Keys - {2} == {};
  }
}
