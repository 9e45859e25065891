/** The odometer that enumerates all combinations of one element from each list. */
module VectorCounter {

  // One position per list.
  predicate ValidPos<T>(vec: seq<seq<T>>, p: seq<nat>) {
    |p| == |vec| && forall i :: 0 <= i < |p| ==> p[i] < |vec[i]|
  }

  function Pick<T>(vec: seq<seq<T>>, p: seq<nat>): (values: seq<T>)
    requires ValidPos(vec, p)
  {
    seq(|p|, i requires 0 <= i < |p| => vec[i][p[i]])
  }

  ghost predicate LexLess(p: seq<nat>, q: seq<nat>) {
    exists i :: 0 <= i < |p| && i < |q| && p[..i] == q[..i] && p[i] < q[i]
  }

  // ---------------------------------------------------------------- ranks

  function Rank<T>(vec: seq<seq<T>>, p: seq<nat>): nat
    requires |p| == |vec|
  {
    if vec == [] then 0
    else Rank(vec[..|vec| - 1], p[..|p| - 1]) * |vec[|vec| - 1]| + p[|p| - 1]
  }

  function Size<T>(vec: seq<seq<T>>): nat {
    if vec == [] then 1 else Size(vec[..|vec| - 1]) * |vec[|vec| - 1]|
  }

  lemma {:induction false} RankBound<T>(vec: seq<seq<T>>, p: seq<nat>)
    requires ValidPos(vec, p)
    ensures Rank(vec, p) < Size(vec)
    decreases |vec|
  {
    if vec != [] {
      var n := |vec| - 1;
      RankBound(vec[..n], p[..n]);
      Below(Rank(vec[..n], p[..n]), Size(vec[..n]), p[n], |vec[n]|);
    }
  }

  lemma Below(r: nat, s: nat, x: nat, m: nat)
    requires r < s && x < m
    ensures r * m + x < s * m
  {
    assert (r + 1) * m <= s * m;
  }

  lemma {:induction false} LexRank<T>(vec: seq<seq<T>>, p: seq<nat>, q: seq<nat>)
    requires ValidPos(vec, p) && ValidPos(vec, q) && LexLess(p, q)
    ensures Rank(vec, p) < Rank(vec, q)
    decreases |vec|
  {
    var n := |vec| - 1;
    var i :| 0 <= i < |p| && p[..i] == q[..i] && p[i] < q[i];
    var a, b := p[..n], q[..n];
    if i == n {
      assert a == b;
    } else {
      assert a[..i] == p[..i] && b[..i] == q[..i];
      assert LexLess(a, b);
      LexRank(vec[..n], a, b);
      Below(Rank(vec[..n], a), Rank(vec[..n], b), p[n], |vec[n]|);
    }
  }

  lemma {:induction false} LexTotal(p: seq<nat>, q: seq<nat>)
    requires |p| == |q| && p != q
    ensures LexLess(p, q) || LexLess(q, p)
    decreases |p|
  {
    var n := |p| - 1;
    if p[..n] == q[..n] {
      assert p == p[..n] + [p[n]] && q == q[..n] + [q[n]];
      assert p[n] != q[n];
    } else {
      LexTotal(p[..n], q[..n]);
      LexExtends(p, q, n);
      LexExtends(q, p, n);
    }
  }

  lemma LexExtends(p: seq<nat>, q: seq<nat>, n: nat)
    requires n <= |p| == |q|
    ensures LexLess(p[..n], q[..n]) ==> LexLess(p, q)
  {
    if LexLess(p[..n], q[..n]) {
      var i :| 0 <= i < n && p[..n][..i] == q[..n][..i] && p[..n][i] < q[..n][i];
      assert p[..n][..i] == p[..i] && q[..n][..i] == q[..i];
    }
  }

  /** Ranks order positions lexicographically and name each position once. */
  lemma RankOrder<T>(vec: seq<seq<T>>, p: seq<nat>, q: seq<nat>)
    requires ValidPos(vec, p) && ValidPos(vec, q)
    ensures Rank(vec, p) < Rank(vec, q) <==> LexLess(p, q)
    ensures Rank(vec, p) == Rank(vec, q) <==> p == q
  {
    hide LexLess, Rank;
    if p != q {
      LexTotal(p, q);
      if LexLess(p, q) { LexRank(vec, p, q); }
      if LexLess(q, p) { LexRank(vec, q, p); }
    } else {
      NotLess(p);
    }
  }

  lemma NotLess(p: seq<nat>)
    ensures !LexLess(p, p)
  {
  }

  // ---------------------------------------------------------------- the Cartesian product

  // p extended by each element of xs in turn.
  ghost function Extensions<T>(p: seq<T>, xs: seq<T>): (all: seq<seq<T>>)
    ensures |all| == |xs| && forall j :: 0 <= j < |xs| ==> all[j] == p + [xs[j]]
  {
    seq(|xs|, j requires 0 <= j < |xs| => p + [xs[j]])
  }

  ghost function Cross<T>(ps: seq<seq<T>>, xs: seq<T>): seq<seq<T>> {
    if ps == [] then [] else Cross(ps[..|ps| - 1], xs) + Extensions(ps[|ps| - 1], xs)
  }

  /** Every choice from the lists before, extended by every element of the last list in turn. */
  ghost function Product<T>(vec: seq<seq<T>>): seq<seq<T>> {
    if vec == [] then [[]] else Cross(Product(vec[..|vec| - 1]), vec[|vec| - 1])
  }

  lemma {:induction false} CrossLength<T>(ps: seq<seq<T>>, xs: seq<T>)
    ensures |Cross(ps, xs)| == |ps| * |xs|
    decreases |ps|
  {
    hide Extensions;
    if ps != [] {
      var n := |ps| - 1;
      CrossLength(ps[..n], xs);
      Carry(n, |xs|);
    }
  }

  lemma {:induction false} CrossAt<T>(ps: seq<seq<T>>, xs: seq<T>, i: nat, j: nat)
    requires i < |ps| && j < |xs|
    ensures i * |xs| + j < |Cross(ps, xs)|
    ensures Cross(ps, xs)[i * |xs| + j] == ps[i] + [xs[j]]
    decreases |ps|
  {
    hide Extensions;
    var n := |ps| - 1;
    CrossLength(ps[..n], xs);
    if i < n {
      CrossAt(ps[..n], xs, i, j);
    }
  }

  lemma {:induction false} ProductLength<T>(vec: seq<seq<T>>)
    ensures |Product(vec)| == Size(vec)
    decreases |vec|
  {
    hide Cross;
    if vec != [] {
      ProductLength(vec[..|vec| - 1]);
      CrossLength(Product(vec[..|vec| - 1]), vec[|vec| - 1]);
    }
  }

  lemma Carry(r: nat, m: nat)
    ensures (r + 1) * m == r * m + m
  {
  }

  /** The product lists the choices by rank. */
  lemma {:induction false} ProductByRank<T>(vec: seq<seq<T>>, p: seq<nat>)
    requires ValidPos(vec, p)
    ensures Rank(vec, p) < |Product(vec)| && Product(vec)[Rank(vec, p)] == Pick(vec, p)
    decreases |vec|
  {
    hide Cross;
    if vec != [] {
      var n := |vec| - 1;
      ProductByRank(vec[..n], p[..n]);
      CrossAt(Product(vec[..n]), vec[n], Rank(vec[..n], p[..n]), p[n]);
      assert Pick(vec, p) == Pick(vec[..n], p[..n]) + [vec[n][p[n]]];
    }
  }

  // ---------------------------------------------------------------- one turn of the odometer

  // Lists k.. have run out and start again.
  ghost predicate RunOut<T>(vec: seq<seq<T>>, p: seq<nat>, k: nat)
    requires |p| == |vec| && k <= |vec|
  {
    forall i :: k <= i < |vec| ==> p[i] + 1 == |vec[i]|
  }

  // Position k - 1 advanced, the positions from k on started again.
  function Bumped(p: seq<nat>, k: nat): (q: seq<nat>)
    requires 0 < k <= |p|
    ensures |q| == |p|
    ensures forall i :: 0 <= i < |p| ==> q[i] == if i < k - 1 then p[i] else if i == k - 1 then p[i] + 1 else 0
  {
    p[..k - 1] + [p[k - 1] + 1] + seq(|p| - k, _ => 0)
  }

  lemma BumpedFront(p: seq<nat>, k: nat)
    requires 0 < k <= |p|
    ensures var n := |p| - 1;
      Bumped(p, k)[..n] == if k == |p| then p[..n] else Bumped(p[..n], k)
  {
    var n := |p| - 1;
    var q := Bumped(p, k)[..n];
    if k < |p| {
      var r := Bumped(p[..n], k);
      assert forall i :: 0 <= i < n ==> q[i] == r[i];
    }
  }

  lemma {:induction false} LastRank<T>(vec: seq<seq<T>>, p: seq<nat>)
    requires ValidPos(vec, p) && RunOut(vec, p, 0)
    ensures Rank(vec, p) + 1 == Size(vec)
    decreases |vec|
  {
    if vec != [] {
      var n := |vec| - 1;
      LastRank(vec[..n], p[..n]);
      var r, m := Rank(vec[..n], p[..n]), |vec[n]|;
      assert (r + 1) * m == r * m + m;
    }
  }

  lemma BumpedValid<T>(vec: seq<seq<T>>, p: seq<nat>, k: nat)
    requires ValidPos(vec, p) && 0 < k <= |vec| && p[k - 1] + 1 < |vec[k - 1]|
    ensures ValidPos(vec, Bumped(p, k))
  {
  }

  lemma {:induction false} NextRank<T>(vec: seq<seq<T>>, p: seq<nat>, k: nat)
    requires ValidPos(vec, p) && 0 < k <= |vec| && RunOut(vec, p, k) && p[k - 1] + 1 < |vec[k - 1]|
    ensures Rank(vec, Bumped(p, k)) == Rank(vec, p) + 1
    decreases |vec|
  {
    var n := |vec| - 1;
    BumpedFront(p, k);
    if k < |vec| {
      NextRank(vec[..n], p[..n], k);
      Carry(Rank(vec[..n], p[..n]), |vec[n]|);
      assert p[n] + 1 == |vec[n]|;
    }
    hide Bumped;
  }

  lemma {:induction false} ZeroRank<T>(vec: seq<seq<T>>, p: seq<nat>)
    requires |p| == |vec| && forall i :: 0 <= i < |p| ==> p[i] == 0
    ensures Rank(vec, p) == 0
    decreases |vec|
  {
    if vec != [] {
      ZeroRank(vec[..|vec| - 1], p[..|p| - 1]);
    }
  }

  function Positions(next: seq<nat>): (p: seq<nat>)
    requires forall i :: 0 <= i < |next| ==> next[i] > 0
  {
    seq(|next|, i requires 0 <= i < |next| => next[i] - 1)
  }

  // What has been handed out: `next[i]` elements of list i, and nothing yet of the last at the start.
  ghost predicate Consistent<T>(vec: seq<seq<T>>, values: seq<T>, next: seq<nat>) {
    && |values| == |next| == |vec|
    && (forall i :: 0 <= i < |vec| ==> next[i] <= |vec[i]| && |vec[i]| > 0)
    && (forall i :: 0 <= i < |vec| ==> (next[i] > 0 || i == |vec| - 1))
    && (forall i :: 0 <= i < |vec| && next[i] > 0 ==> values[i] == vec[i][next[i] - 1])
  }

  // List k - 1 advanced, the exhausted lists behind it began again, those before stay.
  predicate Advanced<T>(vec: seq<seq<T>>, next: seq<nat>, next': seq<nat>, k: nat)
    requires |next| == |next'| == |vec|
  {
    && 0 < k <= |vec|
    && next[k - 1] < |vec[k - 1]| && next'[k - 1] == next[k - 1] + 1
    && (forall i :: 0 <= i < k - 1 ==> next'[i] == next[i])
    && (forall i :: k <= i < |vec| ==> next[i] == |vec[i]| && next'[i] == 1)
  }

  /**
   The turn: from the last list backwards, advance the first one that has an element left, starting
   the exhausted ones again.
   */
  method Turn<T>(vec: seq<seq<T>>, values: seq<T>, next: seq<nat>)
    returns (more: bool, values': seq<T>, next': seq<nat>, ghost k: nat)
    requires Consistent(vec, values, next)
    ensures Consistent(vec, values', next')
    ensures more ==> Advanced(vec, next, next', k)
    ensures !more ==> forall i :: 0 <= i < |vec| ==> next[i] == |vec[i]|
  {
    values', next' := values, next;
    var idx := |vec|;
    while idx > 0
      invariant 0 <= idx <= |vec|
      invariant Consistent(vec, values', next')
      invariant next'[..idx] == next[..idx]
      invariant forall i :: idx <= i < |vec| ==> next[i] == |vec[i]| && next'[i] == 1
    {
      idx := idx - 1;
      assert next'[..idx + 1][idx] == next[..idx + 1][idx];
      if next'[idx] < |vec[idx]| {
        values' := values'[idx := vec[idx][next'[idx]]];
        next' := next'[idx := next'[idx] + 1];
        assert forall i :: 0 <= i < idx ==> next'[i] == next'[..idx][i] && next[i] == next[..idx][i];
        return true, values', next', idx + 1;
      }
      values' := values'[idx := vec[idx][0]];
      next' := next'[idx := 1];
    }
    more, k := false, 0;
  }

  /** Every position vector, each once, in lexicographic order. */
  ghost predicate Enumerates<T>(vec: seq<seq<T>>, ps: seq<seq<nat>>) {
    && (forall k :: 0 <= k < |ps| ==> ValidPos(vec, ps[k]))
    && (forall j, k :: 0 <= j < k < |ps| ==> LexLess(ps[j], ps[k]))
    && (forall p :: ValidPos(vec, p) ==> p in ps)
  }

  ghost predicate ByRank<T>(vec: seq<seq<T>>, ps: seq<seq<nat>>) {
    forall k :: 0 <= k < |ps| ==> ValidPos(vec, ps[k]) && Rank(vec, ps[k]) == k
  }

  lemma ByRankEnumerates<T>(vec: seq<seq<T>>, ps: seq<seq<nat>>)
    requires ByRank(vec, ps) && |ps| == Size(vec)
    ensures Enumerates(vec, ps)
  {
    hide Rank, LexLess, ValidPos;
    forall j, k | 0 <= j < k < |ps|
      ensures LexLess(ps[j], ps[k])
    {
      RankOrder(vec, ps[j], ps[k]);
    }
    forall p | ValidPos(vec, p)
      ensures p in ps
    {
      RankBound(vec, p);
      PosLength(vec, p);
      RankOrder(vec, p, ps[Rank(vec, p)]);
    }
  }

  lemma PosLength<T>(vec: seq<seq<T>>, p: seq<nat>)
    requires ValidPos(vec, p)
    ensures |p| == |vec|
  {
  }

  // ---------------------------------------------------------------- the generator

  lemma FirstTurn<T>(vec: seq<seq<T>>, values: seq<T>, next: seq<nat>, next': seq<nat>, k: nat)
    requires vec != [] && Consistent(vec, values, next') && |next| == |vec| && Advanced(vec, next, next', k)
    requires next[|vec| - 1] == 0 && forall i :: 0 <= i < |vec| - 1 ==> next[i] == 1
    ensures AllStarted(next') && ValidPos(vec, Positions(next')) && values == Pick(vec, Positions(next'))
    ensures Rank(vec, Positions(next')) == 0
  {
    assert k == |vec|;
    ZeroRank(vec, Positions(next'));
  }

  predicate AllStarted(next: seq<nat>) {
    forall i :: 0 <= i < |next| ==> next[i] > 0
  }

  lemma LaterTurn<T>(vec: seq<seq<T>>, values: seq<T>, next: seq<nat>, next': seq<nat>, k: nat)
    requires AllStarted(next) && |next| == |vec| && ValidPos(vec, Positions(next))
    requires Consistent(vec, values, next') && Advanced(vec, next, next', k)
    ensures AllStarted(next') && ValidPos(vec, Positions(next')) && values == Pick(vec, Positions(next'))
    ensures Rank(vec, Positions(next')) == Rank(vec, Positions(next)) + 1
  {
    hide Rank;
    var p := Positions(next);
    BumpedValid(vec, p, k);
    NextRank(vec, p, k);
    AdvancedBumps(vec, next, next', k);
  }

  lemma AdvancedBumps<T>(vec: seq<seq<T>>, next: seq<nat>, next': seq<nat>, k: nat)
    requires AllStarted(next) && |next| == |next'| == |vec| && Advanced(vec, next, next', k)
    ensures AllStarted(next') && Positions(next') == Bumped(Positions(next), k)
  {
    assert forall i :: 0 <= i < |vec| ==> next'[i] > 0;
  }

  lemma LastTurn<T>(vec: seq<seq<T>>, next: seq<nat>)
    requires AllStarted(next) && |next| == |vec| && ValidPos(vec, Positions(next))
    requires forall i :: 0 <= i < |vec| ==> next[i] == |vec[i]|
    ensures Rank(vec, Positions(next)) + 1 == Size(vec)
  {
    LastRank(vec, Positions(next));
  }

  /** All combinations, in lexicographic order of positions, each position vector once. */
  method AllCombinations<T>(vec: seq<seq<T>>) returns (yielded: seq<seq<T>>, ghost ps: seq<seq<nat>>)
    requires vec != [] && forall i :: 0 <= i < |vec| ==> vec[i] != []
    ensures yielded == Product(vec)
    ensures Enumerates(vec, ps)
    ensures |yielded| == |ps|
    ensures forall k :: 0 <= k < |ps| ==> yielded[k] == Pick(vec, ps[k])
  {
    hide Rank, Size, Enumerates, Advanced, Product;
    var n := |vec|;
    var values := seq(n, i requires 0 <= i < n => vec[i][0]);
    var next: seq<nat> := seq(n, i requires 0 <= i < n => if i == n - 1 then 0 else 1);
    yielded, ps := [], [];
    var more := true;
    SizePositive(vec);
    while more
      invariant Consistent(vec, values, next)
      invariant |yielded| == |ps| <= Size(vec) && ByRank(vec, ps)
      invariant forall k :: 0 <= k < |ps| ==> yielded[k] == Pick(vec, ps[k])
      invariant ps == [] ==> more && next[n - 1] == 0 && forall i :: 0 <= i < n - 1 ==> next[i] == 1
      invariant ps != [] && more ==> AllStarted(next) && ps[|ps| - 1] == Positions(next)
      invariant !more ==> |ps| == Size(vec)
      decreases Size(vec) - |ps|, more
    {
      var values', next';
      ghost var k;
      more, values', next', k := Turn(vec, values, next);
      if more {
        if ps == [] {
          FirstTurn(vec, values', next, next', k);
        } else {
          LaterTurn(vec, values', next, next', k);
        }
        RankBound(vec, Positions(next'));
        yielded, ps := yielded + [values'], ps + [Positions(next')];
      } else {
        NotAtStart(vec, next);
        LastTurn(vec, next);
      }
      values, next := values', next';
    }
    ByRankEnumerates(vec, ps);
    ProductLength(vec);
    forall k | 0 <= k < |ps|
      ensures yielded[k] == Product(vec)[k]
    {
      ProductByRank(vec, ps[k]);
    }
  }

  lemma NotAtStart<T>(vec: seq<seq<T>>, next: seq<nat>)
    requires vec != [] && |next| == |vec| && vec[|vec| - 1] != []
    requires forall i :: 0 <= i < |vec| ==> next[i] == |vec[i]|
    ensures next[|vec| - 1] != 0
  {
  }

  lemma {:induction false} SizePositive<T>(vec: seq<seq<T>>)
    requires forall i :: 0 <= i < |vec| ==> vec[i] != []
    ensures Size(vec) > 0
    decreases |vec|
  {
    if vec != [] {
      SizePositive(vec[..|vec| - 1]);
      Below(0, Size(vec[..|vec| - 1]), 0, |vec[|vec| - 1]|);
    }
  }
}
