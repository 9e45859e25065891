/** Sequence facts that the solver does not find by itself. */
module Seqs {

  lemma ConcatAssoc<T>(a: seq<T>, b: seq<T>, c: seq<T>)
    ensures (a + b) + c == a + (b + c)
  {
  }

  lemma DropDrop<T>(s: seq<T>, m: nat, n: nat)
    requires m + n <= |s|
    ensures s[m..][n..] == s[m + n..]
  {
  }

  lemma Pieces<T>(s: seq<T>, p: nat)
    requires p < |s|
    ensures s == s[..p] + [s[p]] + s[p + 1..]
  {
  }

  // An element that occurs at one place only counts once.
  lemma Once<T>(s: seq<T>, p: nat)
    requires p < |s| && forall j :: 0 <= j < |s| && j != p ==> s[j] != s[p]
    ensures multiset(s)[s[p]] == 1
  {
    Pieces(s, p);
    assert s[p] !in s[..p] && s[p] !in s[p + 1..];
  }

  lemma Split<T>(a: seq<T>, b: seq<T>)
    ensures (a + b)[..|a|] == a
    ensures (a + b)[|a|..] == b
  {
  }

  // ---------------------------------------------------------------- flattening

  function Flatten<T>(xss: seq<seq<T>>): seq<T> {
    if xss == [] then [] else Flatten(xss[..|xss| - 1]) + xss[|xss| - 1]
  }

  lemma FlattenNothing<T>(xss: seq<seq<T>>)
    ensures Flatten(xss[..0]) == []
  {
  }

  lemma FlattenNext<T>(xss: seq<seq<T>>, m: nat)
    requires m < |xss|
    ensures Flatten(xss[..m + 1]) == Flatten(xss[..m]) + xss[m]
  {
    assert xss[..m + 1][..m] == xss[..m];
  }

  lemma FlattenOne<T>(xs: seq<T>)
    ensures Flatten([xs]) == xs
  {
    FlattenNothing([xs]);
    FlattenNext([xs], 0);
    assert [xs][..1] == [xs];
  }

  lemma {:induction false} FlattenSplit<T>(xss: seq<seq<T>>, m: nat)
    requires m <= |xss|
    ensures Flatten(xss) == Flatten(xss[..m]) + Flatten(xss[m..])
    decreases |xss|
  {
    if m == |xss| {
      assert xss[..m] == xss;
    } else {
      var most, last := xss[..|xss| - 1], xss[|xss| - 1];
      FlattenSplit(most, m);
      assert most[..m] == xss[..m];
      assert xss[m..] == most[m..] + [last];
      assert xss[m..][..|xss| - m - 1] == most[m..];
      ConcatAssoc(Flatten(xss[..m]), Flatten(most[m..]), last);
    }
  }
}
