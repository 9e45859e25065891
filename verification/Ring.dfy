/** The ketama ring: 160 points per server on a circle of 2^32 positions. */
module Ring {
  import opened Wire
  import opened Messages
  import Seqs

  const POINTS_PER_SERVER := 160
  const ALIGNMENTS := 4
  const KEYS_PER_SERVER := 40

  // A digest has sixteen bytes.
  type Digest = d: seq<int> | |d| == 16 && forall i :: 0 <= i < 16 ==> 0 <= d[i] < 256
    witness seq(16, _ => 0)
  type Md5 = Bytes -> Digest

  type Resources = map<nat, Server>

  // ---------------------------------------------------------------- hashed strings

  const DASH: Byte := 45

  function Decimal(n: nat): Bytes {
    if n < 10 then [48 + n] else Decimal(n / 10) + [48 + n % 10]
  }

  function KeyForPoint(hostname: Bytes, point: nat): Bytes {
    hostname + [DASH] + Decimal(point)
  }

  /** The key of point 12 of host "ab" is "ab-12". */
  lemma KeyForPointBytes()
    ensures KeyForPoint([97, 98], 12) == [97, 98, 45, 49, 50]
  {
    assert Decimal(1) == [49];
  }

  lemma {:induction false} DecimalHasNoDash(n: nat)
    ensures Decimal(n) != [] && forall i :: 0 <= i < |Decimal(n)| ==> Decimal(n)[i] != DASH
  {
    if n >= 10 {
      DecimalHasNoDash(n / 10);
    }
  }

  lemma {:induction false} DecimalInjective(m: nat, n: nat)
    requires Decimal(m) == Decimal(n)
    ensures m == n
    decreases m
  {
    var a, b := Decimal(m), Decimal(n);
    DecimalHasNoDash(m / 10);
    DecimalHasNoDash(n / 10);
    assert a[|a| - 1] == 48 + m % 10 && b[|b| - 1] == 48 + n % 10;
    if m >= 10 && n >= 10 {
      assert a[..|a| - 1] == Decimal(m / 10) && b[..|b| - 1] == Decimal(n / 10);
      DecimalInjective(m / 10, n / 10);
    }
  }

  // What stands before and after the last dash is determined by the string.
  lemma LastDash(h: Bytes, d: Bytes, h': Bytes, d': Bytes)
    requires h + [DASH] + d == h' + [DASH] + d'
    requires forall i :: 0 <= i < |d| ==> d[i] != DASH
    requires forall i :: 0 <= i < |d'| ==> d'[i] != DASH
    ensures h == h' && d == d'
  {
    var s := h + [DASH] + d;
    assert s[|h|] == DASH && s[|h'|] == DASH;
    assert forall i :: |h| < i < |s| ==> s[i] == d[i - |h| - 1];
    assert forall i :: |h'| < i < |s| ==> s[i] == d'[i - |h'| - 1];
    assert s[..|h|] == h && s[..|h'|] == h';
    assert s[|h| + 1..] == d && s[|h'| + 1..] == d';
  }

  /** Different hosts or points never hash the same string, whatever dashes a host name contains. */
  lemma KeyForPointInjective(h: Bytes, p: nat, h': Bytes, p': nat)
    requires KeyForPoint(h, p) == KeyForPoint(h', p')
    ensures h == h' && p == p'
  {
    DecimalHasNoDash(p);
    DecimalHasNoDash(p');
    LastDash(h, Decimal(p), h', Decimal(p'));
    DecimalInjective(p, p');
  }

  // ---------------------------------------------------------------- hashes

  function KetamaHash(md5: Md5, key: Bytes, alignment: nat): (pos: nat)
    requires alignment < ALIGNMENTS
    ensures pos < TWO_32
  {
    var d := md5(key);
    d[3 + alignment * 4] * 0x100_0000 + d[2 + alignment * 4] * 0x1_0000 + d[1 + alignment * 4] * 0x100
    + d[alignment * 4]
  }

  lemma LowByte(x: nat, r: nat)
    requires r < 256
    ensures (x * 256 + r) % 256 == r && (x * 256 + r) / 256 == x
  {
  }

  /** Byte i of the hash, counted from the least significant, is digest byte 4 * alignment + i. */
  lemma HashIsLittleEndian(md5: Md5, key: Bytes, alignment: nat)
    requires alignment < ALIGNMENTS
    ensures var d, h := md5(key), KetamaHash(md5, key, alignment);
      && h % 256 == d[4 * alignment] && h / 256 % 256 == d[4 * alignment + 1]
      && h / 256 / 256 % 256 == d[4 * alignment + 2] && h / 256 / 256 / 256 == d[4 * alignment + 3]
  {
    var d, h := md5(key), KetamaHash(md5, key, alignment);
    var a, b, c, e := d[4 * alignment], d[4 * alignment + 1], d[4 * alignment + 2], d[4 * alignment + 3];
    assert h == ((e * 256 + c) * 256 + b) * 256 + a;
    hide KetamaHash;
    LowByte((e * 256 + c) * 256 + b, a);
    LowByte(e * 256 + c, b);
    LowByte(e, c);
  }

  lemma FourBytes(a: nat, b: nat, c: nat, d: nat, a': nat, b': nat, c': nat, d': nat)
    requires a < 256 && b < 256 && c < 256 && d < 256 && a' < 256 && b' < 256 && c' < 256 && d' < 256
    requires a * 0x100_0000 + b * 0x1_0000 + c * 0x100 + d == a' * 0x100_0000 + b' * 0x1_0000 + c' * 0x100 + d'
    ensures a == a' && b == b' && c == c' && d == d'
  {
  }

  /** The four alignments read the whole digest: together they determine it. */
  lemma AlignmentsDetermineDigest(md5: Md5, k: Bytes, k': Bytes)
    requires forall a :: 0 <= a < ALIGNMENTS ==> KetamaHash(md5, k, a) == KetamaHash(md5, k', a)
    ensures md5(k) == md5(k')
  {
    var d, d' := md5(k), md5(k');
    forall a | 0 <= a < ALIGNMENTS
      ensures d[a * 4..a * 4 + 4] == d'[a * 4..a * 4 + 4]
    {
      assert KetamaHash(md5, k, a) == KetamaHash(md5, k', a);
      FourBytes(d[3 + a * 4], d[2 + a * 4], d[1 + a * 4], d[a * 4],
                d'[3 + a * 4], d'[2 + a * 4], d'[1 + a * 4], d'[a * 4]);
    }
    forall i | 0 <= i < 16
      ensures d[i] == d'[i]
    {
      var a := i / 4;
      assert d[a * 4..a * 4 + 4][i - a * 4] == d'[a * 4..a * 4 + 4][i - a * 4];
    }
  }

  // ---------------------------------------------------------------- building the ring

  // Point number n of a server, 0 <= n < 160.
  function Point(md5: Md5, s: Server, n: nat): (pos: nat)
    requires n < POINTS_PER_SERVER
    ensures pos < TWO_32
  {
    KetamaHash(md5, KeyForPoint(s.Host(), n / 4), n % 4)
  }

  // The ring before point n of server i was inserted, if no CHECK failed so far.
  function Insert(r: Option<Resources>, pos: nat, s: Server): Option<Resources> {
    if r.None? || pos in r.value then None else Some(r.value[pos := s])
  }

  function AddPoints(md5: Md5, r: Option<Resources>, s: Server, n: nat): Option<Resources>
    requires n <= POINTS_PER_SERVER
    decreases n, s
  {
    if n == 0 then r else Insert(AddPoints(md5, r, s, n - 1), Point(md5, s, n - 1), s)
  }

  function Build(md5: Md5, servers: seq<Server>): Option<Resources> {
    if servers == [] then Some(map[])
    else AddPoints(md5, Build(md5, servers[..|servers| - 1]), servers[|servers| - 1], POINTS_PER_SERVER)
  }

  /** The constructor's three loops; None when an insertion CHECK fails. */
  method Construct(md5: Md5, servers: seq<Server>) returns (resources: Option<Resources>)
    ensures resources == Build(md5, servers)
  {
    hide Insert, Point;
    resources := Some(map[]);
    var i := 0;
    assert servers[..0] == [];
    while i < |servers|
      invariant 0 <= i <= |servers|
      invariant resources == Build(md5, servers[..i])
    {
      var s := servers[i];
      assert servers[..i + 1][..i] == servers[..i];
      ghost var before := resources;
      var j := 0;
      while j < KEYS_PER_SERVER
        invariant 0 <= j <= KEYS_PER_SERVER
        invariant resources == AddPoints(md5, before, s, 4 * j)
      {
        var key := KeyForPoint(s.Host(), j);
        var alignment := 0;
        while alignment < ALIGNMENTS
          invariant 0 <= alignment <= ALIGNMENTS
          invariant resources == AddPoints(md5, before, s, 4 * j + alignment)
        {
          PointAt(md5, s, j, alignment);
          resources := Insert(resources, KetamaHash(md5, key, alignment), s);
          alignment := alignment + 1;
        }
        j := j + 1;
      }
      i := i + 1;
    }
    assert servers[..i] == servers;
  }

  lemma PointAt(md5: Md5, s: Server, j: nat, alignment: nat)
    requires j < KEYS_PER_SERVER && alignment < ALIGNMENTS
    ensures Point(md5, s, 4 * j + alignment) == KetamaHash(md5, KeyForPoint(s.Host(), j), alignment)
  {
    assert (4 * j + alignment) / 4 == j && (4 * j + alignment) % 4 == alignment;
  }

  // ---------------------------------------------------------------- when the constructor's checks pass

  // Server i's point n and server j's point m do not collide.
  ghost predicate Apart(md5: Md5, s: Server, n: nat, t: Server, m: nat)
    requires n < POINTS_PER_SERVER && m < POINTS_PER_SERVER
  {
    Point(md5, s, n) != Point(md5, t, m)
  }

  ghost predicate SelfApart(md5: Md5, s: Server) {
    forall n: nat, m: nat :: n < m < POINTS_PER_SERVER ==> Apart(md5, s, n, s, m)
  }

  ghost predicate AllApart(md5: Md5, s: Server, t: Server) {
    forall n: nat, m: nat :: n < POINTS_PER_SERVER && m < POINTS_PER_SERVER ==> Apart(md5, s, n, t, m)
  }

  /** No two points of the list, taken with their server, share a position. */
  ghost predicate Collisionless(md5: Md5, servers: seq<Server>) {
    && (forall s :: s in servers ==> SelfApart(md5, s))
    && (forall i, j :: 0 <= i < j < |servers| ==> AllApart(md5, servers[i], servers[j]))
  }

  ghost predicate IsPoint(md5: Md5, s: Server, x: nat, count: nat)
    requires count <= POINTS_PER_SERVER
  {
    exists n: nat :: n < count && Point(md5, s, n) == x
  }

  ghost predicate Free(md5: Md5, r: Resources, s: Server, count: nat)
    requires count <= POINTS_PER_SERVER
  {
    forall n: nat :: n < count ==> Point(md5, s, n) !in r
  }

  ghost predicate Spread(md5: Md5, s: Server, count: nat)
    requires count <= POINTS_PER_SERVER
  {
    forall n: nat, m: nat :: n < m < count ==> Apart(md5, s, n, s, m)
  }

  /** r' is r with the first `count` points of s. */
  ghost predicate Extended(md5: Md5, r: Resources, s: Server, count: nat, r': Resources)
    requires count <= POINTS_PER_SERVER
  {
    && |r'| == |r| + count
    && (forall x :: x in r' <==> x in r || IsPoint(md5, s, x, count))
    && (forall x :: x in r ==> r'[x] == r[x])
    && (forall x :: IsPoint(md5, s, x, count) ==> x in r' && r'[x] == s)
  }

  lemma OneMore(md5: Md5, r: Resources, s: Server, n: nat)
    requires n < POINTS_PER_SERVER
    ensures Free(md5, r, s, n + 1) <==> Free(md5, r, s, n) && Point(md5, s, n) !in r
    ensures Spread(md5, s, n + 1) <==> Spread(md5, s, n) && !IsPoint(md5, s, Point(md5, s, n), n)
    ensures forall x :: IsPoint(md5, s, x, n + 1) <==> x == Point(md5, s, n) || IsPoint(md5, s, x, n)
  {
    hide Point;
    if Spread(md5, s, n) && !IsPoint(md5, s, Point(md5, s, n), n) {
      forall a: nat, b: nat | a < b < n + 1
        ensures Apart(md5, s, a, s, b)
      {
      }
    }
    if Spread(md5, s, n + 1) {
      forall a: nat | a < n
        ensures Point(md5, s, a) != Point(md5, s, n)
      {
        assert Apart(md5, s, a, s, n);
      }
      forall a: nat, b: nat | a < b < n
        ensures Apart(md5, s, a, s, b)
      {
        assert b < n + 1;
      }
      assert Spread(md5, s, n);
    }
  }

  lemma ExtendedNext(md5: Md5, r: Resources, s: Server, n: nat, before: Resources)
    requires n < POINTS_PER_SERVER && Extended(md5, r, s, n, before) && Point(md5, s, n) !in before
    ensures Extended(md5, r, s, n + 1, before[Point(md5, s, n) := s])
  {
    hide Point, IsPoint;
    OneMore(md5, r, s, n);
    var pos := Point(md5, s, n);
    var r' := before[pos := s];
    assert r'.Keys == before.Keys + {pos};
  }

  lemma {:induction false} AddPointsMeans(md5: Md5, r: Resources, s: Server, count: nat)
    requires count <= POINTS_PER_SERVER
    ensures AddPoints(md5, Some(r), s, count).Some? <==> Free(md5, r, s, count) && Spread(md5, s, count)
    ensures AddPoints(md5, Some(r), s, count).Some? ==>
      Extended(md5, r, s, count, AddPoints(md5, Some(r), s, count).value)
    decreases count
  {
    if count > 0 {
      hide Point, IsPoint, Free, Spread;
      var n := count - 1;
      AddPointsMeans(md5, r, s, n);
      OneMore(md5, r, s, n);
      var before, pos := AddPoints(md5, Some(r), s, n), Point(md5, s, n);
      if before.Some? {
        assert pos in before.value <==> pos in r || IsPoint(md5, s, pos, n);
        hide Extended;
        if pos !in before.value {
          ExtendedNext(md5, r, s, n, before.value);
        }
      }
    }
  }

  /** What a ring is: position x belongs to s exactly when it is a point of the listed server s. */
  ghost predicate Describes(md5: Md5, servers: seq<Server>, r: Resources) {
    && (forall x :: x in r ==> r[x] in servers && IsPoint(md5, r[x], x, POINTS_PER_SERVER))
    && (forall s, x :: s in servers && IsPoint(md5, s, x, POINTS_PER_SERVER) ==> x in r && r[x] == s)
  }

  /**
   The constructor passes all its checks exactly when no two points collide; the ring then holds
   160 points per server, each under its own server.
   */
  lemma {:induction false} BuildMeans(md5: Md5, servers: seq<Server>)
    ensures Build(md5, servers).Some? <==> Collisionless(md5, servers)
    ensures Build(md5, servers).Some? ==>
      && |Build(md5, servers).value| == 160 * |servers|
      && Describes(md5, servers, Build(md5, servers).value)
    decreases |servers|
  {
    if servers != [] {
      hide Apart, Point, AddPoints, IsPoint, Free, Spread;
      var n := |servers| - 1;
      var rest, s := servers[..n], servers[n];
      BuildMeans(md5, rest);
      assert Collisionless(md5, servers) ==> Collisionless(md5, rest);
      if Build(md5, rest).Some? {
        var r := Build(md5, rest).value;
        AddPointsMeans(md5, r, s, POINTS_PER_SERVER);
        NewServerFits(md5, servers, r);
        if Build(md5, servers).Some? {
          Grows(md5, servers, r, Build(md5, servers).value);
        }
      } else {
        assert Build(md5, servers).None? by { NoneStays(md5, s, POINTS_PER_SERVER); }
      }
    }
  }

  lemma {:induction false} NoneStays(md5: Md5, s: Server, n: nat)
    requires n <= POINTS_PER_SERVER
    ensures AddPoints(md5, None, s, n).None?
    decreases n
  {
    hide Point;
    if n > 0 {
      NoneStays(md5, s, n - 1);
    }
  }

  lemma NewServerFits(md5: Md5, servers: seq<Server>, r: Resources)
    requires servers != [] && Collisionless(md5, servers[..|servers| - 1])
    requires Describes(md5, servers[..|servers| - 1], r)
    ensures var s := servers[|servers| - 1];
      Collisionless(md5, servers) <==>
        Free(md5, r, s, POINTS_PER_SERVER) && Spread(md5, s, POINTS_PER_SERVER)
  {
    hide Point;
    var k := |servers| - 1;
    var rest, s := servers[..k], servers[k];
    assert forall t :: t in servers <==> t in rest || t == s;
    FreeMeans(md5, rest, s, r);
    assert SelfApart(md5, s) <==> Spread(md5, s, POINTS_PER_SERVER);
    assert forall i :: 0 <= i < k ==> rest[i] == servers[i];
    hide SelfApart, AllApart, Free, Spread, Describes;
  }

  lemma Clash(md5: Md5, rest: seq<Server>, s: Server, r: Resources, n: nat) returns (i: nat)
    requires Describes(md5, rest, r) && n < POINTS_PER_SERVER && Point(md5, s, n) in r
    ensures i < |rest| && !AllApart(md5, rest[i], s)
  {
    hide Point;
    var x := Point(md5, s, n);
    var m: nat :| m < POINTS_PER_SERVER && Point(md5, r[x], m) == x;
    i :| 0 <= i < |rest| && rest[i] == r[x];
    assert !Apart(md5, rest[i], m, s, n);
  }

  lemma FreeMeans(md5: Md5, rest: seq<Server>, s: Server, r: Resources)
    requires Describes(md5, rest, r)
    ensures Free(md5, r, s, POINTS_PER_SERVER) <==> forall i :: 0 <= i < |rest| ==> AllApart(md5, rest[i], s)
  {
    hide Point;
    if !Free(md5, r, s, POINTS_PER_SERVER) {
      var n: nat :| n < POINTS_PER_SERVER && Point(md5, s, n) in r;
      var i := Clash(md5, rest, s, r, n);
    } else {
      forall i | 0 <= i < |rest|
        ensures AllApart(md5, rest[i], s)
      {
        forall n: nat, m: nat | n < POINTS_PER_SERVER && m < POINTS_PER_SERVER
          ensures Apart(md5, rest[i], n, s, m)
        {
          assert rest[i] in rest && IsPoint(md5, rest[i], Point(md5, rest[i], n), POINTS_PER_SERVER);
        }
      }
    }
  }

  lemma Grows(md5: Md5, servers: seq<Server>, r: Resources, r': Resources)
    requires servers != [] && Describes(md5, servers[..|servers| - 1], r)
    requires Extended(md5, r, servers[|servers| - 1], POINTS_PER_SERVER, r')
    ensures Describes(md5, servers, r')
  {
    hide IsPoint;
    var rest, s := servers[..|servers| - 1], servers[|servers| - 1];
    assert forall t :: t in servers <==> t in rest || t == s;
  }

  /** Two servers of a ring never share a host name. */
  lemma HostnamesDistinct(md5: Md5, servers: seq<Server>, i: nat, j: nat)
    requires Build(md5, servers).Some? && i < j < |servers|
    ensures servers[i].Host() != servers[j].Host()
  {
    BuildMeans(md5, servers);
    assert AllApart(md5, servers[i], servers[j]);
    assert Apart(md5, servers[i], 0, servers[j], 0);
  }

  // ---------------------------------------------------------------- order and membership

  lemma SameRing(md5: Md5, a: seq<Server>, b: seq<Server>, r: Resources, r': Resources)
    requires Describes(md5, a, r) && Describes(md5, b, r') && forall s :: s in a <==> s in b
    ensures r == r'
  {
    hide IsPoint;
    assert r.Keys == r'.Keys;
  }

  lemma Twice(b: seq<Server>, i: nat, j: nat)
    requires i < j < |b| && b[i] == b[j]
    ensures multiset(b)[b[i]] >= 2
  {
    assert b == b[..j] + [b[j]] + b[j + 1..];
    assert b[..j][i] == b[i];
  }

  lemma NeverSelf(md5: Md5, s: Server)
    ensures !AllApart(md5, s, s)
  {
    assert !Apart(md5, s, 0, s, 0);
  }

  lemma NotTwice(md5: Md5, a: seq<Server>, s: Server)
    requires Collisionless(md5, a)
    ensures multiset(a)[s] <= 1
  {
    hide AllApart, SelfApart;
    if s in a {
      var i :| 0 <= i < |a| && a[i] == s;
      forall j | 0 <= j < |a| && j != i
        ensures a[j] != s
      {
        NeverSelf(md5, s);
        assert if i < j then AllApart(md5, a[i], a[j]) else AllApart(md5, a[j], a[i]);
      }
      Seqs.Once(a, i);
    }
  }

  lemma ApartAsListed(md5: Md5, a: seq<Server>, s: Server, t: Server)
    requires Collisionless(md5, a) && s in a && t in a && s != t
    ensures AllApart(md5, s, t)
  {
    hide Point;
    var i :| 0 <= i < |a| && a[i] == s;
    var j :| 0 <= j < |a| && a[j] == t;
    if j < i {
      assert AllApart(md5, t, s);
      forall n: nat, m: nat | n < POINTS_PER_SERVER && m < POINTS_PER_SERVER
        ensures Apart(md5, s, n, t, m)
      {
        assert Apart(md5, t, m, s, n);
      }
    }
  }

  /** A list contained in a collisionless one, with no more copies of anything, is collisionless. */
  lemma SublistCollisionless(md5: Md5, a: seq<Server>, b: seq<Server>)
    requires Collisionless(md5, a) && multiset(b) <= multiset(a)
    ensures Collisionless(md5, b)
  {
    hide SelfApart, AllApart;
    assert forall s :: s in b ==> s in a by {
      forall s | s in b ensures s in a {
        assert multiset(b)[s] > 0;
      }
    }
    forall i, j | 0 <= i < j < |b|
      ensures AllApart(md5, b[i], b[j])
    {
      NotTwice(md5, a, b[i]);
      assert b[i] != b[j] by {
        if b[i] == b[j] { Twice(b, i, j); }
      }
      assert b[i] in b && b[j] in b;
      ApartAsListed(md5, a, b[i], b[j]);
    }
  }

  lemma PermutedRing(md5: Md5, a: seq<Server>, b: seq<Server>)
    requires multiset(a) == multiset(b) && Build(md5, a).Some?
    ensures Build(md5, b) == Build(md5, a)
  {
    hide Collisionless, Describes, Build;
    BuildMeans(md5, a);
    SublistCollisionless(md5, a, b);
    BuildMeans(md5, b);
    forall s
      ensures s in a <==> s in b
    {
      assert multiset(a)[s] == multiset(b)[s];
    }
    SameRing(md5, a, b, Build(md5, a).value, Build(md5, b).value);
  }

  /** The order of the server list does not matter, not even to whether the constructor aborts. */
  lemma OrderDoesNotMatter(md5: Md5, a: seq<Server>, b: seq<Server>)
    requires multiset(a) == multiset(b)
    ensures Build(md5, b) == Build(md5, a)
  {
    hide Build;
    if Build(md5, a).Some? {
      PermutedRing(md5, a, b);
    } else if Build(md5, b).Some? {
      PermutedRing(md5, b, a);
    }
  }

  // ---------------------------------------------------------------- lookup

  // The clockwise way from h to x on the circle.
  function Clockwise(h: nat, x: nat): int {
    if x >= h then x - h else x - h + TWO_32
  }

  lemma LeastExists(s: set<nat>)
    requires s != {}
    ensures exists x :: x in s && forall y :: y in s ==> x <= y
  {
    var x :| x in s;
    while exists y :: y in s && y < x
      invariant x in s
      decreases x
    {
      var y :| y in s && y < x;
      x := y;
    }
  }

  function Least(s: set<nat>): (x: nat)
    requires s != {}
    ensures x in s && forall y :: y in s ==> x <= y
  {
    LeastExists(s);
    var x :| x in s && forall y :: y in s ==> x <= y;
    x
  }

  // lower_bound, or begin when there is none.
  function PositionFor(r: Resources, h: nat): (x: nat)
    requires r.Keys != {}
    ensures x in r
  {
    var above := set x | x in r && x >= h;
    if above != {} then Least(above) else Least(r.Keys)
  }

  function ServerForHash(r: Resources, h: nat): Server
    requires r.Keys != {}
  {
    r[PositionFor(r, h)]
  }

  predicate OnCircle(r: Resources) {
    forall x :: x in r ==> x < TWO_32
  }

  /** The lookup finds the point at least clockwise distance, and it is the only one there. */
  lemma LookupIsNearest(r: Resources, h: nat, y: nat)
    requires r.Keys != {} && OnCircle(r) && h < TWO_32 && y in r
    ensures Clockwise(h, PositionFor(r, h)) <= Clockwise(h, y)
    ensures Clockwise(h, PositionFor(r, h)) == Clockwise(h, y) ==> y == PositionFor(r, h)
  {
    var above := set x | x in r && x >= h;
    assert y >= h ==> y in above;
  }

  lemma RingOnCircle(md5: Md5, servers: seq<Server>)
    requires Build(md5, servers).Some?
    ensures OnCircle(Build(md5, servers).value)
    ensures servers != [] ==> Build(md5, servers).value.Keys != {}
  {
    BuildMeans(md5, servers);
    var r := Build(md5, servers).value;
    if servers != [] {
      assert IsPoint(md5, servers[0], Point(md5, servers[0], 0), POINTS_PER_SERVER);
      assert Point(md5, servers[0], 0) in r;
    }
  }

  // A larger ring whose additional points all belong to s.
  lemma LookupMovesOnlyTo(r: Resources, r': Resources, s: Server, h: nat)
    requires r.Keys != {} && OnCircle(r') && h < TWO_32
    requires forall x :: x in r ==> x in r' && r'[x] == r[x]
    requires forall x :: x in r' && x !in r ==> r'[x] == s
    ensures r'.Keys != {}
    ensures ServerForHash(r', h) == ServerForHash(r, h) || ServerForHash(r', h) == s
  {
    var x := PositionFor(r, h);
    assert x in r';
    var y := PositionFor(r', h);
    if y in r {
      LookupIsNearest(r, h, y);
      LookupIsNearest(r', h, x);
    }
  }

  /**
   Consistent hashing: with a server added anywhere in the list, a hash keeps its server or moves to
   the new one.  Read backwards: removing a server moves only the hashes it had.
   */
  lemma AddingMovesOnlyToNew(md5: Md5, a: seq<Server>, s: Server, b: seq<Server>, h: nat)
    requires Build(md5, a + [s] + b).Some? && a + b != [] && h < TWO_32
    ensures Build(md5, a + b).Some? && Build(md5, a + b).value.Keys != {}
    ensures Build(md5, a + [s] + b).value.Keys != {}
    ensures var r, r' := Build(md5, a + b).value, Build(md5, a + [s] + b).value;
      && (ServerForHash(r', h) == ServerForHash(r, h) || ServerForHash(r', h) == s)
      && (ServerForHash(r', h) != s ==> ServerForHash(r, h) == ServerForHash(r', h))
  {
    hide Collisionless, Build, ServerForHash;
    var less, more := a + b, a + [s] + b;
    BuildMeans(md5, more);
    SublistCollisionless(md5, more, less);
    BuildMeans(md5, less);
    RingOnCircle(md5, more);
    RingOnCircle(md5, less);
    var r, r' := Build(md5, less).value, Build(md5, more).value;
    assert forall t :: t in less ==> t in more;
    assert forall t :: t in more ==> t in less || t == s;
    Extends(md5, less, more, s, r, r');
    LookupMovesOnlyTo(r, r', s, h);
  }

  lemma Extends(md5: Md5, less: seq<Server>, more: seq<Server>, s: Server, r: Resources, r': Resources)
    requires Describes(md5, less, r) && Describes(md5, more, r')
    requires forall t :: t in less ==> t in more
    requires forall t :: t in more ==> t in less || t == s
    ensures forall x :: x in r ==> x in r' && r'[x] == r[x]
    ensures forall x :: x in r' && x !in r ==> r'[x] == s
  {
    hide IsPoint;
  }
}
