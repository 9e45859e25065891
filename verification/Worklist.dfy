/**
 The class-registration worklist of the binding generator: a class whose base is still waiting goes
 to the back of the list, a class whose base is not declared anywhere is dropped.
 */
module Worklist {
  import opened Wire

  type Class = nat

  const MAX_POSTPONEMENTS := 10

  datatype Input = Input(
    bases: Class -> seq<Class>,       // in declaration order
    ignored: Class -> bool,           // dropped before its bases are looked at
    registeredBefore: set<Class>)

  // The first base that is not registered yet.
  function FirstMissing(bases: seq<Class>, registered: set<Class>): (r: Option<Class>)
    ensures r.None? <==> forall b :: b in bases ==> b in registered
    ensures r.Some? ==> r.value in bases && r.value !in registered
  {
    if bases == [] then None
    else if bases[0] !in registered then Some(bases[0])
    else FirstMissing(bases[1..], registered)
  }

  ghost predicate Acyclic(input: Input, depth: Class -> nat) {
    forall c, b :: b in input.bases(c) ==> depth(b) < depth(c)
  }

  predicate Distinct(xs: seq<Class>) {
    forall i, j :: 0 <= i < j < |xs| ==> xs[i] != xs[j]
  }

  function AsSet(xs: seq<Class>): set<Class> { set x | x in xs }

  function Registered(input: Input, order: seq<Class>): set<Class> {
    input.registeredBefore + AsSet(order)
  }

  /** Every class comes after all its bases. */
  ghost predicate BasesFirst(input: Input, order: seq<Class>) {
    forall i, b :: 0 <= i < |order| && b in input.bases(order[i]) ==> b in Registered(input, order[..i])
  }

  // The list is in rounds: counts never fall along it and span at most one step.
  ghost predicate InRounds(list: seq<Class>, counts: map<Class, nat>) {
    && (forall c :: c in list ==> c in counts)
    && (forall i, j :: 0 <= i < j < |list| ==> counts[list[i]] <= counts[list[j]] <= counts[list[0]] + 1)
  }

  ghost predicate WithinDepth(depth: Class -> nat, counts: map<Class, nat>) {
    forall c :: c in counts ==> counts[c] <= depth(c)
  }

  // Why a class that left the list was not registered.
  ghost predicate Dropped(input: Input, c: Class, list: seq<Class>, order: seq<Class>) {
    input.ignored(c) || exists b :: b in input.bases(c) && b !in Registered(input, order) && b !in list
  }

  ghost predicate Settled(input: Input, classes: seq<Class>, list: seq<Class>, order: seq<Class>) {
    forall c :: c in classes ==> c in list || c in order || Dropped(input, c, list, order)
  }

  // Remaining work: each turn shortens the list or uses up a postponement.
  ghost function Slack(depth: Class -> nat, list: seq<Class>, counts: map<Class, nat>): int
    requires forall c :: c in list ==> c in counts
  {
    if list == [] then 0 else depth(list[0]) - counts[list[0]] + Slack(depth, list[1..], counts)
  }

  lemma {:induction false} SlackNonNegative(depth: Class -> nat, list: seq<Class>, counts: map<Class, nat>)
    requires (forall c :: c in list ==> c in counts) && WithinDepth(depth, counts)
    ensures Slack(depth, list, counts) >= 0
    decreases |list|
  {
    if list != [] {
      SlackNonNegative(depth, list[1..], counts);
    }
  }

  lemma {:induction false} SlackAppend(depth: Class -> nat, list: seq<Class>, counts: map<Class, nat>, c: Class, n: nat)
    requires (forall x :: x in list ==> x in counts && x != c)
    ensures Slack(depth, list + [c], counts[c := n]) == Slack(depth, list, counts) + depth(c) - n
    decreases |list|
  {
    if list == [] {
      assert (list + [c])[1..] == list;
    } else {
      assert forall x :: x in list[1..] ==> x in list;
      SlackAppend(depth, list[1..], counts, c, n);
      assert (list + [c])[1..] == list[1..] + [c];
    }
  }

  /** The base a class waits for has been postponed as often, so the class has depth to spare. */
  lemma PostponeWithinDepth(input: Input, depth: Class -> nat, list: seq<Class>, counts: map<Class, nat>, b: Class)
    requires list != [] && InRounds(list, counts) && WithinDepth(depth, counts) && Acyclic(input, depth)
    requires b in input.bases(list[0]) && b in list[1..]
    ensures counts[list[0]] + 1 <= depth(list[0])
  {
    var j :| 0 <= j < |list[1..]| && list[1..][j] == b;
    assert list[j + 1] == b;
  }

  lemma PostponeKeepsRounds(list: seq<Class>, counts: map<Class, nat>)
    requires list != [] && Distinct(list) && InRounds(list, counts)
    ensures InRounds(list[1..] + [list[0]], counts[list[0] := counts[list[0]] + 1])
  {
    var c, rest := list[0], list[1..];
    var list', counts' := rest + [c], counts[c := counts[c] + 1];
    assert forall i :: 0 <= i < |rest| ==> list'[i] == list[i + 1] && counts'[list'[i]] == counts[list[i + 1]];
  }

  lemma DropKeepsRounds(list: seq<Class>, counts: map<Class, nat>)
    requires list != [] && InRounds(list, counts)
    ensures InRounds(list[1..], counts)
  {
    var rest := list[1..];
    assert forall i :: 0 <= i < |rest| ==> rest[i] == list[i + 1];
  }

  ghost predicate Inv(
    input: Input, depth: Class -> nat, classes: seq<Class>,
    list: seq<Class>, order: seq<Class>, counts: map<Class, nat>)
  {
    && counts.Keys == AsSet(classes)
    && Distinct(list) && Distinct(order)
    && (forall c :: c in list ==> c in classes && c !in order)
    && (forall c :: c in order ==> c in classes && !input.ignored(c))
    && InRounds(list, counts) && WithinDepth(depth, counts)
    && BasesFirst(input, order)
    && Settled(input, classes, list, order)
  }

  lemma InvStart(input: Input, depth: Class -> nat, classes: seq<Class>)
    requires Distinct(classes)
    ensures Inv(input, depth, classes, classes, [], map c | c in classes :: 0)
  {
  }

  lemma InvDrop(
    input: Input, depth: Class -> nat, classes: seq<Class>,
    list: seq<Class>, order: seq<Class>, counts: map<Class, nat>)
    requires Inv(input, depth, classes, list, order, counts) && list != []
    requires input.ignored(list[0]) ||
      exists b :: b in input.bases(list[0]) && b !in Registered(input, order) && b !in list[1..]
    ensures Inv(input, depth, classes, list[1..], order, counts)
    ensures Slack(depth, list[1..], counts) <= Slack(depth, list, counts)
  {
    hide InRounds, BasesFirst, Settled, Registered;
    Popped(list);
    DropKeepsRounds(list, counts);
    SettledDrop(input, classes, list, order);
    CountsOf(list, counts);
  }

  lemma CountsOf(list: seq<Class>, counts: map<Class, nat>)
    requires InRounds(list, counts)
    ensures forall c :: c in list ==> c in counts
  {
  }

  lemma InvRegister(
    input: Input, depth: Class -> nat, classes: seq<Class>,
    list: seq<Class>, order: seq<Class>, counts: map<Class, nat>)
    requires Inv(input, depth, classes, list, order, counts) && list != [] && !input.ignored(list[0])
    requires forall b :: b in input.bases(list[0]) ==> b in Registered(input, order)
    ensures Inv(input, depth, classes, list[1..], order + [list[0]], counts)
    ensures Slack(depth, list[1..], counts) <= Slack(depth, list, counts)
  {
    hide InRounds, BasesFirst, Settled, Registered;
    Popped(list);
    DropKeepsRounds(list, counts);
    RegisterStep(input, classes, list, order);
    CountsOf(list, counts);
  }

  lemma InvPostpone(
    input: Input, depth: Class -> nat, classes: seq<Class>, list: seq<Class>,
    order: seq<Class>, counts: map<Class, nat>, b: Class)
    requires Inv(input, depth, classes, list, order, counts) && list != [] && Acyclic(input, depth)
    requires b in input.bases(list[0]) && b in list[1..]
    ensures list[0] in counts
    ensures var list', counts' := list[1..] + [list[0]], counts[list[0] := counts[list[0]] + 1];
      && Inv(input, depth, classes, list', order, counts')
      && (forall c :: c in list' ==> c in counts')
      && Slack(depth, list', counts') < Slack(depth, list, counts)
  {
    hide InRounds, BasesFirst, Settled, Registered, Acyclic;
    CountsOf(list, counts);
    Popped(list);
    PostponeWithinDepth(input, depth, list, counts, b);
    PostponeKeepsRounds(list, counts);
    SlackAppend(depth, list[1..], counts, list[0], counts[list[0]] + 1);
    SettledRotate(input, classes, list, order);
  }

  /**
   The worklist terminates.  It registers a class after all its bases, and registers exactly the
   classes that are not ignored and whose bases all get registered.  A class is postponed at most as
   often as it is deep in the inheritance graph.  It fails exactly when some class has been postponed
   ten times, which cannot happen when no class is deeper than nine.
   */
  method RegisterClasses(input: Input, classes: seq<Class>, ghost depth: Class -> nat)
    returns (failed: bool, order: seq<Class>, counts: map<Class, nat>)
    requires Distinct(classes) && Acyclic(input, depth)
    ensures counts.Keys == AsSet(classes) && WithinDepth(depth, counts)
    ensures BasesFirst(input, order) && Distinct(order) && forall c :: c in order ==> c in classes && !input.ignored(c)
    ensures !failed ==> forall c :: c in classes ==>
      (c in order <==> !input.ignored(c) && forall b :: b in input.bases(c) ==> b in Registered(input, order))
    ensures (forall c :: c in classes ==> depth(c) < 10) ==> !failed
    ensures failed <==> exists c :: c in counts && counts[c] >= 10
  {
    hide Inv, Acyclic, Distinct, InRounds, BasesFirst, Settled, Registered, WithinDepth, Slack, FirstMissing;
    order, counts := [], map c | c in classes :: 0;
    var list := classes;
    InvStart(input, depth, classes);
    while list != []
      invariant Inv(input, depth, classes, list, order, counts)
      invariant forall c :: c in list ==> c in counts
      invariant forall c :: c in counts ==> counts[c] < MAX_POSTPONEMENTS
      decreases Slack(depth, list, counts) + |list|
    {
      var c, rest := list[0], list[1..];
      SlackBound(input, depth, classes, list, order, counts);
      var missing := FirstMissing(input.bases(c), Registered(input, order));
      if input.ignored(c) {
        InvDrop(input, depth, classes, list, order, counts);
        list := rest;
      } else if missing.None? {
        InvRegister(input, depth, classes, list, order, counts);
        list, order := rest, order + [c];
      } else if missing.value !in rest {
        InvDrop(input, depth, classes, list, order, counts);
        list := rest;
      } else {
        InvPostpone(input, depth, classes, list, order, counts, missing.value);
        counts := counts[c := counts[c] + 1];
        list := rest + [c];
        if counts[c] >= MAX_POSTPONEMENTS {
          TooDeep(input, depth, classes, list, order, counts, c);
          failed := true;
          return;
        }
      }
    }
    failed := false;
    Finished(input, depth, classes, order, counts);
  }

  lemma SlackBound(
    input: Input, depth: Class -> nat, classes: seq<Class>,
    list: seq<Class>, order: seq<Class>, counts: map<Class, nat>)
    requires Inv(input, depth, classes, list, order, counts)
    ensures forall c :: c in list ==> c in counts
    ensures Slack(depth, list, counts) >= 0
  {
    hide BasesFirst, Settled;
    CountsOf(list, counts);
    SlackNonNegative(depth, list, counts);
  }

  lemma TooDeep(
    input: Input, depth: Class -> nat, classes: seq<Class>, list: seq<Class>,
    order: seq<Class>, counts: map<Class, nat>, c: Class)
    requires Inv(input, depth, classes, list, order, counts) && c in counts && counts[c] >= MAX_POSTPONEMENTS
    ensures c in classes && depth(c) >= MAX_POSTPONEMENTS
    ensures counts.Keys == AsSet(classes) && WithinDepth(depth, counts)
    ensures BasesFirst(input, order) && Distinct(order) && forall x :: x in order ==> x in classes && !input.ignored(x)
  {
    hide BasesFirst, Settled, InRounds;
  }

  lemma Finished(input: Input, depth: Class -> nat, classes: seq<Class>, order: seq<Class>, counts: map<Class, nat>)
    requires Inv(input, depth, classes, [], order, counts)
    ensures counts.Keys == AsSet(classes) && WithinDepth(depth, counts)
    ensures BasesFirst(input, order) && Distinct(order) && forall c :: c in order ==> c in classes && !input.ignored(c)
    ensures forall c :: c in classes ==>
      (c in order <==> !input.ignored(c) && forall b :: b in input.bases(c) ==> b in Registered(input, order))
  {
    AllSettled(input, classes, order);
  }

  lemma Popped(list: seq<Class>)
    requires list != [] && Distinct(list)
    ensures Distinct(list[1..]) && Distinct(list[1..] + [list[0]])
    ensures forall c :: c in list <==> c == list[0] || c in list[1..]
    ensures list[0] !in list[1..]
    ensures forall c :: c in list[1..] + [list[0]] <==> c in list
  {
  }

  lemma SettledDrop(input: Input, classes: seq<Class>, list: seq<Class>, order: seq<Class>)
    requires list != [] && Distinct(list) && Settled(input, classes, list, order)
    requires input.ignored(list[0]) ||
      exists b :: b in input.bases(list[0]) && b !in Registered(input, order) && b !in list[1..]
    ensures Settled(input, classes, list[1..], order)
  {
    Popped(list);
    forall c | c in classes
      ensures c in list[1..] || c in order || Dropped(input, c, list[1..], order)
    {
      if Dropped(input, c, list, order) && !input.ignored(c) {
        var b :| b in input.bases(c) && b !in Registered(input, order) && b !in list;
        assert b !in list[1..];
      }
    }
  }

  lemma SettledRotate(input: Input, classes: seq<Class>, list: seq<Class>, order: seq<Class>)
    requires list != [] && Distinct(list) && Settled(input, classes, list, order)
    ensures Settled(input, classes, list[1..] + [list[0]], order)
  {
    Popped(list);
  }

  lemma RegisterStep(input: Input, classes: seq<Class>, list: seq<Class>, order: seq<Class>)
    requires list != [] && Distinct(list) && Distinct(order)
    requires Settled(input, classes, list, order) && BasesFirst(input, order)
    requires list[0] !in order
    requires forall b :: b in input.bases(list[0]) ==> b in Registered(input, order)
    ensures Settled(input, classes, list[1..], order + [list[0]])
    ensures BasesFirst(input, order + [list[0]]) && Distinct(order + [list[0]])
  {
    Popped(list);
    var c, order' := list[0], order + [list[0]];
    forall x | x in classes
      ensures x in list[1..] || x in order' || Dropped(input, x, list[1..], order')
    {
      if Dropped(input, x, list, order) && !input.ignored(x) {
        var b :| b in input.bases(x) && b !in Registered(input, order) && b !in list;
        assert b !in Registered(input, order') && b !in list[1..];
      }
    }
    forall i, b | 0 <= i < |order'| && b in input.bases(order'[i])
      ensures b in Registered(input, order'[..i])
    {
      if i < |order| {
        assert order'[..i] == order[..i];
      } else {
        assert order'[..i] == order;
      }
    }
  }

  lemma AllSettled(input: Input, classes: seq<Class>, order: seq<Class>)
    requires Settled(input, classes, [], order) && BasesFirst(input, order)
    requires forall c :: c in order ==> !input.ignored(c)
    ensures forall c :: c in classes ==>
      (c in order <==> !input.ignored(c) && forall b :: b in input.bases(c) ==> b in Registered(input, order))
  {
    forall c | c in order
      ensures forall b :: b in input.bases(c) ==> b in Registered(input, order)
    {
      var i :| 0 <= i < |order| && order[i] == c;
    }
  }
}
