/** How the CodeLens listener nests tests under their classes, stated against
    a reference reading of the dispatcher's events that does not use the
    listener's state: which class entries are still open, and which id the
    k-th entry of a *Test class is owed. */
module CodeLensNesting {
  import opened Outcomes
  import opened Text
  import opened CodeLens

  /** How many *Test classes the events enter. */
  function TestEnters(events: seq<Event>): nat
    decreases |events|
  {
    if events == [] then 0
    else TestEnters(events[..|events| - 1]) + (if IsTestEnter(events[|events| - 1]) then 1 else 0)
  }

  /** The id owed to a class entered at position k: one more than the number
      of *Test classes entered before it. */
  function IdAt(events: seq<Event>, k: nat): int
    requires k <= |events|
  {
    1 + TestEnters(events[..k])
  }

  /** Positions of the class entries not yet matched by a leave, innermost last. */
  function Open(events: seq<Event>): (open: seq<nat>)
    ensures forall i :: 0 <= i < |open| ==> open[i] < |events| && events[open[i]].ClassEnter?
    decreases |events|
  {
    if events == [] then []
    else
      var prefix := events[..|events| - 1];
      var o := Open(prefix);
      assert forall i :: 0 <= i < |o| ==> events[o[i]] == prefix[o[i]];
      match events[|events| - 1]
      case ClassEnter(_) => o + [|events| - 1]
      case ClassLeave(_) => if o == [] then [] else o[..|o| - 1]
      case _ => o
  }

  /** Every leave closes the innermost open class, as a tree walk delivers them. */
  predicate WellNested(events: seq<Event>)
    decreases |events|
  {
    events == []
    || (var prefix := events[..|events| - 1];
        var o := Open(prefix);
        && WellNested(prefix)
        && (events[|events| - 1].ClassLeave? ==>
              o != [] && prefix[o[|o| - 1]].classNode == events[|events| - 1].classNode))
  }

  predicate Below(ps: seq<nat>, n: nat) {
    forall i :: 0 <= i < |ps| ==> ps[i] < n
  }

  /** The positions among ps that enter a *Test class. */
  function TestPositions(events: seq<Event>, ps: seq<nat>): (r: seq<nat>)
    requires Below(ps, |events|)
    ensures Below(r, |events|)
    ensures |r| <= |ps|
    ensures forall i :: 0 <= i < |r| ==> IsTestEnter(events[r[i]])
    decreases |ps|
  {
    if ps == [] then []
    else
      var p := ps[|ps| - 1];
      TestPositions(events, ps[..|ps| - 1]) + (if IsTestEnter(events[p]) then [p] else [])
  }

  /** The ids owed to the class entries at positions ps. */
  function Ids(events: seq<Event>, ps: seq<nat>): (r: seq<int>)
    requires Below(ps, |events| + 1)
    ensures |r| == |ps|
    decreases |ps|
  {
    if ps == [] then [] else Ids(events, ps[..|ps| - 1]) + [IdAt(events, ps[|ps| - 1])]
  }

  /** The positions of the open *Test classes, innermost last. */
  function OpenTestClasses(events: seq<Event>): seq<nat> {
    TestPositions(events, Open(events))
  }

  lemma IdAtExtend(e: seq<Event>, x: Event, k: nat)
    requires k <= |e|
    ensures IdAt(e + [x], k) == IdAt(e, k)
  {
    assert (e + [x])[..k] == e[..k];
  }

  lemma {:induction false} TestPositionsExtend(e: seq<Event>, x: Event, ps: seq<nat>)
    requires Below(ps, |e|)
    ensures TestPositions(e + [x], ps) == TestPositions(e, ps)
    decreases |ps|
  {
    if ps != [] {
      TestPositionsExtend(e, x, ps[..|ps| - 1]);
    }
  }

  lemma {:induction false} IdsExtend(e: seq<Event>, x: Event, ps: seq<nat>)
    requires Below(ps, |e| + 1)
    ensures Ids(e + [x], ps) == Ids(e, ps)
    decreases |ps|
  {
    if ps != [] {
      IdsExtend(e, x, ps[..|ps| - 1]);
      IdAtExtend(e, x, ps[|ps| - 1]);
    }
  }

  lemma PrefixOfSnoc(e: seq<Event>, x: Event)
    ensures (e + [x])[..|e + [x]| - 1] == e
    ensures (e + [x])[|e + [x]| - 1] == x
  {
  }

  /** A walk that got through all its events got through each prefix. */
  lemma {:induction false} RunPrefix(env: Env, events: seq<Event>, k: nat)
    requires k <= |events|
    requires Run(env, events).Ok?
    ensures Run(env, events[..k]).Ok?
    decreases |events|
  {
    if k < |events| {
      var prefix := events[..|events| - 1];
      RunPrefix(env, prefix, k);
      assert prefix[..k] == events[..k];
    } else {
      assert events[..k] == events;
    }
  }

  /** Group ids start at 1 and go up by one per *Test class entered. */
  lemma {:induction false} GroupIdCountsTestClasses(env: Env, events: seq<Event>)
    requires Run(env, events).Ok?
    ensures Run(env, events).value.groupId == 1 + TestEnters(events)
    decreases |events|
  {
    if events != [] {
      GroupIdCountsTestClasses(env, events[..|events| - 1]);
    }
  }

  /** Entering a class opens it; it counts among the open test classes when it is one. */
  lemma OpenTestClassesAfterEnter(e: seq<Event>, c: ClassNode)
    ensures OpenTestClasses(e + [ClassEnter(c)])
         == OpenTestClasses(e) + (if IsTestClass(c) then [|e|] else [])
  {
    var x := ClassEnter(c);
    var events := e + [x];
    PrefixOfSnoc(e, x);
    var o := Open(e);
    TestPositionsExtend(e, x, o);
    assert Open(events) == o + [|e|];
    assert (o + [|e|])[..|o|] == o;
    assert TestPositions(events, o + [|e|]) == TestPositions(events, o) + (if IsTestEnter(x) then [|e|] else []);
  }

  /** Appending a position appends the id owed to it. */
  lemma IdsSnoc(events: seq<Event>, ps: seq<nat>, p: nat)
    requires Below(ps, |events| + 1) && p <= |events|
    ensures Ids(events, ps + [p]) == Ids(events, ps) + [IdAt(events, p)]
  {
  }

  /** The stack invariant carried over entering a class: pushing the counter
      for a test class, keeping the stack otherwise. */
  lemma StackAfterEnter(e: seq<Event>, c: ClassNode, l: Listener, stack: seq<int>)
    requires l.stack == Ids(e, OpenTestClasses(e)) && l.groupId == 1 + TestEnters(e)
    requires stack == l.stack + (if IsTestClass(c) then [l.groupId] else [])
    ensures stack == Ids(e + [ClassEnter(c)], OpenTestClasses(e + [ClassEnter(c)]))
  {
    var x := ClassEnter(c);
    var tp := OpenTestClasses(e);
    OpenTestClassesAfterEnter(e, c);
    IdsExtend(e, x, tp);
    if IsTestClass(c) {
      IdsSnoc(e + [x], tp, |e|);
      IdAtEnd(e, x);
    } else {
      assert tp + [] == tp;
    }
  }

  lemma IdAtEnd(e: seq<Event>, x: Event)
    ensures IdAt(e + [x], |e|) == 1 + TestEnters(e)
  {
  }

  /** Leaving the innermost open class closes it; when it is a test class it
      was the innermost open test class. */
  lemma OpenTestClassesAfterLeave(e: seq<Event>, c: ClassNode)
    requires Open(e) != [] && e[Open(e)[|Open(e)| - 1]].classNode == c
    ensures IsTestClass(c) ==> OpenTestClasses(e) != []
    ensures OpenTestClasses(e + [ClassLeave(c)])
         == if IsTestClass(c) then OpenTestClasses(e)[..|OpenTestClasses(e)| - 1] else OpenTestClasses(e)
  {
    var x := ClassLeave(c);
    var events := e + [x];
    PrefixOfSnoc(e, x);
    var o := Open(e);
    var o' := o[..|o| - 1];
    assert Open(events) == o';
    var p := o[|o| - 1];
    assert TestPositions(e, o) == TestPositions(e, o') + (if IsTestEnter(e[p]) then [p] else []);
    TestPositionsExtend(e, x, o');
  }

  /** Dropping the last position drops the last id. */
  lemma IdsPop(events: seq<Event>, ps: seq<nat>)
    requires Below(ps, |events| + 1)
    ensures Pop(Ids(events, ps)) == Ids(events, if ps == [] then [] else ps[..|ps| - 1])
  {
  }

  /** The stack invariant carried over leaving the innermost open class. */
  lemma StackAfterLeave(e: seq<Event>, c: ClassNode, l: Listener)
    requires l.stack == Ids(e, OpenTestClasses(e))
    requires Open(e) != [] && e[Open(e)[|Open(e)| - 1]].classNode == c
    ensures OnClassLeave(l, c).stack == Ids(e + [ClassLeave(c)], OpenTestClasses(e + [ClassLeave(c)]))
  {
    var x := ClassLeave(c);
    var tp := OpenTestClasses(e);
    OpenTestClassesAfterLeave(e, c);
    var tp' := OpenTestClasses(e + [x]);
    IdsExtend(e, x, tp');
    if IsTestClass(c) {
      IdsPop(e, tp);
    }
  }

  /** The stack invariant carried over a def or call. */
  lemma StackAfterOther(e: seq<Event>, x: Event, l: Listener)
    requires !x.ClassEnter? && !x.ClassLeave?
    requires l.stack == Ids(e, OpenTestClasses(e))
    ensures l.stack == Ids(e + [x], OpenTestClasses(e + [x]))
  {
    PrefixOfSnoc(e, x);
    assert Open(e + [x]) == Open(e);
    TestPositionsExtend(e, x, Open(e));
    IdsExtend(e, x, OpenTestClasses(e));
  }

  /** For well-nested events the stack holds exactly the ids owed to the
      open *Test classes, innermost last; so its depth is the number of open
      *Test classes. */
  lemma {:induction false} StackHoldsOpenTestClassIds(env: Env, events: seq<Event>)
    requires WellNested(events)
    requires Run(env, events).Ok?
    ensures Run(env, events).value.stack == Ids(events, OpenTestClasses(events))
    ensures |Run(env, events).value.stack| == |OpenTestClasses(events)|
    decreases |events|
  {
    if events != [] {
      var e := events[..|events| - 1];
      var x := events[|events| - 1];
      assert events == e + [x];
      StackHoldsOpenTestClassIds(env, e);
      GroupIdCountsTestClasses(env, e);
      var l := Run(env, e).value;
      match x
      case ClassEnter(c) => StackAfterEnter(e, c, l, Run(env, events).value.stack);
      case ClassLeave(c) => StackAfterLeave(e, c, l);
      case DefEnter(_) => StackAfterOther(e, x, l);
      case CallEnter(_) => StackAfterOther(e, x, l);
    }
  }

  /** Every group id handed out lies between 1 and the counter, and group ids
      never decrease along the emitted lenses. */
  lemma {:induction false} GroupIdsIncrease(env: Env, events: seq<Event>)
    requires Run(env, events).Ok?
    ensures var l := Run(env, events).value;
            && (forall i :: 0 <= i < |l.lenses| && l.lenses[i].grouping.Some? && l.lenses[i].grouping.value.id.Some?
                  ==> 1 <= l.lenses[i].grouping.value.id.value < l.groupId)
            && (forall i, j :: 0 <= i < j < |l.lenses|
                  && l.lenses[i].grouping.Some? && l.lenses[i].grouping.value.id.Some?
                  && l.lenses[j].grouping.Some? && l.lenses[j].grouping.value.id.Some?
                  ==> l.lenses[i].grouping.value.id.value <= l.lenses[j].grouping.value.id.value)
    decreases |events|
  {
    if events != [] {
      var e := events[..|events| - 1];
      GroupIdsIncrease(env, e);
      GroupIdCountsTestClasses(env, e);
      var l := Run(env, e).value;
      var l' := Run(env, events).value;
      assert l.lenses <= l'.lenses;
      forall i | 0 <= i < |l.lenses|
        ensures l'.lenses[i] == l.lenses[i]
      {
      }
    }
  }

  /** The number of *Test classes entered only grows along the walk. */
  lemma {:induction false} TestEntersGrow(events: seq<Event>, a: nat, b: nat)
    requires a <= b <= |events|
    ensures TestEnters(events[..a]) <= TestEnters(events[..b])
    decreases b - a
  {
    if a < b {
      TestEntersGrow(events, a, b - 1);
      assert events[..b][..b - 1] == events[..b - 1];
    }
  }

  /** Each *Test class is owed a fresh id: smaller than the id owed to every
      later position, so larger than that of every *Test class entered
      before it. */
  lemma TestClassIdsAreFresh(events: seq<Event>, p: nat, q: nat)
    requires p < q <= |events| && IsTestEnter(events[p])
    ensures IdAt(events, p) < IdAt(events, q)
  {
    assert events[..p + 1][..p] == events[..p];
    assert events[..p + 1][p] == events[p];
    assert TestEnters(events[..p + 1]) == TestEnters(events[..p]) + 1;
    TestEntersGrow(events, p + 1, q);
  }

  /** A document without a path gets no test lens at all: whatever lenses it
      gets are route lenses. */
  lemma {:induction false} NoPathNoTestLenses(env: Env, events: seq<Event>)
    requires env.path.None?
    requires Run(env, events).Ok?
    ensures forall i :: 0 <= i < |Run(env, events).value.lenses| ==>
              Run(env, events).value.lenses[i].grouping.None?
    decreases |events|
  {
    if events != [] {
      var e := events[..|events| - 1];
      NoPathNoTestLenses(env, e);
      var l := Run(env, e).value;
      var l' := Run(env, events).value;
      forall i | 0 <= i < |l.lenses|
        ensures l'.lenses[i] == l.lenses[i]
      {
      }
    }
  }

  /** A *Test class entered at position p adds three group lenses whose id
      is the id owed to position p. */
  lemma TestClassEnteredAt(env: Env, events: seq<Event>, p: nat)
    requires Run(env, events).Ok?
    requires env.path.Some?
    requires p < |events| && IsTestEnter(events[p])
    ensures Run(env, events[..p]).Ok? && Run(env, events[..p + 1]).Ok?
    ensures var before := Run(env, events[..p]).value;
            var at := Run(env, events[..p + 1]).value;
            && |at.lenses| == |before.lenses| + 3
            && (forall i :: |before.lenses| <= i < |at.lenses| ==>
                  at.lenses[i].grouping.Some? && at.lenses[i].grouping.value.id == Some(IdAt(events, p)))
  {
    RunPrefix(env, events, p);
    RunPrefix(env, events, p + 1);
    var prefix := events[..p + 1];
    assert prefix[..|prefix| - 1] == events[..p];
    assert prefix[|prefix| - 1] == events[p];
    GroupIdCountsTestClasses(env, events[..p]);
    var before := Run(env, events[..p]).value;
    assert before.groupId == IdAt(events, p);
    GroupLensesCarryCounter(env, before, events[p].classNode);
  }

  /** The innermost open *Test class's own group lenses carry as group id
      the id it was given when it was entered. */
  lemma InnermostTestClassLenses(env: Env, events: seq<Event>)
    requires Run(env, events).Ok?
    requires env.path.Some?
    requires OpenTestClasses(events) != []
    ensures var p := OpenTestClasses(events)[|OpenTestClasses(events)| - 1];
            && Run(env, events[..p]).Ok? && Run(env, events[..p + 1]).Ok?
            && var before := Run(env, events[..p]).value;
               var at := Run(env, events[..p + 1]).value;
               && |at.lenses| == |before.lenses| + 3
               && (forall i :: |before.lenses| <= i < |at.lenses| ==>
                     at.lenses[i].grouping.Some? && at.lenses[i].grouping.value.id == Some(IdAt(events, p)))
  {
    var tp := OpenTestClasses(events);
    TestClassEnteredAt(env, events, tp[|tp| - 1]);
  }

  /** A test method entered after `events` gets three lenses whose group id
      is the id of the innermost open *Test class. */
  lemma NextExampleLenses(env: Env, events: seq<Event>, d: DefNode)
    requires WellNested(events)
    requires Run(env, events).Ok?
    requires env.path.Some? && StartsWith(d.name, "test_")
    requires OpenTestClasses(events) != []
    ensures var p := OpenTestClasses(events)[|OpenTestClasses(events)| - 1];
            var l := Run(env, events).value;
            var after := OnDefEnter(env, l, d);
            && |after.lenses| == |l.lenses| + 3
            && (forall i :: |l.lenses| <= i < |after.lenses| ==>
                  after.lenses[i].grouping.Some? && after.lenses[i].grouping.value.groupId == Some(IdAt(events, p)))
  {
    var tp := OpenTestClasses(events);
    var p := tp[|tp| - 1];
    StackHoldsOpenTestClassIds(env, events);
    var l := Run(env, events).value;
    assert Last(l.stack) == Some(IdAt(events, p));
    ExampleLensesGroupedUnderTop(env, l, d);
  }

  /** A `test "..." do` call entered after `events` gets three example
      lenses whose group id is the id of the innermost open *Test class. */
  lemma NextTestCallLenses(env: Env, events: seq<Event>, call: CallNode)
    requires WellNested(events)
    requires Run(env, events).Ok?
    requires env.path.Some? && call.testName.Some?
    requires OpenTestClasses(events) != []
    ensures var p := OpenTestClasses(events)[|OpenTestClasses(events)| - 1];
            var l := Run(env, events).value;
            var after := OnCallEnter(env, l, call);
            && |after.lenses| == |l.lenses| + 3
            && (forall i :: |l.lenses| <= i < |after.lenses| ==>
                  after.lenses[i].grouping == Some(Grouping(Some(IdAt(events, p)), Example, None)))
  {
    var tp := OpenTestClasses(events);
    var p := tp[|tp| - 1];
    StackHoldsOpenTestClassIds(env, events);
    var l := Run(env, events).value;
    assert Last(l.stack) == Some(IdAt(events, p));
  }

  /** A test method's lenses are grouped under the top of the stack. */
  lemma ExampleLensesGroupedUnderTop(env: Env, l: Listener, d: DefNode)
    requires env.path.Some? && StartsWith(d.name, "test_")
    ensures var after := OnDefEnter(env, l, d);
            && |after.lenses| == |l.lenses| + 3
            && (forall i :: |l.lenses| <= i < |after.lenses| ==>
                  after.lenses[i].grouping.Some? && after.lenses[i].grouping.value.groupId == Last(l.stack))
  {
  }

  /** Entering a test class adds its three group lenses, each carrying the
      counter's value as id. */
  lemma GroupLensesCarryCounter(env: Env, l: Listener, c: ClassNode)
    requires env.path.Some? && IsTestClass(c)
    ensures OnClassEnter(env, l, c).Ok?
    ensures var at := OnClassEnter(env, l, c).value;
            && |at.lenses| == |l.lenses| + 3
            && (forall i :: |l.lenses| <= i < |at.lenses| ==>
                  at.lenses[i].grouping.Some? && at.lenses[i].grouping.value.id == Some(l.groupId))
  {
    TestClassIsNotController(c);
    var at := OnClassEnter(env, l, c).value;
    var group := AddTestCodeLens(env, l, c.location, c.constantPath, ClassCommand(env), Group);
    assert at.lenses == l.lenses + group;
    forall i | |l.lenses| <= i < |at.lenses|
      ensures at.lenses[i] == group[i - |l.lenses|]
    {
    }
  }

  lemma LastCharOfSuffix(s: string, t: string)
    requires t != [] && EndsWith(s, t)
    ensures s[|s| - 1] == t[|t| - 1]
  {
  }

  /** No class name ends both in Test and in Controller. */
  lemma TestClassIsNotController(c: ClassNode)
    requires IsTestClass(c)
    ensures !IsController(c)
  {
    LastCharOfSuffix(c.constantPath, "Test");
    if EndsWith(c.constantPath, "Controller") {
      LastCharOfSuffix(c.constantPath, "Controller");
      assert false;
    }
  }
}
