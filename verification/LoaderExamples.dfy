/** Two runs that block, showing that the conditions of the deadlock theorems are
    needed.  The states along each run are written out. */
module LoaderExamples {
  import opened Prelude
  import opened Graph
  import opened LoaderState
  import opened LoaderInvariant
  import opened LoaderTheorems

  /** Nothing outside a closed set is reached from inside it. */
  lemma NoPathOut(g: Edges, closed: set<nat>, x: nat, z: nat)
    requires x in closed && z !in closed
    requires forall a: nat, b: nat :: a in closed && (a, b) in g ==> b in closed
    ensures !Reaches(g, x, z) && !ReachesByEdge(g, x, z)
  {
    if Reaches(g, x, z) {
      var p :| Connects(g, p, x, z);
      ClosedContains(g, closed, p);
    }
  }

  function Fresh(dep: Dependency): Module {
    NewModule([dep], false)
  }

  // ---------------------------------------------------------------- a plugin that needs its user

  // Module 3 needs resource 5 of plugin 4, and plugin 4 needs module 3.  The cycle
  // check sees 3 -> 5 and 4 -> 3, but not that 5 needs 4.

  const RESOURCE := Plugin(5, 4)

  function P1(): State {
    Initial().(limit := 6, modules := map[3 := Fresh(RESOURCE)], cursor := map[3 := 0],
               resolving := {3}, declared := map[3 := [RESOURCE]])
  }

  function P2(): State {
    P1().(cursor := map[3 := 1], inverse := map[5 := [3]], parked := map[4 := [RESOURCE]], known := {4})
  }

  function P3(): State {
    P2().(resolving := {})
  }

  function P4(): State {
    P3().(modules := map[3 := Fresh(RESOURCE), 4 := Fresh(Regular(3))], cursor := map[3 := 1, 4 := 0],
          resolving := {4}, declared := map[3 := [RESOURCE], 4 := [Regular(3)]])
  }

  function P5(): State {
    P4().(cursor := map[3 := 1, 4 := 1], inverse := map[5 := [3], 3 := [4]])
  }

  function P6(): State {
    P5().(resolving := {})
  }

  lemma PluginRun1()
    ensures Enabled(Initial(), Define(3, [RESOURCE], false, 6))
    ensures DefineStep(Initial(), 3, [RESOURCE], false, 6) == P1()
  {
  }

  lemma PluginRun2()
    ensures Enabled(P1(), ResolveNext(3)) && ResolveStep(P1(), 3) == P2()
  {
    var s, t := P1(), P2();
    NoPathOut(DependencyEdges(s.modules), {5}, 5, 3);
    var r := Wait(s, 3, RESOURCE);
    assert Waiters(s.inverse, 5) + [3] == [3] && Parked(s, 4) + [RESOURCE] == [RESOURCE];
    assert r.modules == t.modules && r.cursor == t.cursor && r.inverse == t.inverse;
    assert r.parked == t.parked && r.known == t.known;
  }

  lemma PluginRun3()
    ensures Enabled(P2(), FinishResolve(3)) && FinishStep(P2(), 3) == P3()
  {
  }
  lemma PluginRun4()
    ensures Enabled(P3(), Define(4, [Regular(3)], false, 6)) && DefineStep(P3(), 4, [Regular(3)], false, 6) == P4()
  {
  }

  lemma PluginRun5()
    ensures Enabled(P4(), ResolveNext(4)) && ResolveStep(P4(), 4) == P5()
  {
    NoPathOut(DependencyEdges(P4().modules), {3, 5}, 3, 4);
    PluginWait5();
  }

  lemma PluginWait5()
    ensures Wait(P4(), 4, Regular(3)) == P5()
  {
    var s, t := P4(), P5();
    var r := Wait(s, 4, Regular(3));
    assert Waiters(s.inverse, 3) + [4] == [4];
    assert r.modules == t.modules && r.cursor == t.cursor && r.inverse == t.inverse;
    assert r.parked == t.parked && r.known == t.known;
  }

  lemma PluginRun6()
    ensures Enabled(P5(), FinishResolve(4)) && FinishStep(P5(), 4) == P6()
  {
  }

  lemma PluginDeadlock()
    ensures exists s :: Reachable(s) && Quiescent(s) && AllLoaded(s) && !AllComplete(s) &&
              forall m :: m in s.modules ==> !s.modules[m].failed
  {
    PluginReached();
    PluginStuck();
  }

  lemma PluginReached()
    ensures Reachable(P6())
  {
    LeadsSelf(Initial());
    PluginRun1(); LeadsStep(Initial(), Initial(), Define(3, [RESOURCE], false, 6));
    PluginRun2(); LeadsStep(Initial(), P1(), ResolveNext(3));
    PluginRun3(); LeadsStep(Initial(), P2(), FinishResolve(3));
    PluginRun4(); LeadsStep(Initial(), P3(), Define(4, [Regular(3)], false, 6));
    PluginRun5(); LeadsStep(Initial(), P4(), ResolveNext(4));
    PluginRun6(); LeadsStep(Initial(), P5(), FinishResolve(4));
  }

  lemma PluginStuck()
    ensures Quiescent(P6()) && AllLoaded(P6()) && !AllComplete(P6()) && forall m :: m in P6().modules ==>
              !P6().modules[m].failed
  {
    assert 3 in P6().modules && !P6().modules[3].complete;
  }

  // ---------------------------------------------------------------- an error found while resolving

  // Module 3 waits for 4 and module 6 waits for 5.  The script of 5 fails, which also
  // fails 6.  When 4 is defined and needs 5, its `_resolve` gives up, and nobody tells
  // module 3.

  const FAILED_SCRIPT := Module(Some([]), 0, true, true, false)

  function A1(): State {
    Initial().(limit := 7, modules := map[3 := Fresh(Regular(4))], cursor := map[3 := 0],
               resolving := {3}, declared := map[3 := [Regular(4)]])
  }

  function A2(): State {
    A1().(cursor := map[3 := 1], inverse := map[4 := [3]], known := {4})
  }

  function A3(): State {
    A2().(resolving := {})
  }

  function A4(): State {
    A3().(modules := map[3 := Fresh(Regular(4)), 6 := Fresh(Regular(5))], cursor := map[3 := 1, 6 := 0],
          resolving := {6}, declared := map[3 := [Regular(4)], 6 := [Regular(5)]])
  }

  function A5(): State {
    A4().(cursor := map[3 := 1, 6 := 1], inverse := map[4 := [3], 5 := [6]], known := {4, 5})
  }

  function A6(): State {
    A5().(resolving := {})
  }

  // The walk of the load error: module 5, then module 6.

  function W1(): State {
    A6().(modules := map[3 := Fresh(Regular(4)), 6 := Fresh(Regular(5)), 5 := FAILED_SCRIPT],
          cursor := map[3 := 1, 6 := 1, 5 := 0], declared := map[3 := [Regular(4)], 6 := [Regular(5)], 5 := []],
          walks := Walks(multiset{}, multiset{5}))
  }

  function W2(): State {
    W1().(walks := Walks(multiset{6}, multiset{}))
  }

  function W3(): State {
    W2().(modules := map[3 := Fresh(Regular(4)), 6 := WithError(Fresh(Regular(5))), 5 := FAILED_SCRIPT],
          walks := Walks(multiset{}, multiset{6}))
  }

  function A7(): State {
    W3().(walks := NO_WALKS)
  }

  function A8(): State {
    A7().(modules := A7().modules[4 := Fresh(Regular(5))], cursor := A7().cursor[4 := 0],
          resolving := {4}, declared := A7().declared[4 := [Regular(5)]])
  }

  function A9(): State {
    A8().(modules := A7().modules[4 := Fresh(Regular(5)).(complete := true, failed := true)],
          resolving := {}, aborted := {4})
  }

  lemma AbortRun1()
    ensures Enabled(Initial(), Define(3, [Regular(4)], false, 7))
    ensures DefineStep(Initial(), 3, [Regular(4)], false, 7) == A1()
  {
  }

  lemma AbortRun2()
    ensures Enabled(A1(), ResolveNext(3)) && ResolveStep(A1(), 3) == A2()
  {
    var s, t := A1(), A2();
    NoPathOut(DependencyEdges(s.modules), {4}, 4, 3);
    var r := Wait(s, 3, Regular(4));
    assert Waiters(s.inverse, 4) + [3] == [3];
    assert r.modules == t.modules && r.cursor == t.cursor && r.inverse == t.inverse && r.known == t.known;
  }

  lemma AbortRun3()
    ensures Enabled(A2(), FinishResolve(3)) && FinishStep(A2(), 3) == A3()
  {
  }

  lemma AbortRun4()
    ensures Enabled(A3(), Define(6, [Regular(5)], false, 7)) && DefineStep(A3(), 6, [Regular(5)], false, 7) == A4()
  {
  }

  lemma AbortRun5()
    ensures Enabled(A4(), ResolveNext(6)) && ResolveStep(A4(), 6) == A5()
  {
    var s, t := A4(), A5();
    NoPathOut(DependencyEdges(s.modules), {5}, 5, 6);
    var r := Wait(s, 6, Regular(5));
    assert Waiters(s.inverse, 5) + [6] == [6];
    assert r.modules == t.modules && r.cursor == t.cursor && r.inverse == t.inverse && r.known == t.known;
  }

  lemma AbortRun6()
    ensures Enabled(A5(), FinishResolve(6)) && FinishStep(A5(), 6) == A6()
  {
  }

  lemma WalkRun1()
    ensures Enabled(A6(), LoadError(5)) && LoadErrorStep(A6(), 5) == W1()
  {
    var s, t := A6(), W1();
    var r := LoadErrorStep(s, 5);
    assert r.modules == t.modules && r.cursor == t.cursor && r.declared == t.declared;
  }

  lemma WalkRun2()
    ensures Enabled(W1(), QueueWaiting(5, {6})) && QueueStep(W1(), 5, {6}) == W2()
  {
    assert Waiters(W1().inverse, 5) == [6];
    assert multiset{} + multiset({6}) == multiset{6};
  }

  lemma WalkRun3()
    ensures Enabled(W2(), Notify(6)) && NotifyStep(W2(), 6) == W3()
  {
    assert NotifyStep(W2(), 6).modules == W3().modules;
  }

  lemma WalkRun4()
    ensures Enabled(W3(), QueueWaiting(6, {})) && QueueStep(W3(), 6, {}) == A7()
  {
    assert Waiters(W3().inverse, 6) == [];
  }

  lemma WalkRun()
    requires Reachable(A6())
    ensures Reachable(A7())
  {
    WalkRun1(); LeadsStep(Initial(), A6(), LoadError(5));
    WalkRun2(); LeadsStep(Initial(), W1(), QueueWaiting(5, {6}));
    WalkRun3(); LeadsStep(Initial(), W2(), Notify(6));
    WalkRun4(); LeadsStep(Initial(), W3(), QueueWaiting(6, {}));
  }

  lemma AbortRun8()
    ensures Enabled(A7(), Define(4, [Regular(5)], false, 7)) && DefineStep(A7(), 4, [Regular(5)], false, 7) == A8()
  {
  }

  lemma AbortRun9()
    ensures Enabled(A8(), ResolveNext(4)) && ResolveStep(A8(), 4) == A9()
  {
    assert Abort(A8(), 4).modules == A9().modules;
  }

  lemma AbortRun1To6()
    ensures Reachable(A6())
  {
    LeadsSelf(Initial());
    AbortRun1(); LeadsStep(Initial(), Initial(), Define(3, [Regular(4)], false, 7));
    AbortRun2(); LeadsStep(Initial(), A1(), ResolveNext(3));
    AbortRun3(); LeadsStep(Initial(), A2(), FinishResolve(3));
    AbortRun4(); LeadsStep(Initial(), A3(), Define(6, [Regular(5)], false, 7));
    AbortRun5(); LeadsStep(Initial(), A4(), ResolveNext(6));
    AbortRun6(); LeadsStep(Initial(), A5(), FinishResolve(6));
  }

  lemma AbortRunBlocked()
    ensures Quiescent(A9()) && AllLoaded(A9()) && !AllComplete(A9()) && A9().parked == map[]
  {
    assert 3 in A9().modules && !A9().modules[3].complete;
  }

  /** An error found inside `_resolve` can leave a module waiting for ever. */
  lemma AbortedDeadlock()
    ensures exists s :: Reachable(s) && Quiescent(s) && AllLoaded(s) && !AllComplete(s) && s.parked == map[]
  {
    AbortRun1To6();
    WalkRun();
    AbortRun8(); LeadsStep(Initial(), A7(), Define(4, [Regular(5)], false, 7));
    AbortRun9(); LeadsStep(Initial(), A8(), ResolveNext(4));
    AbortRunBlocked();
  }
}
