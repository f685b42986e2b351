/** A plugin that needs one of its own resources: some order of definitions makes it wait
    for ever. */
module LoaderUnsafe {
  import opened Prelude
  import opened Graph
  import opened LoaderState
  import opened LoaderInvariant
  import opened LoaderPreservation
  import opened LoaderTheorems

  // ---------------------------------------------------------------- programs

  type Program = map<nat, seq<Dependency>>

  ghost predicate IsResource(program: Program, r: nat) {
    exists p :: (r, p) in PluginEdges(program)
  }

  /** Ids that are not reserved; resources belong to one declared plugin, are not modules,
      and are only needed as resources. */
  ghost predicate Proper(program: Program) {
    && (forall m :: m in program ==> m >= FIRST_FREE_ID)
    && (forall r, p :: (r, p) in PluginEdges(program) ==> r >= FIRST_FREE_ID && r !in program && p in program)
    && (forall r, p, q :: (r, p) in PluginEdges(program) && (r, q) in PluginEdges(program) ==> p == q)
    && (forall m, i :: m in program && 0 <= i < |program[m]| && IsResource(program, Target(program[m][i])) ==>
          program[m][i].Plugin?)
  }

  /** An event of a run of the program without load errors: its modules are defined as it
      says, and a resource is defined when its plugin has been asked to load it. */
  ghost predicate Obeys(program: Program, s: State, e: Event) {
    && !e.LoadError?
    && (e.Define? ==>
         || (e.id in program && e.deps == program[e.id])
         || (IsResource(program, e.id) && e.id in s.known && e.deps == []))
  }

  ghost predicate Follows(program: Program, s: State, e: Event, t: State) {
    Enabled(s, e) && Obeys(program, s, e) && t == Apply(s, e)
  }

  ghost predicate ObeyRun(program: Program, states: seq<State>, events: seq<Event>) {
    && |states| == |events| + 1
    && forall i :: 0 <= i < |events| ==> Follows(program, states[i], events[i], states[i + 1])
  }

  ghost predicate ObeyLeads(program: Program, s: State, t: State) {
    exists states, events :: ObeyRun(program, states, events) && states[0] == s && states[|events|] == t
  }

  lemma ObeySelf(program: Program, s: State)
    ensures ObeyLeads(program, s, s)
  {
    assert ObeyRun(program, [s], []);
  }

  lemma ObeyStep(program: Program, s: State, t: State, e: Event, u: State)
    requires ObeyLeads(program, s, t) && Follows(program, t, e, u)
    ensures ObeyLeads(program, s, u)
  {
    var states, events :| ObeyRun(program, states, events) && states[0] == s && states[|events|] == t;
    ObeyExtend(program, states, events, e, u);
    assert (states + [u])[0] == s && (states + [u])[|events + [e]|] == u;
  }

  lemma ObeyExtend(program: Program, states: seq<State>, events: seq<Event>, e: Event, u: State)
    requires ObeyRun(program, states, events) && Follows(program, states[|events|], e, u)
    ensures ObeyRun(program, states + [u], events + [e])
  {
    var states1, events1 := states + [u], events + [e];
    forall i | 0 <= i < |events1| ensures Follows(program, states1[i], events1[i], states1[i + 1]) {
      if i < |events| { assert Follows(program, states[i], events[i], states[i + 1]); }
    }
  }

  // ---------------------------------------------------------------- what runs of the program keep

  ghost predicate DeclaredBy(program: Program, m: nat, deps: seq<Dependency>) {
    (m in program && deps == program[m]) || (m !in program && deps == [])
  }

  /** What is declared and parked comes from the program, and no load error is told. */
  ghost predicate Context(program: Program, s: State) {
    && s.walks == NO_WALKS
    && (forall m :: m in s.declared ==> m in s.modules && DeclaredBy(program, m, s.declared[m]))
    && (forall p, i :: p in s.parked && 0 <= i < |s.parked[p]| ==> DeclaredAt(program, s.parked[p][i], p))
  }

  lemma DeclaredPlugin(program: Program, m: nat, i: nat)
    requires m in program && i < |program[m]| && program[m][i].Plugin?
    ensures DeclaredAt(program, program[m][i], program[m][i].pluginId)
  {
  }

  lemma ContextDeclared(program: Program, s: State, t: State, e: Event)
    requires Proper(program) && Context(program, s) && Enabled(s, e) && Obeys(program, s, e) && t == Apply(s, e)
    ensures forall m :: m in t.declared ==> m in t.modules && DeclaredBy(program, m, t.declared[m])
  {
    DeclaredGrows(s, e);
    match e
    case ResolveNext(id) => ResolveGrows(s, id);
    case _ =>
  }

  lemma ContextWalks(s: State, t: State, e: Event)
    requires s.walks == NO_WALKS && Enabled(s, e) && !e.LoadError? && t == Apply(s, e)
    ensures t.walks == NO_WALKS
  {
    NoWalk(s, e);
    if e.ResolveNext? { ResolveKeepsWalks(s, t, e.id); }
  }

  lemma ResolveKeepsWalks(s: State, t: State, id: nat)
    requires Enabled(s, ResolveNext(id)) && t == ResolveStep(s, id)
    ensures t.walks == s.walks
  {
  }

  lemma ContextKept(program: Program, s: State, t: State, e: Event)
    requires Proper(program) && Context(program, s) && Enabled(s, e) && Obeys(program, s, e) && t == Apply(s, e)
    ensures Context(program, t)
  {
    ContextWalks(s, t, e);
    ContextDeclared(program, s, t, e);
    forall p, i | p in t.parked && 0 <= i < |t.parked[p]| ensures DeclaredAt(program, t.parked[p][i], p) {
      ParkedOrigin(s, t, e, p, i);
      if t.parked[p][i] in Parked(s, p) {
        var j :| 0 <= j < |s.parked[p]| && s.parked[p][j] == t.parked[p][i];
      } else {
        DeclaredPlugin(program, e.id, s.cursor[e.id]);
      }
    }
  }

  // ---------------------------------------------------------------- edges that stay

  /** Module x has been resolved and waits for y. */
  ghost predicate WaitsFor(s: State, x: nat, y: nat) {
    x in s.modules && !s.modules[x].complete && x !in s.resolving && x in Waiters(s.inverse, y)
  }

  /** Resource r is parked at p and has not been asked for. */
  ghost predicate ParkedFor(s: State, r: nat, p: nat) {
    r !in s.modules && r !in s.known && exists i :: 0 <= i < |Parked(s, p)| && Target(Parked(s, p)[i]) == r
  }

  lemma WaiterNotReady(s: State, x: nat, y: nat)
    requires Shape(s) && Counting(s) && Zero(s) && x in s.modules && x in Waiters(s.inverse, y)
    ensures x !in s.ready && x !in s.runs
  {
    WaiterIsOwed(s, x, y);
  }

  lemma RunningIsComplete(s: State, id: nat)
    requires Once(s) && (id in s.running || id in s.releasing)
    ensures Complete(s, id)
  {
  }

  /** One module is as complete as before and no more in resolution. */
  ghost predicate SameModule(s: State, t: State, x: nat) {
    && x in s.modules && x in t.modules && t.modules[x].complete == s.modules[x].complete
    && (x in t.resolving ==> x in s.resolving)
  }

  lemma ResolveOther(s: State, t: State, id: nat, x: nat, y: nat)
    requires Enabled(s, ResolveNext(id)) && t == ResolveStep(s, id) && x in s.modules && x != id
    ensures SameModule(s, t, x) && (x in Waiters(s.inverse, y) ==> x in Waiters(t.inverse, y))
  {
    ResolveModules(s, t, id);
    if x in Waiters(s.inverse, y) { ResolveWaiters(s, t, id, x, y); }
    ResolveResolving(s, t, id);
  }

  lemma ResolveResolving(s: State, t: State, id: nat)
    requires Enabled(s, ResolveNext(id)) && t == ResolveStep(s, id)
    ensures t.resolving <= s.resolving
  {
  }

  lemma ResolveWaiters(s: State, t: State, id: nat, x: nat, y: nat)
    requires Enabled(s, ResolveNext(id)) && t == ResolveStep(s, id) && x in Waiters(s.inverse, y)
    ensures x in Waiters(t.inverse, y)
  {
    var dep := s.declared[id][s.cursor[id]];
    if !Special(dep) { WaitWaiters(s, Wait(s, id, dep), id, dep, x, y); }
  }

  lemma WaitWaiters(s: State, t: State, id: nat, dep: Dependency, x: nat, y: nat)
    requires id in s.modules && id in s.cursor && !Special(dep) && t == Wait(s, id, dep) && x in Waiters(s.inverse, y)
    ensures x in Waiters(t.inverse, y)
  {
  }

  /** Other events than examining a dependency. */
  lemma OtherEvent(s: State, t: State, e: Event, x: nat, y: nat)
    requires Enabled(s, e) && t == Apply(s, e) && !e.ResolveNext? && !OfWalk(e) && x in s.modules
    requires e.Begin? || e.FinishResolve? || e.EndFactory? || e.Throw? ==> x != e.id
    requires e.EndFactory? ==> y != e.id
    ensures SameModule(s, t, x) && (x in Waiters(s.inverse, y) ==> x in Waiters(t.inverse, y))
  {
    OtherModule(s, t, e, x);
    OtherWaiters(s, t, e, y);
  }

  lemma OtherModule(s: State, t: State, e: Event, x: nat)
    requires Enabled(s, e) && t == Apply(s, e) && !e.ResolveNext? && !OfWalk(e) && x in s.modules
    requires e.Begin? || e.FinishResolve? || e.EndFactory? || e.Throw? ==> x != e.id
    ensures SameModule(s, t, x)
  {
  }

  lemma OtherWaiters(s: State, t: State, e: Event, y: nat)
    requires Enabled(s, e) && t == Apply(s, e) && !e.ResolveNext? && !OfWalk(e)
    requires e.EndFactory? ==> y != e.id
    ensures Waiters(t.inverse, y) == Waiters(s.inverse, y)
  {
  }

  lemma NoWalk(s: State, e: Event)
    requires s.walks == NO_WALKS && Enabled(s, e) && !e.LoadError?
    ensures !OfWalk(e)
  {
  }

  lemma WaitKept(s: State, t: State, e: Event, x: nat, y: nat)
    requires Shape(s) && Counting(s) && Zero(s) && Once(s)
    requires s.walks == NO_WALKS && Enabled(s, e) && !e.LoadError? && t == Apply(s, e)
    requires WaitsFor(s, x, y) && !Complete(s, y)
    ensures WaitsFor(t, x, y)
  {
    WaiterNotReady(s, x, y);
    NoWalk(s, e);
    if e.ResolveNext? {
      ResolveOther(s, t, e.id, x, y);
    } else {
      if e.EndFactory? || e.Throw? { RunningIsComplete(s, e.id); }
      OtherEvent(s, t, e, x, y);
    }
  }

  /** What is asked for and parked when a dependency is examined. */
  lemma ResolveAsks(s: State, t: State, id: nat, dep: Dependency)
    requires Enabled(s, ResolveNext(id)) && t == ResolveStep(s, id) && dep == s.declared[id][s.cursor[id]]
    ensures t.known <= s.known + (if dep.Plugin? && !Complete(s, dep.pluginId) then {dep.pluginId} else {Target(dep)})
    ensures t.modules.Keys == s.modules.Keys
    ensures forall p :: Parked(s, p) <= Parked(t, p)
  {
    ResolveGrows(s, id);
    ResolveParks(s, t, id, dep);
    if !Special(dep) { WaitAsks(s, Wait(s, id, dep), id, dep); }
  }

  lemma WaitAsks(s: State, t: State, id: nat, dep: Dependency)
    requires id in s.modules && id in s.cursor && !Special(dep) && t == Wait(s, id, dep)
    ensures t.known <= s.known + (if dep.Plugin? && !Complete(s, dep.pluginId) then {dep.pluginId} else {Target(dep)})
  {
  }

  lemma OnePlugin(program: Program, dep: Dependency, p: nat, r: nat, q: nat)
    requires Proper(program) && DeclaredAt(program, dep, q) && (r, p) in PluginEdges(program) && Target(dep) == r
    ensures q == p
  {
  }

  /** Examining a dependency of the program does not ask for a resource whose plugin is not
      complete. */
  lemma ResolveParkedKept(program: Program, s: State, t: State, id: nat, r: nat, p: nat)
    requires Proper(program) && Context(program, s) && (r, p) in PluginEdges(program)
    requires Enabled(s, ResolveNext(id)) && t == ResolveStep(s, id) && ParkedFor(s, r, p) && !Complete(s, p)
    ensures ParkedFor(t, r, p)
  {
    var dep := s.declared[id][s.cursor[id]];
    assert DeclaredBy(program, id, s.declared[id]);
    ResolveAsks(s, t, id, dep);
    NotAsked(program, id, s.cursor[id], r, p);
    var i :| 0 <= i < |Parked(s, p)| && Target(Parked(s, p)[i]) == r;
    assert Parked(t, p)[i] == Parked(s, p)[i];
  }

  /** A dependency that asks for r asks at p. */
  lemma NotAsked(program: Program, m: nat, i: nat, r: nat, p: nat)
    requires Proper(program) && (r, p) in PluginEdges(program) && m in program && i < |program[m]|
    ensures var dep := program[m][i];
            && (Target(dep) == r ==> dep.Plugin? && dep.pluginId == p)
            && (dep.Plugin? ==> dep.pluginId != r)
  {
    var dep := program[m][i];
    if Target(dep) == r { assert IsResource(program, r); }
    if dep.Plugin? { DeclaredPlugin(program, m, i); }
  }

  lemma LoadParkedKept(program: Program, s: State, t: State, id: nat, r: nat, p: nat)
    requires Proper(program) && Context(program, s) && (r, p) in PluginEdges(program) && id != p
    requires Enabled(s, LoadParked(id)) && t == LoadParkedStep(s, id) && ParkedFor(s, r, p)
    ensures ParkedFor(t, r, p)
  {
    var dep := s.parked[id][0];
    assert DeclaredAt(program, dep, id);
    if Target(dep) == r { OnePlugin(program, dep, p, r, id); }
    assert Parked(t, p) == Parked(s, p);
  }

  lemma OtherParkedKept(s: State, t: State, e: Event, r: nat, p: nat)
    requires Enabled(s, e) && t == Apply(s, e) && !e.ResolveNext? && !e.LoadParked? && !OfWalk(e)
    requires e.ReleasePlugins? ==> e.id != p
    requires e.Define? ==> e.id != r
    requires ParkedFor(s, r, p)
    ensures ParkedFor(t, r, p)
  {
    ParkedOtherwise(s, t, e);
    assert Parked(t, p) == Parked(s, p);
    OtherKnown(s, t, e, r);
  }

  lemma OtherKnown(s: State, t: State, e: Event, r: nat)
    requires Enabled(s, e) && t == Apply(s, e) && !e.ResolveNext? && !e.LoadParked? && !OfWalk(e)
    requires (e.Define? ==> e.id != r) && r !in s.modules && r !in s.known
    ensures r !in t.modules && r !in t.known
  {
  }

  lemma ParkedKept(program: Program, s: State, t: State, e: Event, r: nat, p: nat)
    requires Proper(program) && Context(program, s) && Once(s) && (r, p) in PluginEdges(program)
    requires Follows(program, s, e, t) && ParkedFor(s, r, p) && !Complete(s, p)
    ensures ParkedFor(t, r, p)
  {
    NoWalk(s, e);
    if e.ResolveNext? {
      ResolveParkedKept(program, s, t, e.id, r, p);
    } else if e.LoadParked? {
      RunningIsComplete(s, e.id);
      LoadParkedKept(program, s, t, e.id, r, p);
    } else {
      if e.ReleasePlugins? { RunningIsComplete(s, e.id); }
      OtherParkedKept(s, t, e, r, p);
    }
  }

  // ---------------------------------------------------------------- circles

  ghost function Needs(program: Program): Edges { DeclaredEdges(program) + PluginEdges(program) }

  function Next(c: seq<nat>, j: nat): nat
    requires j < |c|
  {
    if j + 1 < |c| then c[j + 1] else c[0]
  }

  /** A circle of needs without repetitions that starts at a module and ends at a
      resource. */
  ghost predicate IsCircle(program: Program, c: seq<nat>) {
    && |c| >= 2 && c[0] in program && c[|c| - 1] !in program
    && (forall i, j :: 0 <= i < j < |c| ==> c[i] != c[j])
    && (forall j :: 0 <= j < |c| ==> (c[j], Next(c, j)) in Needs(program))
  }

  /** The edge is held up: a module waits, or a resource is parked. */
  ghost predicate Held(program: Program, s: State, x: nat, y: nat) {
    if x in program then WaitsFor(s, x, y) else (x, y) in PluginEdges(program) && ParkedFor(s, x, y)
  }

  ghost predicate Stuck(program: Program, s: State, c: seq<nat>) {
    forall j :: 0 <= j < |c| ==> Held(program, s, c[j], Next(c, j))
  }

  lemma HeldKept(program: Program, s: State, t: State, e: Event, x: nat, y: nat)
    requires Proper(program) && Context(program, s) && Reachable(s) && Follows(program, s, e, t)
    requires Held(program, s, x, y) && !Complete(s, y)
    ensures Held(program, t, x, y)
  {
    ReachableCounts(s);
    if x in program { WaitKept(s, t, e, x, y); } else { ParkedKept(program, s, t, e, x, y); }
  }

  lemma StuckIncomplete(program: Program, s: State, c: seq<nat>, j: nat)
    requires Stuck(program, s, c) && j < |c|
    ensures !Complete(s, c[j])
  {
    assert Held(program, s, c[j], Next(c, j));
  }

  lemma StuckKept(program: Program, s: State, t: State, e: Event, c: seq<nat>)
    requires Proper(program) && Context(program, s) && Reachable(s) && Follows(program, s, e, t)
    requires Stuck(program, s, c)
    ensures Stuck(program, t, c) && Context(program, t) && Reachable(t)
  {
    ContextKept(program, s, t, e);
    LeadsStep(Initial(), s, e);
    forall j | 0 <= j < |c| ensures Held(program, t, c[j], Next(c, j)) {
      StuckIncomplete(program, s, c, if j + 1 < |c| then j + 1 else 0);
      HeldKept(program, s, t, e, c[j], Next(c, j));
    }
  }

  lemma {:induction false} StuckForEver(program: Program, states: seq<State>, events: seq<Event>, c: seq<nat>, n: nat)
    requires Proper(program) && ObeyRun(program, states, events) && n < |states|
    requires Context(program, states[0]) && Reachable(states[0]) && Stuck(program, states[0], c)
    ensures Stuck(program, states[n], c) && Context(program, states[n]) && Reachable(states[n])
  {
    if n > 0 {
      StuckForEver(program, states, events, c, n - 1);
      StuckKept(program, states[n - 1], states[n], events[n - 1], c);
    }
  }

  // ---------------------------------------------------------------- building a circle

  /** Nothing is complete, defined or asked for that should not be yet. */
  ghost predicate Early(program: Program, s: State) {
    && (forall m :: m in s.modules ==> !s.modules[m].complete && m in program)
    && (forall r :: r in s.known ==> !IsResource(program, r))
    && s.ready == {} && s.running == {} && s.pending == multiset{} && s.releasing == {}
  }

  /** What examining a dependency does while nothing is complete. */
  ghost predicate Examines(s: State, t: State, x: nat, dep: Dependency) {
    ExaminesOnly(s, t, x) && Records(s, t, x, dep)
  }

  ghost predicate ExaminesOnly(s: State, t: State, x: nat) {
    && x in s.cursor && t == s.(modules := t.modules, cursor := s.cursor[x := s.cursor[x] + 1], inverse := t.inverse,
                                known := t.known, parked := t.parked, broken := t.broken)
    && t.modules.Keys == s.modules.Keys && (forall m :: m in t.modules ==> !t.modules[m].complete)
  }

  ghost predicate Records(s: State, t: State, x: nat, dep: Dependency) {
    && (!Special(dep) && Target(dep) !in s.modules ==> x in Waiters(t.inverse, Target(dep)))
    && (dep.Plugin? && Target(dep) !in s.modules ==> dep in Parked(t, dep.pluginId))
  }

  lemma AdvanceExamines(s: State, t: State, x: nat, dep: Dependency)
    requires x in s.modules && x in s.cursor && (forall m :: m in s.modules ==> !s.modules[m].complete)
    requires t == Advance(s, x, true) && (Special(dep) || Target(dep) in s.modules)
    ensures forall b :: Examines(s, t.(broken := b), x, dep)
    ensures Examines(s, t, x, dep)
  {
  }

  lemma WaitExamines(s: State, t: State, x: nat, dep: Dependency)
    requires x in s.modules && x in s.cursor && (forall m :: m in s.modules ==> !s.modules[m].complete)
    requires !Special(dep) && t == Wait(s, x, dep)
    ensures Examines(s, t, x, dep)
  {
    WaitOnlyExamines(s, t, x, dep);
    WaitRecords(s, t, x, dep);
  }

  lemma WaitOnlyExamines(s: State, t: State, x: nat, dep: Dependency)
    requires x in s.modules && x in s.cursor && (forall m :: m in s.modules ==> !s.modules[m].complete)
    requires !Special(dep) && t == Wait(s, x, dep)
    ensures ExaminesOnly(s, t, x)
  {
    WaitOnly(s, t, x, dep);
  }

  lemma WaitRecords(s: State, t: State, x: nat, dep: Dependency)
    requires x in s.modules && x in s.cursor && (forall m :: m in s.modules ==> !s.modules[m].complete)
    requires !Special(dep) && t == Wait(s, x, dep)
    ensures Records(s, t, x, dep)
  {
  }

  lemma ResolveExamines(s: State, t: State, x: nat, dep: Dependency)
    requires Enabled(s, ResolveNext(x)) && t == ResolveStep(s, x) && dep == s.declared[x][s.cursor[x]]
    requires forall m :: m in s.modules ==> !s.modules[m].complete
    ensures Examines(s, t, x, dep)
  {
    var d := Target(dep);
    if Special(dep) || d in s.modules { AdvanceExamines(s, Advance(s, x, true), x, dep); }
    if !Special(dep) { WaitExamines(s, Wait(s, x, dep), x, dep); }
    if d !in s.modules { NothingFromUndefined(s.modules, d, x); }
  }

  /** No resource is asked for while nothing is complete. */
  lemma ResolveEarly(program: Program, s: State, t: State, x: nat)
    requires Proper(program) && Context(program, s) && Early(program, s)
    requires Enabled(s, ResolveNext(x)) && t == ResolveStep(s, x)
    ensures Early(program, t)
  {
    var dep := s.declared[x][s.cursor[x]];
    assert DeclaredBy(program, x, s.declared[x]);
    ResolveExamines(s, t, x, dep);
    ResolveAsks(s, t, x, dep);
    forall r | r in t.known ensures !IsResource(program, r) {
      if r !in s.known && IsResource(program, r) {
        var p :| (r, p) in PluginEdges(program);
        NotAsked(program, x, s.cursor[x], r, p);
      }
    }
  }

  /** The dependency number k of x is waited for, and parked if it is a resource. */
  ghost predicate Asked(s: State, x: nat, dep: Dependency) {
    !Special(dep) && Target(dep) !in s.modules ==>
      x in Waiters(s.inverse, Target(dep)) && (dep.Plugin? ==> dep in Parked(s, dep.pluginId))
  }

  lemma AskedKept(s: State, t: State, id: nat, x: nat, dep: Dependency)
    requires Enabled(s, ResolveNext(id)) && t == ResolveStep(s, id) && Asked(s, x, dep)
    ensures Asked(t, x, dep)
  {
    ResolveAsks(s, t, id, s.declared[id][s.cursor[id]]);
    if !Special(dep) && Target(dep) !in t.modules {
      ResolveWaiters(s, t, id, x, Target(dep));
      if dep.Plugin? {
        var p := dep.pluginId;
        var i :| 0 <= i < |Parked(s, p)| && Parked(s, p)[i] == dep;
        assert Parked(t, p)[i] == dep;
      }
    }
  }

  /** What runs of the program keep while nothing is complete. */
  ghost predicate Quiet(program: Program, s: State) {
    Reachable(s) && Context(program, s) && Early(program, s)
  }

  /** Module x alone is being resolved, and has come to its dependency number k. */
  ghost predicate Position(program: Program, s: State, x: nat, k: nat) {
    && s.resolving == {x} && x in program && x in s.modules && x in s.declared && s.declared[x] == program[x]
    && x in s.cursor && s.cursor[x] == k <= |program[x]|
    && forall i :: 0 <= i < k ==> Asked(s, x, program[x][i])
  }

  lemma PositionNext(program: Program, s: State, t: State, x: nat, k: nat)
    requires Position(program, s, x, k) && k < |program[x]| && t == ResolveStep(s, x)
    requires forall m :: m in s.modules ==> !s.modules[m].complete
    ensures Position(program, t, x, k + 1) && t.modules.Keys == s.modules.Keys && t.limit == s.limit
  {
    ResolveExamines(s, t, x, program[x][k]);
    forall i | 0 <= i < k + 1 ensures Asked(t, x, program[x][i]) {
      if i < k { AskedKept(s, t, x, x, program[x][i]); }
    }
  }

  lemma QuietNext(program: Program, s: State, t: State, x: nat)
    requires Proper(program) && Quiet(program, s) && Enabled(s, ResolveNext(x)) && t == ResolveStep(s, x)
    ensures Quiet(program, t)
  {
    LeadsStep(Initial(), s, ResolveNext(x));
    ContextKept(program, s, t, ResolveNext(x));
    ResolveEarly(program, s, t, x);
  }

  lemma ResolvesOne(program: Program, s0: State, s: State, t: State, x: nat, k: nat)
    requires Proper(program) && Quiet(program, s) && Position(program, s, x, k) && ObeyLeads(program, s0, s)
    requires k < |program[x]| && t == ResolveStep(s, x)
    ensures Quiet(program, t) && Position(program, t, x, k + 1) && ObeyLeads(program, s0, t)
    ensures t.modules.Keys == s.modules.Keys && t.limit == s.limit
  {
    PositionNext(program, s, t, x, k);
    QuietNext(program, s, t, x);
    ObeyStep(program, s0, s, ResolveNext(x), t);
  }

  ghost predicate HeldAll(program: Program, s: State, edges: Edges) {
    forall e :: e in edges ==> Held(program, s, e.0, e.1)
  }

  lemma HeldAllKept(program: Program, s: State, t: State, e: Event, edges: Edges)
    requires Proper(program) && Quiet(program, s) && Follows(program, s, e, t) && HeldAll(program, s, edges)
    ensures HeldAll(program, t, edges)
  {
    forall d | d in edges ensures Held(program, t, d.0, d.1) { HeldKept(program, s, t, e, d.0, d.1); }
  }

  /** All dependencies of x are examined, one after the other. */
  lemma {:induction false} ResolvesAll(program: Program, s0: State, s: State, x: nat, k: nat, edges: Edges)
    returns (t: State)
    requires Proper(program) && x in program && Quiet(program, s) && Position(program, s, x, k)
    requires ObeyLeads(program, s0, s) && HeldAll(program, s, edges)
    ensures Quiet(program, t) && Position(program, t, x, |program[x]|) && ObeyLeads(program, s0, t)
    ensures t.modules.Keys == s.modules.Keys && t.limit == s.limit && HeldAll(program, t, edges)
    decreases |program[x]| - k
  {
    if k == |program[x]| {
      t := s;
    } else {
      var u := ResolveStep(s, x);
      ResolvesOne(program, s0, s, u, x, k);
      HeldAllKept(program, s, u, ResolveNext(x), edges);
      t := ResolvesAll(program, s0, u, x, k + 1, edges);
    }
  }

  lemma DefinesQuiet(program: Program, s: State, t: State, x: nat, limit: nat)
    requires Proper(program) && Quiet(program, s) && s.resolving == {} && x in program && x !in s.modules
    requires s.limit <= limit && x < limit && AllBelow(program[x], limit)
    requires t == DefineStep(s, x, program[x], false, limit)
    ensures Quiet(program, t) && Position(program, t, x, 0)
    ensures t.modules.Keys == s.modules.Keys + {x} && t.limit == limit
    ensures Follows(program, s, Define(x, program[x], false, limit), t)
  {
    var e := Define(x, program[x], false, limit);
    LeadsStep(Initial(), s, e);
    ContextKept(program, s, t, e);
    DefinesPosition(program, s, t, x, limit);
  }

  lemma DefinesPosition(program: Program, s: State, t: State, x: nat, limit: nat)
    requires Early(program, s) && s.resolving == {} && x in program && x !in s.modules
    requires t == DefineStep(s, x, program[x], false, limit)
    ensures Early(program, t) && Position(program, t, x, 0)
    ensures t.modules.Keys == s.modules.Keys + {x} && t.limit == limit
  {
  }

  /** The last step, for a module that waits for something. */
  lemma FinishesQuiet(program: Program, s: State, t: State, x: nat, y: nat)
    requires Proper(program) && x in program && Quiet(program, s) && Position(program, s, x, |program[x]|)
    requires x in Waiters(s.inverse, y) && t == FinishStep(s, x)
    ensures Quiet(program, t) && t.resolving == {} && t == s.(resolving := {})
  {
    var e := FinishResolve(x);
    LeadsStep(Initial(), s, e);
    ContextKept(program, s, t, e);
    ReachableCounts(s);
    FinishWaits(s, t, x, y);
  }

  lemma ReachableCounts(s: State)
    requires Reachable(s)
    ensures Shape(s) && Counting(s) && Zero(s) && Once(s)
  {
    ReachableInv(s);
  }

  lemma FinishWaits(s: State, t: State, x: nat, y: nat)
    requires Shape(s) && Counting(s) && s.resolving == {x} && x in s.modules && x in Waiters(s.inverse, y)
    requires t == FinishStep(s, x)
    ensures t == s.(resolving := {})
  {
    WaiterIsOwed(s, x, y);
    assert s.resolving - {x} == {};
  }

  lemma FinishAsked(s: State, t: State, x: nat, dep: Dependency)
    requires Asked(s, x, dep) && t == s.(resolving := {})
    ensures Asked(t, x, dep)
  {
  }

  /** Some dependency of x is not defined, so x will wait. */
  ghost predicate WillWait(program: Program, s: State, x: nat, k: nat) {
    x in program && k < |program[x]| && !Special(program[x][k]) && Target(program[x][k]) !in s.modules &&
    Target(program[x][k]) != x
  }

  /** Module x is defined and resolved, and waits. */
  lemma Processes(program: Program, s0: State, s: State, x: nat, k: nat, limit: nat, edges: Edges) returns (t: State)
    requires Proper(program) && Quiet(program, s) && s.resolving == {} && x !in s.modules && WillWait(program, s, x, k)
    requires s.limit <= limit && x < limit && AllBelow(program[x], limit)
    requires ObeyLeads(program, s0, s) && HeldAll(program, s, edges)
    ensures Quiet(program, t) && t.resolving == {} && ObeyLeads(program, s0, t) && HeldAll(program, t, edges)
    ensures t.modules.Keys == s.modules.Keys + {x} && t.limit == limit
    ensures Asked(t, x, program[x][k])
  {
    var u := DefineStep(s, x, program[x], false, limit);
    DefinesQuiet(program, s, u, x, limit);
    ObeyStep(program, s0, s, Define(x, program[x], false, limit), u);
    HeldAllKept(program, s, u, Define(x, program[x], false, limit), edges);
    var v := ResolvesAll(program, s0, u, x, 0, edges);
    t := Finishes(program, s0, v, x, k, edges);
  }

  lemma Finishes(program: Program, s0: State, s: State, x: nat, k: nat, edges: Edges) returns (t: State)
    requires Proper(program) && Quiet(program, s) && WillWait(program, s, x, k)
    requires Position(program, s, x, |program[x]|) && ObeyLeads(program, s0, s) && HeldAll(program, s, edges)
    ensures Quiet(program, t) && t.resolving == {} && ObeyLeads(program, s0, t) && HeldAll(program, t, edges)
    ensures t.modules.Keys == s.modules.Keys && t.limit == s.limit && Asked(t, x, program[x][k])
  {
    t := FinishStep(s, x);
    assert Asked(s, x, program[x][k]);
    FinishesQuiet(program, s, t, x, Target(program[x][k]));
    ObeyStep(program, s0, s, FinishResolve(x), t);
    HeldAllKept(program, s, t, FinishResolve(x), edges);
    FinishAsked(s, t, x, program[x][k]);
  }

  // ---------------------------------------------------------------- the whole circle

  /** The ids of the program are below the limit. */
  ghost predicate AllIdsBelow(program: Program, limit: nat) {
    forall m :: m in program ==> m < limit && AllBelow(program[m], limit)
  }

  ghost predicate DefinedUpTo(program: Program, s: State, c: seq<nat>, i: nat)
    requires i <= |c|
  {
    forall m :: m in s.modules <==> m in c[..i] && m in program
  }

  /** The first i members of the circle are defined, if they are modules, and what they need
      next is held up. */
  ghost predicate Built(program: Program, s: State, c: seq<nat>, i: nat)
    requires i <= |c|
  {
    Quiet(program, s) && s.resolving == {} && DefinedUpTo(program, s, c, i) && HeldUpTo(program, s, c, i)
  }

  ghost predicate HeldUpTo(program: Program, s: State, c: seq<nat>, i: nat)
    requires i <= |c|
  {
    && (forall j :: 0 <= j < i && c[j] in program ==> Held(program, s, c[j], Next(c, j)))
    && (forall j :: 0 < j < |c| && j <= i && c[j] !in program ==> Held(program, s, c[j], Next(c, j)))
  }

  /** A resource needs its plugin; a module needs what it declares. */
  lemma NextOfModule(program: Program, c: seq<nat>, i: nat) returns (k: nat)
    requires Proper(program) && IsCircle(program, c) && i < |c| && c[i] in program
    ensures i + 1 < |c| && k < |program[c[i]]| && Target(program[c[i]][k]) == c[i + 1] && !Special(program[c[i]][k])
    ensures c[i + 1] !in program ==> program[c[i]][k].Plugin? && i + 2 <= |c|
  {
    var x, y := c[i], Next(c, i);
    assert (x, y) in Needs(program) && (x, y) !in PluginEdges(program);
    k :| 0 <= k < |program[x]| && Target(program[x][k]) == y;
    assert i + 1 < |c|;
    var z := Next(c, i + 1);
    assert (y, z) in Needs(program);
    if y !in program {
      assert (y, z) in PluginEdges(program);
      assert IsResource(program, y);
    }
  }

  lemma NextOfResource(program: Program, c: seq<nat>, i: nat)
    requires Proper(program) && IsCircle(program, c) && i < |c| && c[i] !in program
    ensures (c[i], Next(c, i)) in PluginEdges(program) && Next(c, i) in program
  {
    assert (c[i], Next(c, i)) in Needs(program);
  }

  /** What x has asked for is held up: x waits for it, and a resource is parked. */
  lemma AskedHeld(program: Program, s: State, x: nat, dep: Dependency, z: nat)
    requires Proper(program) && Quiet(program, s) && s.resolving == {} && x in s.modules && x in program
    requires !Special(dep) && Target(dep) !in s.modules && Asked(s, x, dep)
    ensures Held(program, s, x, Target(dep))
    ensures (Target(dep), z) in PluginEdges(program) && dep.Plugin? && dep.pluginId == z ==>
              Held(program, s, Target(dep), z)
  {
    var y := Target(dep);
    if (y, z) in PluginEdges(program) && dep.Plugin? && dep.pluginId == z {
      assert IsResource(program, y);
      var i :| 0 <= i < |Parked(s, z)| && Parked(s, z)[i] == dep;
    }
  }

  lemma BuildResource(program: Program, s: State, c: seq<nat>, i: nat)
    requires Proper(program) && IsCircle(program, c) && i < |c| && c[i] !in program && Built(program, s, c, i)
    ensures Built(program, s, c, i + 1)
  {
    NextOfResource(program, c, i);
    HeldResource(program, s, c, i);
    DefinedSame(program, s, c, i);
  }

  lemma HeldResource(program: Program, s: State, c: seq<nat>, i: nat)
    requires i < |c| && c[i] !in program && HeldUpTo(program, s, c, i) && (i + 1 < |c| ==> c[i + 1] in program)
    ensures HeldUpTo(program, s, c, i + 1)
  {
  }

  lemma DefinedSame(program: Program, s: State, c: seq<nat>, i: nat)
    requires i < |c| && c[i] !in program && DefinedUpTo(program, s, c, i)
    ensures DefinedUpTo(program, s, c, i + 1)
  {
    assert c[..i + 1] == c[..i] + [c[i]];
  }

  ghost function HeldEdges(program: Program, s: State, c: seq<nat>): Edges {
    set j | 0 <= j < |c| && Held(program, s, c[j], Next(c, j)) :: (c[j], Next(c, j))
  }

  lemma BuildModule(program: Program, s0: State, s: State, c: seq<nat>, i: nat, limit: nat) returns (t: State)
    requires Proper(program) && IsCircle(program, c) && i < |c| && c[i] in program && Built(program, s, c, i)
    requires AllIdsBelow(program, limit) && s.limit <= limit && ObeyLeads(program, s0, s)
    ensures Built(program, t, c, i + 1) && t.limit == limit && ObeyLeads(program, s0, t)
  {
    var x := c[i];
    var k := NextOfModule(program, c, i);
    FreshModule(program, s, c, i);
    var edges := HeldEdges(program, s, c);
    t := Processes(program, s0, s, x, k, limit, edges);
    BuiltModule(program, s, t, c, i, k);
  }

  lemma FreshModule(program: Program, s: State, c: seq<nat>, i: nat)
    requires IsCircle(program, c) && i + 1 < |c| && DefinedUpTo(program, s, c, i)
    ensures c[i] !in s.modules && c[i + 1] !in s.modules && c[i + 1] != c[i]
  {
  }

  lemma BuiltModule(program: Program, s: State, t: State, c: seq<nat>, i: nat, k: nat)
    requires Proper(program) && IsCircle(program, c) && i + 1 < |c| && c[i] in program && Built(program, s, c, i)
    requires Quiet(program, t) && t.resolving == {} && t.modules.Keys == s.modules.Keys + {c[i]}
    requires HeldAll(program, t, HeldEdges(program, s, c))
    requires k < |program[c[i]]| && Target(program[c[i]][k]) == c[i + 1] && !Special(program[c[i]][k])
    requires c[i + 1] !in program ==> program[c[i]][k].Plugin?
    requires Asked(t, c[i], program[c[i]][k])
    ensures Built(program, t, c, i + 1)
  {
    FreshModule(program, s, c, i);
    DefinedNext(program, s, t, c, i);
    var dep := program[c[i]][k];
    if c[i + 1] !in program {
      NextOfResource(program, c, i + 1);
      DeclaredPlugin(program, c[i], k);
      OnePlugin(program, dep, Next(c, i + 1), c[i + 1], dep.pluginId);
    }
    AskedHeld(program, t, c[i], dep, Next(c, i + 1));
    HeldModule(program, s, t, c, i);
  }

  lemma HeldModule(program: Program, s: State, t: State, c: seq<nat>, i: nat)
    requires i + 1 < |c| && c[i] in program && HeldUpTo(program, s, c, i)
    requires HeldAll(program, t, HeldEdges(program, s, c)) && Held(program, t, c[i], c[i + 1])
    requires c[i + 1] !in program ==> Held(program, t, c[i + 1], Next(c, i + 1))
    ensures HeldUpTo(program, t, c, i + 1)
  {
    forall j | 0 <= j < |c| && Held(program, s, c[j], Next(c, j)) ensures Held(program, t, c[j], Next(c, j)) {
      assert (c[j], Next(c, j)) in HeldEdges(program, s, c);
    }
  }

  lemma DefinedNext(program: Program, s: State, t: State, c: seq<nat>, i: nat)
    requires i < |c| && DefinedUpTo(program, s, c, i) && t.modules.Keys == s.modules.Keys + {c[i]} && c[i] in program
    ensures DefinedUpTo(program, t, c, i + 1)
  {
    assert c[..i + 1] == c[..i] + [c[i]];
    forall m ensures m in t.modules <==> m in c[..i + 1] && m in program {
      assert m in t.modules.Keys <==> m in s.modules.Keys || m == c[i];
    }
  }

  lemma {:induction false} Builds(program: Program, c: seq<nat>, i: nat, limit: nat) returns (s: State)
    requires Proper(program) && IsCircle(program, c) && i <= |c|
    requires AllIdsBelow(program, limit) && FIRST_FREE_ID <= limit
    ensures Built(program, s, c, i) && s.limit <= limit && ObeyLeads(program, Initial(), s)
    decreases i
  {
    if i == 0 {
      s := Initial();
      LeadsSelf(s);
      ObeySelf(program, s);
    } else {
      s := Builds(program, c, i - 1, limit);
      if c[i - 1] in program {
        s := BuildModule(program, Initial(), s, c, i - 1, limit);
      } else {
        BuildResource(program, s, c, i - 1);
      }
    }
  }

  lemma BuiltIsStuck(program: Program, s: State, c: seq<nat>)
    requires IsCircle(program, c) && Built(program, s, c, |c|)
    ensures Stuck(program, s, c) && Quiescent(s)
  {
  }

  /** The plugin never completes, however the program goes on without load errors. */
  ghost predicate BlockedForEver(program: Program, s: State, p: nat) {
    forall t :: ObeyLeads(program, s, t) ==> !Complete(t, p)
  }

  lemma StuckBlocks(program: Program, s: State, c: seq<nat>)
    requires Proper(program) && IsCircle(program, c) && Reachable(s) && Context(program, s) && Stuck(program, s, c)
    ensures BlockedForEver(program, s, c[0])
  {
    forall t | ObeyLeads(program, s, t) ensures !Complete(t, c[0]) {
      var states, events :| ObeyRun(program, states, events) && states[0] == s && states[|events|] == t;
      StuckForEver(program, states, events, c, |events|);
      StuckIncomplete(program, t, c, 0);
    }
  }

  /** Unsafe declarations can block: if a plugin of the program needs one of its own
      resources, directly or not, then some run of the program without errors comes to rest
      in a state from which, however the program goes on, the plugin never completes. */
  lemma UnsafeBlocks(program: Program, limit: nat, r: nat, p: nat) returns (s: State)
    requires Proper(program) && AllIdsBelow(program, limit) && FIRST_FREE_ID <= limit
    requires (r, p) in PluginEdges(program) && Reaches(Needs(program), p, r)
    ensures ObeyLeads(program, Initial(), s) && Quiescent(s) && p in s.modules && BlockedForEver(program, s, p)
  {
    var g := Needs(program);
    var path :| Connects(g, path, p, r);
    var c := SimplePath(g, path);
    forall j | 0 <= j < |c| ensures (c[j], Next(c, j)) in g { if j + 1 < |c| { assert (c[j], c[j + 1]) in g; } }
    assert IsCircle(program, c);
    s := Builds(program, c, |c|, limit);
    BuiltIsStuck(program, s, c);
    StuckBlocks(program, s, c);
    assert c[0] in c[..|c|];
  }
}
