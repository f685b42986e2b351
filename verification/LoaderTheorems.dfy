/** What the invariant says about whole runs of the module manager. */
module LoaderTheorems {
  import opened Graph
  import opened LoaderState
  import opened LoaderInvariant
  import opened LoaderPreservation

  // ---------------------------------------------------------------- factories

  /** Each factory starts at most once, and only after every dependency has started
      its own or was cut off because it leads back to the module. */
  lemma FactoriesInOrder(s: State)
    requires Reachable(s)
    ensures forall i, j :: 0 <= i < j < |s.runs| ==> s.runs[i] != s.runs[j]
    ensures forall j :: 0 <= j < |s.runs| ==> s.runs[j] in s.declared
    ensures forall j, i ::
              0 <= j < |s.runs| && 0 <= i < |s.declared[s.runs[j]]| && !Special(s.declared[s.runs[j]][i]) ==>
              var d := Target(s.declared[s.runs[j]][i]);
              (s.runs[j], d) in s.broken || d in s.runs[..j]
    ensures forall m, d :: (m, d) in s.broken ==>
              (m, d) in DeclaredEdges(s.declared) && ReachesByEdge(DeclaredEdges(s.declared), d, m)
  {
    ReachableInv(s);
    assert Order(s);
    forall j, i | 0 <= j < |s.runs| && 0 <= i < |s.declared[s.runs[j]]| && !Special(s.declared[s.runs[j]][i])
      ensures Ordered(s, j, Target(s.declared[s.runs[j]][i])) {}
  }

  lemma CutMeansCycle(s: State, m: nat, d: nat)
    requires Cuts(s) && (m, d) in s.broken
    ensures !Acyclic(DeclaredEdges(s.declared))
  {
    var g := DeclaredEdges(s.declared);
    ReachesCases(g, d, m);
    ReachesCons(g, m, d, m);
  }

  /** When the declared dependencies have no cycle, nothing is cut off. */
  lemma NothingCutWithoutCycles(s: State)
    requires Reachable(s)
    ensures Acyclic(DeclaredEdges(s.declared)) ==> s.broken == {}
  {
    ReachableInv(s);
    if s.broken != {} {
      var e :| e in s.broken;
      CutMeansCycle(s, e.0, e.1);
    }
  }

  /** The counting invariant in every reachable state, and the absence of circular
      waiting. */
  lemma CountsAndWaits(s: State)
    requires Reachable(s)
    ensures forall m :: m in s.modules ==> m in s.cursor && m in s.declared
    ensures forall m :: m in s.modules && s.cursor[m] == |s.declared[m]| ==> s.modules[m].count == Owed(s, m)
    ensures forall m :: m in s.modules ==> s.modules[m].count >= 0
    ensures WaitEdges(s.inverse) <= DependencyEdges(s.modules) && Acyclic(WaitEdges(s.inverse))
  {
    ReachableInv(s);
  }

  /** Examining a dependency starts no factory and takes nothing back. */
  lemma ResolveGrows(s: State, id: nat)
    requires Enabled(s, ResolveNext(id))
    ensures var t := ResolveStep(s, id);
            t.runs == s.runs && t.declared == s.declared && t.modules.Keys == s.modules.Keys
    ensures forall m :: Complete(s, m) ==> Complete(ResolveStep(s, id), m)
  {
    var t := ResolveStep(s, id);
    ResolveModules(s, t, id);
    assert s.modules.Keys + {id} == s.modules.Keys;
  }

  lemma ResolveModules(s: State, t: State, id: nat)
    requires Enabled(s, ResolveNext(id)) && t == ResolveStep(s, id)
    ensures OnlyModule(s, t, id)
  {
    var dep := s.declared[id][s.cursor[id]];
    AdvanceOnly(s, Advance(s, id, true), id);
    AbortOnly(s, Abort(s, id), id);
    if !Special(dep) { WaitOnly(s, Wait(s, id, dep), id, dep); }
  }

  /** Of the modules only the one changes, it is no less complete, it has the same
      dependencies and error callback, and it fails only when its resolution gives up. */
  ghost predicate OnlyModule(s: State, t: State, id: nat) {
    && t.runs == s.runs && t.running == s.running && t.declared == s.declared && id in s.modules && id in t.modules
    && t.modules == s.modules[id := t.modules[id]]
    && (s.modules[id].complete ==> t.modules[id].complete)
    && (t == Abort(s, id) || (t.modules[id].failed == s.modules[id].failed && t.aborted == s.aborted))
    && t.walks == s.walks
    && t.modules[id].deps == s.modules[id].deps && t.modules[id].errorback == s.modules[id].errorback
  }

  lemma AdvanceOnly(s: State, t: State, id: nat)
    requires id in s.modules && id in s.cursor && t == Advance(s, id, true)
    ensures OnlyModule(s, t, id) && forall b :: OnlyModule(s, t.(broken := b), id)
  {
  }

  lemma AbortOnly(s: State, t: State, id: nat)
    requires id in s.modules && t == Abort(s, id)
    ensures OnlyModule(s, t, id)
  {
  }

  lemma WaitOnly(s: State, t: State, id: nat, dep: Dependency)
    requires id in s.modules && id in s.cursor && !Special(dep) && t == Wait(s, id, dep)
    ensures OnlyModule(s, t, id)
  {
  }

  lemma RunsStep(s: State, e: Event)
    requires Enabled(s, e)
    ensures s.runs <= Apply(s, e).runs
  {
    match e
    case ResolveNext(id) => ResolveGrows(s, id);
    case _ =>
  }

  /** What has run has run. */
  lemma RunsGrow(s: State, t: State)
    requires Leads(s, t)
    ensures s.runs <= t.runs
  {
    var r :| IsRun(r) && r[0] == s && r[|r| - 1] == t;
    forall u: State, e: Event | s.runs <= u.runs && Enabled(u, e) ensures s.runs <= Apply(u, e).runs { RunsStep(u, e); }
    RunInduction(r, (u: State) => s.runs <= u.runs);
  }

  // ---------------------------------------------------------------- deadlock

  /** Every id that was asked for has been defined. */
  predicate AllLoaded(s: State) {
    forall d :: d in s.known ==> d in s.modules
  }

  predicate AllComplete(s: State) {
    forall m :: m in s.modules ==> s.modules[m].complete
  }

  /** When nothing is in progress, an incomplete module is listed as waiting. */
  lemma IncompleteWaits(s: State, m: nat) returns (d: nat)
    requires Inv(s) && Quiescent(s) && m in s.modules && !s.modules[m].complete
    ensures m in Waiters(s.inverse, d)
    ensures d in s.modules && d !in s.aborted ==> !s.modules[d].complete
  {
    IncompleteOwed(s, m);
    ListedPositive(s.inverse, s.limit, m);
    d :| 0 <= d < s.limit && m in Waiters(s.inverse, d);
  }

  lemma IncompleteOwed(s: State, m: nat)
    requires Shape(s) && Counting(s) && Once(s) && Zero(s) && Examined(s) && Quiescent(s)
    requires m in s.modules && !s.modules[m].complete
    ensures Listed(s.inverse, s.limit, m) > 0
  {
    assert m !in s.aborted;
  }

  lemma WaiterIsDefined(s: State, x: nat, d: nat)
    requires Waiting(s) && x in Waiters(s.inverse, d)
    ensures x in s.modules
  {
    WaitEdgeIff(s.inverse, x, d);
    assert (x, d) in DependencyEdges(s.modules);
  }

  /** In an acyclic graph, a finite set whose nodes all have an edge back into the
      set is empty. */
  lemma NoneLeft(g: Edges, open: set<nat>)
    requires forall m :: m in open ==> exists d :: d in open && (m, d) in g
    ensures Acyclic(g) ==> open == {}
  {
    if open != {} {
      var m :| m in open;
      SomeCycle(g, open, m);
    }
  }

  ghost predicate NoOrphans(s: State) {
    forall d, x :: x in Waiters(s.inverse, d) && (d in s.aborted || d !in s.modules) ==> Complete(s, x)
  }

  lemma OpenWaitsForOpen(s: State, m: nat) returns (d: nat)
    requires Inv(s) && Quiescent(s) && NoOrphans(s) && m in s.modules && !s.modules[m].complete
    ensures d in s.modules && !s.modules[d].complete && (m, d) in WaitEdges(s.inverse)
  {
    d := IncompleteWaits(s, m);
    WaitEdgeIff(s.inverse, m, d);
  }

  lemma NoOrphansComplete(s: State)
    requires Inv(s) && Quiescent(s) && NoOrphans(s)
    ensures AllComplete(s)
  {
    var open := set m | m in s.modules && !s.modules[m].complete;
    forall m | m in open ensures exists d :: d in open && (m, d) in WaitEdges(s.inverse) {
      var d := OpenWaitsForOpen(s, m);
      assert d in open;
    }
    NoneLeft(WaitEdges(s.inverse), open);
    forall m | m in s.modules ensures s.modules[m].complete {
      assert m !in open;
    }
  }

  /** No deadlock, exactly: when nothing is in progress, all modules are complete if
      and only if no incomplete module is left waiting for a module whose `_resolve`
      gave up on a failed dependency, or for an id that was never defined.  Cyclic
      dependencies alone never block a module. */
  lemma NoDeadlock(s: State)
    requires Reachable(s) && Quiescent(s)
    ensures AllComplete(s) <==>
              forall d, x :: x in Waiters(s.inverse, d) && (d in s.aborted || d !in s.modules) ==> Complete(s, x)
  {
    ReachableInv(s);
    if AllComplete(s) {
      forall d, x | x in Waiters(s.inverse, d) ensures Complete(s, x) { WaiterIsDefined(s, x, d); }
    } else if NoOrphans(s) {
      NoOrphansComplete(s);
    }
  }

  /** Something is parked only if a plugin dependency was declared. */
  ghost predicate ParkedByPlugin(s: State) {
    && (forall m :: m in s.declared ==> m in s.modules)
    && (s.parked != map[] ==> exists m, k :: m in s.declared && 0 <= k < |s.declared[m]| && s.declared[m][k].Plugin?)
  }

  lemma ParkedGrows(s: State, t: State)
    requires ParkedByPlugin(s) && s.parked != map[]
    requires forall m :: m in s.declared ==> m in t.declared && t.declared[m] == s.declared[m]
    requires forall m :: m in t.declared ==> m in t.modules
    ensures ParkedByPlugin(t)
  {
    var m, k :| m in s.declared && 0 <= k < |s.declared[m]| && s.declared[m][k].Plugin?;
    assert t.declared[m][k].Plugin?;
  }

  lemma DeclaredGrows(s: State, e: Event)
    requires (forall m :: m in s.declared ==> m in s.modules) && Enabled(s, e)
    ensures forall m :: m in s.declared ==> m in Apply(s, e).declared && Apply(s, e).declared[m] == s.declared[m]
    ensures forall m :: m in Apply(s, e).declared ==> m in Apply(s, e).modules
  {
    match e
    case ResolveNext(id) => ResolveGrows(s, id);
    case _ =>
  }

  lemma FirstParked(s: State, e: Event)
    requires Enabled(s, e) && s.parked == map[] && Apply(s, e).parked != map[]
    ensures e.ResolveNext? && s.declared[e.id][s.cursor[e.id]].Plugin?
    ensures Apply(s, e).declared == s.declared
  {
    match e
    case Define(_, _, _, _) =>
    case ResolveNext(_) =>
    case LoadError(_) =>
    case _ =>
  }

  lemma ParkedByPluginKept(s: State, e: Event)
    requires ParkedByPlugin(s) && Enabled(s, e)
    ensures ParkedByPlugin(Apply(s, e))
  {
    var t := Apply(s, e);
    DeclaredGrows(s, e);
    if s.parked != map[] {
      ParkedGrows(s, t);
    } else if t.parked != map[] {
      FirstParked(s, e);
    }
  }

  lemma ReachableParked(s: State)
    requires Reachable(s)
    ensures ParkedByPlugin(s)
  {
    var r :| IsRun(r) && r[0] == Initial() && r[|r| - 1] == s;
    forall s, e | ParkedByPlugin(s) && Enabled(s, e) ensures ParkedByPlugin(Apply(s, e)) { ParkedByPluginKept(s, e); }
    RunInduction(r, s => ParkedByPlugin(s));
  }

  /** In a run without errors and without plugin dependencies, once everything asked
      for is defined and nothing is in progress, every module is complete. */
  lemma NoDeadlockWithoutErrors(s: State)
    requires Reachable(s) && Quiescent(s) && AllLoaded(s)
    requires forall m :: m in s.modules ==> !s.modules[m].failed
    requires forall m, k :: m in s.declared && 0 <= k < |s.declared[m]| ==> !s.declared[m][k].Plugin?
    ensures AllComplete(s)
  {
    ReachableInv(s);
    ReachableParked(s);
    assert s.parked == map[];
    forall d | Waiters(s.inverse, d) != [] ensures d in s.modules && d !in s.aborted {
      assert !IsParked(s, d);
    }
    NoDeadlock(s);
  }

  // ---------------------------------------------------------------- plugins

  /** Without errors, everything complete means that nobody waits or is parked. */
  lemma CompleteLeavesNothing(s: State)
    requires Inv(s) && Quiescent(s) && AllLoaded(s) && AllComplete(s)
    requires forall m :: m in s.modules ==> !s.modules[m].failed
    ensures WaitEdges(s.inverse) == {} && ParkedEdges(s.parked) == {}
  {
    forall d | d in s.inverse ensures s.inverse[d] == [] { NobodyWaits(s, d); }
    forall p | p in s.parked ensures s.parked[p] == [] { NothingParked(s, p); }
  }

  lemma NobodyWaits(s: State, d: nat)
    requires Shape(s) && Counting(s) && Once(s) && Zero(s) && Waiting(s) && AllComplete(s)
    requires forall m :: m in s.modules ==> !s.modules[m].failed
    ensures Waiters(s.inverse, d) == []
  {
    if Waiters(s.inverse, d) != [] {
      var x := Waiters(s.inverse, d)[0];
      WaiterIsDefined(s, x, d);
      assert Complete(s, x) && x in s.runs;
      NothingOwed(s, x);
    }
  }

  lemma NothingParked(s: State, p: nat)
    requires Requested(s) && Quiescent(s) && AllLoaded(s) && AllComplete(s)
    requires forall m :: m in s.modules ==> !s.modules[m].failed
    ensures Parked(s, p) == []
  {
    assert Parked(s, p) != [] ==> Complete(s, p);
  }

  /** The incomplete modules and the undefined resources that wait for a plugin. */
  ghost function OpenNodes(s: State): set<nat> {
    (set m | m in s.modules && !s.modules[m].complete) +
    (set p, i | p in s.parked && 0 <= i < |s.parked[p]| && Target(s.parked[p][i]) !in s.modules
        :: Target(s.parked[p][i]))
  }

  lemma OpenLeadsToOpen(s: State, m: nat) returns (d: nat)
    requires Inv(s) && Quiescent(s) && AllLoaded(s) && m in OpenNodes(s)
    requires forall m :: m in s.modules ==> !s.modules[m].failed
    ensures d in OpenNodes(s) && (m, d) in WaitEdges(s.inverse) + ParkedEdges(s.parked)
  {
    if m in s.modules {
      d := IncompleteWaits(s, m);
      WaitEdgeIff(s.inverse, m, d);
      if d !in s.modules {
        assert Waiters(s.inverse, d) != [];
        assert IsParked(s, d);
        var p, i :| p in s.parked && 0 <= i < |s.parked[p]| && Target(s.parked[p][i]) == d;
        assert Target(s.parked[p][i]) in OpenNodes(s);
      }
    } else {
      var p, i :| p in s.parked && 0 <= i < |s.parked[p]| && Target(s.parked[p][i]) == m;
      d := p;
      assert Parked(s, p) != [];
      assert (Target(s.parked[p][i]), p) in ParkedEdges(s.parked);
    }
  }

  /** With plugins a deadlock is possible, exactly when a resource parked at its
      plugin closes a circle: the cycle check does not follow that edge. */
  lemma NoDeadlockWithPlugins(s: State)
    requires Reachable(s) && Quiescent(s) && AllLoaded(s)
    requires forall m :: m in s.modules ==> !s.modules[m].failed
    ensures AllComplete(s) <==> Acyclic(WaitEdges(s.inverse) + ParkedEdges(s.parked))
  {
    ReachableInv(s);
    var g := WaitEdges(s.inverse) + ParkedEdges(s.parked);
    if AllComplete(s) {
      CompleteLeavesNothing(s);
      NoEdges(g);
    } else {
      var m :| m in s.modules && !s.modules[m].complete;
      assert m in OpenNodes(s);
      forall m | m in OpenNodes(s) ensures exists d :: d in OpenNodes(s) && (m, d) in g {
        var d := OpenLeadsToOpen(s, m);
      }
      NoneLeft(g, OpenNodes(s));
    }
  }

  // ---------------------------------------------------------------- plugins, from the declarations

  /** (d, p) when some module declares resource d of plugin p. */
  function PluginEdges(declared: map<nat, seq<Dependency>>): Edges {
    set m, i | m in declared && 0 <= i < |declared[m]| && declared[m][i].Plugin?
        :: (declared[m][i].id, declared[m][i].pluginId)
  }

  /** Resources are parked at their own plugin, and only if declared. */
  ghost predicate ParkedDeclared(s: State) {
    && (forall m :: m in s.declared ==> m in s.modules)
    && (forall p, i :: p in s.parked && 0 <= i < |s.parked[p]| ==> DeclaredAt(s.declared, s.parked[p][i], p))
  }

  ghost predicate DeclaredAt(declared: map<nat, seq<Dependency>>, dep: Dependency, p: nat) {
    dep.Plugin? && dep.pluginId == p && (dep.id, p) in PluginEdges(declared)
  }

  lemma PluginEdgesGrow(before: map<nat, seq<Dependency>>, after: map<nat, seq<Dependency>>)
    requires forall m :: m in before ==> m in after && after[m] == before[m]
    ensures PluginEdges(before) <= PluginEdges(after)
  {
    forall e | e in PluginEdges(before) ensures e in PluginEdges(after) {
      var m, i :| && m in before && 0 <= i < |before[m]| && before[m][i].Plugin?
                  && e == (before[m][i].id, before[m][i].pluginId);
      assert after[m][i] == before[m][i];
    }
  }

  /** What is parked after an event was parked before, or has just been examined. */
  lemma ParkedOrigin(s: State, t: State, e: Event, p: nat, i: nat)
    requires Enabled(s, e) && t == Apply(s, e) && p in t.parked && i < |t.parked[p]|
    ensures var dep := t.parked[p][i];
            || dep in Parked(s, p)
            || (dep.Plugin? && dep.pluginId == p && e.ResolveNext? && dep == s.declared[e.id][s.cursor[e.id]])
  {
    if e.ResolveNext? {
      ParkedByResolve(s, t, e.id, p, i);
    } else if e.LoadParked? {
      ParkedByLoad(s, t, e.id, p, i);
    } else {
      ParkedOtherwise(s, t, e);
    }
  }

  lemma ParkedOtherwise(s: State, t: State, e: Event)
    requires Enabled(s, e) && t == Apply(s, e) && !e.ResolveNext? && !e.LoadParked?
    ensures t.parked == s.parked || (e.ReleasePlugins? && t.parked == s.parked - {e.id})
  {
  }

  lemma ParkedByLoad(s: State, t: State, id: nat, p: nat, i: nat)
    requires Enabled(s, LoadParked(id)) && t == LoadParkedStep(s, id) && p in t.parked && i < |t.parked[p]|
    ensures t.parked[p][i] in Parked(s, p)
  {
    if p == id { assert t.parked[p][i] == s.parked[p][i + 1]; }
  }

  lemma ParkedByResolve(s: State, t: State, id: nat, p: nat, i: nat)
    requires Enabled(s, ResolveNext(id)) && t == ResolveStep(s, id) && p in t.parked && i < |t.parked[p]|
    ensures var dep := t.parked[p][i];
            || (p in s.parked && i < |s.parked[p]| && s.parked[p][i] == dep)
            || (dep.Plugin? && dep.pluginId == p && dep == s.declared[id][s.cursor[id]])
  {
    ResolveParks(s, t, id, s.declared[id][s.cursor[id]]);
  }

  lemma ResolveParks(s: State, t: State, id: nat, dep: Dependency)
    requires Enabled(s, ResolveNext(id)) && t == ResolveStep(s, id) && dep == s.declared[id][s.cursor[id]]
    ensures || t.parked == s.parked
            || (dep.Plugin? && t.parked == s.parked[dep.pluginId := Parked(s, dep.pluginId) + [dep]])
  {
  }

  lemma ParkedDeclaredKept(s: State, e: Event)
    requires ParkedDeclared(s) && Enabled(s, e)
    ensures ParkedDeclared(Apply(s, e))
  {
    var t := Apply(s, e);
    DeclaredGrows(s, e);
    PluginEdgesGrow(s.declared, t.declared);
    forall p, i | p in t.parked && 0 <= i < |t.parked[p]| ensures DeclaredAt(t.declared, t.parked[p][i], p) {
      ParkedOrigin(s, t, e, p, i);
      if t.parked[p][i] in Parked(s, p) {
        var j :| 0 <= j < |s.parked[p]| && s.parked[p][j] == t.parked[p][i];
      } else {
        assert s.declared[e.id][s.cursor[e.id]] == t.declared[e.id][s.cursor[e.id]];
      }
    }
  }

  lemma ReachableParkedDeclared(s: State)
    requires Reachable(s)
    ensures ParkedEdges(s.parked) <= PluginEdges(s.declared)
  {
    var r :| IsRun(r) && r[0] == Initial() && r[|r| - 1] == s;
    forall s, e | ParkedDeclared(s) && Enabled(s, e) ensures ParkedDeclared(Apply(s, e)) { ParkedDeclaredKept(s, e); }
    RunInduction(r, s => ParkedDeclared(s));
    forall e | e in ParkedEdges(s.parked) ensures e in PluginEdges(s.declared) {
      var p, i :| p in s.parked && 0 <= i < |s.parked[p]| && e == (Target(s.parked[p][i]), p);
      assert DeclaredAt(s.declared, s.parked[p][i], p);
    }
  }

  /** No plugin needs one of its own resources, directly or not, counting that a
      resource needs its plugin.  Other cycles are allowed. */
  ghost predicate PluginsSafe(declared: map<nat, seq<Dependency>>) {
    forall d, p :: (d, p) in PluginEdges(declared) ==> !Reaches(DeclaredEdges(declared) + PluginEdges(declared), p, d)
  }

  lemma SafeMeansNoCircle(s: State)
    requires Shape(s) && Waiting(s) && ParkedEdges(s.parked) <= PluginEdges(s.declared) && PluginsSafe(s.declared)
    ensures Acyclic(WaitEdges(s.inverse) + ParkedEdges(s.parked))
  {
    var w, k := WaitEdges(s.inverse), ParkedEdges(s.parked);
    var g, h := DeclaredEdges(s.declared), PluginEdges(s.declared);
    DependencyEdgesDeclared(s);
    AcyclicUnion(w, k);
    if ClosesCycle(w, k) {
      var d, p :| (d, p) in k && Reaches(w + k, p, d);
      ReachesMono(w + k, g + h, p, d);
    }
  }

  /** A condition on the declarations alone: in a run without errors, once everything
      asked for is defined and nothing is in progress, every module is complete if no
      plugin needs one of its own resources. */
  lemma NoDeadlockWithSafePlugins(s: State)
    requires Reachable(s) && Quiescent(s) && AllLoaded(s) && PluginsSafe(s.declared)
    requires forall m :: m in s.modules ==> !s.modules[m].failed
    ensures AllComplete(s)
  {
    ReachableInv(s);
    ReachableParkedDeclared(s);
    SafeMeansNoCircle(s);
    NoDeadlockWithPlugins(s);
  }

  // ---------------------------------------------------------------- load errors

  /** Errors reach everybody, however the callbacks interleave: when no walk is in
      progress, whoever waits along a chain for a complete module is complete, unless
      the chain passes a module whose factory runs or whose resolution gave up. */
  lemma {:induction false} ErrorsReachWaiters(s: State, p: seq<nat>)
    requires Reachable(s) && s.walks == NO_WALKS
    requires IsPath(WaitEdges(s.inverse), p) && Complete(s, p[|p| - 1])
    requires forall i :: 1 <= i < |p| ==> Told(s, p[i])
    ensures Complete(s, p[0])
    decreases |p|
  {
    if |p| > 1 {
      assert IsPath(WaitEdges(s.inverse), p[1..]);
      ErrorsReachWaiters(s, p[1..]);
      assert (p[0], p[1]) in WaitEdges(s.inverse);
      WaiterComplete(s, p[0], p[1]);
    }
  }

  lemma WaiterComplete(s: State, x: nat, d: nat)
    requires Reachable(s) && s.walks == NO_WALKS && Complete(s, d) && Told(s, d) && (x, d) in WaitEdges(s.inverse)
    ensures Complete(s, x)
  {
    ReachableReleased(s);
    WaitEdgeIff(s.inverse, x, d);
  }

  lemma ReachableReleased(s: State)
    requires Reachable(s)
    ensures Released(s)
  {
    ReachableInv(s);
  }

  ghost predicate NeverRan(s: State, m: nat) {
    Complete(s, m) && m !in s.runs
  }

  lemma NeverRanKept(s: State, e: Event, m: nat)
    requires NeverRan(s, m) && Enabled(s, e)
    ensures NeverRan(Apply(s, e), m)
  {
    match e
    case ResolveNext(id) => ResolveGrows(s, id);
    case _ =>
  }

  /** Failing starts no factory. */
  lemma FailingStarts(s: State, e: Event, m: nat)
    requires Enabled(s, e) && m in s.modules && !s.modules[m].complete && m !in s.runs && Failed(Apply(s, e), m)
    requires !s.modules[m].failed
    ensures m !in Apply(s, e).runs
  {
    match e
    case ResolveNext(id) => ResolveGrows(s, id);
    case _ =>
  }

  lemma FailingStops(s: State, e: Event, m: nat)
    requires Reachable(s) && Enabled(s, e) && m in s.modules && !s.modules[m].complete && Failed(Apply(s, e), m)
    ensures NeverRan(Apply(s, e), m)
  {
    ReachableOnce(s);
    LeadsStep(Initial(), s, e);
    ReachableOnce(Apply(s, e));
    FailingStarts(s, e, m);
  }

  lemma ReachableOnce(s: State)
    requires Reachable(s)
    ensures Once(s)
  {
    ReachableInv(s);
  }

  /** Whatever event fails a module that still waits - a load error, a walk that gets to
      it, a failed dependency found while resolving - the module is complete from then
      on and never runs its factory. */
  lemma FailedModulesNeverRun(s: State, e: Event, t: State, m: nat)
    requires Reachable(s) && Enabled(s, e) && Leads(Apply(s, e), t)
    requires m in s.modules && !s.modules[m].complete && Failed(Apply(s, e), m)
    ensures Complete(t, m) && m !in t.runs
  {
    FailingStops(s, e, m);
    var s1 := Apply(s, e);
    var r :| IsRun(r) && r[0] == s1 && r[|r| - 1] == t;
    forall u, e | NeverRan(u, m) && Enabled(u, e) ensures NeverRan(Apply(u, e), m) { NeverRanKept(u, e, m); }
    RunInduction(r, u => NeverRan(u, m));
  }
}
