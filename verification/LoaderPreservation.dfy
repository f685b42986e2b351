/** Every event keeps the invariant of the module manager.  One lemma per event
    and clause, each asking only for the clauses it uses; `t` is the state after
    the event. */
module LoaderPreservation {
  import opened Prelude
  import opened Graph
  import opened LoaderState
  import opened LoaderInvariant

  /** The same modules with the same dependencies give the same edges. */
  lemma SameDependencyEdges(before: map<nat, Module>, after: map<nat, Module>)
    requires forall m :: m in before ==> m in after && after[m].deps == before[m].deps
    requires forall m :: m in after && m !in before ==> after[m].deps == Some([])
    ensures DependencyEdges(after) == DependencyEdges(before)
  {
    forall x, y | (x, y) in DependencyEdges(before) ensures (x, y) in DependencyEdges(after) {
      var i :| 0 <= i < |before[x].deps.value| && y == Target(before[x].deps.value[i]);
      DependencyEdgeAt(after, x, i);
    }
    forall x, y | (x, y) in DependencyEdges(after) ensures (x, y) in DependencyEdges(before) {
      var i :| 0 <= i < |after[x].deps.value| && y == Target(after[x].deps.value[i]);
      DependencyEdgeAt(before, x, i);
    }
  }

  /** Nothing that Order looks at went back. */
  lemma KeepsOrder(s: State, t: State)
    requires Order(s) && t.runs == s.runs && s.broken <= t.broken
    requires forall m :: m in s.declared ==> m in t.declared && t.declared[m] == s.declared[m]
    ensures Order(t)
  {
    forall j, i | 0 <= j < |t.runs| && 0 <= i < |t.declared[t.runs[j]]| && !Special(t.declared[t.runs[j]][i])
      ensures Ordered(t, j, Target(t.declared[t.runs[j]][i]))
    {
      assert Ordered(s, j, Target(s.declared[s.runs[j]][i]));
    }
  }

  /** No count, position or debt changed. */
  lemma SameCounting(s: State, t: State)
    requires Counting(s) && t.declared == s.declared && t.cursor == s.cursor
    requires forall m :: m in t.modules <==> m in s.modules
    requires forall m :: m in s.modules ==> t.modules[m].count == s.modules[m].count
    requires forall m :: Owed(t, m) == Owed(s, m)
    ensures Counting(t)
  {
  }

  /** Nothing that Progress looks at went back, apart from positions. */
  lemma KeepsProgress(s: State, t: State)
    requires Progress(s) && t.declared == s.declared && t.cursor == s.cursor && s.broken <= t.broken
    requires forall m :: m in s.runs ==> m in t.runs
    requires forall m, d :: m in Waiters(s.inverse, d) ==> m in Waiters(t.inverse, d) || d in t.runs
    ensures Progress(t)
  {
    forall m, i | IsExamined(t, m, i)
      ensures Settled(t, m, Target(t.declared[m][i]))
    {
      assert Settled(s, m, Target(s.declared[m][i]));
    }
  }

  // ---------------------------------------------------------------- define

  ghost predicate IsDefine(s: State, t: State, id: nat, deps: seq<Dependency>, errorback: bool, limit: nat) {
    && s.limit <= limit && id < limit && AllBelow(deps, limit) && id !in s.modules
    && t == DefineStep(s, id, deps, errorback, limit)
  }

  lemma DefineShape(s: State, t: State, id: nat, deps: seq<Dependency>, errorback: bool, limit: nat)
    requires Shape(s) && IsDefine(s, t, id, deps, errorback, limit)
    ensures Shape(t)
  {
    forall m | m in t.declared ensures m in t.modules && AllBelow(t.declared[m], limit) {
      if m in s.declared { assert AllBelow(s.declared[m], s.limit); }
    }
  }

  lemma DefineCounting(s: State, t: State, id: nat, deps: seq<Dependency>, errorback: bool, limit: nat)
    requires Shape(s) && Counting(s) && IsDefine(s, t, id, deps, errorback, limit)
    ensures Counting(t)
  {
    forall m ensures Owed(t, m) == Owed(s, m) { ListedExtend(s.inverse, s.limit, limit, m); }
  }

  lemma DefineOnce(s: State, t: State, id: nat, deps: seq<Dependency>, errorback: bool, limit: nat)
    requires Shape(s) && Once(s) && Order(s) && IsDefine(s, t, id, deps, errorback, limit)
    ensures Once(t) && Order(t)
  {
    forall m ensures Complete(t, m) == Complete(s, m) && Failed(t, m) == Failed(s, m) {}
    KeepsOrder(s, t);
  }

  lemma DefineRest(s: State, t: State, id: nat, deps: seq<Dependency>, errorback: bool, limit: nat)
    requires Shape(s) && Zero(s) && Examined(s) && Progress(s) && IsDefine(s, t, id, deps, errorback, limit)
    ensures Zero(t) && Examined(t)
    ensures Progress(t)
  {
    forall m ensures Complete(t, m) == Complete(s, m) {}
  }

  lemma DefineRequested(s: State, t: State, id: nat, deps: seq<Dependency>, errorback: bool, limit: nat)
    requires Requested(s) && Released(s) && IsDefine(s, t, id, deps, errorback, limit)
    ensures Requested(t) && Released(t)
  {
    forall m ensures Complete(t, m) == Complete(s, m) && Failed(t, m) == Failed(s, m) {}
    forall d | Waiters(t.inverse, d) != [] && d !in t.modules && d !in t.known ensures IsParked(t, d) {
      assert IsParked(s, d);
    }
  }

  lemma DefineWaiting(s: State, t: State, id: nat, deps: seq<Dependency>, errorback: bool, limit: nat)
    requires Shape(s) && Waiting(s) && Cuts(s) && IsDefine(s, t, id, deps, errorback, limit)
    ensures Waiting(t) && Cuts(t)
  {
    forall x, y | (x, y) in DependencyEdges(s.modules) ensures (x, y) in DependencyEdges(t.modules) {
      var i :| 0 <= i < |s.modules[x].deps.value| && y == Target(s.modules[x].deps.value[i]);
      DependencyEdgeAt(t.modules, x, i);
    }
    forall x, y | (x, y) in DeclaredEdges(s.declared) ensures (x, y) in DeclaredEdges(t.declared) {
      var i :| 0 <= i < |s.declared[x]| && y == Target(s.declared[x][i]);
      assert (x, Target(t.declared[x][i])) in DeclaredEdges(t.declared);
    }
    forall m, d | (m, d) in s.broken ensures ReachesByEdge(DeclaredEdges(t.declared), d, m) {
      ReachesMono(DeclaredEdges(s.declared), DeclaredEdges(t.declared), d, m);
    }
  }

  // ---------------------------------------------------------------- resolve: one dependency examined

  /** One dependency of id was examined: the position moved on, the count of id may
      have changed, and some tables may have grown. */
  ghost predicate Moved(s: State, t: State, id: nat) {
    && id in s.modules && id in s.cursor && id in s.declared && id in s.resolving
    && s.cursor[id] < |s.declared[id]|
    && id in t.modules
    && t == s.(modules := s.modules[id := s.modules[id].(count := t.modules[id].count)],
               cursor := s.cursor[id := s.cursor[id] + 1],
               inverse := t.inverse, known := t.known, parked := t.parked, broken := t.broken)
  }

  lemma MovedStatus(s: State, t: State, id: nat)
    requires Moved(s, t, id)
    ensures forall m :: Complete(t, m) == Complete(s, m) && Failed(t, m) == Failed(s, m)
    ensures DependencyEdges(t.modules) == DependencyEdges(s.modules)
  {
    forall m ensures Complete(t, m) == Complete(s, m) && Failed(t, m) == Failed(s, m) {}
    SameDependencyEdges(s.modules, t.modules);
  }

  lemma MovedShape(s: State, t: State, id: nat)
    requires Shape(s) && Moved(s, t, id)
    requires forall d :: d in t.inverse ==> d < s.limit
    ensures Shape(t)
  {
  }

  /** A module in the middle of its resolution has a positive count. */
  lemma ResolvingCount(s: State, id: nat)
    requires Counting(s) && Zero(s) && Enabled(s, ResolveNext(id))
    ensures s.modules[id].count > 0 && id !in s.runs && id !in s.ready
  {
  }

  lemma MovedCounting(s: State, t: State, id: nat)
    requires Counting(s) && Moved(s, t, id)
    requires Listed(t.inverse, s.limit, id) - Listed(s.inverse, s.limit, id) ==
        t.modules[id].count - s.modules[id].count + 1
    requires forall m :: m != id ==> Listed(t.inverse, s.limit, m) == Listed(s.inverse, s.limit, m)
    ensures Counting(t)
  {
    forall m | m != id ensures Owed(t, m) == Owed(s, m) {}
  }

  lemma MovedZero(s: State, t: State, id: nat)
    requires Zero(s) && Examined(s) && Moved(s, t, id)
    requires id !in s.runs && id !in s.ready
    ensures Zero(t) && Examined(t)
  {
  }

  lemma MovedOnce(s: State, t: State, id: nat)
    requires Once(s) && Order(s) && Moved(s, t, id) && s.broken <= t.broken
    ensures Once(t) && Order(t)
  {
    MovedStatus(s, t, id);
    KeepsOrder(s, t);
  }

  lemma MovedProgress(s: State, t: State, id: nat)
    requires Progress(s) && Moved(s, t, id) && s.broken <= t.broken
    requires forall m, d :: m in Waiters(s.inverse, d) ==> m in Waiters(t.inverse, d)
    requires Special(s.declared[id][s.cursor[id]]) || Settled(t, id, Target(s.declared[id][s.cursor[id]]))
    ensures Progress(t)
  {
    MovedStatus(s, t, id);
    forall m, i | IsExamined(t, m, i)
      ensures Settled(t, m, Target(t.declared[m][i]))
    {
      if m != id || i != s.cursor[id] { assert Settled(s, m, Target(s.declared[m][i])); }
    }
  }

  // ---------------------------------------------------------------- resolve: counted at once

  /** Dependency d of id is counted as resolved without waiting: it is special,
      complete, or lies on a cycle through id and is cut off. */
  ghost predicate IsAdvance(s: State, t: State, id: nat) {
    && Enabled(s, ResolveNext(id))
    && var dep := s.declared[id][s.cursor[id]];
       var d := Target(dep);
       && t == Advance(s, id, true).(broken := t.broken)
       && (|| (t.broken == s.broken && (Special(dep) || (Complete(s, d) && !Failed(s, d))))
           || (t.broken == s.broken + {(id, d)} && ReachesByEdge(DependencyEdges(s.modules), d, id)))
  }

  lemma AdvanceCuts(s: State, t: State, id: nat)
    requires Shape(s) && Cuts(s) && IsAdvance(s, t, id)
    ensures Cuts(t)
  {
    var d := Target(s.declared[id][s.cursor[id]]);
    assert (id, d) in DeclaredEdges(s.declared);
    DependencyEdgesDeclared(s);
    ReachesMono(DependencyEdges(s.modules), DeclaredEdges(s.declared), d, id);
  }

  lemma AdvanceSettles(s: State, t: State, id: nat)
    requires Once(s) && IsAdvance(s, t, id) && !Special(s.declared[id][s.cursor[id]])
    ensures Settled(t, id, Target(s.declared[id][s.cursor[id]]))
  {
  }

  lemma AdvanceProgress(s: State, t: State, id: nat)
    requires Once(s) && Progress(s) && IsAdvance(s, t, id) && Moved(s, t, id)
    ensures Progress(t)
  {
    if !Special(s.declared[id][s.cursor[id]]) { AdvanceSettles(s, t, id); }
    MovedProgress(s, t, id);
  }

  lemma AdvanceRequested(s: State, t: State, id: nat)
    requires Requested(s) && Released(s) && Moved(s, t, id)
    requires t.inverse == s.inverse && t.known == s.known && t.parked == s.parked
    ensures Requested(t) && Released(t)
  {
    MovedStatus(s, t, id);
    forall d | Waiters(t.inverse, d) != [] && d !in t.modules && d !in t.known ensures IsParked(t, d) {
      assert IsParked(s, d);
    }
  }

  lemma AdvanceKeeps(s: State, t: State, id: nat)
    requires Inv(s) && IsAdvance(s, t, id)
    ensures Inv(t)
  {
    assert Moved(s, t, id);
    ResolvingCount(s, id);
    MovedStatus(s, t, id);
    MovedShape(s, t, id);
    MovedCounting(s, t, id);
    MovedZero(s, t, id);
    MovedOnce(s, t, id);
    AdvanceProgress(s, t, id);
    AdvanceCuts(s, t, id);
    AdvanceRequested(s, t, id);
  }

  // ---------------------------------------------------------------- resolve: wait

  ghost predicate IsWait(s: State, t: State, id: nat) {
    && Enabled(s, ResolveNext(id))
    && var dep := s.declared[id][s.cursor[id]];
       && !Special(dep) && !Complete(s, Target(dep))
       && !ReachesByEdge(DependencyEdges(s.modules), Target(dep), id)
       && t == Wait(s, id, dep)
  }

  lemma WaitMoved(s: State, t: State, id: nat, d: nat)
    requires IsWait(s, t, id) && d == Target(s.declared[id][s.cursor[id]])
    ensures Moved(s, t, id) && t.modules[id].count == s.modules[id].count && t.broken == s.broken
    ensures t.inverse == s.inverse[d := Waiters(s.inverse, d) + [id]]
  {
  }

  lemma AppendWaiter(inverse: map<nat, seq<nat>>, inverse': map<nat, seq<nat>>, id: nat, d: nat)
    requires inverse' == inverse[d := Waiters(inverse, d) + [id]]
    ensures forall m, k :: m in Waiters(inverse', k) <==> m in Waiters(inverse, k) || (m == id && k == d)
    ensures WaitEdges(inverse') == WaitEdges(inverse) + {(id, d)}
  {
    assert Waiters(inverse', d) == Waiters(inverse, d) + [id];
    forall k: nat | k != d ensures Waiters(inverse', k) == Waiters(inverse, k) {}
    forall x: nat, y: nat ensures (x, y) in WaitEdges(inverse') <==> (x, y) in WaitEdges(inverse) || (x, y) == (id, d) {
      WaitEdgeIff(inverse, x, y);
      WaitEdgeIff(inverse', x, y);
    }
  }

  lemma AppendListed(inverse: map<nat, seq<nat>>, inverse': map<nat, seq<nat>>, id: nat, d: nat, n: nat, m: nat)
    requires inverse' == inverse[d := Waiters(inverse, d) + [id]] && d < n
    ensures Listed(inverse', n, m) == Listed(inverse, n, m) + if m == id then 1 else 0
  {
    assert Waiters(inverse', d) == Waiters(inverse, d) + [id];
    ListedUpdate(inverse, inverse', d, n, m);
  }

  /** Parked lists and requests only grow, and new waits and parkings are accounted for. */
  lemma KeepsRequested(s: State, t: State)
    requires Requested(s)
    requires forall m :: m in s.modules ==> m in t.modules
    requires forall p :: Complete(t, p) ==> Complete(s, p)
    requires forall p :: Failed(s, p) ==> Failed(t, p)
    requires s.known <= t.known && s.running <= t.running && s.releasing <= t.releasing
    requires forall p :: Parked(s, p) <= Parked(t, p)
    requires forall p :: Parked(t, p) != [] && Parked(s, p) == [] ==>
               (p in t.modules || p in t.known) && !Complete(t, p)
    requires forall d :: Waiters(t.inverse, d) != [] && Waiters(s.inverse, d) == [] ==>
               d in t.modules || d in t.known || IsParked(t, d)
    ensures Requested(t)
  {
    forall d | Waiters(t.inverse, d) != [] && d !in t.modules && d !in t.known ensures IsParked(t, d) {
      if Waiters(s.inverse, d) != [] {
        var p, i :| p in s.parked && 0 <= i < |s.parked[p]| && Target(s.parked[p][i]) == d;
        assert Parked(s, p) <= Parked(t, p);
        assert Target(t.parked[p][i]) == d;
      }
    }
  }

  lemma WaitRequested(s: State, t: State, id: nat, d: nat)
    requires Requested(s) && IsWait(s, t, id) && d == Target(s.declared[id][s.cursor[id]])
    ensures Requested(t)
  {
    WaitMoved(s, t, id, d);
    MovedStatus(s, t, id);
    WaitParks(s, t, id, s.declared[id][s.cursor[id]]);
    KeepsRequested(s, t);
  }

  lemma WaitParks(s: State, t: State, id: nat, dep: Dependency)
    requires id in s.modules && id in s.cursor && !Special(dep) && t == Wait(s, id, dep)
    ensures s.known <= t.known && t.running == s.running && t.releasing == s.releasing
    ensures forall p :: Parked(s, p) <= Parked(t, p)
    ensures forall p :: Parked(t, p) != [] && Parked(s, p) == [] ==> (p in s.modules || p in t.known) && !Complete(s, p)
    ensures Target(dep) in s.modules || Target(dep) in t.known || IsParked(t, Target(dep))
    ensures forall d :: d != Target(dep) ==> Waiters(t.inverse, d) == Waiters(s.inverse, d)
  {
    if dep.Plugin? && !Complete(s, dep.pluginId) {
      AppendParked(s, t, dep);
    } else {
      SameParked(s, t);
    }
  }

  lemma SameParked(s: State, t: State)
    requires t.parked == s.parked
    ensures forall p :: Parked(t, p) == Parked(s, p)
  {
  }

  lemma AppendParked(s: State, t: State, dep: Dependency)
    requires dep.Plugin? && t.parked == s.parked[dep.pluginId := Parked(s, dep.pluginId) + [dep]]
    ensures forall p :: p != dep.pluginId ==> Parked(s, p) == Parked(t, p)
    ensures Parked(t, dep.pluginId) == Parked(s, dep.pluginId) + [dep] && IsParked(t, Target(dep))
  {
    var at := Parked(t, dep.pluginId);
    assert Target(t.parked[dep.pluginId][|at| - 1]) == Target(dep);
  }

  /** The cycle check is what keeps the wait edges acyclic. */
  lemma WaitAcyclic(waits: Edges, deps: Edges, id: nat, d: nat)
    requires waits <= deps && Acyclic(waits) && (id, d) in deps && !ReachesByEdge(deps, d, id)
    ensures Acyclic(waits + {(id, d)})
  {
    ReachesMono(waits, deps, d, id);
    ReachesCases(waits, d, id);
    ReachesOne(deps, id, d);
    AcyclicAddEdge(waits, id, d);
  }

  lemma WaitCounting(s: State, t: State, id: nat, d: nat)
    requires Counting(s) && Moved(s, t, id) && t.modules[id].count == s.modules[id].count
    requires d < s.limit && t.inverse == s.inverse[d := Waiters(s.inverse, d) + [id]]
    ensures Counting(t)
  {
    forall m ensures Listed(t.inverse, s.limit, m) == Listed(s.inverse, s.limit, m) + if m == id then 1 else 0 {
      AppendListed(s.inverse, t.inverse, id, d, s.limit, m);
    }
    MovedCounting(s, t, id);
  }

  lemma WaitWaiting(s: State, t: State, id: nat, d: nat)
    requires Shape(s) && Counting(s) && Zero(s) && Once(s) && Waiting(s)
    requires IsWait(s, t, id) && d == Target(s.declared[id][s.cursor[id]])
    ensures Waiting(t)
  {
    WaitMoved(s, t, id, d);
    MovedStatus(s, t, id);
    AppendWaiter(s.inverse, t.inverse, id, d);
    ResolvingCount(s, id);
    DependencyEdgeAt(s.modules, id, s.cursor[id]);
    WaitAcyclic(WaitEdges(s.inverse), DependencyEdges(s.modules), id, d);
  }

  lemma WaitReleased(s: State, t: State, id: nat, d: nat)
    requires Progress(s) && Released(s)
    requires IsWait(s, t, id) && d == Target(s.declared[id][s.cursor[id]])
    ensures Progress(t) && Released(t)
  {
    WaitMoved(s, t, id, d);
    MovedStatus(s, t, id);
    AppendWaiter(s.inverse, t.inverse, id, d);
    MovedProgress(s, t, id);
  }

  lemma WaitKeeps(s: State, t: State, id: nat)
    requires Inv(s) && IsWait(s, t, id)
    ensures Inv(t)
  {
    var d := Target(s.declared[id][s.cursor[id]]);
    WaitMoved(s, t, id, d);
    assert Below(s.declared[id][s.cursor[id]], s.limit);
    ResolvingCount(s, id);
    MovedShape(s, t, id);
    MovedZero(s, t, id);
    WaitCounting(s, t, id, d);
    WaitWaiting(s, t, id, d);
    WaitReleased(s, t, id, d);
    WaitRequested(s, t, id, d);
    MovedOnce(s, t, id);
  }

  // ---------------------------------------------------------------- resolve: give up

  ghost predicate IsAbort(s: State, t: State, id: nat) {
    Enabled(s, ResolveNext(id)) && t == Abort(s, id)
  }

  lemma AbortStatus(s: State, t: State, id: nat)
    requires IsAbort(s, t, id)
    ensures forall m :: m != id ==> Complete(t, m) == Complete(s, m) && Failed(t, m) == Failed(s, m)
    ensures Complete(t, id) && Failed(t, id)
    ensures DependencyEdges(t.modules) == DependencyEdges(s.modules)
  {
    forall m | m != id ensures Complete(t, m) == Complete(s, m) && Failed(t, m) == Failed(s, m) {}
    SameDependencyEdges(s.modules, t.modules);
  }

  lemma AbortCounting(s: State, t: State, id: nat)
    requires Counting(s) && Zero(s) && IsAbort(s, t, id)
    ensures Counting(t) && Zero(t)
  {
    ResolvingCount(s, id);
    forall m ensures Owed(t, m) == Owed(s, m) {}
  }

  lemma AbortOnce(s: State, t: State, id: nat)
    requires Once(s) && Examined(s) && Order(s) && IsAbort(s, t, id)
    ensures Once(t) && Examined(t) && Order(t)
  {
    AbortStatus(s, t, id);
    KeepsOrder(s, t);
  }

  lemma AbortRequested(s: State, t: State, id: nat)
    requires Requested(s) && Released(s) && IsAbort(s, t, id)
    ensures Requested(t) && Released(t)
  {
    AbortStatus(s, t, id);
    forall d | Waiters(t.inverse, d) != [] && d !in t.modules && d !in t.known ensures IsParked(t, d) {
      assert IsParked(s, d);
    }
  }

  lemma AbortShape(s: State, t: State, id: nat)
    requires Shape(s) && Waiting(s) && Cuts(s) && IsAbort(s, t, id)
    ensures Shape(t) && Waiting(t) && Cuts(t)
  {
    AbortStatus(s, t, id);
  }

  lemma AbortProgress(s: State, t: State, id: nat)
    requires Progress(s) && IsAbort(s, t, id)
    ensures Progress(t)
  {
    AbortStatus(s, t, id);
    KeepsProgress(s, t);
  }

  lemma AbortKeeps(s: State, t: State, id: nat)
    requires Inv(s) && IsAbort(s, t, id)
    ensures Inv(t)
  {
    AbortShape(s, t, id);
    AbortCounting(s, t, id);
    AbortOnce(s, t, id);
    AbortProgress(s, t, id);
    AbortRequested(s, t, id);
  }

  lemma ResolveKeeps(s: State, id: nat)
    requires Inv(s) && Enabled(s, ResolveNext(id))
    ensures Inv(ResolveStep(s, id))
  {
    var t := ResolveStep(s, id);
    if IsAdvance(s, t, id) { AdvanceKeeps(s, t, id); }
    else if IsWait(s, t, id) { WaitKeeps(s, t, id); }
    else { AbortKeeps(s, t, id); }
  }

  lemma DefineKeeps(s: State, id: nat, deps: seq<Dependency>, errorback: bool, limit: nat)
    requires Inv(s) && Enabled(s, Define(id, deps, errorback, limit))
    ensures Inv(DefineStep(s, id, deps, errorback, limit))
  {
    var t := DefineStep(s, id, deps, errorback, limit);
    if id in s.modules {
      RaiseLimit(s, t, limit);
    } else {
      DefineShape(s, t, id, deps, errorback, limit);
      DefineCounting(s, t, id, deps, errorback, limit);
      DefineOnce(s, t, id, deps, errorback, limit);
      DefineRest(s, t, id, deps, errorback, limit);
      DefineRequested(s, t, id, deps, errorback, limit);
      DefineWaiting(s, t, id, deps, errorback, limit);
    }
  }

  lemma RaiseLimit(s: State, t: State, limit: nat)
    requires Inv(s) && s.limit <= limit && t == s.(limit := limit)
    ensures Inv(t)
  {
    RaiseShape(s, t, limit);
    RaiseCounting(s, t, limit);
    KeepsControl(s, t);
  }

  lemma RaiseShape(s: State, t: State, limit: nat)
    requires Shape(s) && Zero(s) && Examined(s) && s.limit <= limit && t == s.(limit := limit)
    ensures Shape(t) && Zero(t) && Examined(t)
  {
    forall m | m in t.declared ensures AllBelow(t.declared[m], limit) {
      assert AllBelow(s.declared[m], s.limit);
    }
  }

  lemma RaiseCounting(s: State, t: State, limit: nat)
    requires Shape(s) && Counting(s) && s.limit <= limit && t == s.(limit := limit)
    ensures Counting(t)
  {
    forall m ensures Owed(t, m) == Owed(s, m) { ListedExtend(s.inverse, s.limit, limit, m); }
  }

  /** Only the limit or what the calls in progress have to do changed. */
  lemma KeepsControl(s: State, t: State)
    requires Once(s) && Waiting(s) && Progress(s) && Order(s) && Cuts(s) && Requested(s) && Released(s)
    requires t == s.(limit := t.limit, resolving := t.resolving, ready := t.ready)
    ensures Once(t) && Waiting(t) && Progress(t) && Order(t) && Cuts(t) && Requested(t) && Released(t)
  {
    forall m ensures Complete(t, m) == Complete(s, m) && Failed(t, m) == Failed(s, m) {}
    KeepsOrder(s, t);
    KeepsProgress(s, t);
    KeepsRequested(s, t);
  }

  // ---------------------------------------------------------------- finish resolving

  lemma FinishKeeps(s: State, id: nat)
    requires Inv(s) && Enabled(s, FinishResolve(id))
    ensures Inv(FinishStep(s, id))
  {
    var t := FinishStep(s, id);
    FinishZero(s, t, id);
    SameCounting(s, t);
    KeepsControl(s, t);
  }

  lemma FinishZero(s: State, t: State, id: nat)
    requires Counting(s) && Zero(s) && Examined(s)
    requires Enabled(s, FinishResolve(id)) && t == FinishStep(s, id)
    ensures Zero(t) && Examined(t)
  {
  }

  // ---------------------------------------------------------------- begin

  ghost predicate IsBegin(s: State, t: State, id: nat) {
    Enabled(s, Begin(id)) && !s.modules[id].complete && t == BeginStep(s, id)
  }

  lemma BeginStatus(s: State, t: State, id: nat)
    requires IsBegin(s, t, id)
    ensures forall m :: m != id ==> Complete(t, m) == Complete(s, m)
    ensures forall m :: Failed(t, m) == Failed(s, m)
    ensures Complete(t, id)
    ensures DependencyEdges(t.modules) == DependencyEdges(s.modules)
  {
    forall m | m != id ensures Complete(t, m) == Complete(s, m) {}
    forall m ensures Failed(t, m) == Failed(s, m) {}
    SameDependencyEdges(s.modules, t.modules);
  }

  lemma BeginZero(s: State, t: State, id: nat)
    requires Zero(s) && Examined(s) && IsBegin(s, t, id)
    ensures Zero(t) && Examined(t)
  {
  }

  lemma BeginShape(s: State, t: State, id: nat)
    requires Shape(s) && IsBegin(s, t, id)
    ensures Shape(t)
  {
  }

  lemma BeginCounting(s: State, t: State, id: nat)
    requires Counting(s) && IsBegin(s, t, id)
    ensures Counting(t)
  {
    SameCounting(s, t);
  }

  lemma BeginOnce(s: State, t: State, id: nat)
    requires Once(s) && IsBegin(s, t, id)
    ensures Once(t)
  {
    BeginStatus(s, t, id);
    assert id !in s.runs;
  }

  /** The factory starts only after every dependency has started its own or is cut off. */
  lemma DependenciesReady(s: State, id: nat, i: nat)
    requires Shape(s) && Counting(s) && Zero(s) && Progress(s) && id in s.ready
    requires i < |s.declared[id]| && !Special(s.declared[id][i])
    ensures Target(s.declared[id][i]) in s.runs || (id, Target(s.declared[id][i])) in s.broken
  {
    NothingOwed(s, id);
    assert Settled(s, id, Target(s.declared[id][i]));
  }

  lemma BeginOrder(s: State, t: State, id: nat)
    requires Shape(s) && Counting(s) && Zero(s) && Progress(s) && Once(s) && Order(s) && IsBegin(s, t, id)
    ensures Order(t)
  {
    forall j, i | 0 <= j < |t.runs| && 0 <= i < |t.declared[t.runs[j]]| && !Special(t.declared[t.runs[j]][i])
      ensures Ordered(t, j, Target(t.declared[t.runs[j]][i]))
    {
      if j == |s.runs| {
        LastOrdered(s, t, id, i);
      } else {
        assert Ordered(s, j, Target(s.declared[s.runs[j]][i]));
        EarlierOrdered(s, t, id, j, Target(s.declared[s.runs[j]][i]));
      }
    }
  }

  lemma LastOrdered(s: State, t: State, id: nat, i: nat)
    requires Shape(s) && Counting(s) && Zero(s) && Progress(s) && Once(s) && IsBegin(s, t, id)
    requires i < |s.declared[id]| && !Special(s.declared[id][i])
    ensures Ordered(t, |s.runs|, Target(s.declared[id][i]))
  {
    DependenciesReady(s, id, i);
    assert t.runs[..|s.runs|] == s.runs;
  }

  lemma EarlierOrdered(s: State, t: State, id: nat, j: nat, d: nat)
    requires IsBegin(s, t, id) && j < |s.runs| && Ordered(s, j, d)
    ensures j < |t.runs| && t.runs[j] == s.runs[j] && Ordered(t, j, d)
  {
    assert t.runs[..j] == s.runs[..j];
  }

  lemma BeginRequested(s: State, t: State, id: nat)
    requires Requested(s) && Released(s) && IsBegin(s, t, id)
    ensures Requested(t) && Released(t)
  {
    BeginStatus(s, t, id);
    forall d | Waiters(t.inverse, d) != [] && d !in t.modules && d !in t.known ensures IsParked(t, d) {
      assert IsParked(s, d);
    }
  }

  lemma BeginProgress(s: State, t: State, id: nat)
    requires Progress(s) && IsBegin(s, t, id)
    ensures Progress(t)
  {
    BeginStatus(s, t, id);
    KeepsProgress(s, t);
  }

  lemma BeginAgain(s: State, t: State, id: nat)
    requires Inv(s) && Enabled(s, Begin(id)) && s.modules[id].complete && t == BeginStep(s, id)
    ensures Inv(t)
  {
    SkipShape(s, t, id);
    KeepsControl(s, t);
  }

  lemma SkipShape(s: State, t: State, id: nat)
    requires Shape(s) && Counting(s) && Zero(s) && Examined(s)
    requires Enabled(s, Begin(id)) && s.modules[id].complete && t == BeginStep(s, id)
    ensures Shape(t) && Counting(t) && Zero(t) && Examined(t)
  {
    SameCounting(s, t);
  }

  lemma BeginKeeps(s: State, id: nat)
    requires Inv(s) && Enabled(s, Begin(id))
    ensures Inv(BeginStep(s, id))
  {
    var t := BeginStep(s, id);
    if s.modules[id].complete {
      BeginAgain(s, t, id);
    } else {
      assert Waiting(t) && Cuts(t) by { BeginStatus(s, t, id); }
      BeginShape(s, t, id);
      BeginZero(s, t, id);
      BeginCounting(s, t, id);
      BeginOnce(s, t, id);
      BeginOrder(s, t, id);
      BeginRequested(s, t, id);
      BeginProgress(s, t, id);
    }
  }

  // ---------------------------------------------------------------- end of the factory

  ghost predicate IsEnd(s: State, t: State, id: nat) {
    Enabled(s, EndFactory(id)) && t == EndStep(s, id)
  }

  lemma EndStatus(s: State, t: State, id: nat)
    requires IsEnd(s, t, id)
    ensures forall m :: Complete(t, m) == Complete(s, m)
    ensures forall m :: Failed(t, m) == Failed(s, m)
    ensures Waiters(t.inverse, id) == [] && forall d :: d != id ==> Waiters(t.inverse, d) == Waiters(s.inverse, d)
  {
    forall m ensures Complete(t, m) == Complete(s, m) && Failed(t, m) == Failed(s, m) {}
  }

  lemma EndOwed(s: State, t: State, id: nat, m: nat)
    requires IsEnd(s, t, id) && id < s.limit
    ensures Owed(t, m) == Owed(s, m)
  {
    EndStatus(s, t, id);
    ListedUpdate(s.inverse, t.inverse, id, s.limit, m);
  }

  lemma EndCounting(s: State, t: State, id: nat)
    requires Counting(s) && id < s.limit && IsEnd(s, t, id)
    ensures Counting(t)
  {
    forall m ensures Owed(t, m) == Owed(s, m) { EndOwed(s, t, id, m); }
    SameCounting(s, t);
  }

  lemma EndShape(s: State, t: State, id: nat)
    requires Shape(s) && IsEnd(s, t, id)
    ensures Shape(t)
  {
  }

  lemma EndZero(s: State, t: State, id: nat)
    requires Zero(s) && Examined(s) && IsEnd(s, t, id)
    ensures Zero(t) && Examined(t)
  {
  }

  lemma EndOnce(s: State, t: State, id: nat)
    requires Once(s) && Order(s) && IsEnd(s, t, id)
    ensures Once(t) && Order(t)
  {
    EndStatus(s, t, id);
    KeepsOrder(s, t);
  }

  lemma EndRequested(s: State, t: State, id: nat)
    requires Requested(s) && Released(s) && IsEnd(s, t, id)
    ensures Requested(t) && Released(t)
  {
    EndStatus(s, t, id);
    forall d | Waiters(t.inverse, d) != [] && d !in t.modules && d !in t.known ensures IsParked(t, d) {
      assert IsParked(s, d);
    }
  }

  lemma EndWaiting(s: State, t: State, id: nat)
    requires Shape(s) && Counting(s) && Once(s) && Zero(s) && Waiting(s) && IsEnd(s, t, id)
    ensures Waiting(t)
  {
    EndStatus(s, t, id);
    NothingOwed(s, id);
    forall x: nat, y: nat | (x, y) in WaitEdges(t.inverse)
      ensures (x, y) in WaitEdges(s.inverse) && (x, y) in DependencyEdges(t.modules)
    {
      WaitEdgeIff(t.inverse, x, y);
      WaitEdgeIff(s.inverse, x, y);
      assert (x, y) in DependencyEdges(s.modules);
      var i :| 0 <= i < |s.modules[x].deps.value| && y == Target(s.modules[x].deps.value[i]);
      DependencyEdgeAt(t.modules, x, i);
    }
    AcyclicMono(WaitEdges(t.inverse), WaitEdges(s.inverse));
  }

  lemma EndProgress(s: State, t: State, id: nat)
    requires Once(s) && Progress(s) && IsEnd(s, t, id)
    ensures Progress(t)
  {
    EndStatus(s, t, id);
    KeepsProgress(s, t);
  }

  lemma EndKeeps(s: State, id: nat)
    requires Inv(s) && Enabled(s, EndFactory(id))
    ensures Inv(EndStep(s, id))
  {
    var t := EndStep(s, id);
    EndShape(s, t, id);
    EndZero(s, t, id);
    EndCounting(s, t, id);
    EndOnce(s, t, id);
    EndRequested(s, t, id);
    EndWaiting(s, t, id);
    EndProgress(s, t, id);
  }

  // ---------------------------------------------------------------- one decrement of a cascade

  ghost predicate IsDecrement(s: State, t: State, id: nat) {
    Enabled(s, Decrement(id)) && t == DecrementStep(s, id)
  }

  lemma DecrementStatus(s: State, t: State, id: nat)
    requires IsDecrement(s, t, id)
    ensures forall m :: Complete(t, m) == Complete(s, m) && Failed(t, m) == Failed(s, m)
    ensures DependencyEdges(t.modules) == DependencyEdges(s.modules)
  {
    forall m ensures Complete(t, m) == Complete(s, m) && Failed(t, m) == Failed(s, m) {}
    SameDependencyEdges(s.modules, t.modules);
  }

  lemma DecrementShape(s: State, t: State, id: nat)
    requires Shape(s) && Examined(s) && IsDecrement(s, t, id)
    ensures Shape(t) && Examined(t)
  {
  }

  /** An owed decrement means that the count is positive, so it cannot go below
      zero and reaches zero only once. */
  lemma DecrementCounting(s: State, t: State, id: nat)
    requires Counting(s) && IsDecrement(s, t, id)
    requires id in s.cursor && id in s.declared && s.cursor[id] <= |s.declared[id]|
    ensures Counting(t) && s.modules[id].count > 0
  {
    forall m ensures Owed(t, m) == Owed(s, m) - if m == id then 1 else 0 {}
  }

  lemma DecrementZero(s: State, t: State, id: nat)
    requires Zero(s) && IsDecrement(s, t, id) && s.modules[id].count > 0
    ensures Zero(t)
  {
  }

  lemma DecrementOnce(s: State, t: State, id: nat)
    requires Once(s) && Order(s) && Progress(s) && IsDecrement(s, t, id)
    ensures Once(t) && Order(t) && Progress(t)
  {
    DecrementStatus(s, t, id);
    KeepsOrder(s, t);
    KeepsProgress(s, t);
  }

  lemma DecrementRequested(s: State, t: State, id: nat)
    requires Requested(s) && Released(s) && IsDecrement(s, t, id)
    ensures Requested(t) && Released(t)
  {
    DecrementStatus(s, t, id);
    KeepsRequested(s, t);
  }

  lemma DecrementKeeps(s: State, id: nat)
    requires Inv(s) && Enabled(s, Decrement(id))
    ensures Inv(DecrementStep(s, id))
  {
    var t := DecrementStep(s, id);
    assert Waiting(t) && Cuts(t) by { DecrementStatus(s, t, id); }
    DecrementShape(s, t, id);
    DecrementCounting(s, t, id);
    DecrementZero(s, t, id);
    DecrementOnce(s, t, id);
    DecrementRequested(s, t, id);
  }

  // ---------------------------------------------------------------- a factory throws

  ghost predicate IsThrow(s: State, t: State, id: nat) {
    Enabled(s, Throw(id)) && t == ThrowStep(s, id)
  }

  lemma ThrowStatus(s: State, t: State, id: nat)
    requires IsThrow(s, t, id)
    ensures forall m :: Complete(t, m) == Complete(s, m)
    ensures forall m :: Failed(t, m) == (Failed(s, m) || m == id)
    ensures DependencyEdges(t.modules) == DependencyEdges(s.modules)
  {
    forall m ensures Complete(t, m) == Complete(s, m) && Failed(t, m) == (Failed(s, m) || m == id) {}
    SameDependencyEdges(s.modules, t.modules);
  }

  lemma ThrowShape(s: State, t: State, id: nat)
    requires Shape(s) && Zero(s) && Examined(s) && Waiting(s) && Cuts(s) && IsThrow(s, t, id)
    ensures Shape(t) && Zero(t) && Examined(t) && Waiting(t) && Cuts(t)
  {
    ThrowStatus(s, t, id);
  }

  lemma ThrowCounting(s: State, t: State, id: nat)
    requires Counting(s) && IsThrow(s, t, id)
    ensures Counting(t)
  {
    SameCounting(s, t);
  }

  lemma ThrowOnce(s: State, t: State, id: nat)
    requires Once(s) && Order(s) && Progress(s) && IsThrow(s, t, id)
    ensures Once(t) && Order(t) && Progress(t)
  {
    ThrowStatus(s, t, id);
    KeepsOrder(s, t);
    KeepsProgress(s, t);
  }

  lemma ThrowRequested(s: State, t: State, id: nat)
    requires Requested(s) && Released(s) && IsThrow(s, t, id)
    ensures Requested(t) && Released(t)
  {
    ThrowStatus(s, t, id);
    KeepsRequested(s, t);
  }

  lemma ThrowKeeps(s: State, t: State, id: nat)
    requires Inv(s) && IsThrow(s, t, id)
    ensures Inv(t)
  {
    ThrowShape(s, t, id);
    ThrowCounting(s, t, id);
    ThrowOnce(s, t, id);
    ThrowRequested(s, t, id);
  }

  // ---------------------------------------------------------------- parked plugin dependencies

  /** Only what is parked and asked for changes, at a plugin that releases. */
  ghost predicate IsRelease(s: State, t: State, id: nat) {
    && id in s.releasing && t == s.(known := t.known, parked := t.parked, releasing := t.releasing)
    && s.known <= t.known && t.releasing <= s.releasing
    && (forall p :: p != id ==> Parked(t, p) == Parked(s, p) && (p in s.releasing ==> p in t.releasing))
    && (Parked(t, id) != [] ==> Parked(s, id) != [] && id in t.releasing)
    && (forall i :: 0 <= i < |Parked(s, id)| ==>
          var d := Target(Parked(s, id)[i]); d in s.modules || d in t.known || IsParked(t, d))
  }

  lemma LoadParkedIsRelease(s: State, t: State, id: nat)
    requires Enabled(s, LoadParked(id)) && t == LoadParkedStep(s, id)
    ensures IsRelease(s, t, id)
  {
    forall i | 0 <= i < |Parked(s, id)|
      ensures var d := Target(Parked(s, id)[i]); d in s.modules || d in t.known || IsParked(t, d)
    {
      if i > 0 { assert t.parked[id][i - 1] == s.parked[id][i]; }
    }
  }

  lemma PluginsIsRelease(s: State, t: State, id: nat)
    requires Enabled(s, ReleasePlugins(id)) && t == ReleaseStep(s, id)
    ensures IsRelease(s, t, id)
  {
  }

  lemma ReleaseRequested(s: State, t: State, id: nat)
    requires Requested(s) && IsRelease(s, t, id)
    ensures Requested(t)
  {
    forall m ensures Complete(t, m) == Complete(s, m) && Failed(t, m) == Failed(s, m) {}
    forall d | Waiters(t.inverse, d) != [] && d !in s.modules && d !in t.known ensures IsParked(t, d) {
      var p, i :| p in s.parked && 0 <= i < |s.parked[p]| && Target(s.parked[p][i]) == d;
      if p == id {
        assert Parked(s, id)[i] == s.parked[p][i];
      } else {
        assert Parked(t, p) == Parked(s, p);
        assert Target(t.parked[p][i]) == d;
      }
    }
    forall p | Parked(t, p) != [] ensures Parked(s, p) != [] || p == id {}
  }

  lemma ReleaseKeeps(s: State, t: State, id: nat)
    requires Inv(s) && IsRelease(s, t, id)
    ensures Inv(t)
  {
    ReleaseShape(s, t, id);
    SameCounting(s, t);
    ReleaseRequested(s, t, id);
    ReleaseOthers(s, t, id);
  }

  lemma ReleaseShape(s: State, t: State, id: nat)
    requires Shape(s) && Zero(s) && Examined(s) && Waiting(s) && Cuts(s) && IsRelease(s, t, id)
    ensures Shape(t) && Zero(t) && Examined(t) && Waiting(t) && Cuts(t)
  {
  }

  lemma ReleaseOthers(s: State, t: State, id: nat)
    requires Once(s) && Progress(s) && Order(s) && Released(s) && IsRelease(s, t, id)
    ensures Once(t) && Progress(t) && Order(t) && Released(t)
  {
    forall m ensures Complete(t, m) == Complete(s, m) && Failed(t, m) == Failed(s, m) {}
    KeepsOrder(s, t);
    KeepsProgress(s, t);
  }

  lemma LoadParkedKeeps(s: State, id: nat)
    requires Inv(s) && Enabled(s, LoadParked(id))
    ensures Inv(LoadParkedStep(s, id))
  {
    LoadParkedIsRelease(s, LoadParkedStep(s, id), id);
    ReleaseKeeps(s, LoadParkedStep(s, id), id);
  }

  lemma ReleasePluginsKeeps(s: State, id: nat)
    requires Inv(s) && Enabled(s, ReleasePlugins(id))
    ensures Inv(ReleaseStep(s, id))
  {
    PluginsIsRelease(s, ReleaseStep(s, id), id);
    ReleaseKeeps(s, ReleaseStep(s, id), id);
  }

  // ---------------------------------------------------------------- load error

  /** What a step of a walk does: every module keeps its dependencies and count, the id
      becomes complete and failed, with an empty module if it had none. */
  ghost predicate IsFailure(s: State, t: State, id: nat) {
    && id < s.limit
    && t == s.(modules := t.modules, cursor := t.cursor, declared := t.declared, walks := t.walks)
    && (forall m :: m in t.modules <==> m in s.modules || m == id)
    && (forall m :: m in s.modules ==>
          t.modules[m] == if m == id then WithError(s.modules[m]) else s.modules[m])
    && (id !in s.modules ==>
          && t.modules[id] == Module(Some([]), 0, true, true, false)
          && t.cursor == s.cursor[id := 0] && t.declared == s.declared[id := []])
    && (id in s.modules ==> t.cursor == s.cursor && t.declared == s.declared)
    && (forall d :: d in t.walks.calling <==> d in s.walks.calling || d == id)
    && (forall x :: x in s.walks.queued && x != id ==> x in t.walks.queued)
    && (forall x :: x in t.walks.queued ==> x in s.walks.queued)
  }

  lemma LoadErrorIsFailure(s: State, id: nat)
    requires id < s.limit
    ensures IsFailure(s, LoadErrorStep(s, id), id)
  {
  }

  lemma NotifyIsFailure(s: State, id: nat)
    requires Shape(s) && Enabled(s, Notify(id))
    ensures IsFailure(s, NotifyStep(s, id), id)
  {
  }

  lemma FailureStatus(s: State, t: State, id: nat)
    requires IsFailure(s, t, id)
    ensures forall m :: Complete(t, m) <==> Complete(s, m) || m == id
    ensures forall m :: Failed(t, m) <==> Failed(s, m) || m == id
    ensures DependencyEdges(t.modules) == DependencyEdges(s.modules)
  {
    SameDependencyEdges(s.modules, t.modules);
  }

  lemma FailureShape(s: State, t: State, id: nat)
    requires Shape(s) && Examined(s) && IsFailure(s, t, id)
    ensures Shape(t) && Examined(t)
  {
  }

  lemma FailureCounting(s: State, t: State, id: nat)
    requires Shape(s) && Counting(s) && IsFailure(s, t, id)
    ensures Counting(t)
  {
    forall m ensures Owed(t, m) == Owed(s, m) {}
  }

  lemma FailureZero(s: State, t: State, id: nat)
    requires Zero(s) && IsFailure(s, t, id)
    ensures Zero(t)
  {
  }

  lemma FailureOnce(s: State, t: State, id: nat)
    requires Shape(s) && Once(s) && Order(s) && IsFailure(s, t, id)
    ensures Once(t) && Order(t)
  {
    FailureStatus(s, t, id);
    KeepsOrder(s, t);
  }

  lemma FailureProgress(s: State, t: State, id: nat)
    requires Shape(s) && Progress(s) && IsFailure(s, t, id)
    ensures Progress(t)
  {
    FailureStatus(s, t, id);
    forall m, i | IsExamined(t, m, i)
      ensures Settled(t, m, Target(t.declared[m][i]))
    {
      assert Settled(s, m, Target(s.declared[m][i]));
    }
  }

  /** The waiters of the id are the next to be queued. */
  lemma FailureRequested(s: State, t: State, id: nat)
    requires Requested(s) && Released(s) && IsFailure(s, t, id)
    ensures Requested(t) && Released(t)
  {
    FailureStatus(s, t, id);
    forall d | Waiters(t.inverse, d) != [] && d !in t.modules && d !in t.known ensures IsParked(t, d) {
      assert IsParked(s, d);
    }
  }

  lemma FailureWaiting(s: State, t: State, id: nat)
    requires Shape(s) && Waiting(s) && Cuts(s) && IsFailure(s, t, id)
    ensures Waiting(t) && Cuts(t)
  {
    FailureStatus(s, t, id);
    forall x: nat, y: nat ensures (x, y) in DeclaredEdges(t.declared) <==> (x, y) in DeclaredEdges(s.declared) {
      if x in s.declared { assert t.declared[x] == s.declared[x]; }
    }
    assert DeclaredEdges(t.declared) == DeclaredEdges(s.declared);
  }

  lemma FailureWalking(s: State, t: State, id: nat)
    requires Walking(s) && IsFailure(s, t, id)
    ensures Walking(t)
  {
  }

  lemma FailureKeeps(s: State, t: State, id: nat)
    requires Inv(s) && IsFailure(s, t, id)
    ensures Inv(t)
  {
    FailureShape(s, t, id);
    FailureCounting(s, t, id);
    FailureZero(s, t, id);
    FailureOnce(s, t, id);
    FailureProgress(s, t, id);
    FailureRequested(s, t, id);
    FailureWaiting(s, t, id);
    FailureWalking(s, t, id);
  }

  lemma LoadErrorKeeps(s: State, id: nat)
    requires Inv(s) && Enabled(s, LoadError(id))
    ensures Inv(LoadErrorStep(s, id))
  {
    LoadErrorIsFailure(s, id);
    FailureKeeps(s, LoadErrorStep(s, id), id);
  }

  lemma NotifyKeeps(s: State, id: nat)
    requires Inv(s) && Enabled(s, Notify(id))
    ensures Inv(NotifyStep(s, id))
  {
    NotifyIsFailure(s, id);
    FailureKeeps(s, NotifyStep(s, id), id);
  }

  lemma QueueReleased(s: State, t: State, id: nat, more: set<nat>)
    requires Once(s) && Released(s) && Enabled(s, QueueWaiting(id, more)) && t == QueueStep(s, id, more)
    ensures Released(t)
  {
    forall d, x | Complete(t, d) && Told(t, d) && x in Waiters(t.inverse, d)
      ensures Complete(t, x) || x in t.walks.queued
    {
      if d != id { assert d !in s.walks.calling; }
    }
  }

  /** All clauses but the last look at the tables and the other control only. */
  lemma SameTables(s: State, t: State)
    requires Shape(s) && Counting(s) && Zero(s) && Examined(s) && Waiting(s) && Cuts(s) && t == s.(walks := t.walks)
    ensures Shape(t) && Counting(t) && Zero(t) && Examined(t) && Waiting(t) && Cuts(t)
  {
    SameCounting(s, t);
  }

  lemma SameHistory(s: State, t: State)
    requires Once(s) && Progress(s) && Order(s) && Requested(s) && t == s.(walks := t.walks)
    ensures Once(t) && Progress(t) && Order(t) && Requested(t)
  {
    KeepsOrder(s, t);
    KeepsProgress(s, t);
    KeepsRequested(s, t);
  }

  lemma QueueWalking(s: State, t: State, id: nat, more: set<nat>)
    requires Waiting(s) && Walking(s) && Enabled(s, QueueWaiting(id, more)) && t == QueueStep(s, id, more)
    ensures Walking(t)
  {
    forall x | x in more ensures x in t.modules {
      WaitEdgeIff(s.inverse, x, id);
      assert (x, id) in DependencyEdges(s.modules);
    }
  }

  lemma QueueKeeps(s: State, t: State, id: nat, more: set<nat>)
    requires Inv(s) && Enabled(s, QueueWaiting(id, more)) && t == QueueStep(s, id, more)
    ensures Inv(t)
  {
    SameTables(s, t);
    SameHistory(s, t);
    QueueReleased(s, t, id, more);
    QueueWalking(s, t, id, more);
  }

  // ---------------------------------------------------------------- all events, all runs

  lemma EventKeeps(s: State, e: Event)
    requires Inv(s) && Enabled(s, e)
    ensures Inv(Apply(s, e))
  {
    if OfCompletion(e) { CompletionKeeps(s, e); } else if OfWalk(e) { WalkKeeps(s, e); } else { ResolutionKeeps(s, e); }
  }

  /** The events of `_onLoadError`. */
  predicate OfWalk(e: Event) { e.LoadError? || e.Notify? || e.QueueWaiting? }

  lemma WalkKeeps(s: State, e: Event)
    requires Inv(s) && Enabled(s, e) && OfWalk(e)
    ensures Inv(Apply(s, e))
  {
    match e
    case LoadError(id) => LoadErrorKeeps(s, id);
    case Notify(id) => NotifyKeeps(s, id);
    case QueueWaiting(id, more) => QueueKeeps(s, QueueStep(s, id, more), id, more);
  }

  /** The events of `defineModule` and `_resolve`. */
  lemma ResolutionKeeps(s: State, e: Event)
    requires Inv(s) && Enabled(s, e) && !OfCompletion(e) && !OfWalk(e)
    ensures Inv(Apply(s, e))
  {
    match e
    case Define(id, deps, errorback, limit) => DefineKeeps(s, id, deps, errorback, limit);
    case ResolveNext(id) => ResolveKeeps(s, id);
    case FinishResolve(id) => FinishKeeps(s, id);
  }

  /** The events of `_onModuleComplete`. */
  predicate OfCompletion(e: Event) {
    e.Begin? || e.Throw? || e.EndFactory? || e.Decrement? || e.LoadParked? || e.ReleasePlugins?
  }

  lemma CompletionKeeps(s: State, e: Event)
    requires Inv(s) && Enabled(s, e) && OfCompletion(e)
    ensures Inv(Apply(s, e))
  {
    match e
    case Begin(id) => BeginKeeps(s, id);
    case Throw(id) => ThrowKeeps(s, ThrowStep(s, id), id);
    case EndFactory(id) => EndKeeps(s, id);
    case Decrement(id) => DecrementKeeps(s, id);
    case LoadParked(id) => LoadParkedKeeps(s, id);
    case ReleasePlugins(id) => ReleasePluginsKeeps(s, id);
  }

  lemma InitialInv()
    ensures Inv(Initial())
  {
    var s := Initial();
    NoEdges(WaitEdges(s.inverse));
    forall m ensures Owed(s, m) == 0 { ListedPositive(s.inverse, s.limit, m); }
  }

  /** What holds of the first state of a run and is kept by every event holds of
      its last state. */
  lemma {:induction false} RunInduction(r: seq<State>, P: State -> bool)
    requires IsRun(r) && P(r[0])
    requires forall s, e :: P(s) && Enabled(s, e) ==> P(Apply(s, e))
    ensures P(r[|r| - 1])
    decreases |r|
  {
    if |r| > 1 {
      var k := |r| - 1;
      assert IsRun(r[..k]);
      RunInduction(r[..k], P);
      assert Step(r[k - 1], r[k]);
    }
  }

  lemma LeadsInv(s: State, t: State)
    requires Inv(s) && Leads(s, t)
    ensures Inv(t)
  {
    var r :| IsRun(r) && r[0] == s && r[|r| - 1] == t;
    forall s, e | Inv(s) && Enabled(s, e) ensures Inv(Apply(s, e)) { EventKeeps(s, e); }
    RunInduction(r, s => Inv(s));
  }

  /** The invariant holds in every reachable state. */
  lemma ReachableInv(s: State)
    requires Reachable(s)
    ensures Inv(s)
  {
    InitialInv();
    LeadsInv(Initial(), s);
  }
}
