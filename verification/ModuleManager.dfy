/** The module manager as the program runs it: one object whose methods update its
    tables.  Every method is a sequence of events of the transition system, so what
    is proved about all runs holds of it. */
module ModuleManager {
  import opened Prelude
  import opened Graph
  import opened LoaderState
  import opened LoaderInvariant
  import opened LoaderPreservation
  import LoaderTheorems
  import opened LoaderHistory

  /** Everything x depends on is different from `to` and, if defined, in `found`. */
  ghost predicate Explored(modules: map<nat, Module>, found: seq<nat>, x: nat, to: nat) {
    forall y: nat :: (x, y) in DependencyEdges(modules) ==> y != to && (y in modules ==> y in found)
  }

  lemma {:induction false} WalkStaysInside(modules: map<nat, Module>, found: seq<nat>, p: seq<nat>, to: nat)
    requires IsPath(DependencyEdges(modules), p) && p[0] in found
    requires forall x :: x in found ==> Explored(modules, found, x, to)
    ensures |p| >= 2 ==> p[|p| - 1] != to
    ensures p[|p| - 1] in modules ==> p[|p| - 1] in found
    decreases |p|
  {
    if |p| >= 2 {
      assert (p[0], p[1]) in DependencyEdges(modules);
      assert Explored(modules, found, p[0], to);
      if |p| > 2 {
        assert (p[1], p[2]) in DependencyEdges(modules);
        assert IsPath(DependencyEdges(modules), p[1..]);
        WalkStaysInside(modules, found, p[1..], to);
      }
    }
  }

  lemma SearchExhausted(modules: map<nat, Module>, found: seq<nat>, from: nat, to: nat)
    requires from in found && forall x :: x in found ==> Explored(modules, found, x, to)
    ensures !ReachesByEdge(DependencyEdges(modules), from, to)
    ensures forall x :: x in modules && Reaches(DependencyEdges(modules), from, x) ==> x in found
  {
    var g := DependencyEdges(modules);
    if ReachesByEdge(g, from, to) {
      var p :| Connects(g, p, from, to) && |p| >= 2;
      WalkStaysInside(modules, found, p, to);
    }
    forall x | x in modules && Reaches(g, from, x) ensures x in found {
      var p :| Connects(g, p, from, x);
      WalkStaysInside(modules, found, p, to);
    }
  }

  function DependenciesOf(modules: map<nat, Module>, m: nat): seq<Dependency> {
    if m in modules && modules[m].deps.Some? then modules[m].deps.value else []
  }

  lemma ExploredGrows(modules: map<nat, Module>, before: seq<nat>, after: seq<nat>, k: nat, to: nat)
    requires before <= after && k < |before|
    requires forall j :: 0 <= j < k ==> Explored(modules, before, before[j], to)
    requires var deps := DependenciesOf(modules, before[k]);
             forall j :: 0 <= j < |deps| ==>
               Target(deps[j]) != to && (Target(deps[j]) in modules ==> Target(deps[j]) in after)
    ensures forall j :: 0 <= j <= k ==> Explored(modules, after, after[j], to)
  {
    forall j | 0 <= j < k ensures Explored(modules, after, after[j], to) {
      assert Explored(modules, before, before[j], to);
    }
    var deps := DependenciesOf(modules, before[k]);
    forall y: nat | (before[k], y) in DependencyEdges(modules) ensures y != to && (y in modules ==> y in after) {
      var j :| 0 <= j < |deps| && y == Target(deps[j]);
    }
  }

  /** The search has explored the first k of the modules queued so far. */
  ghost predicate Searching(modules: map<nat, Module>, from: nat, to: nat, queued: seq<nat>, k: nat, todo: set<nat>) {
    && k <= |queued| && from in queued
    && (forall x :: x in todo <==> x in modules && x !in queued[..k])
    && (forall x :: x in queued ==> x in modules && Reaches(DependencyEdges(modules), from, x))
    && (forall j :: 0 <= j < k ==> Explored(modules, queued, queued[j], to))
  }

  lemma SearchTurn(modules: map<nat, Module>, from: nat, to: nat, before: seq<nat>, after: seq<nat>, k: nat,
                   todo: set<nat>)
    requires Searching(modules, from, to, before, k, todo) && k < |before| && before <= after && Distinct(after)
    requires var deps := DependenciesOf(modules, before[k]);
             forall j :: 0 <= j < |deps| ==>
               Target(deps[j]) != to && (Target(deps[j]) in modules ==> Target(deps[j]) in after)
    requires forall x :: x in after && x !in before ==> x in modules && Reaches(DependencyEdges(modules), from, x)
    ensures Searching(modules, from, to, after, k + 1, todo - {before[k]}) && before[k] in todo
  {
    ExploredGrows(modules, before, after, k, to);
    assert after[..k + 1] == before[..k] + [before[k]];
    assert before[k] == after[k];
  }

  ghost predicate Bounded(modules: map<nat, Module>, limit: nat) {
    forall m :: m in modules ==> m < limit && (modules[m].deps.Some? ==> AllBelow(modules[m].deps.value, limit))
  }

  lemma DependenciesReached(modules: map<nat, Module>, limit: nat, from: nat, x: nat, deps: seq<Dependency>)
    requires Bounded(modules, limit) && x in modules && Reaches(DependencyEdges(modules), from, x)
    requires deps == if modules[x].deps.Some? then modules[x].deps.value else []
    ensures forall j :: 0 <= j < |deps| ==>
              && Target(deps[j]) < limit
              && Reaches(DependencyEdges(modules), from, Target(deps[j]))
              && ReachesByEdge(DependencyEdges(modules), from, Target(deps[j]))
  {
    var g := DependencyEdges(modules);
    forall j | 0 <= j < |deps|
      ensures Target(deps[j]) < limit && Reaches(g, from, Target(deps[j])) && ReachesByEdge(g, from, Target(deps[j]))
    {
      assert AllBelow(deps, limit) && Below(deps[j], limit);
      DependencyEdgeAt(modules, x, j);
      ReachesOne(g, x, Target(deps[j]));
      ReachesTrans(g, from, x, Target(deps[j]));
    }
  }

  ghost predicate Distinct(s: seq<nat>) {
    forall i, j :: 0 <= i < j < |s| ==> s[i] != s[j]
  }

  /** The incomplete modules. */
  ghost function Open(modules: map<nat, Module>): set<nat> {
    set m | m in modules && !modules[m].complete
  }

  /** t comes after s, has the same modules, none of them less complete, and the
      calls in progress have to do what is given. */
  ghost predicate Between(s: State, t: State, ready: set<nat>, running: set<nat>, pending: multiset<nat>,
                          releasing: set<nat>) {
    && Leads(s, t)
    && t.modules.Keys == s.modules.Keys && Open(t.modules) <= Open(s.modules)
    && t.resolving == s.resolving && t.ready == ready && t.running == running && t.pending == pending
    && t.releasing == releasing
    && t.broken == s.broken && t.limit == s.limit && t.walks == s.walks && t.declared == s.declared
  }

  /** The waiters from the i-th on are still to be counted down. */
  ghost predicate StillPending(list: seq<nat>, i: nat, before: multiset<nat>, pending: multiset<nat>)
    requires i <= |list|
  {
    multiset(list[i..]) <= pending && pending - multiset(list[i..]) == before - multiset(list)
  }

  lemma PendingTurn(list: seq<nat>, i: nat, before: multiset<nat>, pending: multiset<nat>)
    requires i < |list| && StillPending(list, i, before, pending)
    ensures list[i] in pending && StillPending(list, i + 1, before, pending - multiset{list[i]})
  {
    assert list[i..] == [list[i]] + list[i + 1..];
  }

  lemma TakenBack(a: set<nat>, id: nat)
    requires id !in a
    ensures (a + {id}) - {id} == a
  {
  }

  lemma SameKeys(modules: map<nat, Module>, id: nat, m: Module)
    requires id in modules
    ensures modules[id := m].Keys == modules.Keys
    ensures modules[id].complete ==> m.complete ==> Open(modules[id := m]) == Open(modules)
    ensures !modules[id].complete && m.complete ==> Open(modules[id := m]) == Open(modules) - {id}
    ensures m.complete == modules[id].complete ==> Open(modules[id := m]) == Open(modules)
  {
  }

  lemma ReadyFacts(s: State, id: nat)
    requires Reachable(s) && id in s.ready
    ensures id in s.modules
    ensures !s.modules[id].complete ==> id !in s.running && id !in s.releasing
  {
    ReachableInv(s);
  }

  lemma PendingFacts(s: State, x: nat)
    requires Reachable(s) && x in s.pending
    ensures x in s.modules && x !in s.ready
  {
    ReachableInv(s);
    assert Owed(s, x) > 0;
  }

  lemma BeginBetween(s: State, id: nat)
    requires id in s.modules && id in s.ready
    ensures s.modules[id].complete ==> Between(s, BeginStep(s, id), s.ready - {id}, s.running, s.pending, s.releasing)
    ensures !s.modules[id].complete ==>
              && Between(s, BeginStep(s, id), s.ready - {id}, s.running + {id}, s.pending, s.releasing)
              && Open(BeginStep(s, id).modules) == Open(s.modules) - {id}
  {
    LeadsSelf(s);
    LeadsStep(s, s, Begin(id));
    SameKeys(s.modules, id, s.modules[id].(complete := true));
  }

  lemma BetweenSelf(s: State)
    ensures Between(s, s, s.ready, s.running, s.pending, s.releasing)
  {
    LeadsSelf(s);
  }

  /** The factory of id has run, and what it set off is done. */
  lemma CompletionBetween(s: State, s1: State, t: State, id: nat)
    requires Reachable(s) && id in s.modules && id in s.ready && !s.modules[id].complete && s1 == BeginStep(s, id)
    requires id !in s.running && id !in s.releasing
    requires Between(s1, t, s1.ready, s1.running - {id}, s1.pending, (s1.releasing + {id}) - {id})
    ensures Between(s, t, s.ready - {id}, s.running, s.pending, s.releasing)
    ensures Reachable(t) && s.runs + [id] <= t.runs && !(id in Open(t.modules))
  {
    BeginBetween(s, id);
    LeadsTrans(s, s1, t);
    LeadsTrans(Initial(), s, t);
    LoaderTheorems.RunsGrow(s1, t);
    TakenBack(s.running, id);
    TakenBack(s.releasing, id);
  }

  lemma ThrowBetween(s0: State, s: State, id: nat)
    requires Between(s0, s, s.ready, s.running, s.pending, s.releasing) && Enabled(s, Throw(id))
    ensures Between(s0, ThrowStep(s, id), s.ready, s.running, s.pending, s.releasing)
    ensures Open(ThrowStep(s, id).modules) == Open(s.modules)
  {
    LeadsStep(s0, s, Throw(id));
    SameKeys(s.modules, id, ThrowStep(s, id).modules[id]);
  }

  lemma EndBetween(s0: State, s: State, id: nat)
    requires Between(s0, s, s.ready, s.running, s.pending, s.releasing) && id in s.running && id in s.modules
    ensures Between(s0, EndStep(s, id), s.ready, s.running - {id},
                    s.pending + multiset(Waiters(s.inverse, id)), s.releasing + {id})
    ensures Open(EndStep(s, id).modules) == Open(s.modules)
  {
    LeadsStep(s0, s, EndFactory(id));
    SameKeys(s.modules, id, EndStep(s, id).modules[id]);
  }

  lemma DecrementBetween(s0: State, s: State, x: nat)
    requires Between(s0, s, s.ready, s.running, s.pending, s.releasing) && x in s.pending && x in s.modules
    ensures var t := DecrementStep(s, x);
            && Between(s0, t, t.ready, s.running, s.pending - multiset{x}, s.releasing)
            && Open(t.modules) == Open(s.modules)
  {
    LeadsStep(s0, s, Decrement(x));
    SameKeys(s.modules, x, DecrementStep(s, x).modules[x]);
  }

  /** The undefined ones among the resources. */
  function Wanted(deps: seq<Dependency>, modules: map<nat, Module>): set<nat> {
    set i | 0 <= i < |deps| && Target(deps[i]) !in modules :: Target(deps[i])
  }

  lemma WantedFirst(deps: seq<Dependency>, modules: map<nat, Module>)
    requires deps != []
    ensures Wanted(deps, modules) ==
              Wanted(deps[1..], modules) + if Target(deps[0]) in modules then {} else {Target(deps[0])}
  {
    var rest := deps[1..];
    forall d | d in Wanted(rest, modules) ensures d in Wanted(deps, modules) {
      var i :| 0 <= i < |rest| && Target(rest[i]) !in modules && Target(rest[i]) == d;
      assert rest[i] == deps[i + 1];
    }
    forall d | d in Wanted(deps, modules) && d != Target(deps[0]) ensures d in Wanted(rest, modules) {
      var i :| 0 <= i < |deps| && Target(deps[i]) !in modules && Target(deps[i]) == d;
      assert rest[i - 1] == deps[i];
    }
  }

  /** All resources parked at a plugin are asked for, with nothing in between. */
  function WholeRelease(s: State, id: nat): State {
    s.(known := s.known + Wanted(Parked(s, id), s.modules), parked := s.parked - {id}, releasing := s.releasing - {id})
  }

  lemma WholeReleaseNext(s: State, t: State, id: nat)
    requires Parked(s, id) != [] && t == LoadParkedStep(s, id)
    ensures WholeRelease(t, id) == WholeRelease(s, id)
  {
    WantedFirst(Parked(s, id), s.modules);
    assert t.parked - {id} == s.parked - {id};
    assert t.known + Wanted(Parked(t, id), t.modules) == s.known + Wanted(Parked(s, id), s.modules);
  }

  lemma {:induction false} ReleaseBetween(s0: State, s: State, id: nat)
    requires Between(s0, s, s.ready, s.running, s.pending, s.releasing) && id in s.releasing
    ensures Between(s0, WholeRelease(s, id), s.ready, s.running, s.pending, s.releasing - {id})
    decreases |Parked(s, id)|
  {
    if Parked(s, id) == [] {
      LeadsStep(s0, s, ReleasePlugins(id));
      assert WholeRelease(s, id).known == s.known;
      assert WholeRelease(s, id) == ReleaseStep(s, id);
    } else {
      LeadsStep(s0, s, LoadParked(id));
      WholeReleaseNext(s, LoadParkedStep(s, id), id);
      ReleaseBetween(s0, LoadParkedStep(s, id), id);
    }
  }

  /** t comes after s, `resolving` and `declared` are as given, and otherwise the calls
      in progress have the same things to do. */
  ghost predicate After(s: State, t: State, resolving: set<nat>, declared: map<nat, seq<Dependency>>) {
    && Leads(s, t) && s.modules.Keys <= t.modules.Keys
    && t.resolving == resolving && t.ready == s.ready && t.running == s.running && t.pending == s.pending
    && t.releasing == s.releasing
    && t.walks == s.walks && t.declared == declared
  }

  lemma ResolvingFacts(s: State, id: nat)
    requires Reachable(s) && id in s.resolving
    ensures id in s.modules && id in s.cursor && id in s.declared && s.cursor[id] <= |s.declared[id]|
    ensures Bounded(s.modules, s.limit) && AllBelow(s.declared[id], s.limit)
  {
    ReachableInv(s);
  }

  lemma ResolveMoves(s: State, id: nat)
    requires Enabled(s, ResolveNext(id))
    ensures var dep := s.declared[id][s.cursor[id]];
            if !Special(dep) && Complete(s, Target(dep)) && Failed(s, Target(dep))
            then ResolveStep(s, id) == Abort(s, id)
            else Moved(s, ResolveStep(s, id), id)
  {
    var t := ResolveStep(s, id);
    if IsWait(s, t, id) { WaitMoved(s, t, id, Target(s.declared[id][s.cursor[id]])); }
  }

  lemma ResolveAfter(s0: State, s: State, id: nat, t: State)
    requires After(s0, s, s.resolving, s.declared) && Enabled(s, ResolveNext(id)) && t == ResolveStep(s, id)
    ensures t.declared == s.declared
    ensures t == Abort(s, id) || Moved(s, t, id)
    ensures t == Abort(s, id) ==> After(s0, t, s.resolving - {id}, s.declared)
    ensures Moved(s, t, id) ==> After(s0, t, s.resolving, s.declared) && t.cursor == s.cursor[id := s.cursor[id] + 1]
  {
    LeadsStep(s0, s, ResolveNext(id));
    ResolveMoves(s, id);
    SameKeys(s.modules, id, t.modules[id]);
  }

  lemma FinishAfter(s0: State, s: State, id: nat)
    requires After(s0, s, s.resolving, s.declared) && Enabled(s, FinishResolve(id)) && Reachable(s)
    ensures var t := FinishStep(s, id);
            && Leads(s0, t) && t.resolving == s.resolving - {id} && t.modules == s.modules
            && t.ready == (if s.modules[id].count == 0 then s.ready + {id} else s.ready)
            && t.running == s.running && t.pending == s.pending && t.releasing == s.releasing
            && t.declared == s.declared
  {
    LeadsStep(s0, s, FinishResolve(id));
  }

  lemma DefineAfter(s: State, id: nat, deps: seq<Dependency>, errorback: bool, limit: nat)
    requires Reachable(s) && Enabled(s, Define(id, deps, errorback, limit))
    ensures var t := DefineStep(s, id, deps, errorback, limit);
            && Reachable(t) && Leads(s, t) && s.modules.Keys <= t.modules.Keys && id in t.modules
            && (id !in s.modules ==> id !in s.resolving && id !in s.ready)
  {
    LeadsSelf(s);
    LeadsStep(s, s, Define(id, deps, errorback, limit));
    LeadsStep(Initial(), s, Define(id, deps, errorback, limit));
    ReachableInv(s);
  }

  lemma DefineThen(s: State, s1: State, t: State, id: nat, deps: seq<Dependency>, errorback: bool, limit: nat)
    requires s1 == DefineStep(s, id, deps, errorback, limit) && id !in s.modules && id !in s.resolving
    requires Leads(s, s1) && After(s1, t, s1.resolving - {id}, s1.declared) && Reachable(t)
    ensures After(s, t, s.resolving, s.declared[id := deps])
    ensures InTables(t, id, Definition(deps, errorback)) && Resolved(t, id, deps)
  {
    LeadsTrans(s, s1, t);
    assert id in s1.modules;
    assert s1.resolving - {id} == s.resolving;
    assert InTables(s1, id, Definition(deps, errorback));
    DefinitionStays(s1, t, id, Definition(deps, errorback));
    ResolutionOver(t, id);
  }

  // ---------------------------------------------------------------- load errors

  /** A module made up for a missing id has no error callback. */
  lemma MissingHasNone(s: State, id: nat, list: seq<nat>)
    ensures AnyErrorback(EnsureModule(s, id).modules, list) <==> AnyErrorback(s.modules, list)
  {
    var t := EnsureModule(s, id);
    if m :| m in list && m in t.modules && t.modules[m].errorback { assert m in s.modules && s.modules[m].errorback; }
    if m :| m in list && m in s.modules && s.modules[m].errorback { assert t.modules[m].errorback; }
  }

  /** The modules with the ones in `done` failed. */
  ghost function MarkSome(modules: map<nat, Module>, done: seq<nat>): map<nat, Module> {
    map m | m in modules :: if m in done then WithError(modules[m]) else modules[m]
  }

  /** Every module listed as waiting is defined. */
  ghost predicate WaitersDefined(modules: map<nat, Module>, inverse: map<nat, seq<nat>>, limit: nat) {
    forall d :: d in inverse ==> AllIn(inverse[d], modules, limit)
  }

  ghost predicate AllIn(list: seq<nat>, modules: map<nat, Module>, limit: nat) {
    forall j :: 0 <= j < |list| ==> list[j] in modules && list[j] < limit
  }

  lemma ReachableWaiters(s: State)
    requires Reachable(s)
    ensures WaitersDefined(s.modules, s.inverse, s.limit)
  {
    ReachableInv(s);
    WaitersAreModules(s);
  }

  lemma WaitersAreModules(s: State)
    requires Shape(s) && Waiting(s)
    ensures WaitersDefined(s.modules, s.inverse, s.limit)
  {
    forall d | d in s.inverse ensures AllIn(s.inverse[d], s.modules, s.limit) {
      forall j | 0 <= j < |s.inverse[d]| ensures s.inverse[d][j] in s.modules {
        WaitEdgeIff(s.inverse, s.inverse[d][j], d);
        assert (s.inverse[d][j], d) in DependencyEdges(s.modules);
      }
    }
  }

  /** A list that contains the failed id, is closed under waiting and contains only
      affected modules is the list of the affected modules. */
  lemma ListIsAffected(inverse: map<nat, seq<nat>>, id: nat, list: seq<nat>)
    requires id in list && forall x :: x in list ==> Affected(inverse, id, x)
    requires forall d, x :: d in list && x in Waiters(inverse, d) ==> x in list
    ensures forall m :: m in list <==> Affected(inverse, id, m)
  {
    var g := WaitEdges(inverse);
    var nodes := set x | x in list;
    forall a: nat, b: nat | b in nodes && (a, b) in g ensures a in nodes { WaitEdgeIff(inverse, a, b); }
    forall m | Affected(inverse, id, m) ensures m in list { ClosedBackwards(g, nodes, m, id); }
  }

  lemma WaitersAffected(inverse: map<nat, seq<nat>>, id: nat, d: nat)
    requires Affected(inverse, id, d)
    ensures forall x :: x in Waiters(inverse, d) ==> Affected(inverse, id, x)
  {
    forall x | x in Waiters(inverse, d) ensures Affected(inverse, id, x) {
      WaitEdgeIff(inverse, x, d);
      ReachesCons(WaitEdges(inverse), x, d, id);
    }
  }

  /** The walk has found only affected modules, and has looked at the waiters of the
      first k of them. */
  ghost predicate Walk(modules: map<nat, Module>, inverse: map<nat, seq<nat>>, id: nat, found: seq<nat>, k: nat) {
    && k <= |found| && Distinct(found) && found != [] && found[0] == id
    && (forall x :: x in found ==> x in modules && Affected(inverse, id, x))
    && (forall d, x :: d in found[..k] && x in Waiters(inverse, d) ==> x in found)
    && (forall j :: 0 < j < |found| ==> WaitsForEarlier(inverse, found, k, j))
  }

  /** The j-th id found waits for one found before, among the first k. */
  ghost predicate WaitsForEarlier(inverse: map<nat, seq<nat>>, found: seq<nat>, k: nat, j: nat)
    requires j < |found|
  {
    exists i :: 0 <= i < k && i < j && IsWaiter(inverse, found[j], found[i])
  }

  predicate IsWaiter(inverse: map<nat, seq<nat>>, x: nat, d: nat) { x in Waiters(inverse, d) }

  lemma WalkTurn(modules: map<nat, Module>, inverse: map<nat, seq<nat>>, limit: nat, id: nat, before: seq<nat>,
                 after: seq<nat>, k: nat)
    requires Walk(modules, inverse, id, before, k) && k < |before| && before <= after && Distinct(after)
    requires WaitersDefined(modules, inverse, limit)
    requires forall x :: x in after <==> x in before || x in Waiters(inverse, before[k])
    ensures Walk(modules, inverse, id, after, k + 1)
  {
    WaitersAffected(inverse, id, before[k]);
    assert after[..k + 1] == before[..k] + [before[k]];
    var n := k + 1;
    forall j | 0 < j < |after| ensures WaitsForEarlier(inverse, after, n, j) {
      if j < |before| {
        assert WaitsForEarlier(inverse, before, k, j);
        var i :| 0 <= i < k && i < j && IsWaiter(inverse, before[j], before[i]);
        assert IsWaiter(inverse, after[j], after[i]);
      } else {
        assert after[j] !in before by { NotInPrefix(before, after, j); }
        assert IsWaiter(inverse, after[j], after[k]);
      }
    }
  }

  lemma NotInPrefix(before: seq<nat>, after: seq<nat>, j: nat)
    requires before <= after && Distinct(after) && |before| <= j < |after|
    ensures after[j] !in before
  {
  }

  ghost predicate AnyErrorback(modules: map<nat, Module>, list: seq<nat>) {
    exists m :: m in list && m in modules && modules[m].errorback
  }

  /** What the walk has done so far: `done` has been notified and is not left to do. */
  ghost predicate Notified(modules: map<nat, Module>, done: seq<nat>, table: map<nat, Module>, any: bool,
                           todo: set<nat>) {
    && table == MarkSome(modules, done)
    && (any <==> AnyErrorback(modules, done))
    && todo == modules.Keys - set x | x in done
  }

  lemma NotifiedTurn(modules: map<nat, Module>, done: seq<nat>, table: map<nat, Module>, any: bool, todo: set<nat>,
                     x: nat)
    requires Notified(modules, done, table, any, todo) && x in modules && x !in done
    ensures x in table && x in todo && table[x] == modules[x]
    ensures Notified(modules, done + [x], table[x := WithError(table[x])], table[x].errorback || any, todo - {x})
  {
    assert table[x := WithError(table[x])] == MarkSome(modules, done + [x]);
    if any {
      var m :| m in done && m in modules && modules[m].errorback;
      assert m in done + [x];
    }
    if table[x].errorback { assert x in done + [x]; }
  }

  // ---------------------------------------------------------------- the walk as a run

  lemma WalkIsWalk(modules: map<nat, Module>, inverse: map<nat, seq<nat>>, id: nat, found: seq<nat>)
    requires Walk(modules, inverse, id, found, |found|)
    ensures IsWalk(inverse, found)
  {
    assert found[..|found|] == found;
    forall j | 0 < j < |found| ensures WaitsForEarlier(inverse, found, j, j) {
      assert WaitsForEarlier(inverse, found, |found|, j);
    }
  }

  /** The ids the walk has found and not come to, once the first k are done. */
  ghost function Queue(inverse: map<nat, seq<nat>>, list: seq<nat>, k: nat): set<nat> {
    set j | k <= j < |list| && WaitsForEarlier(inverse, list, k, j) :: list[j]
  }

  /** The state after the first k turns of a walk that nothing interrupts. */
  ghost function WalkState(s: State, id: nat, list: seq<nat>, k: nat): State
    requires k <= |list|
  {
    var e := EnsureModule(s, id);
    e.(modules := MarkSome(e.modules, list[..k]),
       walks := s.walks.(queued := s.walks.queued + multiset(Queue(s.inverse, list, k))))
  }

  /** The list is closed under waiting, and made by waiting. */
  ghost predicate IsWalk(inverse: map<nat, seq<nat>>, list: seq<nat>) {
    && Distinct(list) && list != []
    && (forall d, x :: d in list && x in Waiters(inverse, d) ==> x in list)
    && (forall j :: 0 < j < |list| ==> WaitsForEarlier(inverse, list, j, j))
  }

  lemma NotifyAndQueue(s: State, u: State, t: State, x: nat, more: set<nat>)
    requires Leads(s, u) && x in u.walks.queued && x in u.modules && NewlyQueued(NotifyStep(u, x), x, more)
    requires t == u.(modules := u.modules[x := WithError(u.modules[x])],
                     walks := u.walks.(queued := u.walks.queued - multiset{x} + multiset(more)))
    ensures Leads(s, t)
  {
    var v := NotifyStep(u, x);
    LeadsStep(s, u, Notify(x));
    LeadsStep(s, v, QueueWaiting(x, more));
    assert v.walks.calling - multiset{x} == u.walks.calling;
    assert t == QueueStep(v, x, more);
  }

  lemma FailAndQueue(s: State, t: State, id: nat, more: set<nat>)
    requires id < s.limit && NewlyQueued(LoadErrorStep(s, id), id, more)
    requires var e := EnsureModule(s, id);
             t == e.(modules := e.modules[id := WithError(e.modules[id])],
                     walks := s.walks.(queued := s.walks.queued + multiset(more)))
    ensures Leads(s, t)
  {
    var v := LoadErrorStep(s, id);
    LeadsSelf(s);
    LeadsStep(s, s, LoadError(id));
    LeadsStep(s, v, QueueWaiting(id, more));
    assert v.walks.calling - multiset{id} == s.walks.calling;
    assert t == QueueStep(v, id, more);
  }

  /** What a turn takes from the queue and adds to it. */
  lemma QueueTurn(inverse: map<nat, seq<nat>>, list: seq<nat>, k: nat)
    requires IsWalk(inverse, list) && k < |list|
    ensures k > 0 ==> list[k] in Queue(inverse, list, k)
    ensures var more := Queue(inverse, list, k + 1) - Queue(inverse, list, k);
            && (forall x :: x in more ==> x in Waiters(inverse, list[k]))
            && (forall x :: x in Waiters(inverse, list[k]) ==>
                x in more || x in Queue(inverse, list, k) || x in list[..k + 1])
    ensures Queue(inverse, list, k) - {list[k]} <= Queue(inverse, list, k + 1)
    ensures list[k] !in Queue(inverse, list, k + 1)
  {
    var q, q1 := Queue(inverse, list, k), Queue(inverse, list, k + 1);
    forall j | k < j < |list| && WaitsForEarlier(inverse, list, k, j) ensures list[j] in q1 {
      assert WaitsForEarlier(inverse, list, k + 1, j);
    }
    forall x | x in q1 && x !in q ensures x in Waiters(inverse, list[k]) {
      var j :| k + 1 <= j < |list| && WaitsForEarlier(inverse, list, k + 1, j) && list[j] == x;
      assert !WaitsForEarlier(inverse, list, k, j);
    }
    forall x | x in Waiters(inverse, list[k]) ensures x in q1 || x in list[..k + 1] {
      assert list[k] in list && x in list;
      var j :| 0 <= j < |list| && list[j] == x;
      assert IsWaiter(inverse, list[j], list[k]);
      if j > k { assert WaitsForEarlier(inverse, list, k + 1, j); } else { assert list[..k + 1][j] == x; }
    }
  }

  lemma QueueEnds(inverse: map<nat, seq<nat>>, list: seq<nat>)
    ensures Queue(inverse, list, 0) == {} && Queue(inverse, list, |list|) == {}
  {
    forall j | 0 <= j < |list| ensures !WaitsForEarlier(inverse, list, 0, j) {}
  }

  /** Taking one from a queue without repetitions. */
  lemma QueueSum(q: set<nat>, q1: set<nat>, x: nat, rest: multiset<nat>)
    requires x in q && q - {x} <= q1 && x !in q1
    ensures (rest + multiset(q)) - multiset{x} + multiset(q1 - q) == rest + multiset(q1)
  {
  }

  lemma MarkNext(modules: map<nat, Module>, list: seq<nat>, k: nat)
    requires k < |list| && Distinct(list) && list[k] in modules
    ensures list[k] in MarkSome(modules, list[..k])
    ensures var before := MarkSome(modules, list[..k]);
            MarkSome(modules, list[..k + 1]) == before[list[k] := WithError(before[list[k]])]
  {
    assert list[..k + 1] == list[..k] + [list[k]];
  }

  lemma WalkBegins(s: State, id: nat, list: seq<nat>)
    requires id < s.limit && IsWalk(s.inverse, list) && list[0] == id
    ensures Leads(s, WalkState(s, id, list, 1))
  {
    var e, more := EnsureModule(s, id), Queue(s.inverse, list, 1);
    QueueTurn(s.inverse, list, 0);
    QueueEnds(s.inverse, list);
    MarkNext(e.modules, list, 0);
    assert MarkSome(e.modules, list[..0]) == e.modules;
    assert forall x :: x in list[..1] ==> x == id;
    FailAndQueue(s, WalkState(s, id, list, 1), id, more);
  }

  lemma WalkGoesOn(s: State, id: nat, list: seq<nat>, k: nat)
    requires IsWalk(s.inverse, list) && 0 < k < |list| && list[k] in EnsureModule(s, id).modules
    requires forall x :: x in list ==> x in EnsureModule(s, id).modules
    requires Leads(s, WalkState(s, id, list, k))
    ensures Leads(s, WalkState(s, id, list, k + 1))
  {
    var x, q, q1 := list[k], Queue(s.inverse, list, k), Queue(s.inverse, list, k + 1);
    var u, t := WalkState(s, id, list, k), WalkState(s, id, list, k + 1);
    QueueTurn(s.inverse, list, k);
    MarkNext(EnsureModule(s, id).modules, list, k);
    QueueSum(q, q1, x, s.walks.queued);
    WalkQueues(s, u, id, list, k);
    NotifyAndQueue(s, u, t, x, q1 - q);
  }

  lemma WalkQueues(s: State, u: State, id: nat, list: seq<nat>, k: nat)
    requires IsWalk(s.inverse, list) && 0 < k < |list| && u == WalkState(s, id, list, k)
    requires forall x :: x in list ==> x in EnsureModule(s, id).modules
    ensures list[k] in u.modules
    ensures NewlyQueued(NotifyStep(u, list[k]), list[k], Queue(s.inverse, list, k + 1) - Queue(s.inverse, list, k))
  {
    var x, q, more := list[k], Queue(s.inverse, list, k), Queue(s.inverse, list, k + 1) - Queue(s.inverse, list, k);
    QueueTurn(s.inverse, list, k);
    var v := NotifyStep(u, x);
    assert forall y :: y in more ==> y in Waiters(v.inverse, x);
    forall y | y in Waiters(v.inverse, x) ensures y in more || y in v.walks.queued || Failed(v, y) {
      if y in list[..k + 1] {
        WalkFailed(s, u, v, id, list, k, y);
      } else if y in q {
        WalkQueued(s, u, v, id, list, k, y);
      }
    }
  }

  lemma WalkFailed(s: State, u: State, v: State, id: nat, list: seq<nat>, k: nat, y: nat)
    requires k < |list| && u == WalkState(s, id, list, k) && list[k] in u.modules && v == NotifyStep(u, list[k])
    requires y in list[..k + 1] && y in EnsureModule(s, id).modules
    ensures Failed(v, y)
  {
    assert list[..k + 1] == list[..k] + [list[k]];
  }

  lemma WalkQueued(s: State, u: State, v: State, id: nat, list: seq<nat>, k: nat, y: nat)
    requires k < |list| && u == WalkState(s, id, list, k) && list[k] in u.modules && v == NotifyStep(u, list[k])
    requires y in Queue(s.inverse, list, k) && y != list[k]
    ensures y in v.walks.queued
  {
  }

  lemma {:induction false} WalkRuns(s: State, id: nat, list: seq<nat>, k: nat)
    requires id < s.limit && IsWalk(s.inverse, list) && list[0] == id && 0 < k <= |list|
    requires forall x :: x in list ==> x in EnsureModule(s, id).modules
    ensures Leads(s, WalkState(s, id, list, k))
  {
    if k == 1 {
      WalkBegins(s, id, list);
    } else {
      WalkRuns(s, id, list, k - 1);
      WalkGoesOn(s, id, list, k - 1);
    }
  }

  /** A walk that nothing interrupts is a run of the events. */
  lemma WalkLeads(s: State, id: nat, list: seq<nat>)
    requires id < s.limit && IsWalk(s.inverse, list) && list[0] == id
    requires forall x :: x in list ==> x in EnsureModule(s, id).modules
    requires forall m :: m in list <==> Affected(s.inverse, id, m)
    ensures Leads(s, WholeWalk(s, id))
  {
    WalkRuns(s, id, list, |list|);
    QueueEnds(s.inverse, list);
    assert list[..|list|] == list;
    var e := EnsureModule(s, id);
    assert MarkSome(e.modules, list) == MarkFailed(e.modules, s.inverse, id);
    assert s.walks.queued + multiset(Queue(s.inverse, list, |list|)) == s.walks.queued;
    assert WalkState(s, id, list, |list|) == WholeWalk(s, id);
  }

  /** What has failed is what had failed, the id, and what waited for it, directly or not. */
  ghost predicate FailsExactly(s: State, t: State, id: nat) {
    forall m :: Failed(t, m) <==> Failed(s, m) || Affected(s.inverse, id, m)
  }

  lemma WalkReaches(s: State, id: nat, list: seq<nat>, table: map<nat, Module>)
    requires Reachable(s) && id < s.limit && IsWalk(s.inverse, list) && list[0] == id
    requires var modules := EnsureModule(s, id).modules;
             && (forall x :: x in list ==> x in modules) && table.Keys == modules.Keys
             && (forall m :: m in modules ==> table[m] == if m in list then WithError(modules[m]) else modules[m])
    requires forall m :: m in list <==> Affected(s.inverse, id, m)
    ensures table == WholeWalk(s, id).modules && Leads(s, WholeWalk(s, id)) && Reachable(WholeWalk(s, id))
    ensures FailsExactly(s, WholeWalk(s, id), id)
  {
    WalkLeads(s, id, list);
    LeadsTrans(Initial(), s, WholeWalk(s, id));
    assert table == WholeWalk(s, id).modules;
  }

  const MAX_DEPTH: nat := 50

  class Manager {
    var nextId: nat
    var modules: map<nat, Module>
    var inverseDependencies: map<nat, seq<nat>>
    var knownModules: set<nat>
    var inversePluginDependencies: map<nat, seq<Dependency>>
    var hasDependencyCycle: bool

    // What the calls in progress have to do, and what has happened.
    ghost var cursor: map<nat, nat>
    ghost var resolving: set<nat>
    ghost var ready: set<nat>
    ghost var running: set<nat>
    ghost var pending: multiset<nat>
    ghost var releasing: set<nat>
    ghost var walks: Walks
    ghost var declared: map<nat, seq<Dependency>>
    ghost var runs: seq<nat>
    ghost var broken: set<(nat, nat)>
    ghost var aborted: set<nat>

    ghost function View(): State
      reads this
    {
      State(nextId, modules, inverseDependencies, knownModules, inversePluginDependencies,
            cursor, resolving, ready, running, pending, releasing, walks, declared, runs, broken, aborted)
    }

    ghost predicate Valid()
      reads this
    {
      Reachable(View()) && (hasDependencyCycle <==> broken != {})
    }

    constructor ()
      ensures View() == Initial() && Valid()
    {
      nextId, modules, inverseDependencies, knownModules := FIRST_FREE_ID, map[], map[], {};
      inversePluginDependencies, hasDependencyCycle := map[], false;
      cursor, resolving, ready, running, pending, releasing := map[], {}, {}, {}, multiset{}, {};
      walks, declared, runs, broken, aborted := NO_WALKS, map[], [], {}, {};
      new;
      LeadsSelf(Initial());
    }

    /** One round of the search: put the defined dependencies that are not queued yet
        at the end of the queue, or stop at `toId`. */
    method QueueDependencies(dependencies: seq<Dependency>, toId: nat, inQueue: array<bool>, queue0: seq<nat>,
                             ghost queued0: seq<nat>, ghost k: nat)
      returns (found: bool, queue: seq<nat>, ghost queued: seq<nat>)
      requires forall j :: 0 <= j < |dependencies| ==> Target(dependencies[j]) < inQueue.Length
      requires k <= |queued0| && queue0 == queued0[k..] && Distinct(queued0)
      requires forall i: nat :: i < inQueue.Length ==> inQueue[i] == (i in queued0)
      modifies inQueue
      ensures queued0 <= queued && queue == queued[k..] && Distinct(queued)
      ensures forall i: nat :: i < inQueue.Length ==> inQueue[i] == (i in queued)
      ensures found <==> exists j :: 0 <= j < |dependencies| && Target(dependencies[j]) == toId
      ensures !found ==> forall j :: 0 <= j < |dependencies| && Target(dependencies[j]) in modules ==>
                Target(dependencies[j]) in queued
      ensures forall x :: x in queued && x !in queued0 ==>
                x in modules && exists j :: 0 <= j < |dependencies| && Target(dependencies[j]) == x
    {
      queue, queued := queue0, queued0;
      for i := 0 to |dependencies|
        invariant queued0 <= queued && queue == queued[k..] && Distinct(queued)
        invariant forall i: nat :: i < inQueue.Length ==> inQueue[i] == (i in queued)
        invariant forall j :: 0 <= j < i ==>
                    && Target(dependencies[j]) != toId
                    && (Target(dependencies[j]) in modules ==> Target(dependencies[j]) in queued)
        invariant forall x :: x in queued && x !in queued0 ==>
                    x in modules && exists j :: 0 <= j < i && Target(dependencies[j]) == x
      {
        var d := Target(dependencies[i]);
        if d == toId {
          return true, queue, queued;
        }
        if d in modules && !inQueue[d] {
          inQueue[d] := true;
          queue := queue + [d];
          queued := queued + [d];
        }
      }
      found := false;
    }

    /** Breadth-first search through the dependencies of defined modules.  Each
        module enters the queue at most once. */
    method HasDependencyPath(fromId: nat, toId: nat) returns (found: bool, ghost queued: seq<nat>)
      requires Bounded(modules, nextId) && fromId < nextId
      ensures found <==> ReachesByEdge(DependencyEdges(modules), fromId, toId)
      ensures Distinct(queued)
      ensures forall x :: x in queued ==> x in modules && Reaches(DependencyEdges(modules), fromId, x)
      ensures !found ==> forall x :: x in modules && Reaches(DependencyEdges(modules), fromId, x) ==> x in queued
    {
      ghost var g := DependencyEdges(modules);
      queued := [];
      if fromId !in modules {
        forall x ensures !ReachesByEdge(g, fromId, x) && (Reaches(g, fromId, x) ==> x == fromId) {
          NothingFromUndefined(modules, fromId, x);
        }
        return false, [];
      }
      var inQueue := new bool[nextId](_ => false);
      var queue := [fromId];
      inQueue[fromId] := true;
      queued := [fromId];
      ghost var k, todo := 0, modules.Keys;
      ReachesSelf(g, fromId);
      found := false;
      while queue != []
        invariant Searching(modules, fromId, toId, queued, k, todo) && queue == queued[k..] && Distinct(queued)
        invariant forall i: nat :: i < inQueue.Length ==> inQueue[i] == (i in queued)
        decreases todo
      {
        var element := queue[0];
        queue := queue[1..];
        ghost var before := queued;
        assert element == queued[k] && element in modules && Reaches(g, fromId, element);
        var dependencies := if modules[element].deps.Some? then modules[element].deps.value else [];
        DependenciesReached(modules, nextId, fromId, element, dependencies);
        found, queue, queued := QueueDependencies(dependencies, toId, inQueue, queue, queued, k + 1);
        if found { return; }
        SearchTurn(modules, fromId, toId, before, queued, k, todo);
        k, todo := k + 1, todo - {element};
      }
      assert queued[..k] == queued;
      SearchExhausted(modules, queued, fromId, toId);
    }

    /** Depth-first search for a dependency chain from `fromId` to `toId`, given up at
        depth 50.  The chain is returned back to front.  It is found whenever there is
        a path. */
    method FindCyclePath(fromId: nat, toId: nat, depth: nat) returns (path: Option<seq<nat>>)
      requires depth <= MAX_DEPTH
      ensures path.Some? ==>
                && |path.value| >= 1 && path.value[|path.value| - 1] == fromId
                && (path.value[0] == toId || |path.value| == MAX_DEPTH + 1 - depth)
                && forall i :: 0 <= i < |path.value| - 1 ==>
                    (path.value[i + 1], path.value[i]) in DependencyEdges(modules)
      ensures Reaches(DependencyEdges(modules), fromId, toId) ==> path.Some?
      decreases MAX_DEPTH - depth
    {
      if fromId == toId || depth == MAX_DEPTH {
        return Some([fromId]);
      }
      ghost var g := DependencyEdges(modules);
      ReachesCases(g, fromId, toId);
      if fromId in modules && modules[fromId].deps.Some? {
        var dependencies := modules[fromId].deps.value;
        for i := 0 to |dependencies|
          invariant forall j :: 0 <= j < i ==> !Reaches(g, Target(dependencies[j]), toId)
        {
          path := FindCyclePath(Target(dependencies[i]), toId, depth + 1);
          if path.Some? {
            DependencyEdgeAt(modules, fromId, i);
            return Some(path.value + [fromId]);
          }
        }
      }
      if ReachesByEdge(g, fromId, toId) { var y := ReachesFirst(g, fromId, toId); }
      path := None;
    }

    // ---------------------------------------------------------------- resolving

    /** One more dependency of module `id` needs no waiting. */
    method CountResolved(id: nat)
      requires id in modules && id in cursor
      modifies this
      ensures View() == Advance(old(View()), id, true) && hasDependencyCycle == old(hasDependencyCycle)
    {
      modules := modules[id := CountedDown(modules[id])];
      cursor := cursor[id := cursor[id] + 1];
    }

    method RequestModule(id: nat)
      modifies this
      ensures View() == Request(old(View()), id) && hasDependencyCycle == old(hasDependencyCycle)
    {
      if id in modules || id in knownModules {
        assert id in knownModules ==> knownModules + {id} == knownModules;
        return;
      }
      knownModules := knownModules + {id};
    }

    method RecordInverse(id: nat, d: nat)
      requires id in modules && id in cursor
      modifies this
      ensures var inverse := old(inverseDependencies);
              View() == Advance(old(View()), id, false).(inverse := inverse[d := Waiters(inverse, d) + [id]])
      ensures hasDependencyCycle == old(hasDependencyCycle)
    {
      var waiters := if d in inverseDependencies then inverseDependencies[d] else [];
      inverseDependencies := inverseDependencies[d := waiters + [id]];
      cursor := cursor[id := cursor[id] + 1];
      assert modules[id := modules[id]] == modules;
    }

    method ParkDependency(dep: Dependency)
      requires dep.Plugin?
      modifies this
      ensures var s := old(View());
              View() == s.(parked := s.parked[dep.pluginId := Parked(s, dep.pluginId) + [dep]])
      ensures hasDependencyCycle == old(hasDependencyCycle)
    {
      var p := dep.pluginId;
      var parked := if p in inversePluginDependencies then inversePluginDependencies[p] else [];
      inversePluginDependencies := inversePluginDependencies[p := parked + [dep]];
    }

    /** Record that `id` waits for `dep` and see to it that `dep` gets loaded. */
    method WaitFor(id: nat, dep: Dependency)
      requires id in modules && id in cursor && !Special(dep)
      modifies this
      ensures View() == Wait(old(View()), id, dep) && hasDependencyCycle == old(hasDependencyCycle)
    {
      ghost var s := View();
      var direct := !dep.Plugin? || (dep.pluginId in modules && modules[dep.pluginId].complete);
      RecordInverse(id, Target(dep));
      ghost var s1 := View();
      if direct {
        RequestModule(Target(dep));
        assert View() == Request(s1, Target(dep));
      } else {
        ParkDependency(dep);
        RequestModule(dep.pluginId);
        assert View() ==
            Request(s1.(parked := s.parked[dep.pluginId := Parked(s, dep.pluginId) + [dep]]), dep.pluginId);
      }
    }

    /** `onDependencyError` on the module being resolved. */
    method GiveUp(id: nat)
      requires id in modules
      modifies this
      ensures View() == Abort(old(View()), id) && hasDependencyCycle == old(hasDependencyCycle)
    {
      modules := modules[id := WithError(modules[id])];
      resolving, aborted := resolving - {id}, aborted + {id};
    }

    /** A dependency that leads back to the module is reported and counted as
        resolved.  The reported chain always exists. */
    method CutCycle(id: nat, d: nat)
      requires id in modules && id in cursor && ReachesByEdge(DependencyEdges(modules), d, id)
      modifies this
      ensures View() == Advance(old(View()), id, true).(broken := old(broken) + {(id, d)}) && hasDependencyCycle
    {
      hasDependencyCycle := true;
      var cyclePath := FindCyclePath(d, id, 0);
      assert cyclePath.Some?;  // so the empty fallback is never taken
      CountResolved(id);
      broken := broken + {(id, d)};
    }

    /** One turn of the loop of `_resolve`: examine the next dependency of `id`.  When
        the dependency has failed, `id` fails too and the loop is left. */
    method ResolveDependency(id: nat, dep: Dependency) returns (gaveUp: bool)
      requires Bounded(modules, nextId) && Enabled(View(), ResolveNext(id)) && dep == declared[id][cursor[id]]
      requires Target(dep) < nextId && (hasDependencyCycle <==> broken != {})
      modifies this
      ensures View() == ResolveStep(old(View()), id)
      ensures gaveUp <==> !Special(dep) && Failed(old(View()), Target(dep)) && Complete(old(View()), Target(dep))
      ensures hasDependencyCycle <==> broken != {}
    {
      ghost var s := View();
      gaveUp := false;
      var d := Target(dep);
      if Special(dep) {
        CountResolved(id);
        assert View().broken == s.broken;
      } else if d in modules && modules[d].complete {
        if modules[d].failed {
          GiveUp(id);
          gaveUp := true;
        } else {
          CountResolved(id);
        }
        assert View().broken == s.broken;
      } else {
        var cyclic, _ := HasDependencyPath(d, id);
        if cyclic {
          CutCycle(id, d);
          assert (id, d) in View().broken;
        } else {
          WaitFor(id, dep);
          assert View().broken == s.broken;
        }
      }
    }

    // ---------------------------------------------------------------- completing

    method StartFactory(id: nat)
      requires id in modules
      modifies this
      ensures View() == BeginStep(old(View()), id) && hasDependencyCycle == old(hasDependencyCycle)
    {
      ready := ready - {id};
      if !modules[id].complete {
        modules := modules[id := modules[id].(complete := true)];
        running, runs := running + {id}, runs + [id];
      }
    }

    /** The factory has returned or thrown: clear the module, and fetch and clear the
        list of modules that wait for it. */
    /** The factory runs; an error is set and reported. */
    method RunFactory(id: nat, ghost s0: State)
      requires Between(s0, View(), ready, running, pending, releasing) && id in running && id in modules
      modifies this`modules
      ensures Between(s0, View(), ready, running, pending, releasing)
      ensures Open(modules) == old(Open(modules)) && inverseDependencies == old(inverseDependencies)
    {
      var threw := *;
      if threw && !modules[id].failed {
        ThrowBetween(s0, View(), id);
        modules := modules[id := modules[id].(failed := true)];
      }
    }

    method FinishFactory(id: nat) returns (inverseDeps: seq<nat>)
      requires id in modules
      modifies this
      ensures View() == EndStep(old(View()), id) && hasDependencyCycle == old(hasDependencyCycle)
      ensures inverseDeps == Waiters(old(inverseDependencies), id)
    {
      ghost var t := EndStep(View(), id);
      modules := modules[id := Cleared(modules[id])];
      inverseDeps := Waiters(inverseDependencies, id);
      inverseDependencies := inverseDependencies - {id};
      running, releasing, pending := t.running, t.releasing, t.pending;
    }

    method CountDown(id: nat)
      requires id in modules
      modifies this
      ensures View() == DecrementStep(old(View()), id) && hasDependencyCycle == old(hasDependencyCycle)
    {
      ghost var t := DecrementStep(View(), id);
      var m := CountedDown(modules[id]);
      modules := modules[id := m];
      pending, ready := t.pending, t.ready;
    }

    method LoadParked(id: nat)
      modifies this
      ensures View() == WholeRelease(old(View()), id) && hasDependencyCycle == old(hasDependencyCycle)
    {
      var parked := if id in inversePluginDependencies then inversePluginDependencies[id] else [];
      inversePluginDependencies := inversePluginDependencies - {id};
      ghost var s, t := View(), WholeRelease(old(View()), id);
      for i := 0 to |parked|
        invariant knownModules + Wanted(parked[i..], s.modules) == s.known + Wanted(parked, s.modules)
        invariant View() == s.(known := knownModules) && hasDependencyCycle == old(hasDependencyCycle)
      {
        WantedFirst(parked[i..], s.modules);
        assert parked[i..][1..] == parked[i + 1..];
        RequestModule(Target(parked[i]));
      }
      releasing := t.releasing;
      assert parked == Parked(old(View()), id);
      assert knownModules == t.known;
    }

    /** `_onModuleComplete`: run the factory once, then count down every module that
        waits, completing in turn the ones that reach zero. */
    method OnModuleComplete(id: nat)
      requires Valid() && id in ready
      modifies this
      ensures Valid()
      ensures Between(old(View()), View(), old(ready) - {id}, old(running), old(pending), old(releasing))
      ensures id in modules && modules[id].complete
      ensures old(id in Open(modules)) ==> old(runs) + [id] <= runs
      ensures old(id !in Open(modules)) ==> runs == old(runs)
      decreases Open(modules), 1
    {
      ghost var s0 := View();
      ReadyFacts(s0, id);
      if modules[id].complete {
        BeginBetween(s0, id);
        StartFactory(id);
        LeadsTrans(Initial(), s0, View());
      } else {
        CompleteModule(id);
      }
    }

    /** `_onModuleComplete` for a module that is not complete yet. */
    method CompleteModule(id: nat)
      requires Valid() && id in ready && id in Open(modules) && id !in running && id !in releasing
      modifies this
      ensures Valid() && id in modules && modules[id].complete && old(runs) + [id] <= runs
      ensures Between(old(View()), View(), old(ready) - {id}, old(running), old(pending), old(releasing))
      decreases Open(modules), 0
    {
      ghost var s0 := View();
      BeginBetween(s0, id);
      StartFactory(id);
      ghost var s1 := View();
      LeadsTrans(Initial(), s0, s1);
      assert id !in Open(modules) && id in Open(s0.modules);
      BetweenSelf(s1);
      FinishCompletion(id, s1);
      CompletionBetween(s0, s1, View(), id);
    }

    /** The rest of `_onModuleComplete`, from the moment the factory runs. */
    method FinishCompletion(id: nat, ghost s0: State)
      requires Reachable(s0) && id in running && id in modules && (hasDependencyCycle <==> broken != {})
      requires Between(s0, View(), ready, running, pending, releasing)
      modifies this
      ensures Between(s0, View(), old(ready), old(running) - {id}, old(pending), (old(releasing) + {id}) - {id})
      ensures Open(modules) <= old(Open(modules)) && (hasDependencyCycle <==> broken != {})
      decreases Open(modules), 4
    {
      RunFactory(id, s0);
      ghost var s := View();
      EndBetween(s0, s, id);
      var inverseDeps := FinishFactory(id);
      Cascade(inverseDeps, s0);
      ghost var s' := View();
      assert s'.pending == s.pending;
      ReleaseBetween(s0, s', id);
      LoadParked(id);
    }

    method Cascade(inverseDeps: seq<nat>, ghost s0: State)
      requires Reachable(s0) && multiset(inverseDeps) <= pending && (hasDependencyCycle <==> broken != {})
      requires Between(s0, View(), ready, running, pending, releasing)
      modifies this
      ensures Between(s0, View(), old(ready), old(running), old(pending) - multiset(inverseDeps), old(releasing))
      ensures Open(modules) <= old(Open(modules)) && (hasDependencyCycle <==> broken != {})
      decreases Open(modules), 3
    {
      for i := 0 to |inverseDeps|
        invariant StillPending(inverseDeps, i, old(pending), pending)
        invariant Between(s0, View(), old(ready), old(running), pending, old(releasing))
        invariant Open(modules) <= old(Open(modules)) && (hasDependencyCycle <==> broken != {})
      {
        PendingTurn(inverseDeps, i, old(pending), pending);
        CountDownAndComplete(inverseDeps[i], s0);
      }
    }

    /** One turn of the cascade. */
    method CountDownAndComplete(x: nat, ghost s0: State)
      requires Reachable(s0) && x in pending && (hasDependencyCycle <==> broken != {})
      requires Between(s0, View(), ready, running, pending, releasing)
      modifies this
      ensures Between(s0, View(), old(ready), old(running), old(pending) - multiset{x}, old(releasing))
      ensures Open(modules) <= old(Open(modules)) && (hasDependencyCycle <==> broken != {})
      decreases Open(modules), 2
    {
      ghost var s := View();
      LeadsTrans(Initial(), s0, s);
      PendingFacts(s, x);
      DecrementBetween(s0, s, x);
      CountDown(x);
      if modules[x].count == 0 {
        ghost var s1 := View();
        LeadsTrans(Initial(), s0, s1);
        OnModuleComplete(x);
        LeadsTrans(s0, s1, View());
        assert View().ready == s.ready;
      }
    }

    // ---------------------------------------------------------------- defining

    /** The loop of `_resolve`: examine the dependencies one by one. */
    method ExamineDependencies(id: nat) returns (gaveUp: bool)
      requires Valid() && id in resolving && id in modules && id in declared && id in cursor
      requires cursor[id] == 0 && modules[id].deps == Some(declared[id])
      modifies this
      ensures Valid()
      ensures After(old(View()), View(), if gaveUp then old(resolving) - {id} else old(resolving), old(declared))
      ensures !gaveUp ==> Enabled(View(), FinishResolve(id))
    {
      ghost var s0 := View();
      LeadsSelf(s0);
      var dependencies := modules[id].deps.value;
      for i := 0 to |dependencies|
        invariant Valid() && After(s0, View(), s0.resolving, s0.declared)
        invariant id in cursor && id in declared && cursor[id] == i && declared[id] == dependencies
      {
        ghost var s := View();
        ResolvingFacts(s, id);
        assert Below(dependencies[i], nextId);
        LeadsStep(Initial(), s, ResolveNext(id));
        gaveUp := ResolveDependency(id, dependencies[i]);
        ResolveAfter(s0, s, id, View());
        ResolveMoves(s, id);
        if gaveUp {
          return;
        }
      }
      ResolvingFacts(View(), id);
      gaveUp := false;
    }

    /** The end of `_resolve`: when none is left to wait for, complete the module. */
    method FinishResolution(id: nat, ghost s0: State)
      requires Valid() && Enabled(View(), FinishResolve(id)) && id !in ready && After(s0, View(), resolving, declared)
      modifies this
      ensures Valid() && After(s0, View(), old(resolving) - {id}, old(declared))
    {
      ghost var s := View();
      FinishAfter(s0, s, id);
      LeadsStep(Initial(), s, FinishResolve(id));
      resolving := resolving - {id};
      if modules[id].count == 0 {
        ready := ready + {id};
        ghost var s1 := View();
        assert s1 == FinishStep(s, id);
        OnModuleComplete(id);
        LeadsTrans(s0, s1, View());
        assert View().ready == s.ready;
      } else {
        assert View() == FinishStep(s, id);
      }
    }

    method Resolve(id: nat)
      requires Valid() && id in resolving && id in modules && id in declared && id in cursor && id !in ready
      requires cursor[id] == 0 && modules[id].deps == Some(declared[id])
      modifies this
      ensures Valid() && After(old(View()), View(), old(resolving) - {id}, old(declared))
    {
      var gaveUp := ExamineDependencies(id);
      if !gaveUp {
        FinishResolution(id, old(View()));
      }
    }

    method Register(id: nat, deps: seq<Dependency>, errorback: bool, limit: nat)
      requires id !in modules
      modifies this
      ensures View() == DefineStep(old(View()), id, deps, errorback, limit)
      ensures hasDependencyCycle == old(hasDependencyCycle)
    {
      ghost var t := DefineStep(View(), id, deps, errorback, limit);
      nextId := limit;
      modules := modules[id := NewModule(deps, errorback)];
      cursor, resolving, declared := t.cursor, t.resolving, t.declared;
    }

    /** `defineModule`: a second definition of an id is ignored; otherwise the module
        is registered and its dependencies are resolved at once. */
    method DefineModule(id: nat, deps: seq<Dependency>, errorback: bool, limit: nat)
      requires Valid() && nextId <= limit && id < limit && AllBelow(deps, limit)
      modifies this
      ensures Valid() && id in modules
      ensures old(id in modules) ==> View() == old(View()).(limit := limit)
      ensures After(old(View()), View(), old(resolving),
                    if old(id in modules) then old(declared) else old(declared)[id := deps])
      ensures old(id !in modules) ==> InTables(View(), id, Definition(deps, errorback)) && Resolved(View(), id, deps)
    {
      ghost var s0 := View();
      DefineAfter(s0, id, deps, errorback, limit);
      if id in modules {
        nextId := limit;
        return;
      }
      Register(id, deps, errorback, limit);
      ghost var s1 := View();
      Resolve(id);
      DefineThen(s0, s1, View(), id, deps, errorback, limit);
    }

    // ---------------------------------------------------------------- load errors

    method QueueWaiters(inverseDeps: seq<nat>, seen: array<bool>, queue0: seq<nat>, ghost order0: seq<nat>,
                        ghost k: nat)
      returns (queue: seq<nat>, ghost order: seq<nat>)
      requires forall j :: 0 <= j < |inverseDeps| ==> inverseDeps[j] < seen.Length
      requires k <= |order0| && queue0 == order0[k..] && Distinct(order0)
      requires forall i: nat :: i < seen.Length ==> seen[i] == (i in order0)
      modifies seen
      ensures order0 <= order && queue == order[k..] && Distinct(order)
      ensures forall i: nat :: i < seen.Length ==> seen[i] == (i in order)
      ensures forall x :: x in order <==> x in order0 || x in inverseDeps
    {
      queue, order := queue0, order0;
      for i := 0 to |inverseDeps|
        invariant order0 <= order && queue == order[k..] && Distinct(order)
        invariant forall i: nat :: i < seen.Length ==> seen[i] == (i in order)
        invariant forall x :: x in order <==> x in order0 || x in inverseDeps[..i]
      {
        var x := inverseDeps[i];
        if !seen[x] {
          queue := queue + [x];
          order := order + [x];
          seen[x] := true;
        }
        assert inverseDeps[..i + 1] == inverseDeps[..i] + [x];
      }
      assert inverseDeps[..|inverseDeps|] == inverseDeps;
    }

    /** The walk of `_onLoadError` over everything that waits for the failed id, each
        module once.  Tells whether some error callback was called. */
    method NotifyAffected(id: nat) returns (table: map<nat, Module>, someoneNotified: bool, ghost notified: seq<nat>)
      requires id in modules && id < nextId && WaitersDefined(modules, inverseDependencies, nextId)
      ensures table.Keys == modules.Keys
      ensures forall m :: m in modules ==> table[m] == if m in notified then WithError(modules[m]) else modules[m]
      ensures forall m :: m in notified <==> Affected(inverseDependencies, id, m)
      ensures someoneNotified <==> AnyErrorback(modules, notified)
      ensures IsWalk(inverseDependencies, notified) && notified[0] == id && forall x :: x in notified ==> x in modules
    {
      ghost var inverse, todo := inverseDependencies, modules.Keys;
      var seen := new bool[nextId](_ => false);
      var queue := [id];
      seen[id] := true;
      table, someoneNotified, notified := modules, false, [id];
      ghost var k := 0;
      ReachesSelf(WaitEdges(inverse), id);
      while queue != []
        invariant Walk(modules, inverse, id, notified, k) && queue == notified[k..]
        invariant forall i: nat :: i < seen.Length ==> seen[i] == (i in notified)
        invariant Notified(modules, notified[..k], table, someoneNotified, todo)
        decreases todo
      {
        var element := queue[0];
        queue := queue[1..];
        ghost var before, done := notified, notified[..k];
        assert before[..k + 1] == done + [element];
        NotifiedTurn(modules, done, table, someoneNotified, todo, element);
        someoneNotified := table[element].errorback || someoneNotified;
        table := table[element := WithError(table[element])];
        queue, notified := QueueWaiters(Waiters(inverseDependencies, element), seen, queue, notified, k + 1);
        WalkTurn(modules, inverse, nextId, id, before, notified, k);
        k, todo := k + 1, todo - {element};
        assert notified[..k] == done + [element];
      }
      assert notified[..k] == notified;
      ListIsAffected(inverse, id, notified);
      WalkIsWalk(modules, inverse, id, notified);
    }

    /** `_onLoadError`: fail the id and everything that waits for it; the global
        handler is called exactly when none of them has an error callback. */
    method OnLoadError(id: nat) returns (globalHandler: bool, ghost notified: seq<nat>)
      requires Valid() && id < nextId
      modifies this
      ensures Valid() && View() == WholeWalk(old(View()), id) && Leads(old(View()), View())
      ensures Distinct(notified) && forall m :: m in notified <==> Affected(old(inverseDependencies), id, m)
      ensures FailsExactly(old(View()), View(), id)
      ensures globalHandler <==> !AnyErrorback(old(modules), notified)
    {
      ghost var s := View();
      CreateIfMissing(id);
      var someoneNotified;
      someoneNotified, notified := FailWaiting(id, s);
      MissingHasNone(s, id, notified);
      globalHandler := !someoneNotified;
    }

    method FailWaiting(id: nat, ghost s: State) returns (someoneNotified: bool, ghost notified: seq<nat>)
      requires Reachable(s) && id < s.limit && View() == EnsureModule(s, id)
      modifies this`modules
      ensures View() == WholeWalk(s, id) && Leads(s, View()) && Reachable(View()) && FailsExactly(s, View(), id)
      ensures Distinct(notified) && forall m :: m in notified <==> Affected(s.inverse, id, m)
      ensures someoneNotified <==> AnyErrorback(EnsureModule(s, id).modules, notified)
    {
      ReachableWaiters(s);
      modules, someoneNotified, notified := NotifyAffected(id);
      WalkReaches(s, id, notified, modules);
    }

    method CreateIfMissing(id: nat)
      modifies this
      ensures View() == EnsureModule(old(View()), id) && hasDependencyCycle == old(hasDependencyCycle)
    {
      if id !in modules {
        modules := modules[id := NewModule([], false)];
        cursor, declared := cursor[id := 0], declared[id := []];
      }
    }
  }
}
