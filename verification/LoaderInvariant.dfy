/** The invariant of the module manager, clause by clause. */
module LoaderInvariant {
  import opened Prelude
  import opened Graph
  import opened LoaderState

  /** All ids are below the limit and the tables agree on the defined modules. */
  ghost predicate Shape(s: State) {
    && FIRST_FREE_ID <= s.limit
    && (forall m :: m in s.modules ==>
          && m < s.limit && m in s.cursor && m in s.declared
          && s.cursor[m] <= |s.declared[m]|
          && (s.modules[m].deps.Some? ==> s.modules[m].deps.value == s.declared[m]))
    && (forall m :: m in s.declared ==> m in s.modules && AllBelow(s.declared[m], s.limit))
    && (forall d :: d in s.inverse ==> d < s.limit)
    && (forall m :: m in s.resolving || m in s.ready || m in s.aborted ==> m in s.modules)
  }

  /** The counting invariant: a module's count is the number of its dependencies
      not examined yet plus the decrements it is owed. */
  ghost predicate Counting(s: State) {
    && (forall m :: m in s.modules && m in s.cursor && m in s.declared ==>
          s.modules[m].count == |s.declared[m]| - s.cursor[m] + Owed(s, m))
    && (forall m :: m !in s.modules ==> Owed(s, m) == 0)
  }

  /** A factory starts at most once; complete modules are the ones whose factory
      started and the failed ones. */
  ghost predicate Once(s: State) {
    && (forall i, j :: 0 <= i < j < |s.runs| ==> s.runs[i] != s.runs[j])
    && (forall m :: m in s.runs ==> Complete(s, m))
    && (forall m :: Complete(s, m) ==> m in s.runs || Failed(s, m))
    && (forall m :: Failed(s, m) ==> Complete(s, m))
    && (forall m :: m in s.running || m in s.releasing ==> m in s.runs)
    && (forall m :: m in s.aborted ==> Failed(s, m))
    && (forall m :: m in s.modules && s.modules[m].deps.None? ==> m in s.runs)
  }

  /** Where counts are zero: a module that started its factory or is about to; an
      incomplete module whose resolution is over still waits for something. */
  ghost predicate Zero(s: State) {
    && (forall m :: m in s.runs || m in s.ready ==> m in s.modules && s.modules[m].count == 0)
    && (forall m :: m in s.modules && m !in s.resolving && !s.modules[m].complete && m !in s.ready ==>
          s.modules[m].count > 0)
  }

  /** A resolution that is over examined every dependency, unless it gave up. */
  ghost predicate Examined(s: State) {
    forall m :: m in s.cursor && m in s.declared && m !in s.resolving && m !in s.aborted ==>
      s.cursor[m] == |s.declared[m]|
  }

  /** Waiting happens only along declared dependencies of modules that are not
      cleared, and never in a circle. */
  ghost predicate Waiting(s: State) {
    && WaitEdges(s.inverse) <= DependencyEdges(s.modules)
    && Acyclic(WaitEdges(s.inverse))
  }

  /** Dependency number i of module m is accounted for. */
  ghost predicate Settled(s: State, m: nat, d: nat) {
    d in s.runs || (m, d) in s.broken || m in Waiters(s.inverse, d)
  }

  /** Module m has a dependency number i, and `_resolve` has looked at it. */
  predicate IsExamined(s: State, m: nat, i: int) {
    m in s.declared && m in s.cursor && 0 <= i < s.cursor[m] <= |s.declared[m]| && !Special(s.declared[m][i])
  }

  ghost predicate Progress(s: State) {
    forall m, i :: IsExamined(s, m, i) ==> Settled(s, m, Target(s.declared[m][i]))
  }

  /** d came before the factory at position j, or was cut off. */
  ghost predicate Ordered(s: State, j: nat, d: nat)
    requires j < |s.runs|
  {
    (s.runs[j], d) in s.broken || d in s.runs[..j]
  }

  ghost predicate Order(s: State) {
    && (forall j :: 0 <= j < |s.runs| ==> s.runs[j] in s.declared)
    && (forall j, i :: 0 <= j < |s.runs| && 0 <= i < |s.declared[s.runs[j]]| && !Special(s.declared[s.runs[j]][i]) ==>
          Ordered(s, j, Target(s.declared[s.runs[j]][i])))
  }

  /** A dependency is cut off only on a cycle of declared dependencies. */
  ghost predicate Cuts(s: State) {
    forall m, d :: (m, d) in s.broken ==>
      (m, d) in DeclaredEdges(s.declared) && ReachesByEdge(DeclaredEdges(s.declared), d, m)
  }

  ghost predicate IsParked(s: State, d: nat) {
    exists p, i :: p in s.parked && 0 <= i < |s.parked[p]| && Target(s.parked[p][i]) == d
  }

  /** Whatever is waited for has been defined or asked for, or is parked at a
      plugin that has been. */
  ghost predicate Requested(s: State) {
    && (forall d :: Waiters(s.inverse, d) != [] ==> d in s.modules || d in s.known || IsParked(s, d))
    && (forall p :: Parked(s, p) != [] ==> p in s.modules || p in s.known)
    && (forall p :: Parked(s, p) != [] && Complete(s, p) ==> p in s.running || p in s.releasing || Failed(s, p))
  }

  /** Neither a factory, nor an error callback, nor a resolution that gave up stands
      between the completion of d and its waiters. */
  predicate Told(s: State, d: nat) {
    d !in s.running && d !in s.aborted && d !in s.walks.calling
  }

  /** Waiters of a complete module whose factory and error callback are over were
      completed with it or are in the queue of a walk, except where `_resolve` gave up
      on a failed dependency. */
  ghost predicate Released(s: State) {
    forall d, x :: Complete(s, d) && Told(s, d) && x in Waiters(s.inverse, d) ==>
      Complete(s, x) || x in s.walks.queued
  }

  /** Walks are over modules. */
  ghost predicate Walking(s: State) {
    forall m :: m in s.walks.queued || m in s.walks.calling ==> m in s.modules
  }

  ghost predicate Inv(s: State) {
    && Shape(s) && Counting(s) && Once(s) && Zero(s) && Examined(s) && Waiting(s)
    && Progress(s) && Order(s) && Cuts(s) && Requested(s) && Released(s)
    && Walking(s)
  }

  // ---------------------------------------------------------------- edge sets

  lemma WaitEdgeIff(inverse: map<nat, seq<nat>>, x: nat, d: nat)
    ensures (x, d) in WaitEdges(inverse) <==> x in Waiters(inverse, d)
  {
    if x in Waiters(inverse, d) {
      var i :| 0 <= i < |inverse[d]| && inverse[d][i] == x;
      assert (inverse[d][i], d) in WaitEdges(inverse);
    }
  }

  lemma DependencyEdgeAt(modules: map<nat, Module>, m: nat, i: nat)
    requires m in modules && modules[m].deps.Some? && i < |modules[m].deps.value|
    ensures (m, Target(modules[m].deps.value[i])) in DependencyEdges(modules)
  {
  }

  /** Nothing leads out of an undefined module. */
  lemma NothingFromUndefined(modules: map<nat, Module>, from: nat, x: nat)
    requires from !in modules
    ensures !ReachesByEdge(DependencyEdges(modules), from, x)
    ensures Reaches(DependencyEdges(modules), from, x) ==> x == from
  {
    var g := DependencyEdges(modules);
    ReachesCases(g, from, x);
    if ReachesByEdge(g, from, x) { var y := ReachesFirst(g, from, x); }
  }

  lemma DependencyEdgesDeclared(s: State)
    requires Shape(s)
    ensures DependencyEdges(s.modules) <= DeclaredEdges(s.declared)
  {
    forall x, y | (x, y) in DependencyEdges(s.modules) ensures (x, y) in DeclaredEdges(s.declared) {
      var i :| 0 <= i < |s.modules[x].deps.value| && y == Target(s.modules[x].deps.value[i]);
      assert (x, Target(s.declared[x][i])) in DeclaredEdges(s.declared);
    }
  }

  // ---------------------------------------------------------------- counting entries

  /** Changing the list of d alone changes the total by the change in that list. */
  lemma {:induction false} ListedUpdate(inverse: map<nat, seq<nat>>, inverse': map<nat, seq<nat>>, d: nat, n: nat,
                                        m: nat)
    requires forall k :: k != d ==> Waiters(inverse, k) == Waiters(inverse', k)
    ensures Listed(inverse', n, m) + (if d < n then multiset(Waiters(inverse, d))[m] else 0)
         == Listed(inverse, n, m) + (if d < n then multiset(Waiters(inverse', d))[m] else 0)
  {
    if n > 0 { ListedUpdate(inverse, inverse', d, n - 1, m); }
  }

  lemma {:induction false} ListedPositive(inverse: map<nat, seq<nat>>, n: nat, m: nat)
    ensures Listed(inverse, n, m) > 0 <==> exists d :: 0 <= d < n && m in Waiters(inverse, d)
  {
    if n > 0 { ListedPositive(inverse, n - 1, m); }
  }

  lemma {:induction false} ListedExtend(inverse: map<nat, seq<nat>>, n: nat, n': nat, m: nat)
    requires n <= n' && forall d :: d in inverse ==> d < n
    ensures Listed(inverse, n', m) == Listed(inverse, n, m)
  {
    if n < n' { ListedExtend(inverse, n, n' - 1, m); }
  }

  lemma WaiterIsOwed(s: State, m: nat, d: nat)
    requires m in Waiters(s.inverse, d) && forall k :: k in s.inverse ==> k < s.limit
    ensures Owed(s, m) > 0
  {
    ListedPositive(s.inverse, s.limit, m);
  }

  /** A module whose count is zero has examined all its dependencies and is not
      listed anywhere. */
  lemma NothingOwed(s: State, m: nat)
    requires Shape(s) && Counting(s) && m in s.modules && s.modules[m].count == 0
    ensures s.cursor[m] == |s.declared[m]| && m !in s.pending
    ensures forall d :: m !in Waiters(s.inverse, d)
  {
    forall d ensures m !in Waiters(s.inverse, d) {
      if m in Waiters(s.inverse, d) { WaiterIsOwed(s, m, d); }
    }
  }
}
