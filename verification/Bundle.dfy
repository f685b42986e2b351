/** The bundler: a depth-first walk over the modules that adds the source of each one
    after those of its dependencies. */
module Bundle {
  import opened Prelude
  import opened Graph
  import opened SourceMapFormat
  import opened SourceMapProof
  import opened SourceMapTheorems
  import Build = SourceMapBuild
  import opened SourceMapBuilder
  import opened Vlq

  /** A module: what it needs, in order, and the file it was read from. */
  datatype ModuleInfo = ModuleInfo(dependencies: seq<nat>, file: Build.File) {
    function Source(): Build.Source { Build.MakeSource(file.content, file.sources, file.mappings) }
  }

  function DependsOn(modules: map<nat, ModuleInfo>): Edges {
    set m, i | m in modules && 0 <= i < |modules[m].dependencies| :: (m, modules[m].dependencies[i])
  }

  /** All dependencies are modules. */
  ghost predicate Closed(modules: map<nat, ModuleInfo>) {
    forall m, i :: m in modules && 0 <= i < |modules[m].dependencies| ==> modules[m].dependencies[i] in modules
  }

  // ---------------------------------------------------------------- the order

  /** What holds all along the walk: nothing is emitted twice, and whatever an emitted
      module needs has been visited, and emitted before it unless it needs the module
      itself. */
  ghost predicate Walk(modules: map<nat, ModuleInfo>, visited: set<nat>, emitted: seq<nat>) {
    && visited <= modules.Keys
    && (forall i, j :: 0 <= i < j < |emitted| ==> emitted[i] != emitted[j])
    && (forall x :: x in emitted ==> x in visited)
    && (forall j :: 0 <= j < |emitted| ==> NeedsMet(modules, visited, emitted[..j], emitted[j]))
  }

  /** What x needs is visited, and among the earlier ones unless it needs x in turn. */
  ghost predicate NeedsMet(modules: map<nat, ModuleInfo>, visited: set<nat>, earlier: seq<nat>, x: nat) {
    forall y: nat :: (x, y) in DependsOn(modules) ==>
      y in visited && (y in earlier || Reaches(DependsOn(modules), y, x))
  }

  lemma WalkVisit(modules: map<nat, ModuleInfo>, visited: set<nat>, emitted: seq<nat>, m: nat)
    requires Walk(modules, visited, emitted) && m in modules
    ensures Walk(modules, visited + {m}, emitted)
  {
    forall j | 0 <= j < |emitted| ensures NeedsMet(modules, visited + {m}, emitted[..j], emitted[j]) {
      assert NeedsMet(modules, visited, emitted[..j], emitted[j]);
    }
  }

  lemma WalkEmit(modules: map<nat, ModuleInfo>, visited: set<nat>, emitted: seq<nat>, m: nat)
    requires Walk(modules, visited, emitted) && m in visited && m !in emitted
    requires NeedsVisited(modules, m, visited)
    requires AllReach(DependsOn(modules), StackOf(visited, emitted), m)
    ensures Walk(modules, visited, emitted + [m])
  {
    var e := emitted + [m];
    forall j | 0 <= j < |e| ensures NeedsMet(modules, visited, e[..j], e[j]) {
      if j < |emitted| {
        assert e[..j] == emitted[..j];
        assert NeedsMet(modules, visited, emitted[..j], emitted[j]);
      } else {
        assert e[..j] == emitted;
      }
    }
  }

  /** A finished walk has emitted exactly what the entry reaches. */
  lemma WalkDone(modules: map<nat, ModuleInfo>, visited: set<nat>, emitted: seq<nat>, entry: nat)
    requires Walk(modules, visited, emitted) && entry in visited
    requires forall x :: x in visited ==> x in emitted
    requires NewReached(DependsOn(modules), [], emitted, entry)
    ensures forall x :: x in emitted <==> Reaches(DependsOn(modules), entry, x)
  {
    var g := DependsOn(modules);
    forall x: nat, y: nat | x in visited && (x, y) in g ensures y in visited {
      var j :| 0 <= j < |emitted| && emitted[j] == x;
      assert NeedsMet(modules, visited, emitted[..j], emitted[j]);
    }
    forall x | Reaches(g, entry, x) ensures x in emitted {
      var p :| Connects(g, p, entry, x);
      ClosedContains(g, visited, p);
    }
  }

  /** Without cycles, every module comes after everything it needs, directly or not. */
  lemma {:induction false} DependenciesFirst(modules: map<nat, ModuleInfo>, visited: set<nat>, emitted: seq<nat>,
                                             j: nat, p: seq<nat>)
    requires Walk(modules, visited, emitted) && Acyclic(DependsOn(modules)) && j < |emitted|
    requires IsPath(DependsOn(modules), p) && |p| >= 2 && p[0] == emitted[j]
    ensures p[|p| - 1] in emitted[..j]
    decreases |p|
  {
    var g := DependsOn(modules);
    var z := p[1];
    assert NeedsMet(modules, visited, emitted[..j], emitted[j]) && (p[0], z) in g;
    if Reaches(g, z, p[0]) { ReachesCons(g, p[0], z, p[0]); }
    if |p| > 2 {
      var k :| 0 <= k < j && emitted[k] == z;
      assert IsPath(g, p[1..]);
      DependenciesFirst(modules, visited, emitted, k, p[1..]);
    }
  }

  lemma TransitiveDependenciesFirst(modules: map<nat, ModuleInfo>, visited: set<nat>, emitted: seq<nat>, j: nat, y: nat)
    requires Walk(modules, visited, emitted) && Acyclic(DependsOn(modules)) && j < |emitted|
    requires ReachesByEdge(DependsOn(modules), emitted[j], y)
    ensures y in emitted[..j]
  {
    var p :| Connects(DependsOn(modules), p, emitted[j], y) && |p| >= 2;
    DependenciesFirst(modules, visited, emitted, j, p);
  }

  /** Every module of the set needs m. */
  ghost predicate AllReach(g: Edges, stack: set<nat>, m: nat) {
    forall x :: x in stack ==> Reaches(g, x, m)
  }

  /** Whatever was emitted since is needed by m. */
  ghost predicate NewReached(g: Edges, before: seq<nat>, emitted: seq<nat>, m: nat) {
    forall x :: x in emitted && x !in before ==> Reaches(g, m, x)
  }

  lemma AllReachNext(g: Edges, stack: set<nat>, m: nat, d: nat)
    requires AllReach(g, stack, m) && (m, d) in g
    ensures AllReach(g, stack, d)
  {
    forall x | x in stack ensures Reaches(g, x, d) { ReachesOne(g, m, d); ReachesTrans(g, x, m, d); }
  }

  lemma NewReachedNext(g: Edges, before: seq<nat>, between: seq<nat>, emitted: seq<nat>, m: nat)
    requires NewReached(g, before, between, m) && NewReached(g, between, emitted, m)
    ensures NewReached(g, before, emitted, m)
  {
  }

  lemma NewReachedFrom(g: Edges, before: seq<nat>, emitted: seq<nat>, m: nat, d: nat)
    requires NewReached(g, before, emitted, d) && (m, d) in g
    ensures NewReached(g, before, emitted, m)
  {
    forall x | x in emitted && x !in before ensures Reaches(g, m, x) { ReachesCons(g, m, d, x); }
  }

  lemma NewReachedSelf(g: Edges, before: seq<nat>, emitted: seq<nat>, m: nat)
    requires NewReached(g, before, emitted, m)
    ensures NewReached(g, before, emitted + [m], m)
  {
    ReachesSelf(g, m);
  }

  ghost predicate AllVisited(list: seq<nat>, visited: set<nat>) {
    forall y :: y in list ==> y in visited
  }

  lemma AllVisitedNext(list: seq<nat>, i: nat, earlier: set<nat>, visited: set<nat>)
    requires i < |list| && AllVisited(list[..i], earlier) && earlier <= visited && list[i] in visited
    ensures AllVisited(list[..i + 1], visited)
  {
    assert list[..i + 1] == list[..i] + [list[i]];
  }

  lemma AllVisitedDone(modules: map<nat, ModuleInfo>, m: nat, visited: set<nat>)
    requires m in modules
    requires var d := modules[m].dependencies; AllVisited(d[..|d|], visited)
    ensures NeedsVisited(modules, m, visited)
  {
    DependsOnAt(modules, m);
    var d := modules[m].dependencies;
    assert d[..|d|] == d;
  }

  /** Everything m needs directly is visited. */
  ghost predicate NeedsVisited(modules: map<nat, ModuleInfo>, m: nat, visited: set<nat>) {
    forall y: nat :: (m, y) in DependsOn(modules) ==> y in visited
  }

  lemma DependsOnAt(modules: map<nat, ModuleInfo>, m: nat)
    requires m in modules
    ensures forall y: nat :: (m, y) in DependsOn(modules) <==> y in modules[m].dependencies
  {
  }

  function Sources(modules: map<nat, ModuleInfo>, list: seq<nat>): (s: seq<Build.Source>)
    requires forall x :: x in list ==> x in modules
    ensures |s| == |list| && forall i :: 0 <= i < |list| ==> s[i] == modules[list[i]].Source()
  {
    if list == [] then [] else [modules[list[0]].Source()] + Sources(modules, list[1..])
  }

  /** The builder can read the mappings. */
  ghost predicate Accepted(mappings: seq<Byte>) {
    forall i :: 0 <= i < |mappings| ==> Build.Readable(mappings[i])
  }

  /** m needs a module whose mappings cannot be read. */
  ghost predicate Blocked(modules: map<nat, ModuleInfo>, m: nat) {
    exists x :: x in modules && Reaches(DependsOn(modules), m, x) && !Accepted(modules[x].file.mappings)
  }

  lemma BlockedNext(modules: map<nat, ModuleInfo>, m: nat, d: nat)
    requires Blocked(modules, d) && (m, d) in DependsOn(modules)
    ensures Blocked(modules, m)
  {
    var x :| x in modules && Reaches(DependsOn(modules), d, x) && !Accepted(modules[x].file.mappings);
    ReachesCons(DependsOn(modules), m, d, x);
  }

  lemma BlockedHere(modules: map<nat, ModuleInfo>, m: nat, b: Build.Builder)
    requires m in modules && Build.AddSource(b, modules[m].Source()).None?
    ensures Blocked(modules, m)
  {
    var s := modules[m].Source();
    RunsIff(Build.StartLoop(b), s.mappings, Build.Remap(b.sources, s.sources));
    ReachesSelf(DependsOn(modules), m);
  }

  lemma {:induction false} AllAccepted(b: Build.Builder, sources: seq<Build.Source>)
    requires Build.AddAll(b, sources).Some?
    ensures forall s :: s in sources ==> Accepted(s.mappings)
    decreases |sources|
  {
    if sources != [] {
      var s := sources[0];
      RunsIff(Build.StartLoop(b), s.mappings, Build.Remap(b.sources, s.sources));
      AllAccepted(Build.AddSource(b, s).value, sources[1..]);
    }
  }

  lemma NotBlocked(modules: map<nat, ModuleInfo>, entry: nat, emitted: seq<nat>)
    requires (forall x :: x in emitted ==> x in modules)
    requires forall x :: x in emitted <==> Reaches(DependsOn(modules), entry, x)
    requires Build.AddAll(Build.EMPTY, Sources(modules, emitted)).Some?
    ensures !Blocked(modules, entry)
  {
    var s := Sources(modules, emitted);
    AllAccepted(Build.EMPTY, s);
    forall x | x in emitted ensures Accepted(modules[x].file.mappings) {
      var i :| 0 <= i < |emitted| && emitted[i] == x;
      assert s[i] == modules[x].Source();
    }
  }

  lemma {:induction false} AddAllJoin(b: Build.Builder, s: seq<Build.Source>, t: seq<Build.Source>)
    requires Build.AddAll(b, s).Some?
    ensures Build.AddAll(b, s + t) == Build.AddAll(Build.AddAll(b, s).value, t)
    decreases |s|
  {
    if s == [] {
      assert s + t == t;
    } else {
      assert (s + t)[1..] == s[1..] + t;
      AddAllJoin(Build.AddSource(b, s[0]).value, s[1..], t);
    }
  }

  // ---------------------------------------------------------------- the order of the walk

  /** The modules visited after a visit, and the ones it adds, in order. */
  datatype Trip = Trip(visited: set<nat>, added: seq<nat>)

  /** A module comes after its dependencies, and these come in their order. */
  ghost function PostOrder(modules: map<nat, ModuleInfo>, m: nat, visited: set<nat>): (t: Trip)
    requires Closed(modules) && m in modules && visited <= modules.Keys
    ensures visited <= t.visited <= modules.Keys
    decreases modules.Keys - visited, 1
  {
    if m in visited then Trip(visited, [])
    else
      var t := PostOrders(modules, modules[m].dependencies, visited + {m});
      Trip(t.visited, t.added + [m])
  }

  ghost function PostOrders(modules: map<nat, ModuleInfo>, list: seq<nat>, visited: set<nat>): (t: Trip)
    requires Closed(modules) && (forall x :: x in list ==> x in modules) && visited <= modules.Keys
    ensures visited <= t.visited <= modules.Keys
    decreases modules.Keys - visited, 2, |list|
  {
    if list == [] then Trip(visited, [])
    else
      var t := PostOrders(modules, list[..|list| - 1], visited);
      var u := PostOrder(modules, list[|list| - 1], t.visited);
      Trip(u.visited, t.added + u.added)
  }

  // ---------------------------------------------------------------- the walk

  ghost function StackOf(visited: set<nat>, emitted: seq<nat>): set<nat> { set x | x in visited && x !in emitted }

  lemma StackPush(visited: set<nat>, emitted: seq<nat>, m: nat)
    requires m !in visited && m !in emitted
    ensures StackOf(visited + {m}, emitted) == StackOf(visited, emitted) + {m}
  {
  }

  lemma StackPop(visited: set<nat>, emitted: seq<nat>, m: nat, stack: set<nat>)
    requires StackOf(visited, emitted) == stack + {m} && m !in stack
    ensures StackOf(visited, emitted + [m]) == stack
  {
  }

  lemma PostOrdersNext(modules: map<nat, ModuleInfo>, list: seq<nat>, i: nat, visited: set<nat>)
    requires Closed(modules) && (forall x :: x in list ==> x in modules) && visited <= modules.Keys && i < |list|
    ensures var t := PostOrders(modules, list[..i], visited);
            var u := PostOrder(modules, list[i], t.visited);
            PostOrders(modules, list[..i + 1], visited) == Trip(u.visited, t.added + u.added)
  {
    assert list[..i + 1][..i] == list[..i] && list[..i + 1][i] == list[i];
  }

  class Bundler {
    const modules: map<nat, ModuleInfo>
    const builder: Builder
    var visited: set<nat>
    ghost const start: Build.Builder   // what the builder held before the walk
    ghost var emitted: seq<nat>

    /** The builder holds the sources emitted so far, in order. */
    ghost predicate Valid()
      reads this, builder, builder.outputBuffer, builder.mappings, builder.outputBuffer.buffer, builder.mappings.buffer
    {
      && Closed(modules) && Walk(modules, visited, emitted) && builder.Valid()
      && Build.AddAll(start, Sources(modules, emitted)) == Some(builder.View())
    }

    constructor (modules: map<nat, ModuleInfo>, builder: Builder)
      requires Closed(modules) && builder.Valid()
      ensures Valid() && this.modules == modules && this.builder == builder && start == builder.View()
      ensures visited == {} && emitted == []
    {
      this.modules, this.builder, visited, emitted, start := modules, builder, {}, [], builder.View();
    }

    /** Visited but not emitted: the modules the walk is in the middle of. */
    ghost function OnStack(): set<nat>
      reads this
    {
      StackOf(visited, emitted)
    }

    /** The walk stands where the trip ends. */
    ghost predicate Took(before: seq<nat>, t: Trip)
      reads this
    {
      visited == t.visited && emitted == before + t.added
    }

    /** `visit`: nothing for a visited module; otherwise its dependencies first, then
        the module itself.  Fails when the builder rejects a source. */
    method Visit(m: nat) returns (ok: bool)
      requires Valid() && m in modules
      requires AllReach(DependsOn(modules), OnStack(), m)
      modifies this, builder.Repr()
      ensures builder.Valid() && fresh(builder.Repr() - old(builder.Repr()))
      ensures !ok ==> Blocked(modules, m)
      ensures ok ==> Valid() && m in visited && old(visited) <= visited && OnStack() == old(OnStack())
      ensures ok ==> NewReached(DependsOn(modules), old(emitted), emitted, m)
      ensures ok ==> Took(old(emitted), PostOrder(modules, m, old(visited)))
      decreases modules.Keys - visited, 1
    {
      if m in visited {
        return true;
      }
      WalkVisit(modules, visited, emitted, m);
      ReachesSelf(DependsOn(modules), m);
      StackPush(visited, emitted, m);
      visited := visited + {m};
      ok := VisitNew(m, old(OnStack()));
    }

    /** The rest of `visit`, once the module is marked; `below` are the modules whose
        visits it is part of. */
    method VisitNew(m: nat, ghost below: set<nat>) returns (ok: bool)
      requires Valid() && m in modules && m in visited && m !in below && OnStack() == below + {m}
      requires AllReach(DependsOn(modules), OnStack(), m)
      modifies this, builder.Repr()
      ensures builder.Valid() && fresh(builder.Repr() - old(builder.Repr()))
      ensures !ok ==> Blocked(modules, m)
      ensures ok ==> Valid() && old(visited) <= visited && OnStack() == below
      ensures ok ==> NewReached(DependsOn(modules), old(emitted), emitted, m)
      ensures ok ==> var t := PostOrders(modules, modules[m].dependencies, old(visited));
                     Took(old(emitted), Trip(t.visited, t.added + [m]))
      decreases modules.Keys - visited, 4
    {
      ok := VisitDependencies(m);
      if ok {
        ok := EmitLast(m, below, old(emitted), PostOrders(modules, modules[m].dependencies, old(visited)));
      }
    }

    /** The module itself, after the trip over its dependencies. */
    method EmitLast(m: nat, ghost below: set<nat>, ghost before: seq<nat>, ghost t: Trip) returns (ok: bool)
      requires Valid() && m in modules && m in visited && m !in below && OnStack() == below + {m}
      requires AllReach(DependsOn(modules), OnStack(), m) && NeedsVisited(modules, m, visited)
      requires Took(before, t) && NewReached(DependsOn(modules), before, emitted, m)
      modifies this, builder.Repr()
      ensures builder.Valid() && fresh(builder.Repr() - old(builder.Repr()))
      ensures !ok ==> Blocked(modules, m)
      ensures ok ==> Valid() && visited == old(visited) && OnStack() == below
      ensures ok ==> NewReached(DependsOn(modules), before, emitted, m) && Took(before, Trip(t.visited, t.added + [m]))
    {
      StackPop(visited, emitted, m, below);
      NewReachedSelf(DependsOn(modules), before, emitted, m);
      Regroup(before, t.added, [m]);
      ok := Emit(m);
    }

    /** The loop of `visit`. */
    method VisitDependencies(m: nat) returns (ok: bool)
      requires Valid() && m in modules && m in visited
      requires AllReach(DependsOn(modules), OnStack(), m)
      modifies this, builder.Repr()
      ensures builder.Valid() && fresh(builder.Repr() - old(builder.Repr()))
      ensures !ok ==> Blocked(modules, m)
      ensures ok ==> Valid() && old(visited) <= visited && OnStack() == old(OnStack())
      ensures ok ==> NewReached(DependsOn(modules), old(emitted), emitted, m)
      ensures ok ==> NeedsVisited(modules, m, visited)
      ensures ok ==> Took(old(emitted), PostOrders(modules, modules[m].dependencies, old(visited)))
      decreases modules.Keys - visited, 3
    {
      ghost var g := DependsOn(modules);
      var dependencies := modules[m].dependencies;
      for i := 0 to |dependencies|
        invariant Valid() && fresh(builder.Repr() - old(builder.Repr()))
        invariant old(visited) <= visited && OnStack() == old(OnStack())
        invariant NewReached(g, old(emitted), emitted, m)
        invariant AllVisited(dependencies[..i], visited)
        invariant Took(old(emitted), PostOrders(modules, dependencies[..i], old(visited)))
      {
        ghost var before, earlier := emitted, visited;
        ok := VisitDependency(m, dependencies[i]);
        if !ok {
          return;
        }
        AllVisitedNext(dependencies, i, earlier, visited);
        NewReachedNext(g, old(emitted), before, emitted, m);
        PostOrdersNext(modules, dependencies, i, old(visited));
        Regroup(old(emitted), PostOrders(modules, dependencies[..i], old(visited)).added,
                PostOrder(modules, dependencies[i], earlier).added);
      }
      assert dependencies[..|dependencies|] == dependencies;
      AllVisitedDone(modules, m, visited);
      ok := true;
    }

    method VisitDependency(m: nat, d: nat) returns (ok: bool)
      requires Valid() && m in modules && d in modules[m].dependencies
      requires AllReach(DependsOn(modules), OnStack(), m)
      modifies this, builder.Repr()
      ensures builder.Valid() && fresh(builder.Repr() - old(builder.Repr()))
      ensures !ok ==> Blocked(modules, m)
      ensures ok ==> Valid() && d in visited && old(visited) <= visited && OnStack() == old(OnStack())
      ensures ok ==> NewReached(DependsOn(modules), old(emitted), emitted, m)
      ensures ok ==> Took(old(emitted), PostOrder(modules, d, old(visited)))
      decreases modules.Keys - visited, 2
    {
      ghost var g := DependsOn(modules);
      DependsOnAt(modules, m);
      AllReachNext(g, OnStack(), m, d);
      ok := Visit(d);
      if ok {
        NewReachedFrom(g, old(emitted), emitted, m, d);
      } else {
        BlockedNext(modules, m, d);
      }
    }

    method Emit(m: nat) returns (ok: bool)
      requires Valid() && m in modules && m in OnStack()
      requires NeedsVisited(modules, m, visited)
      requires AllReach(DependsOn(modules), OnStack(), m)
      modifies this, builder.Repr()
      ensures builder.Valid() && fresh(builder.Repr() - old(builder.Repr()))
      ensures !ok ==> Blocked(modules, m)
      ensures ok ==> Valid() && visited == old(visited) && emitted == old(emitted) + [m]
    {
      ghost var b := builder.View();
      WalkEmit(modules, visited, emitted, m);
      EmitOne(modules, emitted, start, b, m);
      var source := NewSource(modules[m].file);
      ok := builder.AddSource(source);
      if ok {
        emitted := emitted + [m];
      } else {
        BlockedHere(modules, m, b);
      }
    }
  }

  lemma EmitOne(modules: map<nat, ModuleInfo>, emitted: seq<nat>, b: Build.Builder, b1: Build.Builder, m: nat)
    requires m in modules && (forall x :: x in emitted ==> x in modules)
    requires Build.AddAll(b, Sources(modules, emitted)) == Some(b1)
    ensures Build.AddAll(b, Sources(modules, emitted + [m])) == Build.AddSource(b1, modules[m].Source())
  {
    var s, t := Sources(modules, emitted), [modules[m].Source()];
    assert Sources(modules, emitted + [m]) == s + t;
    AddAllJoin(b, s, t);
    assert t[1..] == [];
  }

  // ---------------------------------------------------------------- the bundle

  /** The content to serve, and the source map in its last line. */
  datatype Served = Served(content: seq<Byte>, sources: seq<string>, mappings: seq<Byte>)

  /** The list holds each module the entry needs once, and a module comes after each of
      its dependencies that does not need it in turn. */
  ghost predicate BundleOrder(modules: map<nat, ModuleInfo>, entry: nat, emitted: seq<nat>) {
    && (forall x :: x in emitted <==> Reaches(DependsOn(modules), entry, x))
    && (forall x :: x in emitted ==> x in modules)
    && exists visited :: Walk(modules, visited, emitted)
  }

  /** The sources in that order, and a last line made from the source map. */
  ghost predicate IsBundle(modules: map<nat, ModuleInfo>, emitted: seq<nat>,
                           comment: (seq<string>, seq<Byte>) -> seq<Byte>, r: Served)
    requires forall x :: x in emitted ==> x in modules
  {
    var b := Build.AddAll(Build.EMPTY, Sources(modules, emitted));
    && b.Some? && r.sources == b.value.sources && r.mappings == b.value.mappings
    && r.content == Build.AddLine(b.value, comment(r.sources, r.mappings)).output
  }

  method Walked(modules: map<nat, ModuleInfo>, entry: nat) returns (ok: bool, builder: Builder, ghost emitted: seq<nat>)
    requires Closed(modules) && entry in modules
    ensures builder.Valid() && fresh(builder.Repr())
    ensures !ok ==> Blocked(modules, entry)
    ensures ok ==> BundleOrder(modules, entry, emitted) && emitted == PostOrder(modules, entry, {}).added &&
                   Build.AddAll(Build.EMPTY, Sources(modules, emitted)) == Some(builder.View())
  {
    builder := new Builder();
    var bundler := new Bundler(modules, builder);
    ok := bundler.Visit(entry);
    emitted := bundler.emitted;
    if ok {
      ghost var visited := bundler.visited;
      assert forall x :: x in visited && x !in emitted ==> x in bundler.OnStack();
      WalkDone(modules, visited, emitted, entry);
    }
  }

  /** `bundleWithDependencies`: a bundle is served unless the mappings of some module
      the entry needs cannot be read. */
  method BundleWithDependencies(modules: map<nat, ModuleInfo>, entry: nat,
                                comment: (seq<string>, seq<Byte>) -> seq<Byte>)
    returns (bundle: Option<Served>, ghost emitted: seq<nat>)
    requires Closed(modules) && entry in modules
    ensures bundle.None? <==> Blocked(modules, entry)
    ensures bundle.Some? ==> BundleOrder(modules, entry, emitted) && IsBundle(modules, emitted, comment, bundle.value)
    ensures bundle.Some? ==> emitted == PostOrder(modules, entry, {}).added
  {
    var ok, builder;
    ok, builder, emitted := Walked(modules, entry);
    if ok {
      NotBlocked(modules, entry, emitted);
      var sources, mappings := builder.ToSourceMap();
      builder.AddLine(comment(sources, mappings));
      var content := builder.ToContent();
      bundle := Some(Served(content, sources, mappings));
    } else {
      bundle := None;
    }
  }

  /** The content served is the files of the modules in order, each with its last line
      ended, and one last line.
      When the modules have well-formed maps, the source map served says of each line of
      the content what the map of its module said: the meaning of the map is the meanings
      of the modules in the same order, and every module has the same lines in both. */
  lemma BundleMeaning(modules: map<nat, ModuleInfo>, entry: nat, emitted: seq<nat>,
                      comment: (seq<string>, seq<Byte>) -> seq<Byte>, r: Served)
    requires BundleOrder(modules, entry, emitted) && IsBundle(modules, emitted, comment, r)
    requires AllWellFormed(Sources(modules, emitted)) && TotalNames(Sources(modules, emitted)) <= TWO_30
    ensures forall k :: 0 <= k < |emitted| ==> StandsFor(Sources(modules, emitted)[k], modules[emitted[k]].file)
    ensures r.content == Contents(Sources(modules, emitted)) + comment(r.sources, r.mappings) + [NEWLINE]
    ensures exists b ::
              Means(b, MeaningOfAll(Sources(modules, emitted))) && b.mappings == r.mappings && b.sources == r.sources
    ensures forall k :: 0 <= k < |emitted| ==> SameLines(Sources(modules, emitted), k)
  {
    EmptyIsGood();
    var s := Sources(modules, emitted);
    forall k | 0 <= k < |emitted| ensures StandsFor(s[k], modules[emitted[k]].file) {
      var f := modules[emitted[k]].file;
      MakeSourceCounts(f.content, f.sources, f.mappings);
    }
    BuiltMeaning(s);
    AddAllContent(Build.EMPTY, s);
    assert [] + Contents(s) == Contents(s);
    forall k | 0 <= k < |emitted| ensures SameLines(s, k) { LinesAgree(s, k); }
  }

  lemma BuiltMeaning(s: seq<Build.Source>)
    requires AllWellFormed(s) && TotalNames(s) <= TWO_30
    ensures Build.AddAll(Build.EMPTY, s).Some? && Means(Build.AddAll(Build.EMPTY, s).value, MeaningOfAll(s))
  {
    EmptyIsGood();
    ConcatenationMeaning(Build.EMPTY, s, []);
    assert [] + MeaningOfAll(s) == MeaningOfAll(s);
  }

  /** Each module once and, without cycles, after everything it needs. */
  lemma BundleOrdered(modules: map<nat, ModuleInfo>, entry: nat, emitted: seq<nat>, j: nat, y: nat)
    requires BundleOrder(modules, entry, emitted) && Acyclic(DependsOn(modules)) && j < |emitted|
    ensures multiset(emitted)[emitted[j]] == 1
    ensures ReachesByEdge(DependsOn(modules), emitted[j], y) ==> y in emitted[..j]
  {
    var visited :| Walk(modules, visited, emitted);
    if ReachesByEdge(DependsOn(modules), emitted[j], y) {
      TransitiveDependenciesFirst(modules, visited, emitted, j, y);
    }
    OccursOnce(emitted, j);
  }

  lemma {:induction false} OccursOnce(s: seq<nat>, j: nat)
    requires j < |s| && forall i, k :: 0 <= i < k < |s| ==> s[i] != s[k]
    ensures multiset(s)[s[j]] == 1
  {
    assert s == s[..j] + [s[j]] + s[j + 1..];
    assert s[j] !in s[..j] && s[j] !in s[j + 1..];
  }
}
