/** What the tables of the module manager owe to the calls that were made: which
    definition of a module counts, what is asked for, and why a module fails. */
module LoaderHistory {
  import opened Prelude
  import opened Graph
  import opened LoaderState
  import opened LoaderInvariant
  import opened LoaderPreservation
  import opened LoaderTheorems

  /** A run from the start with its events. */
  ghost predicate History(states: seq<State>, events: seq<Event>) {
    && |states| == |events| + 1 && states[0] == Initial()
    && forall i :: 0 <= i < |events| ==> Enabled(states[i], events[i]) && states[i + 1] == Apply(states[i], events[i])
  }

  lemma {:induction false} HistoryReaches(states: seq<State>, events: seq<Event>, n: nat)
    requires History(states, events) && n <= |events|
    ensures Reachable(states[n])
  {
    if n == 0 {
      LeadsSelf(Initial());
    } else {
      HistoryReaches(states, events, n - 1);
      LeadsStep(Initial(), states[n - 1], events[n - 1]);
    }
  }

  /** Every reachable state has a history. */
  lemma HasHistory(s: State) returns (states: seq<State>, events: seq<Event>)
    requires Reachable(s)
    ensures History(states, events) && states[|events|] == s
  {
    states :| IsRun(states) && states[0] == Initial() && states[|states| - 1] == s;
    events := EventsOf(states);
  }

  lemma {:induction false} EventsOf(states: seq<State>) returns (events: seq<Event>)
    requires IsRun(states) && states[0] == Initial()
    ensures History(states, events)
    decreases |states|
  {
    if |states| == 1 {
      events := [];
    } else {
      var k := |states| - 1;
      assert IsRun(states[..k]);
      var before := EventsOf(states[..k]);
      assert Step(states[k - 1], states[k]);
      var e :| Enabled(states[k - 1], e) && states[k] == Apply(states[k - 1], e);
      events := before + [e];
      forall i | 0 <= i < |events|
        ensures Enabled(states[i], events[i]) && states[i + 1] == Apply(states[i], events[i])
      {
        if i < k - 1 { assert states[..k][i] == states[i] && states[..k][i + 1] == states[i + 1]; }
      }
    }
  }

  // ---------------------------------------------------------------- definitions

  datatype Definition = Definition(deps: seq<Dependency>, errorback: bool)

  /** What the event would define the module as. */
  function DefinedBy(e: Event, m: nat): Option<Definition> {
    match e
    case Define(id, deps, errorback, _) => if id == m then Some(Definition(deps, errorback)) else None
    case LoadError(id) => if id == m then Some(Definition([], false)) else None
    case _ => None
  }

  /** The first definition counts; a script that does not load defines an empty module. */
  function FirstDefinition(events: seq<Event>, n: nat, m: nat): Option<Definition>
    requires n <= |events|
  {
    if n == 0 then None
    else
      var before := FirstDefinition(events, n - 1, m);
      if before.Some? then before else DefinedBy(events[n - 1], m)
  }

  /** The module is in the tables as defined.  Its dependencies and its error callback
      are forgotten together. */
  ghost predicate InTables(s: State, m: nat, d: Definition) {
    && m in s.modules && m in s.declared && s.declared[m] == d.deps
    && (s.modules[m].deps.None? || s.modules[m].deps.value == d.deps)
    && s.modules[m].errorback == (d.errorback && s.modules[m].deps.Some?)
  }

  ghost predicate AsDefined(s: State, m: nat, d: Option<Definition>) {
    if d.None? then m !in s.modules && m !in s.declared else InTables(s, m, d.value)
  }

  /** Of the modules one changes at most: it is no less complete or failed, and keeps its
      dependencies and its error callback, or loses both. */
  ghost predicate Updates(s: State, t: State, id: nat) {
    && t.declared == s.declared && id in s.modules && id in t.modules
    && t.modules == s.modules[id := t.modules[id]]
    && var x, y := s.modules[id], t.modules[id];
       && ((y.deps == x.deps && y.errorback == x.errorback) || (y.deps.None? && !y.errorback))
       && (x.complete ==> y.complete) && (x.failed ==> y.failed)
  }

  lemma UpdateKeepsDefinition(s: State, t: State, id: nat, m: nat, d: Option<Definition>)
    requires AsDefined(s, m, d) && Updates(s, t, id)
    ensures AsDefined(t, m, d)
  {
  }

  lemma CompletionUpdates(s: State, t: State, e: Event)
    requires Enabled(s, e) && t == Apply(s, e) && (e.Begin? || e.Throw? || e.EndFactory?)
    ensures Updates(s, t, e.id)
  {
  }

  lemma CountUpdates(s: State, t: State, e: Event)
    requires Enabled(s, e) && t == Apply(s, e) && (e.Decrement? || e.Notify?)
    ensures Updates(s, t, e.id)
  {
  }

  /** The events that change no module. */
  predicate Elsewhere(e: Event) {
    e.FinishResolve? || e.LoadParked? || e.ReleasePlugins? || e.QueueWaiting?
  }

  lemma ElsewhereKeeps(s: State, t: State, e: Event)
    requires Enabled(s, e) && t == Apply(s, e) && Elsewhere(e)
    ensures t.declared == s.declared && t.modules == s.modules
  {
  }

  lemma ResolveUpdates(s: State, t: State, id: nat)
    requires Enabled(s, ResolveNext(id)) && t == ResolveStep(s, id)
    ensures Updates(s, t, id)
  {
    ResolveModules(s, t, id);
    assert Abort(s, id).modules[id].failed;
  }

  lemma EventUpdates(s: State, t: State, e: Event)
    requires Enabled(s, e) && t == Apply(s, e) && !e.Define? && !e.LoadError? && !Elsewhere(e)
    ensures Updates(s, t, e.id)
  {
    if e.ResolveNext? { ResolveUpdates(s, t, e.id); }
    else if e.Decrement? || e.Notify? { CountUpdates(s, t, e); }
    else { CompletionUpdates(s, t, e); }
  }

  /** A new module, or none. */
  lemma NewKeepsDefinition(s: State, t: State, e: Event, m: nat, d: Option<Definition>)
    requires AsDefined(s, m, d) && Enabled(s, e) && t == Apply(s, e) && (e.Define? || e.LoadError?)
    ensures AsDefined(t, m, if d.Some? then d else DefinedBy(e, m))
  {
  }

  lemma EventKeepsDefinition(s: State, t: State, e: Event, m: nat, d: Option<Definition>)
    requires AsDefined(s, m, d) && Enabled(s, e) && t == Apply(s, e)
    ensures AsDefined(t, m, if d.Some? then d else DefinedBy(e, m))
  {
    if e.Define? || e.LoadError? {
      NewKeepsDefinition(s, t, e, m, d);
    } else if Elsewhere(e) {
      ElsewhereKeeps(s, t, e);
    } else {
      EventUpdates(s, t, e);
      UpdateKeepsDefinition(s, t, e.id, m, d);
    }
  }

  /** In every state of every run a module is defined exactly when a definition or a load
      error came for it, and as the first of these says. */
  lemma {:induction false} FirstDefinitionCounts(states: seq<State>, events: seq<Event>, n: nat, m: nat)
    requires History(states, events) && n <= |events|
    ensures AsDefined(states[n], m, FirstDefinition(events, n, m))
  {
    if n > 0 {
      FirstDefinitionCounts(states, events, n - 1, m);
      EventKeepsDefinition(states[n - 1], states[n], events[n - 1], m, FirstDefinition(events, n - 1, m));
    }
  }

  /** A definition stays, whatever follows. */
  lemma DefinitionStays(s: State, t: State, m: nat, d: Definition)
    requires InTables(s, m, d) && Leads(s, t)
    ensures InTables(t, m, d)
  {
    var r :| IsRun(r) && r[0] == s && r[|r| - 1] == t;
    forall u: State, e: Event | InTables(u, m, d) && Enabled(u, e) ensures InTables(Apply(u, e), m, d) {
      EventKeepsDefinition(u, Apply(u, e), e, m, Some(d));
    }
    RunInduction(r, (u: State) => InTables(u, m, d));
  }

  // ---------------------------------------------------------------- clearing

  /** A module is cleared exactly when its factory has run and returned. */
  ghost predicate ClearedRight(s: State, m: nat) {
    m in s.modules ==> (s.modules[m].deps.None? <==> m in s.runs && m !in s.running)
  }

  lemma BeginClears(s: State, t: State, id: nat, m: nat)
    requires ClearedRight(s, m) && id in s.modules && t == BeginStep(s, id)
    requires id in s.runs ==> s.modules[id].complete
    ensures ClearedRight(t, m)
  {
  }

  lemma EndClears(s: State, t: State, id: nat, m: nat)
    requires ClearedRight(s, m) && id in s.modules && id in s.runs && t == EndStep(s, id)
    ensures ClearedRight(t, m)
  {
  }

  lemma NewIsNotCleared(s: State, t: State, e: Event, m: nat)
    requires Once(s) && ClearedRight(s, m) && Enabled(s, e) && t == Apply(s, e) && (e.Define? || e.LoadError?)
    ensures ClearedRight(t, m)
  {
    if m !in s.modules { assert !Complete(s, m); }
  }

  lemma OthersKeepDeps(s: State, t: State, e: Event, m: nat)
    requires Enabled(s, e) && t == Apply(s, e) && (e.Throw? || e.Decrement? || e.Notify? || Elsewhere(e))
    ensures m in t.modules ==> m in s.modules && t.modules[m].deps == s.modules[m].deps
    ensures t.runs == s.runs && t.running == s.running
  {
  }

  lemma ClearedStep(s: State, t: State, e: Event, m: nat)
    requires Once(s) && ClearedRight(s, m) && Enabled(s, e) && t == Apply(s, e)
    ensures ClearedRight(t, m)
  {
    if e.Begin? {
      assert e.id in s.runs ==> Complete(s, e.id);
      BeginClears(s, t, e.id, m);
    } else if e.EndFactory? {
      EndClears(s, t, e.id, m);
    } else if e.Define? || e.LoadError? {
      NewIsNotCleared(s, t, e, m);
    } else if e.ResolveNext? {
      ResolveModules(s, t, e.id);
    } else {
      OthersKeepDeps(s, t, e, m);
    }
  }

  /** In every reachable state the dependencies and the error callback of a module are
      forgotten exactly when its factory has run and returned. */
  lemma ClearedIff(s: State, m: nat)
    requires Reachable(s) && m in s.modules
    ensures s.modules[m].deps.None? <==> m in s.runs && m !in s.running
  {
    var r :| IsRun(r) && r[0] == Initial() && r[|r| - 1] == s;
    forall u: State, e: Event | (Reachable(u) && ClearedRight(u, m)) && Enabled(u, e)
      ensures Reachable(Apply(u, e)) && ClearedRight(Apply(u, e), m)
    {
      LeadsStep(Initial(), u, e);
      ReachableOnce(u);
      ClearedStep(u, Apply(u, e), e, m);
    }
    LeadsSelf(Initial());
    RunInduction(r, (u: State) => Reachable(u) && ClearedRight(u, m));
  }

  // ---------------------------------------------------------------- what is asked for

  /** The id is defined, or was asked for, or is parked at a plugin for which the same
      holds. */
  ghost predicate Asked(s: State, d: nat) {
    d in s.modules || d in s.known || exists p :: AskedAt(s, p, d)
  }

  ghost predicate AskedAt(s: State, p: nat, d: nat) {
    p in s.parked && (exists i :: 0 <= i < |s.parked[p]| && Target(s.parked[p][i]) == d) &&
    (p in s.modules || p in s.known)
  }

  ghost predicate AllAsked(s: State, deps: seq<Dependency>) {
    forall i :: 0 <= i < |deps| && !Special(deps[i]) ==> Asked(s, Target(deps[i]))
  }

  lemma WaitedIsAsked(s: State, d: nat)
    requires Requested(s) && Waiters(s.inverse, d) != []
    ensures Asked(s, d)
  {
    if d !in s.modules && d !in s.known {
      assert IsParked(s, d);
      var p, i :| p in s.parked && 0 <= i < |s.parked[p]| && Target(s.parked[p][i]) == d;
      assert Parked(s, p) != [];
      assert AskedAt(s, p, d);
    }
  }

  lemma CutIsDefined(s: State, m: nat, d: nat)
    requires Shape(s) && Cuts(s) && (m, d) in s.broken
    ensures d in s.modules
  {
    var y := ReachesFirst(DeclaredEdges(s.declared), d, m);
    assert d in s.declared;
  }

  lemma SettledIsAsked(s: State, m: nat, d: nat)
    requires Shape(s) && Cuts(s) && Requested(s) && Once(s) && LoaderInvariant.Settled(s, m, d)
    ensures Asked(s, d)
  {
    if (m, d) in s.broken { CutIsDefined(s, m, d); }
    else if d !in s.runs { WaitedIsAsked(s, d); }
  }

  /** Once a resolution is over, everything it depends on is defined or asked for,
      unless it gave up. */
  lemma ResolvedAsks(s: State, m: nat)
    requires Reachable(s) && m in s.modules && m !in s.resolving && m !in s.aborted
    ensures m in s.declared && AllAsked(s, s.declared[m])
  {
    ReachableInv(s);
    var deps := s.declared[m];
    forall i | 0 <= i < |deps| && !Special(deps[i]) ensures Asked(s, Target(deps[i])) {
      assert IsExamined(s, m, i);
      SettledIsAsked(s, m, Target(deps[i]));
    }
  }

  /** The dependency is a reason to ask for the id: a module, the plugin of a resource,
      or a resource whose plugin is complete. */
  predicate Wants(s: State, dep: Dependency, d: nat) {
    match dep
    case Regular(id) => id == d
    case Plugin(id, pluginId) => pluginId == d || (id == d && Complete(s, pluginId))
    case _ => false
  }

  ghost predicate IsWanted(s: State, d: nat) {
    exists m, i :: m in s.declared && 0 <= i < |s.declared[m]| && Wants(s, s.declared[m][i], d)
  }

  ghost predicate OnlyWanted(s: State) {
    forall d :: d in s.known ==> IsWanted(s, d)
  }

  /** Nothing declared is forgotten and nothing complete becomes incomplete. */
  ghost predicate Grows(s: State, t: State) {
    && (forall m :: m in s.declared ==> m in t.declared && t.declared[m] == s.declared[m])
    && (forall m :: Complete(s, m) ==> Complete(t, m))
    && (forall m :: Failed(s, m) ==> Failed(t, m))
  }

  lemma WantedStays(s: State, t: State, d: nat)
    requires IsWanted(s, d) && Grows(s, t)
    ensures IsWanted(t, d)
  {
    var m, i :| m in s.declared && 0 <= i < |s.declared[m]| && Wants(s, s.declared[m][i], d);
    assert Wants(t, t.declared[m][i], d);
  }

  lemma UpdateGrows(s: State, t: State, id: nat)
    requires Updates(s, t, id)
    ensures Grows(s, t)
  {
  }

  lemma EventGrows(s: State, t: State, e: Event)
    requires Enabled(s, e) && t == Apply(s, e) && forall m :: m in s.declared ==> m in s.modules
    ensures Grows(s, t)
  {
    if e.Define? {
      DefineGrows(s, t, e);
    } else if e.LoadError? {
      LoadErrorGrows(s, t, e);
    } else if Elsewhere(e) {
      ElsewhereKeeps(s, t, e);
    } else {
      EventUpdates(s, t, e);
      UpdateGrows(s, t, e.id);
    }
  }

  lemma DefineGrows(s: State, t: State, e: Event)
    requires Enabled(s, e) && t == Apply(s, e) && e.Define? && forall m :: m in s.declared ==> m in s.modules
    ensures Grows(s, t)
  {
  }

  lemma LoadErrorGrows(s: State, t: State, e: Event)
    requires Enabled(s, e) && t == Apply(s, e) && e.LoadError? && forall m :: m in s.declared ==> m in s.modules
    ensures Grows(s, t)
  {
  }

  /** An id is asked for only while it is undefined: when a dependency is examined, and
      when a parked resource is fetched. */
  lemma AsksWhen(s: State, t: State, e: Event, d: nat)
    requires Enabled(s, e) && t == Apply(s, e) && d in t.known && d !in s.known
    ensures d !in s.modules
    ensures || (e.ResolveNext? && Wants(s, s.declared[e.id][s.cursor[e.id]], d))
            || (e.LoadParked? && d == Target(s.parked[e.id][0]))
  {
    if e.ResolveNext? { ResolveAsks(s, t, e.id, d); }
  }

  lemma ResolveAsks(s: State, t: State, id: nat, d: nat)
    requires Enabled(s, ResolveNext(id)) && t == ResolveStep(s, id) && d in t.known && d !in s.known
    ensures d !in s.modules && Wants(s, s.declared[id][s.cursor[id]], d)
  {
    var dep := s.declared[id][s.cursor[id]];
    OnlyWaitAsks(s, t, id, dep);
    WaitAsks(s, t, id, dep, d);
  }

  lemma OnlyWaitAsks(s: State, t: State, id: nat, dep: Dependency)
    requires Enabled(s, ResolveNext(id)) && t == ResolveStep(s, id) && dep == s.declared[id][s.cursor[id]]
    ensures t.known == s.known || (!Special(dep) && t == Wait(s, id, dep))
  {
  }

  lemma WaitAsks(s: State, t: State, id: nat, dep: Dependency, d: nat)
    requires id in s.modules && id in s.cursor && !Special(dep) && t == Wait(s, id, dep)
    requires d in t.known && d !in s.known
    ensures d !in s.modules && Wants(s, dep, d)
  {
  }

  lemma ParkedIsWanted(s: State, id: nat)
    requires Reachable(s) && id in s.releasing && Parked(s, id) != []
    ensures IsWanted(s, Target(s.parked[id][0]))
  {
    var d := Target(s.parked[id][0]);
    ReachableParkedDeclared(s);
    ReachableOnce(s);
    assert (d, id) in ParkedEdges(s.parked);
    var m, i :| && m in s.declared && 0 <= i < |s.declared[m]| && s.declared[m][i].Plugin?
                && (s.declared[m][i].id, s.declared[m][i].pluginId) == (d, id);
    assert Wants(s, s.declared[m][i], d);
  }

  lemma OnlyWantedKept(s: State, t: State, e: Event)
    requires Reachable(s) && OnlyWanted(s) && Enabled(s, e) && t == Apply(s, e)
    ensures OnlyWanted(t)
  {
    ReachableDeclared(s);
    EventGrows(s, t, e);
    forall d | d in t.known ensures IsWanted(t, d) {
      if d !in s.known {
        AsksWhen(s, t, e, d);
        if e.LoadParked? { ParkedIsWanted(s, e.id); }
      }
      WantedStays(s, t, d);
    }
  }

  lemma ReachableDeclared(s: State)
    requires Reachable(s)
    ensures forall m :: m in s.declared ==> m in s.modules
  {
    ReachableInv(s);
  }

  /** In every reachable state an id was asked for only for a reason: some module
      declares it, or a resource of it, or it is a declared resource and its plugin is
      complete. */
  lemma AskedForAReason(s: State, d: nat)
    requires Reachable(s) && d in s.known
    ensures IsWanted(s, d)
  {
    var r :| IsRun(r) && r[0] == Initial() && r[|r| - 1] == s;
    forall u: State, e: Event | (Reachable(u) && OnlyWanted(u)) && Enabled(u, e)
      ensures Reachable(Apply(u, e)) && OnlyWanted(Apply(u, e))
    {
      LeadsStep(Initial(), u, e);
      OnlyWantedKept(u, Apply(u, e), e);
    }
    LeadsSelf(Initial());
    RunInduction(r, (u: State) => Reachable(u) && OnlyWanted(u));
  }

  // ---------------------------------------------------------------- why modules fail

  /** The module has a dependency that failed. */
  ghost predicate MetFailure(s: State, m: nat) {
    m in s.declared &&
    exists i :: 0 <= i < |s.declared[m]| && !Special(s.declared[m][i]) && Failed(s, Target(s.declared[m][i]))
  }

  ghost predicate GivesUpRightly(s: State) {
    forall m :: m in s.aborted ==> MetFailure(s, m)
  }

  lemma MetFailureStays(s: State, t: State, m: nat)
    requires MetFailure(s, m) && Grows(s, t)
    ensures MetFailure(t, m)
  {
    var i :| 0 <= i < |s.declared[m]| && !Special(s.declared[m][i]) && Failed(s, Target(s.declared[m][i]));
    assert Failed(t, Target(t.declared[m][i]));
  }

  lemma AbortsWhen(s: State, t: State, e: Event, m: nat)
    requires Enabled(s, e) && t == Apply(s, e) && m in t.aborted && m !in s.aborted
    ensures MetFailure(s, m)
  {
    if e.ResolveNext? { ResolveAborts(s, t, e.id, m); }
  }

  lemma ResolveAborts(s: State, t: State, id: nat, m: nat)
    requires Enabled(s, ResolveNext(id)) && t == ResolveStep(s, id) && m in t.aborted && m !in s.aborted
    ensures MetFailure(s, m)
  {
    ResolveModules(s, t, id);
    if t == Abort(s, id) { ResolveMeets(s, t, id); }
  }

  lemma ResolveMeets(s: State, t: State, id: nat)
    requires Enabled(s, ResolveNext(id)) && t == ResolveStep(s, id) && t == Abort(s, id)
    ensures MetFailure(s, id)
  {
    var dep := s.declared[id][s.cursor[id]];
    assert t.cursor[id] == s.cursor[id];
    assert !Special(dep) && Failed(s, Target(dep));
  }

  lemma GivesUpKept(s: State, t: State, e: Event)
    requires Reachable(s) && GivesUpRightly(s) && Enabled(s, e) && t == Apply(s, e)
    ensures GivesUpRightly(t)
  {
    ReachableDeclared(s);
    EventGrows(s, t, e);
    forall m | m in t.aborted ensures MetFailure(t, m) {
      if m !in s.aborted { AbortsWhen(s, t, e, m); }
      MetFailureStays(s, t, m);
    }
  }

  /** A resolution gives up only on a dependency that failed. */
  lemma GivesUpOnFailure(s: State, m: nat)
    requires Reachable(s) && m in s.aborted
    ensures MetFailure(s, m)
  {
    var r :| IsRun(r) && r[0] == Initial() && r[|r| - 1] == s;
    forall u: State, e: Event | (Reachable(u) && GivesUpRightly(u)) && Enabled(u, e)
      ensures Reachable(Apply(u, e)) && GivesUpRightly(Apply(u, e))
    {
      LeadsStep(Initial(), u, e);
      GivesUpKept(u, Apply(u, e), e);
    }
    LeadsSelf(Initial());
    RunInduction(r, (u: State) => Reachable(u) && GivesUpRightly(u));
  }

  /** The ids that failed by themselves: their script did not load or their factory threw. */
  function Causes(events: seq<Event>, n: nat): set<nat>
    requires n <= |events|
  {
    if n == 0 then {}
    else
      var e := events[n - 1];
      if e.LoadError? || e.Throw? then Causes(events, n - 1) + {e.id} else Causes(events, n - 1)
  }

  /** The module needs one of the ids, directly or not, or is one of them. */
  ghost predicate Needs(declared: map<nat, seq<Dependency>>, m: nat, causes: set<nat>) {
    exists r :: r in causes && Reaches(DeclaredEdges(declared), m, r)
  }

  /** The module failed, or a walk is about to fail it or tell its waiters. */
  predicate Failing(s: State, m: nat) {
    Failed(s, m) || m in s.walks.queued || m in s.walks.calling
  }

  ghost predicate AllCaused(s: State, causes: set<nat>) {
    forall m :: Failing(s, m) ==> Needs(s.declared, m, causes)
  }

  lemma NeedsMore(s: State, t: State, m: nat, causes: set<nat>, more: set<nat>)
    requires Needs(s.declared, m, causes) && causes <= more && Grows(s, t)
    ensures Needs(t.declared, m, more)
  {
    var g, h := DeclaredEdges(s.declared), DeclaredEdges(t.declared);
    var r :| r in causes && Reaches(g, m, r);
    forall x, y | (x, y) in g ensures (x, y) in h {
      var i :| 0 <= i < |s.declared[x]| && y == Target(s.declared[x][i]);
      assert (x, Target(t.declared[x][i])) in h;
    }
    ReachesMono(g, h, m, r);
  }

  lemma NeedsThrough(declared: map<nat, seq<Dependency>>, m: nat, d: nat, causes: set<nat>)
    requires (m, d) in DeclaredEdges(declared) && Needs(declared, d, causes)
    ensures Needs(declared, m, causes)
  {
    var r :| r in causes && Reaches(DeclaredEdges(declared), d, r);
    ReachesCons(DeclaredEdges(declared), m, d, r);
  }

  /** How a module comes to fail. */
  lemma FailsWhen(s: State, t: State, e: Event, m: nat)
    requires Enabled(s, e) && t == Apply(s, e) && Failing(t, m) && !Failing(s, m)
    ensures || ((e.LoadError? || e.Throw?) && m == e.id)
            || (e.ResolveNext? && MetFailure(s, m))
            || (e.QueueWaiting? && e.id in s.walks.calling && m in Waiters(s.inverse, e.id))
  {
    if e.ResolveNext? { ResolveFails(s, t, e.id, m); }
    else if e.LoadError? || e.Throw? || e.Notify? { FailsHere(s, t, e, m); }
    else if e.QueueWaiting? { QueueFails(s, t, e, m); }
    else { NothingFails(s, t, e, m); }
  }

  lemma FailsHere(s: State, t: State, e: Event, m: nat)
    requires Enabled(s, e) && t == Apply(s, e) && (e.LoadError? || e.Throw? || e.Notify?)
    ensures Failing(t, m) ==> Failing(s, m) || m == e.id
    ensures e.Notify? ==> Failing(s, e.id)
  {
  }

  lemma QueueFails(s: State, t: State, e: Event, m: nat)
    requires Enabled(s, e) && t == Apply(s, e) && e.QueueWaiting?
    ensures Failing(t, m) ==> Failing(s, m) || m in Waiters(s.inverse, e.id)
  {
  }

  lemma NothingFails(s: State, t: State, e: Event, m: nat)
    requires Enabled(s, e) && t == Apply(s, e)
    requires !e.ResolveNext? && !e.LoadError? && !e.Throw? && !e.Notify? && !e.QueueWaiting?
    ensures Failing(t, m) ==> Failing(s, m)
  {
    if Elsewhere(e) {
      ElsewhereKeeps(s, t, e);
      SameWalks(s, t, e);
    } else if e.Define? || e.Decrement? {
      CountingFailsNothing(s, t, e, m);
    } else if e.Begin? {
      BeginFailsNothing(s, t, e.id, m);
    } else {
      EndFailsNothing(s, t, e.id, m);
    }
  }

  lemma SameWalks(s: State, t: State, e: Event)
    requires Enabled(s, e) && t == Apply(s, e) && Elsewhere(e) && !e.QueueWaiting?
    ensures t.walks == s.walks
  {
  }

  lemma CountingFailsNothing(s: State, t: State, e: Event, m: nat)
    requires Enabled(s, e) && t == Apply(s, e) && (e.Define? || e.Decrement?)
    ensures Failing(t, m) ==> Failing(s, m)
  {
  }

  lemma BeginFailsNothing(s: State, t: State, id: nat, m: nat)
    requires id in s.modules && t == BeginStep(s, id)
    ensures Failing(t, m) ==> Failing(s, m)
  {
  }

  lemma EndFailsNothing(s: State, t: State, id: nat, m: nat)
    requires id in s.modules && t == EndStep(s, id)
    ensures Failing(t, m) ==> Failing(s, m)
  {
  }

  lemma ResolveFails(s: State, t: State, id: nat, m: nat)
    requires Enabled(s, ResolveNext(id)) && t == ResolveStep(s, id) && Failing(t, m) && !Failing(s, m)
    ensures MetFailure(s, m)
  {
    ResolveModules(s, t, id);
    if t == Abort(s, id) { ResolveMeets(s, t, id); }
  }

  lemma CausedStep(s: State, t: State, e: Event, m: nat, causes: set<nat>, more: set<nat>)
    requires Reachable(s) && AllCaused(s, causes) && Enabled(s, e) && t == Apply(s, e) && Failing(t, m)
    requires Grows(s, t) && more == if e.LoadError? || e.Throw? then causes + {e.id} else causes
    ensures Needs(t.declared, m, more)
  {
    if Failing(s, m) {
      NeedsMore(s, t, m, causes, more);
    } else {
      FailsWhen(s, t, e, m);
      if e.LoadError? || e.Throw? {
        ReachesSelf(DeclaredEdges(t.declared), m);
        assert m in more;
      } else {
        if e.ResolveNext? { MetFailureNeeds(s, m, causes); } else { WaiterNeeds(s, m, e.id, causes); }
        NeedsMore(s, t, m, causes, more);
      }
    }
  }

  lemma MetFailureNeeds(s: State, m: nat, causes: set<nat>)
    requires MetFailure(s, m) && AllCaused(s, causes)
    ensures Needs(s.declared, m, causes)
  {
    var i :| 0 <= i < |s.declared[m]| && !Special(s.declared[m][i]) && Failed(s, Target(s.declared[m][i]));
    assert Failing(s, Target(s.declared[m][i]));
    NeedsThrough(s.declared, m, Target(s.declared[m][i]), causes);
  }

  lemma WaiterNeeds(s: State, m: nat, d: nat, causes: set<nat>)
    requires Reachable(s) && AllCaused(s, causes) && d in s.walks.calling && m in Waiters(s.inverse, d)
    ensures Needs(s.declared, m, causes)
  {
    WaiterDeclares(s, m, d);
    assert Failing(s, d);
    NeedsThrough(s.declared, m, d, causes);
  }

  lemma WaiterDeclares(s: State, m: nat, d: nat)
    requires Reachable(s) && m in Waiters(s.inverse, d)
    ensures (m, d) in DeclaredEdges(s.declared)
  {
    ReachableInv(s);
    WaitEdgeIff(s.inverse, m, d);
    DependencyEdgesDeclared(s);
  }

  lemma {:induction false} HistoryCaused(states: seq<State>, events: seq<Event>, n: nat)
    requires History(states, events) && n <= |events|
    ensures AllCaused(states[n], Causes(events, n))
  {
    if n > 0 {
      var s, t, e := states[n - 1], states[n], events[n - 1];
      HistoryCaused(states, events, n - 1);
      HistoryReaches(states, events, n - 1);
      ReachableDeclared(s);
      EventGrows(s, t, e);
      forall m | Failing(t, m) ensures Needs(t.declared, m, Causes(events, n)) {
        CausedStep(s, t, e, m, Causes(events, n - 1), Causes(events, n));
      }
    }
  }

  /** What failed by itself has failed for good. */
  lemma {:induction false} CausesFailed(states: seq<State>, events: seq<Event>, n: nat, r: nat)
    requires History(states, events) && n <= |events| && r in Causes(events, n)
    ensures Failed(states[n], r)
  {
    var s, t, e := states[n - 1], states[n], events[n - 1];
    if r in Causes(events, n - 1) {
      CausesFailed(states, events, n - 1, r);
      HistoryReaches(states, events, n - 1);
      ReachableDeclared(s);
      EventGrows(s, t, e);
    } else {
      CauseFails(s, t, e);
    }
  }

  lemma CauseFails(s: State, t: State, e: Event)
    requires Enabled(s, e) && t == Apply(s, e) && (e.LoadError? || e.Throw?)
    ensures Failed(t, e.id)
  {
  }

  /** No module fails without a cause: in every state of every run the modules whose
      script did not load or whose factory threw have failed, and every other one that
      failed needs one of these, directly or not. */
  lemma FailureHasCause(states: seq<State>, events: seq<Event>, n: nat, m: nat)
    requires History(states, events) && n <= |events|
    ensures m in Causes(events, n) ==> Failed(states[n], m)
    ensures Failed(states[n], m) ==>
              exists r :: r in Causes(events, n) && Reaches(DeclaredEdges(states[n].declared), m, r)
  {
    HistoryCaused(states, events, n);
    if Failed(states[n], m) { assert Failing(states[n], m); }
    if m in Causes(events, n) { CausesFailed(states, events, n, m); }
  }

  // ---------------------------------------------------------------- a module whose resolution is over

  /** Each dependency that is not special ran before the factory at the position, or was
      cut off. */
  ghost predicate AllBefore(s: State, j: nat, deps: seq<Dependency>)
    requires j < |s.runs|
  {
    forall i :: 0 <= i < |deps| && !Special(deps[i]) ==> Ordered(s, j, Target(deps[i]))
  }

  /** What the dependencies mean for a module: if its factory ran, it ran after them;
      they are defined or asked for, unless its resolution gave up, and then one of them
      failed. */
  ghost predicate Resolved(s: State, m: nat, deps: seq<Dependency>) {
    && (forall j :: 0 <= j < |s.runs| && s.runs[j] == m ==> AllBefore(s, j, deps))
    && (m !in s.aborted ==> AllAsked(s, deps))
    && (m in s.aborted ==> MetFailure(s, m))
  }

  lemma RanAfterThem(s: State, j: nat)
    requires Reachable(s) && j < |s.runs|
    ensures s.runs[j] in s.declared && AllBefore(s, j, s.declared[s.runs[j]])
  {
    FactoriesInOrder(s);
  }

  lemma ResolutionOver(s: State, m: nat)
    requires Reachable(s) && m in s.modules && m in s.declared && m !in s.resolving
    ensures Resolved(s, m, s.declared[m])
  {
    forall j | 0 <= j < |s.runs| && s.runs[j] == m ensures AllBefore(s, j, s.declared[m]) { RanAfterThem(s, j); }
    if m in s.aborted { GivesUpOnFailure(s, m); } else { ResolvedAsks(s, m); }
  }
}
