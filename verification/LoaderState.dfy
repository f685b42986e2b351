/** The AMD module manager as a transition system.

    A state holds the tables of the manager (modules, inverse dependencies, known
    ids, parked plugin dependencies), what the calls in progress still have to do
    (control), and what has happened so far (history).  Each event is one piece of
    `_resolve`, `_onModuleComplete`, `_loadPluginDependency` or `_onLoadError` that
    runs without giving control away: factories, plugins and error handlers are called
    between two of them.  Events of different calls may interleave in any way, which
    covers factories, plugins, error handlers and script loads that call back into the
    manager. */
module LoaderState {
  import opened Prelude
  import opened Graph

  /** A normalised dependency.  The first three are the singleton objects with the
      ids 0, 1 and 2; a `Regular` may carry any id, also one of these. */
  datatype Dependency =
    | Exports
    | SelfModule
    | Require
    | Regular(id: nat)
    | Plugin(id: nat, pluginId: nat)

  predicate Special(d: Dependency) {
    d.Exports? || d.SelfModule? || d.Require?
  }

  function Target(d: Dependency): nat {
    match d
    case Exports => 0
    case SelfModule => 1
    case Require => 2
    case Regular(id) => id
    case Plugin(id, _) => id
  }

  predicate Below(d: Dependency, limit: nat) {
    Target(d) < limit && (d.Plugin? ==> d.pluginId < limit)
  }

  ghost predicate AllBelow(deps: seq<Dependency>, limit: nat) {
    forall i :: 0 <= i < |deps| ==> Below(deps[i], limit)
  }

  /** `deps` is cleared by a normal completion; `count` is
      `unresolvedDependenciesCount`; `failed` says that `error` is set and
      `errorback` that there is an error callback to call. */
  datatype Module = Module(
    deps: Option<seq<Dependency>>,
    count: int,
    complete: bool,
    failed: bool,
    errorback: bool)

  /** A new module waits for all its dependencies. */
  function NewModule(deps: seq<Dependency>, errorback: bool): Module {
    Module(Some(deps), |deps|, false, false, errorback)
  }

  /** One dependency less to wait for. */
  function CountedDown(m: Module): Module {
    m.(count := m.count - 1)
  }

  /** `onDependencyError`. */
  function WithError(m: Module): Module {
    m.(complete := true, failed := true)
  }

  /** The end of `complete`. */
  function Cleared(m: Module): Module {
    m.(deps := None, errorback := false)
  }

  /** The walks of `_onLoadError` in progress, taken together: ids in their queues, and
      ids whose error callback is being called, before their waiters are queued. */
  datatype Walks = Walks(queued: multiset<nat>, calling: multiset<nat>)

  const NO_WALKS := Walks(multiset{}, multiset{})

  datatype State = State(
    // the tables of the manager
    limit: nat,                          // next id to be given out
    modules: map<nat, Module>,
    inverse: map<nat, seq<nat>>,
    known: set<nat>,
    parked: map<nat, seq<Dependency>>,   // plugin dependencies waiting for their plugin
    // control
    cursor: map<nat, nat>,               // position of each module's _resolve loop
    resolving: set<nat>,                 // modules whose _resolve has not returned
    ready: set<nat>,                     // _onModuleComplete called, not entered yet
    running: set<nat>,                   // factory started, _onModuleComplete not resumed
    pending: multiset<nat>,              // decrements the cascades still owe
    releasing: set<nat>,                 // parked plugin dependencies not fetched yet
    walks: Walks,                        // load errors not told to everybody yet
    // history
    declared: map<nat, seq<Dependency>>, // dependencies each module was defined with
    runs: seq<nat>,                      // factories in the order they were started
    broken: set<(nat, nat)>,             // dependencies skipped to break a cycle
    aborted: set<nat>)                   // modules whose _resolve met a failed dependency

  const FIRST_FREE_ID: nat := 3

  function Initial(): State {
    State(FIRST_FREE_ID, map[], map[], {}, map[], map[], {}, {}, {}, multiset{}, {}, NO_WALKS, map[], [], {}, {})
  }

  predicate Complete(s: State, m: nat) {
    m in s.modules && s.modules[m].complete
  }

  predicate Failed(s: State, m: nat) {
    m in s.modules && s.modules[m].failed
  }

  function Waiters(inverse: map<nat, seq<nat>>, d: nat): seq<nat> {
    if d in inverse then inverse[d] else []
  }

  function Parked(s: State, p: nat): seq<Dependency> {
    if p in s.parked then s.parked[p] else []
  }

  /** The edges `_hasDependencyPath` follows: from defined modules whose
      dependencies are not cleared to everything they depend on. */
  function DependencyEdges(modules: map<nat, Module>): Edges {
    set m, i | m in modules && modules[m].deps.Some? && 0 <= i < |modules[m].deps.value|
      :: (m, Target(modules[m].deps.value[i]))
  }

  /** Everything that was ever declared. */
  function DeclaredEdges(declared: map<nat, seq<Dependency>>): Edges {
    set m, i | m in declared && 0 <= i < |declared[m]| :: (m, Target(declared[m][i]))
  }

  /** (m, d) when m is listed as waiting for d. */
  function WaitEdges(inverse: map<nat, seq<nat>>): Edges {
    set d, i | d in inverse && 0 <= i < |inverse[d]| :: (inverse[d][i], d)
  }

  /** (d, p) when resource d is parked until plugin p completes. */
  function ParkedEdges(parked: map<nat, seq<Dependency>>): Edges {
    set p, i | p in parked && 0 <= i < |parked[p]| :: (Target(parked[p][i]), p)
  }

  /** How often m is listed as waiting for one of the ids below n. */
  ghost function Listed(inverse: map<nat, seq<nat>>, n: nat, m: nat): nat {
    if n == 0 then 0 else Listed(inverse, n - 1, m) + multiset(Waiters(inverse, n - 1))[m]
  }

  /** How many decrements m is owed: its entries in all inverse lists and the ones
      a cascade has already fetched. */
  ghost function Owed(s: State, m: nat): nat {
    Listed(s.inverse, s.limit, m) + s.pending[m]
  }

  // ---------------------------------------------------------------- events

  datatype Event =
    | Define(id: nat, deps: seq<Dependency>, errorback: bool, limit: nat)
    | ResolveNext(id: nat)
    | FinishResolve(id: nat)
    | Begin(id: nat)
    | Throw(id: nat)
    | EndFactory(id: nat)
    | Decrement(id: nat)
    | LoadParked(id: nat)
    | ReleasePlugins(id: nat)
    | LoadError(id: nat)
    | Notify(id: nat)
    | QueueWaiting(id: nat, more: set<nat>)

  ghost predicate Enabled(s: State, e: Event) {
    match e
    case Define(id, deps, _, limit) =>
      s.limit <= limit && id < limit && AllBelow(deps, limit)
    case ResolveNext(id) =>
      id in s.resolving && id in s.cursor && id in s.declared && id in s.modules &&
      s.cursor[id] < |s.declared[id]|
    case FinishResolve(id) =>
      id in s.resolving && id in s.cursor && id in s.declared && id in s.modules &&
      s.cursor[id] == |s.declared[id]|
    case Begin(id) => id in s.ready && id in s.modules
    case Throw(id) => id in s.running && id in s.modules && !s.modules[id].failed
    case EndFactory(id) => id in s.running && id in s.modules
    case Decrement(id) => id in s.pending && id in s.modules
    case LoadParked(id) => id in s.releasing && Parked(s, id) != []
    case ReleasePlugins(id) => id in s.releasing && Parked(s, id) == []
    case LoadError(id) => id < s.limit
    case Notify(id) => id in s.walks.queued && id in s.modules
    case QueueWaiting(id, more) => id in s.walks.calling && NewlyQueued(s, id, more)
  }

  /** What a walk may put in its queue: waiters of the id, all but those it has seen,
      which are in its queue or have failed. */
  ghost predicate NewlyQueued(s: State, id: nat, more: set<nat>) {
    && (forall x :: x in more ==> x in Waiters(s.inverse, id))
    && (forall x :: x in Waiters(s.inverse, id) ==> x in more || x in s.walks.queued || Failed(s, x))
  }

  /** `defineModule`: a second definition of the same id is ignored. */
  function DefineStep(s: State, id: nat, deps: seq<Dependency>, errorback: bool, limit: nat): State {
    if id in s.modules then s.(limit := limit)
    else s.(limit := limit,
            modules := s.modules[id := NewModule(deps, errorback)],
            cursor := s.cursor[id := 0],
            resolving := s.resolving + {id},
            declared := s.declared[id := deps])
  }

  /** `_loadModule`, `_loadPluginDependency`: ask for an id once. */
  function Request(s: State, id: nat): State {
    if id in s.modules then s else s.(known := s.known + {id})
  }

  /** One dependency counted as resolved. */
  function Advance(s: State, id: nat, decrement: bool): State
    requires id in s.modules && id in s.cursor
  {
    s.(modules := s.modules[id := if decrement then CountedDown(s.modules[id]) else s.modules[id]],
       cursor := s.cursor[id := s.cursor[id] + 1])
  }

  /** `onDependencyError` inside `_resolve`, which then returns. */
  function Abort(s: State, id: nat): State
    requires id in s.modules
  {
    s.(modules := s.modules[id := WithError(s.modules[id])],
       resolving := s.resolving - {id},
       aborted := s.aborted + {id})
  }

  /** Record the inverse dependency and ask for the module, or for its plugin. */
  function Wait(s: State, id: nat, dep: Dependency): State
    requires id in s.modules && id in s.cursor
    requires !Special(dep)
  {
    var d := Target(dep);
    var s1 := Advance(s, id, false).(inverse := s.inverse[d := Waiters(s.inverse, d) + [id]]);
    if dep.Plugin? && !Complete(s, dep.pluginId) then
      Request(s1.(parked := s.parked[dep.pluginId := Parked(s, dep.pluginId) + [dep]]), dep.pluginId)
    else
      Request(s1, d)
  }

  ghost function ResolveStep(s: State, id: nat): State
    requires Enabled(s, ResolveNext(id))
  {
    var dep := s.declared[id][s.cursor[id]];
    var d := Target(dep);
    if Special(dep) then Advance(s, id, true)
    else if Complete(s, d) then
      if Failed(s, d) then Abort(s, id) else Advance(s, id, true)
    else if ReachesByEdge(DependencyEdges(s.modules), d, id) then
      Advance(s, id, true).(broken := s.broken + {(id, d)})
    else Wait(s, id, dep)
  }

  function FinishStep(s: State, id: nat): State
    requires id in s.modules
  {
    s.(resolving := s.resolving - {id},
       ready := if s.modules[id].count == 0 then s.ready + {id} else s.ready)
  }

  /** Entry of `_onModuleComplete`: nothing if already complete, otherwise the
      module is flagged and its factory starts. */
  function BeginStep(s: State, id: nat): State
    requires id in s.modules
  {
    if s.modules[id].complete then s.(ready := s.ready - {id})
    else s.(ready := s.ready - {id},
            modules := s.modules[id := s.modules[id].(complete := true)],
            running := s.running + {id},
            runs := s.runs + [id])
  }

  /** The factory threw: the error is set, and then reported by a call. */
  function ThrowStep(s: State, id: nat): State
    requires id in s.modules
  {
    s.(modules := s.modules[id := s.modules[id].(failed := true)])
  }

  /** After the factory: clear the module, fetch and clear its inverse list. */
  function EndStep(s: State, id: nat): State
    requires id in s.modules
  {
    s.(modules := s.modules[id := Cleared(s.modules[id])],
       running := s.running - {id},
       pending := s.pending + multiset(Waiters(s.inverse, id)),
       inverse := s.inverse - {id},
       releasing := s.releasing + {id})
  }

  function DecrementStep(s: State, id: nat): State
    requires id in s.modules
  {
    var m := CountedDown(s.modules[id]);
    s.(modules := s.modules[id := m],
       pending := s.pending - multiset{id},
       ready := if m.count == 0 then s.ready + {id} else s.ready)
  }

  /** Ask the complete plugin for the next resource parked at it. */
  function LoadParkedStep(s: State, id: nat): State
    requires Parked(s, id) != []
  {
    Request(s.(parked := s.parked[id := s.parked[id][1..]]), Target(s.parked[id][0]))
  }

  /** None is left.  Nothing reads the list of a complete plugin, so it makes no
      difference that the program removes it before it asks for the resources. */
  function ReleaseStep(s: State, id: nat): State {
    s.(parked := s.parked - {id}, releasing := s.releasing - {id})
  }

  /** A script that failed to load is given an empty module. */
  function EnsureModule(s: State, id: nat): State {
    if id in s.modules then s
    else s.(modules := s.modules[id := NewModule([], false)],
            cursor := s.cursor[id := 0],
            declared := s.declared[id := []])
  }

  /** The failed id and everything that waits for it, directly or not. */
  ghost predicate Affected(inverse: map<nat, seq<nat>>, id: nat, m: nat) {
    Reaches(WaitEdges(inverse), m, id)
  }

  ghost function MarkFailed(modules: map<nat, Module>, inverse: map<nat, seq<nat>>, id: nat): map<nat, Module> {
    map m | m in modules ::
      if Affected(inverse, id, m) then WithError(modules[m]) else modules[m]
  }

  /** `onDependencyError` up to the call of the error callback. */
  function Fail(s: State, id: nat): State
    requires id in s.modules
  {
    s.(modules := s.modules[id := WithError(s.modules[id])],
       walks := s.walks.(calling := s.walks.calling + multiset{id}))
  }

  /** `_onLoadError` up to its first error callback. */
  function LoadErrorStep(s: State, id: nat): State {
    Fail(EnsureModule(s, id), id)
  }

  /** The next element of the queue. */
  function NotifyStep(s: State, id: nat): State
    requires id in s.modules
  {
    Fail(s.(walks := s.walks.(queued := s.walks.queued - multiset{id})), id)
  }

  /** After the error callback: queue the waiters not seen before. */
  function QueueStep(s: State, id: nat, more: set<nat>): State {
    s.(walks := Walks(s.walks.queued + multiset(more), s.walks.calling - multiset{id}))
  }

  /** The end of a walk during which nothing calls back. */
  ghost function WholeWalk(s: State, id: nat): State {
    var s1 := EnsureModule(s, id);
    s1.(modules := MarkFailed(s1.modules, s.inverse, id))
  }

  ghost function Apply(s: State, e: Event): State
    requires Enabled(s, e)
  {
    match e
    case Define(id, deps, errorback, limit) => DefineStep(s, id, deps, errorback, limit)
    case ResolveNext(id) => ResolveStep(s, id)
    case FinishResolve(id) => FinishStep(s, id)
    case Begin(id) => BeginStep(s, id)
    case Throw(id) => ThrowStep(s, id)
    case EndFactory(id) => EndStep(s, id)
    case Decrement(id) => DecrementStep(s, id)
    case LoadParked(id) => LoadParkedStep(s, id)
    case ReleasePlugins(id) => ReleaseStep(s, id)
    case LoadError(id) => LoadErrorStep(s, id)
    case Notify(id) => NotifyStep(s, id)
    case QueueWaiting(id, more) => QueueStep(s, id, more)
  }

  ghost predicate Step(s: State, t: State) {
    exists e :: Enabled(s, e) && t == Apply(s, e)
  }

  /** A run is a sequence of states, each a step from the one before. */
  ghost predicate IsRun(r: seq<State>) {
    |r| >= 1 && forall i :: 0 <= i < |r| - 1 ==> Step(r[i], r[i + 1])
  }

  ghost predicate Leads(s: State, t: State) {
    exists r :: IsRun(r) && r[0] == s && r[|r| - 1] == t
  }

  ghost predicate Reachable(s: State) {
    Leads(Initial(), s)
  }

  lemma LeadsSelf(s: State)
    ensures Leads(s, s)
  {
    assert IsRun([s]);
  }

  lemma LeadsStep(s: State, t: State, e: Event)
    requires Leads(s, t) && Enabled(t, e)
    ensures Leads(s, Apply(t, e))
  {
    var r :| IsRun(r) && r[0] == s && r[|r| - 1] == t;
    var q := r + [Apply(t, e)];
    forall i | 0 <= i < |q| - 1 ensures Step(q[i], q[i + 1]) {
      if i < |r| - 1 { assert Step(r[i], r[i + 1]); } else { assert q[i] == t; }
    }
    assert IsRun(q);
  }

  lemma LeadsTrans(s: State, t: State, u: State)
    requires Leads(s, t) && Leads(t, u)
    ensures Leads(s, u)
  {
    var r :| IsRun(r) && r[0] == s && r[|r| - 1] == t;
    var q :| IsRun(q) && q[0] == t && q[|q| - 1] == u;
    var w := r + q[1..];
    forall i | 0 <= i < |w| - 1 ensures Step(w[i], w[i + 1]) {
      if i < |r| - 1 {
        assert Step(r[i], r[i + 1]);
      } else {
        assert Step(q[i - (|r| - 1)], q[i - (|r| - 1) + 1]);
      }
    }
    assert IsRun(w);
  }

  /** Nothing is left to do: no call is in progress. */
  predicate Quiescent(s: State) {
    s.resolving == {} && s.ready == {} && s.running == {} && s.pending == multiset{} && s.releasing == {} &&
    s.walks == NO_WALKS
  }
}
