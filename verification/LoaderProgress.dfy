/** The manager comes to rest: unless it is at rest it can go on by itself, and it cannot
    go on by itself for ever. */
module LoaderProgress {
  import opened Prelude
  import opened Graph
  import opened Sums
  import opened LoaderState
  import opened LoaderInvariant
  import opened LoaderPreservation

  /** What goes on without a new definition or a new load error. */
  predicate Internal(e: Event) { !e.Define? && !e.LoadError? }

  // ---------------------------------------------------------------- never stuck

  lemma ResolvingGoesOn(s: State, id: nat)
    requires Shape(s) && id in s.resolving
    ensures Enabled(s, ResolveNext(id)) || Enabled(s, FinishResolve(id))
  {
  }

  lemma PendingGoesOn(s: State, id: nat)
    requires Counting(s) && id in s.pending
    ensures Enabled(s, Decrement(id))
  {
    assert Owed(s, id) > 0;
  }

  lemma CallingGoesOn(s: State, id: nat)
    requires id in s.walks.calling
    ensures Enabled(s, QueueWaiting(id, set x | x in Waiters(s.inverse, id)))
  {
  }

  ghost predicate CanGoOn(s: State) { exists e :: Internal(e) && Enabled(s, e) }

  lemma CompletionGoesOn(s: State)
    requires Shape(s) && Once(s) && (s.ready != {} || s.running != {} || s.releasing != {})
    ensures CanGoOn(s)
  {
    if s.ready != {} {
      var id :| id in s.ready;
      assert Enabled(s, Begin(id)) && Internal(Begin(id));
    } else if s.running != {} {
      var id :| id in s.running;
      assert Complete(s, id);
      assert Enabled(s, EndFactory(id)) && Internal(EndFactory(id));
    } else {
      var id :| id in s.releasing;
      if Parked(s, id) == [] {
        assert Enabled(s, ReleasePlugins(id)) && Internal(ReleasePlugins(id));
      } else {
        assert Enabled(s, LoadParked(id)) && Internal(LoadParked(id));
      }
    }
  }

  lemma WalkGoesOn(s: State)
    requires Walking(s) && s.walks != NO_WALKS
    ensures CanGoOn(s)
  {
    if s.walks.calling != multiset{} {
      var id :| id in s.walks.calling;
      CallingGoesOn(s, id);
      var e := QueueWaiting(id, set x | x in Waiters(s.inverse, id));
      assert Internal(e) && Enabled(s, e);
    } else {
      var id :| id in s.walks.queued;
      assert Enabled(s, Notify(id)) && Internal(Notify(id));
    }
  }

  /** A manager that is not at rest can go on by itself. */
  lemma NeverStuck(s: State)
    requires Reachable(s)
    ensures Quiescent(s) || CanGoOn(s)
  {
    ReachableInv(s);
    if s.resolving != {} {
      var id :| id in s.resolving;
      ResolvingGoesOn(s, id);
      assert Internal(ResolveNext(id)) && Internal(FinishResolve(id));
    } else if s.pending != multiset{} {
      var id :| id in s.pending;
      PendingGoesOn(s, id);
      assert Internal(Decrement(id));
    } else if s.walks != NO_WALKS {
      WalkGoesOn(s);
    } else if !Quiescent(s) {
      CompletionGoesOn(s);
    }
  }

  /** Whatever a call in progress has to do for the id can be done next. */
  ghost predicate EachCanGoOn(s: State, id: nat) {
    && (id in s.resolving ==> Enabled(s, ResolveNext(id)) || Enabled(s, FinishResolve(id)))
    && (id in s.ready ==> Enabled(s, Begin(id)))
    && (id in s.running ==> Enabled(s, EndFactory(id)) && (Failed(s, id) || Enabled(s, Throw(id))))
    && (id in s.pending ==> Enabled(s, Decrement(id)))
    && (id in s.releasing ==> Enabled(s, LoadParked(id)) || Enabled(s, ReleasePlugins(id)))
    && (id in s.walks.queued ==> Enabled(s, Notify(id)))
    && (id in s.walks.calling ==> Enabled(s, QueueWaiting(id, set x | x in Waiters(s.inverse, id))))
  }

  lemma EachGoesOn(s: State, id: nat)
    requires Shape(s) && Counting(s) && Once(s) && Walking(s)
    ensures EachCanGoOn(s, id)
  {
    if id in s.resolving { ResolvingGoesOn(s, id); }
    if id in s.pending { PendingGoesOn(s, id); }
    FactoriesGoOn(s, id);
    WalksGoOn(s, id);
  }

  lemma FactoriesGoOn(s: State, id: nat)
    requires Shape(s) && Once(s)
    ensures id in s.ready ==> Enabled(s, Begin(id))
    ensures id in s.running ==> Enabled(s, EndFactory(id)) && (Failed(s, id) || Enabled(s, Throw(id)))
    ensures id in s.releasing ==> Enabled(s, LoadParked(id)) || Enabled(s, ReleasePlugins(id))
  {
    if id in s.running { assert Complete(s, id); }
  }

  lemma WalksGoOn(s: State, id: nat)
    requires Walking(s)
    ensures id in s.walks.queued ==> Enabled(s, Notify(id))
    ensures id in s.walks.calling ==> Enabled(s, QueueWaiting(id, set x | x in Waiters(s.inverse, id)))
  {
    if id in s.walks.calling { CallingGoesOn(s, id); }
  }

  /** All interleavings are runs: in every reachable state each call in progress can go on,
      whatever the others are doing, a module may be defined and a script may fail. */
  lemma AnyInterleaving(s: State, id: nat, deps: seq<Dependency>, errorback: bool, limit: nat)
    requires Reachable(s)
    ensures EachCanGoOn(s, id)
    ensures s.limit <= limit && id < limit && AllBelow(deps, limit) ==> Enabled(s, Define(id, deps, errorback, limit))
    ensures id < s.limit ==> Enabled(s, LoadError(id))
  {
    ReachableInv(s);
    EachGoesOn(s, id);
  }

  // ---------------------------------------------------------------- the measure

  /** What a resolution has left: its dependencies, and to return. */
  function Left(s: State, m: nat): nat {
    if m in s.declared && m in s.cursor && s.cursor[m] <= |s.declared[m]| then 1 + |s.declared[m]| - s.cursor[m] else 1
  }

  function Resolutions(s: State): map<nat, nat> { map m | m in s.resolving :: Left(s, m) }

  function Incomplete(modules: map<nat, Module>): set<nat> { set m | m in modules && !modules[m].complete }

  /** Factories that run and have not thrown. */
  function Sound(s: State): set<nat> { set m | m in s.running && !Failed(s, m) }

  function ParkedCounts(parked: map<nat, seq<Dependency>>): map<nat, nat> { map p | p in parked :: |parked[p]| }

  function Pow(k: nat, n: nat): nat { if n == 0 then 1 else k * Pow(k, n - 1) }

  /** The modules that wait for x, directly or not, and x. */
  ghost function Above(inverse: map<nat, seq<nat>>, ids: set<nat>, x: nat): set<nat> {
    set y | y in ids && Reaches(WaitEdges(inverse), y, x)
  }

  /** A bound for what a walk does after it comes to x. */
  ghost function Weight(inverse: map<nat, seq<nat>>, ids: set<nat>, x: nat): nat {
    Pow(2 * |ids| + 1, |Above(inverse, ids, x)|)
  }

  ghost function Weights(inverse: map<nat, seq<nat>>, ids: set<nat>, q: multiset<nat>): nat
    decreases |q|
  {
    if q == multiset{} then 0
    else
      var x :| x in q;
      Weight(inverse, ids, x) + Weights(inverse, ids, q - multiset{x})
  }

  ghost function Resolving(s: State): nat { Sum(Resolutions(s)) }
  ghost function Opened(s: State): nat { |Incomplete(s.modules)| }
  ghost function Running(s: State): nat { |s.running| + |Sound(s)| }
  ghost function Completing(s: State): nat {
    2 * |s.pending| + |s.ready| + |s.releasing| + Sum(ParkedCounts(s.parked))
  }
  ghost function Telling(s: State): nat {
    Weights(s.inverse, s.modules.Keys, s.walks.queued) + Weights(s.inverse, s.modules.Keys, s.walks.calling) +
    |s.walks.queued|
  }

  /** There is less to do: first by resolutions, then by incomplete modules, factories,
      completions and walks. */
  ghost predicate Less(t: State, s: State) {
    || Resolving(t) < Resolving(s)
    || (Resolving(t) == Resolving(s) &&
        (|| Opened(t) < Opened(s)
         || (Opened(t) == Opened(s) &&
             (|| Running(t) < Running(s)
              || (Running(t) == Running(s) &&
                  (|| Completing(t) < Completing(s)
                   || (Completing(t) == Completing(s) && Telling(t) < Telling(s))))))))
  }

  // ---------------------------------------------------------------- resolutions

  lemma ResolutionLess(s: State, t: State, id: nat)
    requires id in s.resolving && t.resolving - {id} == s.resolving - {id}
    requires forall m :: m in s.resolving && m != id ==> Left(t, m) == Left(s, m)
    requires id in t.resolving ==> Left(t, id) < Left(s, id)
    ensures Resolving(t) < Resolving(s)
  {
    forall m | m in t.resolving && m != id ensures m in s.resolving { assert m in t.resolving - {id}; }
    forall m | m in s.resolving && m != id ensures m in t.resolving { assert m in s.resolving - {id}; }
    assert Resolutions(s) - {id} == Resolutions(t) - {id};
    SumSmaller(Resolutions(s), Resolutions(t), id);
  }

  /** What one dependency does to the position and the resolutions. */
  lemma ResolveControl(s: State, t: State, id: nat)
    requires Enabled(s, ResolveNext(id)) && t == ResolveStep(s, id)
    ensures MovesOn(s, t, id) || GivesUp(s, t, id)
  {
    var dep := s.declared[id][s.cursor[id]];
    AdvanceControl(s, Advance(s, id, true), id);
    AbortControl(s, Abort(s, id), id);
    if !Special(dep) { WaitControl(s, Wait(s, id, dep), id, dep); }
  }

  ghost predicate MovesOn(s: State, t: State, id: nat) {
    && id in s.cursor && t.cursor == s.cursor[id := s.cursor[id] + 1]
    && t.resolving == s.resolving && t.declared == s.declared
  }

  ghost predicate GivesUp(s: State, t: State, id: nat) {
    t.cursor == s.cursor && t.resolving == s.resolving - {id} && t.declared == s.declared
  }

  lemma AdvanceControl(s: State, t: State, id: nat)
    requires id in s.modules && id in s.cursor && t == Advance(s, id, true)
    ensures forall b :: MovesOn(s, t.(broken := b), id)
    ensures MovesOn(s, t, id)
  {
  }

  lemma AbortControl(s: State, t: State, id: nat)
    requires id in s.modules && t == Abort(s, id)
    ensures GivesUp(s, t, id)
  {
  }

  lemma WaitControl(s: State, t: State, id: nat, dep: Dependency)
    requires id in s.modules && id in s.cursor && !Special(dep) && t == Wait(s, id, dep)
    ensures MovesOn(s, t, id)
  {
  }

  lemma ResolveLess(s: State, t: State, id: nat)
    requires Enabled(s, ResolveNext(id)) && t == ResolveStep(s, id)
    ensures Resolving(t) < Resolving(s)
  {
    ResolveControl(s, t, id);
    ResolutionLess(s, t, id);
  }

  lemma FinishLess(s: State, t: State, id: nat)
    requires Enabled(s, FinishResolve(id)) && t == FinishStep(s, id)
    ensures Resolving(t) < Resolving(s)
  {
    ResolutionLess(s, t, id);
  }

  /** All other events leave the resolutions alone. */
  ghost predicate SameResolutions(s: State, t: State) {
    t.resolving == s.resolving && t.cursor == s.cursor && t.declared == s.declared
  }

  lemma ResolvingSame(s: State, t: State)
    requires SameResolutions(s, t)
    ensures Resolving(t) == Resolving(s)
  {
    assert Resolutions(t) == Resolutions(s);
  }

  // ---------------------------------------------------------------- completions

  lemma SkipLess(s: State, t: State, id: nat)
    requires Enabled(s, Begin(id)) && s.modules[id].complete && t == BeginStep(s, id)
    ensures SameResolutions(s, t) && Opened(t) == Opened(s) && Running(t) == Running(s) && Completing(t) < Completing(s)
  {
    assert t.ready + {id} == s.ready;
    assert Sound(t) == Sound(s);
  }

  lemma BeginLess(s: State, t: State, id: nat)
    requires Enabled(s, Begin(id)) && !s.modules[id].complete && t == BeginStep(s, id)
    ensures SameResolutions(s, t) && Opened(t) < Opened(s)
  {
    assert Incomplete(t.modules) + {id} == Incomplete(s.modules);
  }

  lemma ThrowLess(s: State, t: State, id: nat)
    requires Enabled(s, Throw(id)) && t == ThrowStep(s, id)
    ensures SameResolutions(s, t) && Opened(t) == Opened(s) && Running(t) < Running(s)
  {
    assert Incomplete(t.modules) == Incomplete(s.modules);
    assert Sound(t) + {id} == Sound(s);
  }

  lemma EndLess(s: State, t: State, id: nat)
    requires Enabled(s, EndFactory(id)) && t == EndStep(s, id)
    ensures SameResolutions(s, t) && Opened(t) == Opened(s) && Running(t) < Running(s)
  {
    assert Incomplete(t.modules) == Incomplete(s.modules);
    assert t.running + {id} == s.running;
    assert Sound(t) == Sound(s) - {id};
  }

  lemma DecrementLess(s: State, t: State, id: nat)
    requires Enabled(s, Decrement(id)) && t == DecrementStep(s, id)
    ensures SameResolutions(s, t) && Opened(t) == Opened(s) && Running(t) == Running(s) && Completing(t) < Completing(s)
  {
    assert Incomplete(t.modules) == Incomplete(s.modules);
    assert Sound(t) == Sound(s);
    assert t.pending + multiset{id} == s.pending;
    assert |t.ready| <= |s.ready| + 1 by { assert t.ready <= s.ready + {id}; Subset(t.ready, s.ready + {id}); }
  }

  lemma {:induction false} Subset(a: set<nat>, b: set<nat>)
    requires a <= b
    ensures |a| <= |b|
  {
    assert b == a + (b - a);
  }

  lemma LoadParkedLess(s: State, t: State, id: nat)
    requires Enabled(s, LoadParked(id)) && t == LoadParkedStep(s, id)
    ensures SameResolutions(s, t) && Opened(t) == Opened(s) && Running(t) == Running(s) && Completing(t) < Completing(s)
  {
    assert Sound(t) == Sound(s);
    ParkedLess(s.parked, t.parked, id);
  }

  lemma ParkedLess(before: map<nat, seq<Dependency>>, after: map<nat, seq<Dependency>>, id: nat)
    requires id in before && before[id] != [] && after == before[id := before[id][1..]]
    ensures Sum(ParkedCounts(after)) < Sum(ParkedCounts(before))
  {
    var m, n := ParkedCounts(before), ParkedCounts(after);
    assert m - {id} == n - {id};
    SumSmaller(m, n, id);
  }

  lemma ReleaseLess(s: State, t: State, id: nat)
    requires Enabled(s, ReleasePlugins(id)) && t == ReleaseStep(s, id)
    ensures SameResolutions(s, t) && Opened(t) == Opened(s) && Running(t) == Running(s) && Completing(t) < Completing(s)
  {
    assert Sound(t) == Sound(s);
    assert t.releasing + {id} == s.releasing;
    var m, n := ParkedCounts(s.parked), ParkedCounts(t.parked);
    assert n == m - {id};
    if id in m { SumTake(m, id); } else { assert n == m; }
  }

  // ---------------------------------------------------------------- walks

  lemma WeightsPick(inverse: map<nat, seq<nat>>, ids: set<nat>, q: multiset<nat>) returns (x: nat)
    requires q != multiset{}
    ensures x in q && Weights(inverse, ids, q) == Weight(inverse, ids, x) + Weights(inverse, ids, q - multiset{x})
  {
    x :| x in q && Weights(inverse, ids, q) == Weight(inverse, ids, x) + Weights(inverse, ids, q - multiset{x});
  }

  lemma {:induction false} WeightsTake(inverse: map<nat, seq<nat>>, ids: set<nat>, q: multiset<nat>, x: nat)
    requires x in q
    ensures Weights(inverse, ids, q) == Weight(inverse, ids, x) + Weights(inverse, ids, q - multiset{x})
    decreases |q|
  {
    var y := WeightsPick(inverse, ids, q);
    if y != x {
      WeightsTake(inverse, ids, q - multiset{y}, x);
      WeightsTake(inverse, ids, q - multiset{x}, y);
      Exchange(q, x, y);
    }
  }

  lemma Exchange(q: multiset<nat>, x: nat, y: nat)
    ensures q - multiset{y} - multiset{x} == q - multiset{x} - multiset{y}
  {
  }

  lemma {:induction false} WeightsJoin(inverse: map<nat, seq<nat>>, ids: set<nat>, q: multiset<nat>, r: multiset<nat>)
    ensures Weights(inverse, ids, q + r) == Weights(inverse, ids, q) + Weights(inverse, ids, r)
    decreases |r|
  {
    if r == multiset{} {
      assert q + r == q;
    } else {
      var x :| x in r;
      WeightsTake(inverse, ids, r, x);
      WeightsTake(inverse, ids, q + r, x);
      assert (q + r) - multiset{x} == q + (r - multiset{x});
      WeightsJoin(inverse, ids, q, r - multiset{x});
    }
  }

  lemma {:induction false} PowGrows(k: nat, a: nat, b: nat)
    requires k > 0 && a <= b
    ensures 0 < Pow(k, a) <= Pow(k, b)
    decreases b
  {
    if a > 0 {
      PowGrows(k, a - 1, b - 1);
      Times(k, Pow(k, a - 1), Pow(k, b - 1));
    } else if b > 0 {
      PowGrows(k, a, b - 1);
      Times(k, 1, Pow(k, b - 1));
    }
  }

  lemma Times(k: nat, a: nat, b: nat)
    requires k > 0 && 0 < a <= b
    ensures 0 < k * a <= k * b && a <= k * a
  {
    assert k * b == k * a + k * (b - a);
    assert k * a == (k - 1) * a + a;
  }

  /** Who waits for x has fewer above it. */
  lemma FewerAbove(inverse: map<nat, seq<nat>>, ids: set<nat>, w: nat, x: nat)
    requires Acyclic(WaitEdges(inverse)) && x in ids && w in Waiters(inverse, x)
    ensures |Above(inverse, ids, w)| < |Above(inverse, ids, x)|
  {
    var g := WaitEdges(inverse);
    WaitEdgeIff(inverse, w, x);
    ReachesOne(g, w, x);
    ReachesSelf(g, x);
    var a, b := Above(inverse, ids, w), Above(inverse, ids, x);
    forall y | y in a ensures y in b { ReachesTrans(g, y, w, x); }
    if Reaches(g, x, w) { ReachesCons(g, w, x, w); }
    assert x in b && x !in a;
    Subset(a + {x}, b);
  }

  /** All waiters together weigh less than what they wait for. */
  lemma {:induction false} WaitersWeigh(inverse: map<nat, seq<nat>>, ids: set<nat>, more: set<nat>, x: nat, p: nat)
    requires Acyclic(WaitEdges(inverse)) && x in ids && |Above(inverse, ids, x)| > 0
    requires p == Pow(2 * |ids| + 1, |Above(inverse, ids, x)| - 1)
    requires forall w :: w in more ==> w in Waiters(inverse, x)
    ensures Weights(inverse, ids, multiset(more)) + |more| <= 2 * |more| * p
    decreases |more|
  {
    if more == {} {
      assert multiset(more) == multiset{};
    } else {
      var w :| w in more;
      var rest := more - {w};
      WaitersWeigh(inverse, ids, rest, x, p);
      WeightsTake(inverse, ids, multiset(more), w);
      assert multiset(more) - multiset{w} == multiset(rest);
      FewerAbove(inverse, ids, w, x);
      PowGrows(2 * |ids| + 1, |Above(inverse, ids, w)|, |Above(inverse, ids, x)| - 1);
      OneMore(|rest|, p);
    }
  }

  lemma OneMore(n: nat, p: nat)
    ensures 2 * (n + 1) * p == 2 * n * p + 2 * p
  {
  }

  lemma QueueWeighs(s: State, id: nat, more: set<nat>)
    requires Waiting(s) && id in s.modules && forall x :: x in more ==> x in Waiters(s.inverse, id)
    ensures Weights(s.inverse, s.modules.Keys, multiset(more)) + |more| < Weight(s.inverse, s.modules.Keys, id)
  {
    var inverse, ids := s.inverse, s.modules.Keys;
    ReachesSelf(WaitEdges(inverse), id);
    assert id in Above(inverse, ids, id);
    var n := |Above(inverse, ids, id)|;
    var p := Pow(2 * |ids| + 1, n - 1);
    WaitersWeigh(inverse, ids, more, id, p);
    PowGrows(2 * |ids| + 1, 0, n - 1);
    forall x | x in more ensures x in ids { WaitEdgeIff(inverse, x, id); assert (x, id) in DependencyEdges(s.modules); }
    Subset(more, ids);
    Outweighs(|more|, |ids|, p);
  }

  lemma QueueLess(s: State, t: State, id: nat, more: set<nat>)
    requires Waiting(s) && Walking(s) && Enabled(s, QueueWaiting(id, more)) && t == QueueStep(s, id, more)
    ensures Telling(t) < Telling(s)
  {
    var inverse, ids := s.inverse, s.modules.Keys;
    WeightsTake(inverse, ids, s.walks.calling, id);
    WeightsJoin(inverse, ids, s.walks.queued, multiset(more));
    QueueWeighs(s, id, more);
    assert |multiset(more)| == |more|;
  }

  lemma Outweighs(n: nat, m: nat, p: nat)
    requires n <= m && p > 0
    ensures 2 * n * p < (2 * m + 1) * p
  {
    assert (2 * m + 1) * p == 2 * n * p + 2 * (m - n) * p + p;
  }

  lemma NotifyLess(s: State, t: State, id: nat)
    requires Enabled(s, Notify(id)) && t == NotifyStep(s, id)
    ensures SameResolutions(s, t) && Running(t) <= Running(s) && Completing(t) == Completing(s)
    ensures if s.modules[id].complete then Opened(t) == Opened(s) else Opened(t) < Opened(s)
    ensures Telling(t) < Telling(s)
  {
    if s.modules[id].complete {
      assert Incomplete(t.modules) == Incomplete(s.modules);
    } else {
      assert Incomplete(t.modules) + {id} == Incomplete(s.modules);
    }
    assert Sound(t) <= Sound(s);
    Subset(Sound(t), Sound(s));
    NotifyTells(s, t, id);
  }

  lemma NotifyTells(s: State, t: State, id: nat)
    requires Enabled(s, Notify(id)) && t == NotifyStep(s, id)
    ensures Telling(t) < Telling(s)
  {
    var inverse, ids := s.inverse, s.modules.Keys;
    assert t.modules.Keys == ids;
    WeightsTake(inverse, ids, s.walks.queued, id);
    WeightsTake(inverse, ids, t.walks.calling, id);
    assert t.walks.calling - multiset{id} == s.walks.calling;
  }

  // ---------------------------------------------------------------- all events

  lemma CompletionLess(s: State, t: State, e: Event)
    requires Enabled(s, e) && OfCompletion(e) && t == Apply(s, e)
    ensures Less(t, s)
  {
    match e {
      case Begin(id) => if s.modules[id].complete { SkipLess(s, t, id); } else { BeginLess(s, t, id); }
      case Throw(id) => ThrowLess(s, t, id);
      case EndFactory(id) => EndLess(s, t, id);
      case Decrement(id) => DecrementLess(s, t, id);
      case LoadParked(id) => LoadParkedLess(s, t, id);
      case ReleasePlugins(id) => ReleaseLess(s, t, id);
    }
    ResolvingSame(s, t);
  }

  lemma WalkLess(s: State, t: State, e: Event)
    requires Waiting(s) && Walking(s) && Enabled(s, e) && (e.Notify? || e.QueueWaiting?) && t == Apply(s, e)
    ensures Less(t, s)
  {
    if e.Notify? {
      NotifyLess(s, t, e.id);
    } else {
      QueueLess(s, t, e.id, e.more);
      assert Sound(t) == Sound(s);
    }
    ResolvingSame(s, t);
  }

  /** Every internal event leaves less to do. */
  lemma InternalLess(s: State, t: State, e: Event)
    requires Inv(s) && Internal(e) && Enabled(s, e) && t == Apply(s, e)
    ensures Less(t, s)
  {
    if OfCompletion(e) {
      CompletionLess(s, t, e);
    } else if OfWalk(e) {
      WalkLess(s, t, e);
    } else if e.ResolveNext? {
      ResolveLess(s, t, e.id);
    } else {
      FinishLess(s, t, e.id);
    }
  }

  /** The states run(n), run(n + 1), ... follow each other by internal events. */
  ghost predicate GoesOnFrom(run: nat -> State, events: nat -> Event, n: nat) {
    forall i: nat :: i >= n ==>
      Internal(events(i)) && Enabled(run(i), events(i)) && run(i + 1) == Apply(run(i), events(i))
  }

  lemma {:induction false} NotForEver(run: nat -> State, events: nat -> Event, n: nat)
    requires Inv(run(n)) && GoesOnFrom(run, events, n)
    ensures false
    decreases Resolving(run(n)), Opened(run(n)), Running(run(n)), Completing(run(n)), Telling(run(n))
  {
    var s, e := run(n), events(n);
    assert Internal(e) && Enabled(s, e) && run(n + 1) == Apply(s, e);
    InternalLess(s, run(n + 1), e);
    EventKeeps(s, e);
    NotForEver(run, events, n + 1);
  }

  /** Left alone, the manager comes to rest: whatever the order of its events, it cannot
      go on for ever, and where it cannot go on it is at rest. */
  lemma ComesToRest(run: nat -> State, events: nat -> Event)
    requires Reachable(run(0))
    ensures !GoesOnFrom(run, events, 0)
    ensures forall s :: Leads(run(0), s) && !CanGoOn(s) ==> Quiescent(s)
  {
    ReachableInv(run(0));
    if GoesOnFrom(run, events, 0) { NotForEver(run, events, 0); }
    forall s | Leads(run(0), s) && !CanGoOn(s) ensures Quiescent(s) {
      LeadsTrans(Initial(), run(0), s);
      NeverStuck(s);
    }
  }
}
