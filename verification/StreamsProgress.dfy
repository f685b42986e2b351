/** The stream writer comes to rest, and what goes wrong when an id is used again too
    early. */
module StreamsProgress {
  import opened Prelude
  import opened Streams
  import opened StreamsProof
  import opened StreamsHistory
  import opened StreamsTheorems
  import opened Sums

  // ---------------------------------------------------------------- the measure

  function Weight(q: seq<Bytes>): nat {
    if q == [] then 0 else |q[0]| + 1 + Weight(q[1..])
  }

  function PhaseWeight(p: Phase): (w: nat) {
    match p case Writing => 3 case AtLock => 2 case Closing => 1
  }

  /** What is left to do for a task: its items, its phase, and the queue of its stream. */
  function Left(streams: map<nat, Record>, k: Task): nat {
    Weight(k.items) + PhaseWeight(k.phase) + if Active(k) && k.id in streams then 3 * Weight(streams[k.id].q) else 0
  }

  function Work(s: State): map<nat, nat> {
    map t | t in s.tasks :: Left(s.streams, s.tasks[t])
  }

  ghost function Total(s: State): nat { Sum(Work(s)) + |s.removers| }

  /** No other task works for the same stream. */
  ghost predicate Alone(s: State, task: nat)
    requires task in s.tasks
  {
    s.tasks[task].id in s.streams ==> forall u :: Serves(s, u, s.tasks[task].id) ==> u == task
  }

  lemma IsAlone(s: State, task: nat)
    requires Inv(s) && task in s.tasks && Active(s.tasks[task])
    ensures Alone(s, task) && (s.tasks[task].phase != Writing ==> s.tasks[task].items == [])
  {
    var place: map<Half, Place> :| InvWith(s, place);
    assert HalfOk(s, place, s.tasks[task].w);
    var id := s.tasks[task].id;
    if id in s.streams {
      forall u | Serves(s, u, id) ensures u == task {
        ServerHas(s, place, u, id);
        ServerHas(s, place, task, id);
      }
    }
  }

  /** The section under the lock leaves the work of the other tasks as it was. */
  lemma OthersSame(s: State, t: State, task: nat, u: nat)
    requires InPhase(s, task, AtLock) && Alone(s, task) && t == LockStep(s, task) && u in s.tasks && u != task
    ensures u in t.tasks && Left(t.streams, t.tasks[u]) == Left(s.streams, s.tasks[u])
  {
    if Active(s.tasks[u]) && s.tasks[u].id == s.tasks[task].id { assert Serves(s, u, s.tasks[u].id); }
  }

  lemma LockLess(s: State, t: State, task: nat)
    requires InPhase(s, task, AtLock) && s.tasks[task].items == [] && t == LockStep(s, task)
    ensures t.removers == s.removers && t.tasks.Keys - {task} == s.tasks.Keys - {task}
    ensures task in t.tasks ==> Left(t.streams, t.tasks[task]) < Left(s.streams, s.tasks[task])
  {
  }

  /** A step of a task that leaves it less to do, and nobody else more. */
  ghost predicate DoesSome(s: State, t: State, task: nat) {
    && task in s.tasks && task in t.tasks && t.streams == s.streams && t.removers == s.removers
    && t.tasks == s.tasks[task := t.tasks[task]] && Left(s.streams, t.tasks[task]) < Left(s.streams, s.tasks[task])
  }

  lemma SendLess(s: State, t: State, task: nat, count: nat)
    requires Possible(s, Send(task, count)) && t == SendStep(s, task, count)
    ensures DoesSome(s, t, task)
  {
    assert t.tasks[task].items[1..] == s.tasks[task].items[1..];
  }

  lemma NextLess(s: State, t: State, task: nat)
    requires Possible(s, Next(task)) && t == Apply(s, Next(task))
    ensures DoesSome(s, t, task)
  {
  }

  lemma TurnLess(s: State, t: State, task: nat)
    requires Possible(s, Turn(task)) && t == Apply(s, Turn(task))
    ensures DoesSome(s, t, task)
  {
  }

  lemma FailLess(s: State, t: State, task: nat)
    requires Possible(s, Fail(task)) && t == FailStep(s, task)
    ensures DoesSome(s, t, task)
  {
  }

  lemma WorkLess(s: State, t: State, task: nat)
    requires task in s.tasks && t.tasks.Keys - {task} == s.tasks.Keys - {task}
    requires forall u :: u in s.tasks && u != task ==>
               u in t.tasks && Left(t.streams, t.tasks[u]) == Left(s.streams, s.tasks[u])
    requires task in t.tasks ==> Left(t.streams, t.tasks[task]) < Left(s.streams, s.tasks[task])
    ensures Sum(Work(t)) < Sum(Work(s))
  {
    assert Work(s) - {task} == Work(t) - {task} by {
      forall u | u in t.tasks && u != task ensures u in s.tasks { assert u in t.tasks.Keys - {task}; }
    }
    SumSmaller(Work(s), Work(t), task);
  }

  lemma LockTotal(s: State, t: State, task: nat)
    requires Inv(s) && InPhase(s, task, AtLock) && t == LockStep(s, task)
    ensures Total(t) < Total(s)
  {
    IsAlone(s, task);
    LockLess(s, t, task);
    forall u | u in s.tasks && u != task
      ensures u in t.tasks && Left(t.streams, t.tasks[u]) == Left(s.streams, s.tasks[u])
    {
      OthersSame(s, t, task, u);
    }
    WorkLess(s, t, task);
  }

  lemma DoesSomeTotal(s: State, t: State, task: nat)
    requires DoesSome(s, t, task)
    ensures Total(t) < Total(s)
  {
    WorkLess(s, t, task);
  }

  lemma ShutTotal(s: State, t: State, e: Event)
    requires (e.ShutByTask? || e.ShutByRemover?) && Possible(s, e) && t == Apply(s, e)
    ensures Total(t) < Total(s)
  {
    if e.ShutByTask? {
      WorkLess(s, t, e.task);
    } else {
      assert t.removers + {e.half} == s.removers;
      assert Work(t) == Work(s);
    }
  }

  /** Every internal step leaves less to do. */
  lemma InternalLess(s: State, t: State, e: Event)
    requires Inv(s) && Internal(e) && Possible(s, e) && t == Apply(s, e)
    ensures Total(t) < Total(s)
  {
    match e {
      case Lock(task) => LockTotal(s, t, task);
      case Send(task, count) => SendLess(s, t, task, count); DoesSomeTotal(s, t, task);
      case Next(task) => NextLess(s, t, task); DoesSomeTotal(s, t, task);
      case Turn(task) => TurnLess(s, t, task); DoesSomeTotal(s, t, task);
      case Fail(task) => FailLess(s, t, task); DoesSomeTotal(s, t, task);
      case _ => ShutTotal(s, t, e);
    }
  }

  /** Unless at rest, there is such a step, or a half that failed makes a write fail. */
  lemma NotStuck(s: State) returns (e: Event)
    requires Inv(s) && !Quiescent(s)
    ensures Internal(e) && Possible(s, e)
    ensures e.Fail? ==> s.tasks[e.task].w in s.failed
  {
    if s.removers != {} {
      var h :| h in s.removers;
      e := ShutByRemover(h);
    } else {
      var t :| t in s.tasks;
      e := TaskGoesOn(s, t);
    }
  }

  /** What a writing task may do next. */
  predicate ByTask(e: Event, task: nat) {
    match e
    case Lock(t) => t == task
    case Send(t, _) => t == task
    case Next(t) => t == task
    case Turn(t) => t == task
    case Fail(t) => t == task
    case ShutByTask(t) => t == task
    case _ => false
  }

  /** All interleavings are runs: in every reachable state each task and each call of
      `remove` can take its next step, whatever the others are doing; buffers may be
      written and streams removed at any time, and inserted under unused ids. */
  lemma AnyInterleaving(s: State, task: nat)
    requires Reachable(s)
    ensures task in s.tasks ==> exists e :: ByTask(e, task) && Possible(s, e)
    ensures task !in s.tasks ==> forall id, buf :: Legal(s, Write(id, buf, task))
    ensures forall id :: Legal(s, Remove(id))
    ensures forall id, half :: half !in s.accepted && Unused(s, id) ==> Legal(s, Insert(id, half))
    ensures forall half :: half in s.removers ==> Possible(s, ShutByRemover(half))
  {
    ReachableInv(s);
    if task in s.tasks { var e := TaskGoesOn(s, task); }
  }

  lemma TaskGoesOn(s: State, t: nat) returns (e: Event)
    requires Inv(s) && t in s.tasks
    ensures ByTask(e, t) && Internal(e) && Possible(s, e) && (e.Fail? ==> s.tasks[t].w in s.failed)
  {
    var place: map<Half, Place> :| InvWith(s, place);
    var k := s.tasks[t];
    assert HalfOk(s, place, k.w);
    e := match k.phase
      case AtLock => Lock(t)
      case Closing => ShutByTask(t)
      case Writing =>
        if k.items == [] then Turn(t)
        else if k.items[0] == [] then Next(t)
        else if k.w in s.failed then Fail(t)
        else Send(t, |k.items[0]|);
  }

  ghost predicate InternalRun(states: seq<State>, events: seq<Event>) {
    IsRun(states, events) && forall i :: 0 <= i < |events| ==> Internal(events[i])
  }

  /** Left alone, the module takes a bounded number of steps. */
  lemma {:induction false} Bounded(states: seq<State>, events: seq<Event>)
    requires InternalRun(states, events) && Inv(states[0])
    ensures |events| + Total(states[|events|]) <= Total(states[0])
    decreases |events|
  {
    if events != [] {
      var n := |events| - 1;
      assert IsRun(states[..n + 1], events[..n]);
      Bounded(states[..n + 1], events[..n]);
      RunInv(states, events, n);
      InternalLess(states[n], states[n + 1], events[n]);
    }
  }

  ghost predicate SameStreams(s: State, t: State) {
    t.streams.Keys == s.streams.Keys && forall id :: id in s.streams ==> t.streams[id].owner == s.streams[id].owner
  }

  /** What the module does by itself neither adds nor removes streams. */
  lemma InternalKeeps(s: State, t: State, e: Event)
    requires Internal(e) && Possible(s, e) && t == Apply(s, e)
    ensures SameStreams(s, t) && t.accepted == s.accepted
    ensures e.Fail? || t.failed == s.failed
  {
  }

  ghost predicate Rests(states: seq<State>, events: seq<Event>, s: State) {
    && InternalRun(states, events) && states[0] == s && Quiescent(states[|events|])
    && states[|events|].failed == s.failed && SameStreams(s, states[|events|])
    && states[|events|].accepted == s.accepted
  }

  /** Left alone, the module comes to rest. */
  ghost predicate CanRest(s: State) { exists states, events :: Rests(states, events, s) }

  lemma RestsNow(s: State)
    requires Quiescent(s)
    ensures CanRest(s)
  {
    assert Rests([s], [], s);
  }

  lemma RestsFirst(s: State, t: State, e: Event)
    requires Internal(e) && Possible(s, e) && t == Apply(s, e) && t.failed == s.failed && CanRest(t)
    ensures CanRest(s)
  {
    InternalKeeps(s, t, e);
    var states, events :| Rests(states, events, t);
    RunFirst(s, t, e, states, events);
    assert Rests([s] + states, [e] + events, s);
  }

  lemma RunFirst(s: State, t: State, e: Event, states: seq<State>, events: seq<Event>)
    requires Internal(e) && Possible(s, e) && t == Apply(s, e) && InternalRun(states, events) && states[0] == t
    ensures InternalRun([s] + states, [e] + events)
    ensures ([s] + states)[|[e] + events|] == states[|events|]
  {
  }

  /** From every reachable state the module comes to rest by itself, with no failure
      on a half that had none. */
  lemma {:induction false} ComesToRest(s: State)
    requires Inv(s)
    ensures CanRest(s)
    decreases Total(s)
  {
    if Quiescent(s) {
      RestsNow(s);
    } else {
      var e, t := GoesOn(s);
      ComesToRest(t);
      RestsFirst(s, t, e);
    }
  }

  /** The second run goes on where the first ends, with what the module does on its own. */
  ghost predicate GoesOnFrom(states: seq<State>, events: seq<Event>, later: seq<State>, more: seq<Event>) {
    && |states| == |events| + 1 && |later| == |more| + 1 && states <= later && events <= more
    && forall i :: |events| <= i < |more| ==> Internal(more[i])
  }

  lemma JoinRuns(states: seq<State>, events: seq<Event>, after: seq<State>, steps: seq<Event>)
    requires History(states, events) && InternalRun(after, steps) && after[0] == states[|events|]
    ensures History(states + after[1..], events + steps)
    ensures GoesOnFrom(states, events, states + after[1..], events + steps)
    ensures (states + after[1..])[|events + steps|] == after[|steps|]
  {
    var later, more := states + after[1..], events + steps;
    forall i | 0 <= i < |more| ensures Legal(later[i], more[i]) && later[i + 1] == Apply(later[i], more[i]) {
      if i < |events| {
        assert later[i] == states[i] && later[i + 1] == states[i + 1] && more[i] == events[i];
      } else {
        var j := i - |events|;
        assert later[i] == after[j] && later[i + 1] == after[j + 1] && more[i] == steps[j];
      }
    }
  }

  /** The last states of a run from the start are those of a run from where it was. */
  lemma LastPart(states: seq<State>, events: seq<Event>, m: nat)
    requires IsRun(states, events) && m <= |events| && forall i :: m <= i < |events| ==> Internal(events[i])
    ensures InternalRun(states[m..], events[m..])
  {
    var a, b := states[m..], events[m..];
    forall i | 0 <= i < |b| ensures Legal(a[i], b[i]) && a[i + 1] == Apply(a[i], b[i]) && Internal(b[i]) {
      assert a[i] == states[m + i] && a[i + 1] == states[m + i + 1] && b[i] == events[m + i];
    }
  }

  lemma AllSettled(states: seq<State>, events: seq<Event>)
    requires History(states, events) && Quiescent(states[|events|])
    ensures forall h :: Inserted(events, |events|, h) ==> Settled(states, events, h)
  {
    forall h | Inserted(events, |events|, h) ensures Settled(states, events, h) { AtRest(states, events, h); }
  }

  /** Everything written to a stream is delivered in the end: after every run the module
      comes to rest by itself, with no failure on a half that had none, every stream
      still in the table whose half has not failed holding its half and having delivered
      all that was written, and every half no longer in the table shut down exactly once. */
  lemma AllDelivered(states: seq<State>, events: seq<Event>) returns (later: seq<State>, more: seq<Event>)
    requires History(states, events)
    ensures History(later, more) && GoesOnFrom(states, events, later, more) && Quiescent(later[|more|])
    ensures forall h :: FailedOn(later, more, |more|, h) ==> FailedOn(states, events, |events|, h)
    ensures forall h :: Written(more, |more|, h) == Written(events, |events|, h)
    ensures forall id :: Owner(more, |more|, id) == Owner(events, |events|, id)
    ensures forall h :: Inserted(events, |events|, h) ==> Settled(later, more, h)
  {
    var s := states[|events|];
    IsReachable(states, events, |events|);
    ReachableInv(s);
    ComesToRest(s);
    var after, steps :| Rests(after, steps, s);
    later, more := states + after[1..], events + steps;
    JoinRuns(states, events, after, steps);
    Unchanged(states, events, later, more);
    AllSettled(later, more);
    assert forall h :: Inserted(events, |events|, h) ==> Inserted(more, |more|, h);
  }

  lemma Unchanged(states: seq<State>, events: seq<Event>, later: seq<State>, more: seq<Event>)
    requires History(states, events) && History(later, more)
    requires var s, t := states[|events|], later[|more|];
             t.failed == s.failed && SameStreams(s, t) && t.accepted == s.accepted
    ensures forall h :: FailedOn(later, more, |more|, h) ==> FailedOn(states, events, |events|, h)
    ensures forall h :: Written(more, |more|, h) == Written(events, |events|, h)
    ensures forall id :: Owner(more, |more|, id) == Owner(events, |events|, id)
    ensures forall h :: Inserted(events, |events|, h) ==> Inserted(more, |more|, h)
  {
    forall h ensures FailedOn(later, more, |more|, h) ==> FailedOn(states, events, |events|, h)
      ensures Written(more, |more|, h) == Written(events, |events|, h)
      ensures Inserted(events, |events|, h) ==> Inserted(more, |more|, h)
    {
      Recorded(states, events, |events|, h);
      Recorded(later, more, |more|, h);
    }
    forall id ensures Owner(more, |more|, id) == Owner(events, |events|, id) {
      TableRecorded(states, events, |events|, id);
      TableRecorded(later, more, |more|, id);
    }
  }

  /** No step is left that the module could take on its own. */
  ghost predicate CannotGoOn(s: State) {
    forall e :: Internal(e) ==> !Possible(s, e)
  }

  /** Whatever the order of its steps and whatever fails: left alone after m events, the
      module takes a bounded number of steps, and when it cannot go on it is at rest,
      with every stream whose half has not failed having delivered all that was written
      to it, and every half no longer in the table shut down exactly once. */
  lemma EveryRunRests(states: seq<State>, events: seq<Event>, m: nat)
    requires History(states, events) && m <= |events| && forall i :: m <= i < |events| ==> Internal(events[i])
    ensures |events| - m <= Total(states[m])
    ensures CannotGoOn(states[|events|]) ==>
              Quiescent(states[|events|]) &&
              forall h :: Inserted(events, |events|, h) ==> Settled(states, events, h)
  {
    IsReachable(states, events, m);
    ReachableInv(states[m]);
    LastPart(states, events, m);
    assert states[m..][0] == states[m];
    Bounded(states[m..], events[m..]);
    var t := states[|events|];
    if CannotGoOn(t) {
      IsReachable(states, events, |events|);
      ReachableInv(t);
      RestsWhenStuck(t);
      AllSettled(states, events);
    }
  }

  lemma RestsWhenStuck(s: State)
    requires Inv(s)
    ensures CannotGoOn(s) ==> Quiescent(s)
  {
    if !Quiescent(s) { var e := NotStuck(s); }
  }

  lemma GoesOn(s: State) returns (e: Event, t: State)
    requires Inv(s) && !Quiescent(s)
    ensures Internal(e) && Possible(s, e) && t == Apply(s, e)
    ensures Inv(t) && Total(t) < Total(s) && t.failed == s.failed
  {
    e := NotStuck(s);
    t := Apply(s, e);
    InternalLess(s, t, e);
    var place: map<Half, Place> :| InvWith(s, place);
    var after := EventKeeps(s, t, place, e);
    NoNewFailure(s, t, e);
  }

  lemma NoNewFailure(s: State, t: State, e: Event)
    requires Internal(e) && Possible(s, e) && t == Apply(s, e) && (e.Fail? ==> s.tasks[e.task].w in s.failed)
    ensures t.failed == s.failed
  {
    InternalKeeps(s, t, e);
    if e.Fail? { assert t.failed == s.failed + {s.tasks[e.task].w}; }
  }

  // ---------------------------------------------------------------- using an id again

  lemma LeadsByOne(s: State, e: Event)
    requires Legal(s, e)
    ensures Leads(s, Apply(s, e))
  {
    assert IsRun([s, Apply(s, e)], [e]);
  }

  lemma LeadsByTwo(s: State, e: Event, f: Event)
    requires Legal(s, e) && Legal(Apply(s, e), f)
    ensures Leads(s, Apply(Apply(s, e), f))
  {
    assert IsRun([s, Apply(s, e), Apply(Apply(s, e), f)], [e, f]);
  }

  /** Some run from s ends with a half in no place or in several. */
  ghost predicate GoesWrong(s: State) {
    exists t, h :: Leads(s, t) && h in t.accepted && !InOnePlace(t, h)
  }

  /** The writing task of an earlier stream puts its own half over the new one. */
  lemma Overwrites(s: State, t: State, task: nat, id: nat, half: Half)
    requires InPhase(s, task, AtLock) && s.tasks[task].id == id && s.tasks[task].w != half
    requires id in s.streams && s.streams[id] == Record(half, Some(half), []) && t == LockStep(s, task)
    requires forall p :: Holds(s, p, half) ==> p == AtRecord(id)
    ensures !InOnePlace(t, half)
  {
    if p :| Holds(t, p, half) { assert Holds(s, p, half); }
  }

  /** Whoever held the half of the record that is replaced. */
  lemma Replaced(s: State, place: map<Half, Place>, id: nat, half: Half)
    requires InvWith(s, place) && half !in s.accepted && id in s.streams && s.streams[id].write.Some?
    ensures GoesWrong(InsertStep(s, id, half))
  {
    RecordHoldsIts(s, place, id);
    var t, h := InsertStep(s, id, half), s.streams[id].owner;
    if p :| Holds(t, p, h) {
      assert Holds(s, p, h);
      HoldsMeans(s, place, h, p);
    }
    assert IsRun([t], []) && [t][0] == t;
    assert Leads(t, t);
    assert h in t.accepted && !InOnePlace(t, h);
  }

  lemma StillServed(s: State, place: map<Half, Place>, task: nat, id: nat, half: Half)
    requires InvWith(s, place) && half !in s.accepted && task in s.tasks && Active(s.tasks[task])
    requires s.tasks[task].id == id
    ensures GoesWrong(InsertStep(s, id, half))
  {
    var t, w := InsertStep(s, id, half), s.tasks[task].w;
    assert HalfOk(s, place, w);
    forall p | Holds(t, p, half) ensures p == AtRecord(id) {
      if p != AtRecord(id) { assert Holds(s, p, half); HoldsMeans(s, place, half, p); }
    }
    if s.tasks[task].phase == AtLock {
      LeadsByOne(t, Lock(task));
      Overwrites(t, LockStep(t, task), task, id, half);
    } else {
      Unblock(t, task, id, half);
    }
  }

  lemma Unblock(s: State, task: nat, id: nat, half: Half)
    requires InPhase(s, task, Writing) && s.tasks[task].id == id && s.tasks[task].w != half && half in s.accepted
    requires id in s.streams && s.streams[id] == Record(half, Some(half), [])
    requires forall p :: Holds(s, p, half) ==> p == AtRecord(id)
    ensures GoesWrong(s)
    decreases |s.tasks[task].items|
  {
    var items := s.tasks[task].items;
    var e := if items == [] then Turn(task) else if items[0] == [] then Next(task) else Fail(task);
    var t := Apply(s, e);
    forall p | Holds(t, p, half) ensures p == AtRecord(id) { assert Holds(s, p, half); }
    if e.Next? {
      Unblock(t, task, id, half);
      var u, h :| Leads(t, u) && h in u.accepted && !InOnePlace(u, h);
      LeadsFirst(s, e, u);
    } else {
      var u := LockStep(t, task);
      LeadsByTwo(s, e, Lock(task));
      Overwrites(t, u, task, id, half);
      assert half in u.accepted;
    }
  }

  lemma LeadsFirst(s: State, e: Event, u: State)
    requires Legal(s, e) && Leads(Apply(s, e), u)
    ensures Leads(s, u)
  {
    var states, events :| IsRun(states, events) && states[0] == Apply(s, e) && states[|events|] == u;
    var states1, events1 := [s] + states, [e] + events;
    assert IsRun(states1, events1) && states1[0] == s && states1[|events1|] == u;
  }

  /** An id may be used again exactly when its record is gone and its task is past the
      loop: then every half stays in one place for ever; otherwise some run loses one. */
  lemma ReuseIff(s: State, id: nat, half: Half)
    requires Reachable(s) && half !in s.accepted
    ensures !GoesWrong(InsertStep(s, id, half)) <==> Unused(s, id)
  {
    ReachableInv(s);
    var place: map<Half, Place> :| InvWith(s, place);
    if Unused(s, id) {
      var after := EventKeeps(s, InsertStep(s, id, half), place, Insert(id, half));
      forall t, h | Leads(InsertStep(s, id, half), t) && h in t.accepted ensures InOnePlace(t, h) {
        LeadsInv(InsertStep(s, id, half), t);
        var there: map<Half, Place> :| InvWith(t, there);
        OnePlace(t, there, h);
      }
    } else if id in s.streams && s.streams[id].write.Some? {
      Replaced(s, place, id, half);
    } else {
      if id in s.streams { RecordHoldsIts(s, place, id); }
      var task :| task in s.tasks && Active(s.tasks[task]) && s.tasks[task].id == id;
      StillServed(s, place, task, id, half);
    }
  }

  // Stream 0 is made with half 0, written to and removed while its task is at work.

  const MADE := START.(streams := map[0 := Record(0, Some(0), [])], accepted := map[0 := []], delivered := map[0 := []])

  const WRITTEN := MADE.(streams := map[0 := Record(0, None, [[7]])], accepted := map[0 := [7]],
                         tasks := map[0 := Task(0, 0, [], AtLock)])

  const GONE := WRITTEN.(streams := map[])

  lemma GoneReachable()
    ensures Reachable(MADE) && Reachable(GONE)
  {
    GoneSteps();
    LeadsByOne(START, Insert(0, 0));
    LeadsByTwo(MADE, Write(0, [7], 0), Remove(0));
    LeadsFirst(START, Insert(0, 0), GONE);
  }

  lemma GoneSteps()
    ensures Legal(START, Insert(0, 0)) && Apply(START, Insert(0, 0)) == MADE
    ensures Possible(MADE, Write(0, [7], 0)) && Apply(MADE, Write(0, [7], 0)) == WRITTEN
    ensures Apply(WRITTEN, Remove(0)) == GONE
  {
    assert [] + [[7]] == [[7]] && [] + [7] == [7];
    assert WRITTEN.streams - {0} == map[];
  }

  /** The id of a stream still in the table is used again: its half is in no place, and
      never shut down. */
  lemma LiveIdReused()
    ensures Reachable(MADE) && 0 in InsertStep(MADE, 0, 1).accepted
    ensures forall p :: !Holds(InsertStep(MADE, 0, 1), p, 0)
  {
    GoneReachable();
  }

  /** The id of a removed stream is used again while its old loop still runs: that loop
      puts the old half over the new one, which is then in no place. */
  lemma RemovedIdReused()
    ensures Reachable(GONE) && 0 !in GONE.streams
    ensures var s := InsertStep(GONE, 0, 1);
            Possible(s, Lock(0)) && 1 in LockStep(s, 0).accepted && forall p :: !Holds(LockStep(s, 0), p, 1)
  {
    GoneReachable();
  }
}
