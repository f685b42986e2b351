/** The multiplexed stream writer: a locked table of streams, a queue per stream, and
    a write half that moves between the table and the writing task that drains the queue.

    Every section under the lock, every write to a half and every shutdown is one step;
    a run is any interleaving of steps. */
module Streams {
  import opened Prelude

  newtype Octet = x: int | 0 <= x < 256
  type Bytes = seq<Octet>

  /** A write half, told apart from all others. */
  type Half = nat

  /** `StreamRec`.  The half the record was made with is kept as history. */
  datatype Record = Record(owner: Half, write: Option<Half>, q: seq<Bytes>)

  /** Where a `write_loop` is: about to take the lock, writing what it took, or past
      the loop with only the shutdown left. */
  datatype Phase = AtLock | Writing | Closing

  datatype Task = Task(id: nat, w: Half, items: seq<Bytes>, phase: Phase)

  datatype State = State(
    streams: map<nat, Record>,
    tasks: map<nat, Task>,
    removers: set<Half>,        // halves held by calls of `remove`
    shut: multiset<Half>,       // shutdowns done
    // history
    accepted: map<Half, Bytes>, // what `write` queued for each half
    delivered: map<Half, Bytes>,
    failed: set<Half>)          // halves on which a write failed

  const START := State(map[], map[], {}, multiset{}, map[], map[], {})

  datatype Event =
    | Insert(id: nat, half: Half)
    | Write(id: nat, buf: Bytes, task: nat)
    | Remove(id: nat)
    | Lock(task: nat)
    | Send(task: nat, count: nat)
    | Next(task: nat)
    | Turn(task: nat)
    | Fail(task: nat)
    | ShutByTask(task: nat)
    | ShutByRemover(half: Half)

  function Join(q: seq<Bytes>): Bytes {
    if q == [] then [] else q[0] + Join(q[1..])
  }

  predicate Active(k: Task) { k.phase != Closing }

  predicate InPhase(s: State, task: nat, phase: Phase) {
    task in s.tasks && s.tasks[task].phase == phase
  }

  /** No stream has the id and no task is still working for it. */
  ghost predicate Unused(s: State, id: nat) {
    id !in s.streams && forall t :: t in s.tasks && Active(s.tasks[t]) ==> s.tasks[t].id != id
  }

  /** What the code and its environment allow: halves are new, a spawned task is new,
      a half that failed once accepts nothing more, and an empty buffer never fails. */
  predicate Possible(s: State, e: Event) {
    match e
    case Insert(_, half) => half !in s.accepted
    case Write(_, _, task) => task !in s.tasks
    case Remove(_) => true
    case Lock(task) => InPhase(s, task, AtLock)
    case Send(task, count) =>
      && InPhase(s, task, Writing) && s.tasks[task].items != []
      && 0 < count <= |s.tasks[task].items[0]| && s.tasks[task].w !in s.failed && s.tasks[task].w in s.delivered
    case Next(task) => InPhase(s, task, Writing) && s.tasks[task].items != [] && s.tasks[task].items[0] == []
    case Turn(task) => InPhase(s, task, Writing) && s.tasks[task].items == []
    case Fail(task) => InPhase(s, task, Writing) && s.tasks[task].items != [] && s.tasks[task].items[0] != []
    case ShutByTask(task) => InPhase(s, task, Closing)
    case ShutByRemover(half) => half in s.removers
  }

  // ---------------------------------------------------------------- the steps

  /** `insert` replaces whatever record there is. */
  function InsertStep(s: State, id: nat, half: Half): State {
    s.(streams := s.streams[id := Record(half, Some(half), [])],
       accepted := s.accepted[half := []], delivered := s.delivered[half := []])
  }

  function Accepted(s: State, h: Half): Bytes { if h in s.accepted then s.accepted[h] else [] }

  /** `write`: queue the buffer, and start a task when the half is at hand. */
  function WriteStep(s: State, id: nat, buf: Bytes, task: nat): State {
    if id !in s.streams then s
    else
      var r := s.streams[id];
      var s1 := s.(streams := s.streams[id := Record(r.owner, None, r.q + [buf])],
                   accepted := s.accepted[r.owner := Accepted(s, r.owner) + buf]);
      if r.write.Some? then s1.(tasks := s.tasks[task := Task(id, r.write.value, [], AtLock)]) else s1
  }

  /** The section of `remove` under the lock: the record goes, with its queue. */
  function RemoveStep(s: State, id: nat): State {
    if id !in s.streams then s
    else
      var s1 := s.(streams := s.streams - {id});
      if s.streams[id].write.Some? then s1.(removers := s.removers + {s.streams[id].write.value}) else s1
  }

  /** The section of `write_loop` under the lock: without a record the loop is over;
      with an empty queue the half goes back; otherwise queue and items are swapped. */
  function LockStep(s: State, task: nat): State
    requires task in s.tasks
  {
    var k := s.tasks[task];
    if k.id !in s.streams then s.(tasks := s.tasks[task := k.(phase := Closing)])
    else
      var r := s.streams[k.id];
      if r.q == [] then
        s.(streams := s.streams[k.id := r.(write := Some(k.w))], tasks := s.tasks - {task})
      else
        s.(streams := s.streams[k.id := r.(q := k.items)], tasks := s.tasks[task := k.(items := r.q, phase := Writing)])
  }

  function SendStep(s: State, task: nat, count: nat): State
    requires Possible(s, Send(task, count))
  {
    var k := s.tasks[task];
    s.(tasks := s.tasks[task := k.(items := [k.items[0][count..]] + k.items[1..])],
       delivered := s.delivered[k.w := s.delivered[k.w] + k.items[0][..count]])
  }

  /** A failed write leaves the inner loop only: what was not written is dropped and
      the writing task goes back to the lock. */
  function FailStep(s: State, task: nat): State
    requires task in s.tasks
  {
    var k := s.tasks[task];
    s.(tasks := s.tasks[task := k.(items := [], phase := AtLock)], failed := s.failed + {k.w})
  }

  function Apply(s: State, e: Event): State
    requires Possible(s, e)
  {
    match e
    case Insert(id, half) => InsertStep(s, id, half)
    case Write(id, buf, task) => WriteStep(s, id, buf, task)
    case Remove(id) => RemoveStep(s, id)
    case Lock(task) => LockStep(s, task)
    case Send(task, count) => SendStep(s, task, count)
    case Next(task) => s.(tasks := s.tasks[task := s.tasks[task].(items := s.tasks[task].items[1..])])
    case Turn(task) => s.(tasks := s.tasks[task := s.tasks[task].(phase := AtLock)])
    case Fail(task) => FailStep(s, task)
    case ShutByTask(task) => s.(tasks := s.tasks - {task}, shut := s.shut + multiset{s.tasks[task].w})
    case ShutByRemover(half) => s.(removers := s.removers - {half}, shut := s.shut + multiset{half})
  }

  /** The caller's part: an id is not used again while it is in use. */
  ghost predicate Legal(s: State, e: Event) {
    Possible(s, e) && (e.Insert? ==> Unused(s, e.id))
  }

  ghost predicate IsRun(states: seq<State>, events: seq<Event>) {
    && |states| == |events| + 1
    && forall i :: 0 <= i < |events| ==> Legal(states[i], events[i]) && states[i + 1] == Apply(states[i], events[i])
  }

  ghost predicate Leads(s: State, t: State) {
    exists states, events :: IsRun(states, events) && states[0] == s && states[|events|] == t
  }

  ghost predicate Reachable(s: State) { Leads(START, s) }

  // ---------------------------------------------------------------- where the halves are

  /** The records, tasks and calls that hold a half. */
  datatype Place = AtRecord(id: nat) | AtTask(task: nat) | AtRemover | IsShut

  predicate Holds(s: State, p: Place, h: Half) {
    match p
    case AtRecord(id) => id in s.streams && s.streams[id].write == Some(h)
    case AtTask(task) => task in s.tasks && s.tasks[task].w == h
    case AtRemover => h in s.removers
    case IsShut => h in s.shut
  }

  /** The half is in exactly one place, and was not shut down twice. */
  ghost predicate InOnePlace(s: State, h: Half) {
    s.shut[h] <= 1 && exists p :: Holds(s, p, h) && forall q :: Holds(s, q, h) ==> q == p
  }

  /** Only what this module does on its own, without new calls. */
  predicate Internal(e: Event) {
    !e.Insert? && !e.Write? && !e.Remove?
  }

  predicate Quiescent(s: State) { s.tasks == map[] && s.removers == {} }
}
