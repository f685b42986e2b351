/** The history kept in the state of the stream writer is that of the calls: told here
    from the events of a run alone. */
module StreamsHistory {
  import opened Prelude
  import opened Streams

  /** A run from the start. */
  ghost predicate History(states: seq<State>, events: seq<Event>) {
    IsRun(states, events) && states[0] == START
  }

  // ---------------------------------------------------------------- from the events

  /** The half of the stream with the id: that of its last `insert`, unless the stream
      was removed since. */
  function NextOwner(e: Event, id: nat, owner: Option<Half>): Option<Half> {
    match e
    case Insert(i, half) => if i == id then Some(half) else owner
    case Remove(i) => if i == id then None else owner
    case _ => owner
  }

  function Owner(events: seq<Event>, n: nat, id: nat): Option<Half>
    requires n <= |events|
  {
    if n == 0 then None else NextOwner(events[n - 1], id, Owner(events, n - 1, id))
  }

  /** The buffers written to the streams made with the half, in order. */
  function Written(events: seq<Event>, n: nat, h: Half): Bytes
    requires n <= |events|
  {
    if n == 0 then []
    else
      var e := events[n - 1];
      if e.Write? && Owner(events, n - 1, e.id) == Some(h)
      then Written(events, n - 1, h) + e.buf else Written(events, n - 1, h)
  }

  ghost predicate Inserted(events: seq<Event>, n: nat, h: Half)
    requires n <= |events|
  {
    exists i :: 0 <= i < n && events[i].Insert? && events[i].half == h
  }

  /** The half that a writing task, or a call of `remove`, acts on. */
  function ActsOn(s: State, e: Event): Option<Half> {
    match e
    case Send(task, _) => if task in s.tasks then Some(s.tasks[task].w) else None
    case Fail(task) => if task in s.tasks then Some(s.tasks[task].w) else None
    case ShutByTask(task) => if task in s.tasks then Some(s.tasks[task].w) else None
    case ShutByRemover(half) => Some(half)
    case _ => None
  }

  /** The bytes that arrived at the half, in order. */
  function Sent(states: seq<State>, events: seq<Event>, n: nat, h: Half): Bytes
    requires n <= |events| <= |states|
  {
    if n == 0 then []
    else
      var s, e := states[n - 1], events[n - 1];
      if e.Send? && Possible(s, e) && ActsOn(s, e) == Some(h)
      then Sent(states, events, n - 1, h) + s.tasks[e.task].items[0][..e.count]
      else Sent(states, events, n - 1, h)
  }

  ghost predicate FailedOn(states: seq<State>, events: seq<Event>, n: nat, h: Half)
    requires n <= |events| <= |states|
  {
    exists i :: 0 <= i < n && events[i].Fail? && ActsOn(states[i], events[i]) == Some(h)
  }

  predicate ShutsDown(s: State, e: Event, h: Half) {
    (e.ShutByTask? || e.ShutByRemover?) && ActsOn(s, e) == Some(h)
  }

  /** How often the half was shut down. */
  function Shutdowns(states: seq<State>, events: seq<Event>, n: nat, h: Half): nat
    requires n <= |events| <= |states|
  {
    if n == 0 then 0
    else Shutdowns(states, events, n - 1, h) + if ShutsDown(states[n - 1], events[n - 1], h) then 1 else 0
  }

  // ---------------------------------------------------------------- in the state

  function OwnerIn(s: State, id: nat): Option<Half> {
    if id in s.streams then Some(s.streams[id].owner) else None
  }

  function Delivered(s: State, h: Half): Bytes { if h in s.delivered then s.delivered[h] else [] }

  // ---------------------------------------------------------------- one step

  lemma OwnerStep(s: State, t: State, e: Event, id: nat)
    requires Possible(s, e) && t == Apply(s, e)
    ensures OwnerIn(t, id) == NextOwner(e, id, OwnerIn(s, id))
  {
  }

  lemma AcceptedStep(s: State, t: State, e: Event, h: Half)
    requires Possible(s, e) && t == Apply(s, e)
    ensures Accepted(t, h) ==
              if e.Write? && OwnerIn(s, e.id) == Some(h) then Accepted(s, h) + e.buf else Accepted(s, h)
  {
  }

  lemma InsertedStep(s: State, t: State, e: Event, h: Half)
    requires Possible(s, e) && t == Apply(s, e)
    requires forall id :: id in s.streams ==> s.streams[id].owner in s.accepted
    ensures h in t.accepted <==> h in s.accepted || (e.Insert? && e.half == h)
    ensures forall id :: id in t.streams ==> t.streams[id].owner in t.accepted
  {
  }

  lemma DeliveredStep(s: State, t: State, e: Event, h: Half)
    requires Possible(s, e) && t == Apply(s, e) && s.delivered.Keys <= s.accepted.Keys
    ensures Delivered(t, h) ==
              if e.Send? && ActsOn(s, e) == Some(h) then Delivered(s, h) + s.tasks[e.task].items[0][..e.count]
              else Delivered(s, h)
    ensures t.delivered.Keys <= t.accepted.Keys
  {
  }

  lemma EndStep(s: State, t: State, e: Event, h: Half)
    requires Possible(s, e) && t == Apply(s, e)
    ensures h in t.failed <==> h in s.failed || (e.Fail? && ActsOn(s, e) == Some(h))
    ensures t.shut[h] == s.shut[h] + if ShutsDown(s, e, h) then 1 else 0
  {
  }

  // ---------------------------------------------------------------- over runs

  /** The table has exactly the streams inserted and not removed since, each made with
      the half of its last `insert`. */
  lemma {:induction false} TableRecorded(states: seq<State>, events: seq<Event>, n: nat, id: nat)
    requires History(states, events) && n <= |events|
    ensures OwnerIn(states[n], id) == Owner(events, n, id)
  {
    if n > 0 {
      TableRecorded(states, events, n - 1, id);
      OwnerStep(states[n - 1], states[n], events[n - 1], id);
    }
  }

  /** What was accepted for a half is what was written to its stream. */
  lemma {:induction false} AcceptedRecorded(states: seq<State>, events: seq<Event>, n: nat, h: Half)
    requires History(states, events) && n <= |events|
    ensures Accepted(states[n], h) == Written(events, n, h)
  {
    if n > 0 {
      AcceptedRecorded(states, events, n - 1, h);
      AcceptedNext(states, events, n, h, states[n - 1], events[n - 1], states[n]);
    }
  }

  lemma AcceptedNext(states: seq<State>, events: seq<Event>, n: nat, h: Half, s: State, e: Event, t: State)
    requires History(states, events) && 0 < n <= |events| && s == states[n - 1] && e == events[n - 1]
    requires Possible(s, e) && t == Apply(s, e) && Accepted(s, h) == Written(events, n - 1, h)
    ensures Accepted(t, h) == Written(events, n, h)
  {
    AcceptedStep(s, t, e, h);
    if e.Write? { TableRecorded(states, events, n - 1, e.id); }
  }

  lemma {:induction false} InsertedRecorded(states: seq<State>, events: seq<Event>, n: nat, h: Half)
    requires History(states, events) && n <= |events|
    ensures h in states[n].accepted <==> Inserted(events, n, h)
    ensures forall id :: id in states[n].streams ==> states[n].streams[id].owner in states[n].accepted
  {
    if n > 0 {
      InsertedRecorded(states, events, n - 1, h);
      InsertedStep(states[n - 1], states[n], events[n - 1], h);
      InsertedNext(events, n, h);
    }
  }

  lemma InsertedNext(events: seq<Event>, n: nat, h: Half)
    requires 0 < n <= |events|
    ensures Inserted(events, n, h) <==>
              Inserted(events, n - 1, h) || (events[n - 1].Insert? && events[n - 1].half == h)
  {
  }

  lemma {:induction false} DeliveredRecorded(states: seq<State>, events: seq<Event>, n: nat, h: Half)
    requires History(states, events) && n <= |events|
    ensures Delivered(states[n], h) == Sent(states, events, n, h)
    ensures states[n].delivered.Keys <= states[n].accepted.Keys
  {
    if n > 0 {
      DeliveredRecorded(states, events, n - 1, h);
      DeliveredStep(states[n - 1], states[n], events[n - 1], h);
    }
  }

  lemma {:induction false} EndsRecorded(states: seq<State>, events: seq<Event>, n: nat, h: Half)
    requires History(states, events) && n <= |events|
    ensures h in states[n].failed <==> FailedOn(states, events, n, h)
    ensures states[n].shut[h] == Shutdowns(states, events, n, h)
  {
    if n > 0 {
      EndsRecorded(states, events, n - 1, h);
      EndStep(states[n - 1], states[n], events[n - 1], h);
      FailedNext(states, events, n, h);
    }
  }

  lemma FailedNext(states: seq<State>, events: seq<Event>, n: nat, h: Half)
    requires 0 < n <= |events| <= |states|
    ensures FailedOn(states, events, n, h) <==>
              FailedOn(states, events, n - 1, h) ||
              (events[n - 1].Fail? && ActsOn(states[n - 1], events[n - 1]) == Some(h))
  {
  }

  /** The history in a state of a run is what the events up to it say. */
  lemma Recorded(states: seq<State>, events: seq<Event>, n: nat, h: Half)
    requires History(states, events) && n <= |events|
    ensures var s := states[n];
            && Accepted(s, h) == Written(events, n, h) && Delivered(s, h) == Sent(states, events, n, h)
            && (h in s.accepted <==> Inserted(events, n, h))
            && (h in s.failed <==> FailedOn(states, events, n, h))
            && s.shut[h] == Shutdowns(states, events, n, h)
  {
    AcceptedRecorded(states, events, n, h);
    InsertedRecorded(states, events, n, h);
    DeliveredRecorded(states, events, n, h);
    EndsRecorded(states, events, n, h);
  }

  /** Which stream has the half. */
  lemma OwnerMeans(states: seq<State>, events: seq<Event>, n: nat, id: nat, h: Half)
    requires History(states, events) && n <= |events|
    ensures Owner(events, n, id) == Some(h) <==> id in states[n].streams && states[n].streams[id].owner == h
  {
    TableRecorded(states, events, n, id);
  }

  lemma IsReachable(states: seq<State>, events: seq<Event>, n: nat)
    requires History(states, events) && n <= |events|
    ensures Reachable(states[n])
  {
    var a, b := states[..n + 1], events[..n];
    assert IsRun(a, b) && a[0] == START && a[|b|] == states[n];
  }
}
