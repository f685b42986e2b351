/** What the stream writer promises over whole runs. */
module StreamsTheorems {
  import opened Prelude
  import opened Streams
  import opened StreamsProof
  import opened StreamsHistory

  // ---------------------------------------------------------------- ownership

  /** After every run a half handed to `insert` is in exactly one place, and no half is
      shut down twice. */
  lemma SingleOwnership(states: seq<State>, events: seq<Event>, h: Half)
    requires History(states, events)
    ensures var s := states[|events|];
            && (Inserted(events, |events|, h) <==> exists p :: Holds(s, p, h))
            && (Inserted(events, |events|, h) ==> InOnePlace(s, h))
    ensures Shutdowns(states, events, |events|, h) <= 1
  {
    var s := states[|events|];
    Recorded(states, events, |events|, h);
    IsReachable(states, events, |events|);
    ReachableInv(s);
    var place: map<Half, Place> :| InvWith(s, place);
    OnePlace(s, place, h);
  }

  lemma OnePlace(s: State, place: map<Half, Place>, h: Half)
    requires InvWith(s, place)
    ensures h in s.accepted <==> exists p :: Holds(s, p, h)
    ensures h in s.accepted ==> InOnePlace(s, h)
  {
    forall q | Holds(s, q, h) ensures h in place && place[h] == q { HoldsMeans(s, place, h, q); }
    if h in place {
      assert HalfOk(s, place, h);
      assert Holds(s, place[h], h);
      assert s.shut[h] <= 1 by { if h in s.shut { assert place[h] == IsShut; } }
    }
  }

  lemma HoldsMeans(s: State, place: map<Half, Place>, h: Half, q: Place)
    requires InvWith(s, place) && Holds(s, q, h)
    ensures h in place && place[h] == q
  {
    if q.AtRecord? { RecordHoldsIts(s, place, q.id); }
  }

  /** No lost wake-up: a record that holds its half has an empty queue, and one that
      does not has exactly one task at work for it. */
  lemma NoLostWakeUp(s: State, id: nat)
    requires Reachable(s) && id in s.streams
    ensures s.streams[id].write.Some? ==> s.streams[id].q == []
    ensures s.streams[id].write.Some? <==> !exists t :: Serves(s, t, id)
    ensures forall t, u :: Serves(s, t, id) && Serves(s, u, id) ==> t == u
  {
    ReachableInv(s);
    var place: map<Half, Place> :| InvWith(s, place);
    RecordHoldsIts(s, place, id);
    forall t | Serves(s, t, id) ensures s.streams[id].write.None? && place[s.streams[id].owner] == AtTask(t) {
      ServerHas(s, place, t, id);
    }
  }

  lemma ServerHas(s: State, place: map<Half, Place>, t: nat, id: nat)
    requires InvWith(s, place) && Serves(s, t, id) && id in s.streams
    ensures s.streams[id].write.None? && s.streams[id].owner == s.tasks[t].w && s.tasks[t].w in place
    ensures place[s.tasks[t].w] == AtTask(t)
  {
    assert HalfOk(s, place, s.tasks[t].w);
  }

  // ---------------------------------------------------------------- data

  /** First in, first out: what arrived at a half is always a prefix of what was written
      to its stream, whatever was removed or failed. */
  lemma DeliveredIsPrefix(states: seq<State>, events: seq<Event>, h: Half)
    requires History(states, events)
    ensures Sent(states, events, |events|, h) <= Written(events, |events|, h)
  {
    Recorded(states, events, |events|, h);
    DeliveredRecorded(states, events, |events|, h);
    IsReachable(states, events, |events|);
    PrefixIn(states[|events|], h);
  }

  lemma PrefixIn(s: State, h: Half)
    requires Reachable(s) && s.delivered.Keys <= s.accepted.Keys
    ensures Delivered(s, h) <= Accepted(s, h)
  {
    ReachableInv(s);
    var place: map<Half, Place> :| InvWith(s, place);
    if h in s.accepted { assert HalfOk(s, place, h); }
  }

  /** What is on its way: the items its task has in hand, then the queue. */
  function InHand(s: State, t: nat, id: nat): Bytes
    requires t in s.tasks && id in s.streams
  {
    Join(s.tasks[t].items) + Join(s.streams[id].q)
  }

  /** Nothing is lost or duplicated: while the stream exists and no write has failed,
      what arrived, what its task has in hand and what is queued are together what was
      written to the stream, in order. */
  lemma NothingLost(states: seq<State>, events: seq<Event>, id: nat, h: Half)
    requires History(states, events) && Owner(events, |events|, id) == Some(h)
    requires !FailedOn(states, events, |events|, h)
    ensures var s, written, sent := states[|events|], Written(events, |events|, h), Sent(states, events, |events|, h);
            && id in s.streams && (s.streams[id].write.Some? ==> sent == written)
            && forall t :: Serves(s, t, id) ==> written == sent + InHand(s, t, id)
  {
    Recorded(states, events, |events|, h);
    OwnerMeans(states, events, |events|, id, h);
    IsReachable(states, events, |events|);
    NothingLostIn(states[|events|], id, h);
  }

  lemma NothingLostIn(s: State, id: nat, h: Half)
    requires Reachable(s) && id in s.streams && s.streams[id].owner == h && h !in s.failed
    ensures s.streams[id].write.Some? ==> Delivered(s, h) == Accepted(s, h)
    ensures forall t :: Serves(s, t, id) ==> Accepted(s, h) == Delivered(s, h) + InHand(s, t, id)
  {
    ReachableInv(s);
    var place: map<Half, Place> :| InvWith(s, place);
    RecordHoldsIts(s, place, id);
    assert HalfOk(s, place, h);
    forall t | Serves(s, t, id) ensures Accepted(s, h) == Delivered(s, h) + InHand(s, t, id) {
      ServerHas(s, place, t, id);
      Regroup(Delivered(s, h), Join(s.tasks[t].items), Join(s.streams[id].q));
    }
  }

  // ---------------------------------------------------------------- at rest

  /** The half is in its stream, which has delivered everything written to it unless a
      write failed, or was shut down exactly once. */
  ghost predicate Settled(states: seq<State>, events: seq<Event>, h: Half)
    requires |events| < |states|
  {
    var n := |events|;
    && Shutdowns(states, events, n, h) == (if exists id :: Owner(events, n, id) == Some(h) then 0 else 1)
    && forall id :: Owner(events, n, id) == Some(h) ==> Home(states, events, id, h)
  }

  ghost predicate Home(states: seq<State>, events: seq<Event>, id: nat, h: Half)
    requires |events| < |states|
  {
    var n := |events|;
    && id in states[n].streams && states[n].streams[id] == Record(h, Some(h), [])
    && (!FailedOn(states, events, n, h) ==> Sent(states, events, n, h) == Written(events, n, h))
  }

  /** The same, as the state has it. */
  ghost predicate SettledIn(s: State, h: Half) {
    && s.shut[h] == (if exists id :: id in s.streams && s.streams[id].owner == h then 0 else 1)
    && (forall id :: id in s.streams && s.streams[id].owner == h ==>
         s.streams[id] == Record(h, Some(h), []) && (h !in s.failed ==> Delivered(s, h) == Accepted(s, h)))
  }

  lemma RestSettles(s: State, h: Half)
    requires Inv(s) && Quiescent(s) && h in s.accepted
    ensures SettledIn(s, h)
  {
    var place: map<Half, Place> :| InvWith(s, place);
    assert HalfOk(s, place, h);
    forall id | id in s.streams && s.streams[id].owner == h
      ensures place[h] == AtRecord(id)
    {
      RecordHoldsIts(s, place, id);
    }
    if place[h].AtRecord? { assert s.streams[place[h].id].owner == h; }
  }

  lemma SettledMeans(states: seq<State>, events: seq<Event>, h: Half)
    requires History(states, events) && SettledIn(states[|events|], h)
    ensures Settled(states, events, h)
  {
    var n, s := |events|, states[|events|];
    Recorded(states, events, n, h);
    forall id ensures Owner(events, n, id) == Some(h) <==> id in s.streams && s.streams[id].owner == h {
      OwnerMeans(states, events, n, id, h);
    }
  }

  /** At rest, every stream in the table holds its half and has delivered everything
      written to it, unless a write failed; every other half was shut down exactly once. */
  lemma AtRest(states: seq<State>, events: seq<Event>, h: Half)
    requires History(states, events) && Quiescent(states[|events|]) && Inserted(events, |events|, h)
    ensures Settled(states, events, h)
  {
    Recorded(states, events, |events|, h);
    IsReachable(states, events, |events|);
    ReachableInv(states[|events|]);
    RestSettles(states[|events|], h);
    SettledMeans(states, events, h);
  }
}
