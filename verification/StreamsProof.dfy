/** Every step of the stream writer keeps its invariant. */
module StreamsProof {
  import opened Prelude
  import opened Streams

  // ---------------------------------------------------------------- the invariant

  /** A task that is not done works for the record made with its half, which is left
      without it. */
  ghost predicate OwnRecord(s: State, k: Task) {
    Active(k) && k.id in s.streams ==> s.streams[k.id].owner == k.w && s.streams[k.id].write.None?
  }

  /** What the writing task has in hand and what is queued are exactly what is missing. */
  predicate Accounted(s: State, k: Task, accepted: Bytes, delivered: Bytes) {
    Active(k) && k.w !in s.failed ==>
      if k.id in s.streams
      then accepted == delivered + Join(k.items) + Join(s.streams[k.id].q)
      else delivered + Join(k.items) <= accepted
  }

  ghost predicate AtRecordOk(s: State, id: nat, h: Half)
    requires h in s.accepted && h in s.delivered
  {
    && id in s.streams && s.streams[id] == Record(h, Some(h), [])
    && (h !in s.failed ==> s.delivered[h] == s.accepted[h])
  }

  ghost predicate AtTaskOk(s: State, t: nat, h: Half)
    requires h in s.accepted && h in s.delivered
  {
    && t in s.tasks && s.tasks[t].w == h && OwnRecord(s, s.tasks[t])
    && (s.tasks[t].phase != Writing ==> s.tasks[t].items == [])
    && Accounted(s, s.tasks[t], s.accepted[h], s.delivered[h])
  }

  ghost predicate HalfOk(s: State, place: map<Half, Place>, h: Half)
    requires h in place
  {
    && h in s.accepted && h in s.delivered && s.delivered[h] <= s.accepted[h]
    && match place[h]
       case AtRecord(id) => AtRecordOk(s, id, h)
       case AtTask(t) => AtTaskOk(s, t, h)
       case AtRemover => h in s.removers
       case IsShut => s.shut[h] == 1
  }

  /** The writing task works for the stream. */
  predicate Serves(s: State, t: nat, id: nat) {
    t in s.tasks && s.tasks[t].id == id && Active(s.tasks[t])
  }

  /** The half a record was made with is in the record, or with a task at work for it. */
  ghost predicate RecordOk(s: State, place: map<Half, Place>, id: nat, h: Half) {
    h in place && (place[h] == AtRecord(id) || (place[h].AtTask? && Serves(s, place[h].task, id)))
  }

  ghost predicate Halves(s: State, place: map<Half, Place>) {
    s.accepted.Keys == place.Keys && forall h :: h in place ==> HalfOk(s, place, h)
  }

  ghost predicate Records(s: State, place: map<Half, Place>) {
    forall id :: id in s.streams ==> RecordOk(s, place, id, s.streams[id].owner)
  }

  ghost predicate Tasks(s: State, place: map<Half, Place>) {
    forall t :: t in s.tasks ==> s.tasks[t].w in place && place[s.tasks[t].w] == AtTask(t)
  }

  ghost predicate Closings(s: State, place: map<Half, Place>) {
    && (forall h :: h in s.removers ==> h in place && place[h] == AtRemover)
    && (forall h :: h in s.shut ==> h in place && place[h] == IsShut)
  }

  ghost predicate Holders(s: State, place: map<Half, Place>) {
    Records(s, place) && Tasks(s, place) && Closings(s, place)
  }

  /** The map tells where every half is, and nothing else holds one. */
  ghost predicate InvWith(s: State, place: map<Half, Place>) {
    Halves(s, place) && Holders(s, place)
  }

  ghost predicate Inv(s: State) { exists place :: InvWith(s, place) }

  // ---------------------------------------------------------------- the steps

  lemma {:induction false} JoinSnoc(q: seq<Bytes>, b: Bytes)
    ensures Join(q + [b]) == Join(q) + b
  {
    if q == [] {
      assert q + [b] == [b] && [b][1..] == [];
    } else {
      assert (q + [b])[1..] == q[1..] + [b];
      JoinSnoc(q[1..], b);
      assert Join(q + [b]) == q[0] + (Join(q[1..]) + b);
    }
  }

  lemma InsertHalf(s: State, t: State, place: map<Half, Place>, id: nat, half: Half, h: Half)
    requires h in place && HalfOk(s, place, h) && h != half && Unused(s, id) && t == InsertStep(s, id, half)
    ensures HalfOk(t, place[half := AtRecord(id)], h)
  {
  }

  lemma InsertHalves(s: State, t: State, place: map<Half, Place>, id: nat, half: Half)
    requires Halves(s, place) && half !in s.accepted && Unused(s, id) && t == InsertStep(s, id, half)
    ensures Halves(t, place[half := AtRecord(id)])
  {
    var after := place[half := AtRecord(id)];
    forall h | h in after ensures HalfOk(t, after, h) {
      if h != half { InsertHalf(s, t, place, id, half, h); }
    }
  }

  lemma InsertHolders(s: State, t: State, place: map<Half, Place>, id: nat, half: Half)
    requires Holders(s, place) && half !in place && Unused(s, id) && t == InsertStep(s, id, half)
    ensures Holders(t, place[half := AtRecord(id)])
  {
    var after := place[half := AtRecord(id)];
    forall i | i in t.streams ensures RecordOk(t, after, i, t.streams[i].owner) {
      if i != id { assert RecordOk(s, place, i, s.streams[i].owner); }
    }
  }

  // ---- write, with a task already at work

  lemma QueueHalf(s: State, t: State, place: map<Half, Place>, id: nat, buf: Bytes, task: nat, h: Half)
    requires h in place && HalfOk(s, place, h) && id in s.streams && RecordOk(s, place, id, s.streams[id].owner)
    requires s.streams[id].write.None? && t == WriteStep(s, id, buf, task)
    ensures HalfOk(t, place, h)
  {
    var r := s.streams[id];
    JoinSnoc(r.q, buf);
    if h == r.owner {
      var k := s.tasks[place[h].task];
      assert s.delivered[h] + Join(k.items) + (Join(r.q) + buf) == s.delivered[h] + Join(k.items) + Join(r.q) + buf;
    }
  }

  lemma QueueKeeps(s: State, t: State, place: map<Half, Place>, id: nat, buf: Bytes, task: nat)
    requires InvWith(s, place) && id in s.streams
    requires s.streams[id].write.None? && t == WriteStep(s, id, buf, task)
    ensures Halves(t, place)
  {
    assert RecordOk(s, place, id, s.streams[id].owner);
    forall h | h in place ensures HalfOk(t, place, h) { QueueHalf(s, t, place, id, buf, task, h); }
  }

  lemma QueueHolders(s: State, t: State, place: map<Half, Place>, id: nat, buf: Bytes, task: nat)
    requires Holders(s, place) && id in s.streams
    requires s.streams[id].write.None? && t == WriteStep(s, id, buf, task)
    ensures Holders(t, place)
  {
    forall i | i in t.streams ensures RecordOk(t, place, i, t.streams[i].owner) {
      assert RecordOk(s, place, i, s.streams[i].owner);
    }
  }

  // ---- write, with the half at hand

  lemma SpawnHalf(s: State, t: State, place: map<Half, Place>, id: nat, buf: Bytes, task: nat, h: Half)
    requires h in place && HalfOk(s, place, h) && id in s.streams && AtRecordOk(s, id, h) && place[h] == AtRecord(id)
    requires task !in s.tasks && t == WriteStep(s, id, buf, task)
    ensures HalfOk(t, place[h := AtTask(task)], h)
  {
    assert Join([buf]) == buf by { assert [buf][1..] == []; }
    assert t.streams[id].q == [buf];
  }

  lemma SpawnOther(s: State, t: State, place: map<Half, Place>, id: nat, buf: Bytes, task: nat, h: Half)
    requires h in place && HalfOk(s, place, h) && id in s.streams && s.streams[id].write == Some(s.streams[id].owner)
    requires h != s.streams[id].owner && task !in s.tasks && t == WriteStep(s, id, buf, task)
    ensures HalfOk(t, place[s.streams[id].owner := AtTask(task)], h)
  {
  }

  lemma SpawnHalves(s: State, t: State, place: map<Half, Place>, id: nat, buf: Bytes, task: nat)
    requires Halves(s, place) && id in s.streams && s.streams[id].owner in place
    requires place[s.streams[id].owner] == AtRecord(id)
    requires task !in s.tasks && t == WriteStep(s, id, buf, task)
    ensures Halves(t, place[s.streams[id].owner := AtTask(task)])
  {
    var o := s.streams[id].owner;
    assert HalfOk(s, place, o);
    forall h | h in place ensures HalfOk(t, place[o := AtTask(task)], h) {
      if h == o { SpawnHalf(s, t, place, id, buf, task, h); } else { SpawnOther(s, t, place, id, buf, task, h); }
    }
  }

  lemma SpawnHolders(s: State, t: State, place: map<Half, Place>, id: nat, buf: Bytes, task: nat)
    requires Holders(s, place) && id in s.streams && s.streams[id].owner in place
    requires place[s.streams[id].owner] == AtRecord(id)
    requires s.streams[id].write == Some(s.streams[id].owner)
    requires task !in s.tasks && t == WriteStep(s, id, buf, task)
    ensures Holders(t, place[s.streams[id].owner := AtTask(task)])
  {
    var after := place[s.streams[id].owner := AtTask(task)];
    forall i | i in t.streams ensures RecordOk(t, after, i, t.streams[i].owner) {
      assert RecordOk(s, place, i, s.streams[i].owner);
    }
  }

  // ---- remove

  lemma RemoveOther(s: State, t: State, place: map<Half, Place>, after: map<Half, Place>, id: nat, h: Half)
    requires h in place && HalfOk(s, place, h) && id in s.streams && place[h] != AtRecord(id)
    requires h in after && after[h] == place[h] && t == RemoveStep(s, id)
    ensures HalfOk(t, after, h)
  {
    if place[h].AtTask? && s.tasks[place[h].task].id == id {
      var k := s.tasks[place[h].task];
      assert s.delivered[h] + Join(k.items) <= s.delivered[h] + Join(k.items) + Join(s.streams[id].q);
    }
  }

  /** Where the halves are after `remove`. */
  function AfterRemove(s: State, place: map<Half, Place>, id: nat): map<Half, Place>
    requires id in s.streams
  {
    var r := s.streams[id];
    if r.write.Some? then place[r.owner := AtRemover] else place
  }

  /** A record holds its own half or none. */
  ghost predicate RecordHolds(s: State, place: map<Half, Place>, id: nat)
    requires id in s.streams
  {
    var r := s.streams[id];
    && r.owner in place
    && (r.write.Some? ==> r.write.value == r.owner && place[r.owner] == AtRecord(id) && r.q == [])
    && (r.write.None? ==> place[r.owner].AtTask? && Serves(s, place[r.owner].task, id))
  }

  lemma RecordHoldsIts(s: State, place: map<Half, Place>, id: nat)
    requires InvWith(s, place) && id in s.streams
    ensures RecordHolds(s, place, id)
  {
    var h := s.streams[id].owner;
    assert RecordOk(s, place, id, h);
    assert HalfOk(s, place, h);
  }

  lemma RemoveHalves(s: State, t: State, place: map<Half, Place>, id: nat)
    requires Halves(s, place) && id in s.streams && RecordHolds(s, place, id) && t == RemoveStep(s, id)
    ensures Halves(t, AfterRemove(s, place, id))
  {
    var after := AfterRemove(s, place, id);
    forall h | h in place ensures HalfOk(t, after, h) {
      assert HalfOk(s, place, h);
      if place[h] != AtRecord(id) { RemoveOther(s, t, place, after, id, h); }
    }
  }

  lemma RemoveHolders(s: State, t: State, place: map<Half, Place>, id: nat)
    requires Holders(s, place) && id in s.streams && RecordHolds(s, place, id) && t == RemoveStep(s, id)
    ensures Holders(t, AfterRemove(s, place, id))
  {
    forall i | i in t.streams ensures RecordOk(t, AfterRemove(s, place, id), i, t.streams[i].owner) {
      assert RecordOk(s, place, i, s.streams[i].owner);
    }
  }

  // ---- the steps of a task that keep it at work

  /** Only one task changes, and not the half it has or whether it is done. */
  ghost predicate TaskMoves(s: State, t: State, task: nat) {
    && task in s.tasks && task in t.tasks && t.tasks == s.tasks[task := t.tasks[task]]
    && t.tasks[task].id == s.tasks[task].id && t.tasks[task].w == s.tasks[task].w
    && Active(t.tasks[task]) && Active(s.tasks[task])
    && t.streams.Keys == s.streams.Keys && t.removers == s.removers && t.shut == s.shut
    && forall i :: i in s.streams ==> t.streams[i].owner == s.streams[i].owner
  }

  lemma MovesHolders(s: State, t: State, place: map<Half, Place>, task: nat)
    requires Holders(s, place) && TaskMoves(s, t, task)
    ensures Holders(t, place)
  {
    forall i | i in t.streams ensures RecordOk(t, place, i, t.streams[i].owner) {
      assert RecordOk(s, place, i, s.streams[i].owner);
    }
  }

  /** The swap under the lock. */
  lemma TakeHalf(s: State, t: State, place: map<Half, Place>, task: nat, h: Half)
    requires h in place && HalfOk(s, place, h) && InPhase(s, task, AtLock) && AtTaskOkFor(s, task)
    requires place[h] == AtTask(task) <==> s.tasks[task].w == h
    requires s.tasks[task].id in s.streams && s.streams[s.tasks[task].id].q != [] && t == LockStep(s, task)
    ensures HalfOk(t, place, h)
  {
  }

  ghost predicate AtTaskOkFor(s: State, task: nat)
    requires task in s.tasks
  {
    var h := s.tasks[task].w;
    h in s.accepted && h in s.delivered && AtTaskOk(s, task, h)
  }

  lemma TakeKeeps(s: State, t: State, place: map<Half, Place>, task: nat)
    requires Halves(s, place) && Tasks(s, place) && InPhase(s, task, AtLock)
    requires s.tasks[task].id in s.streams && s.streams[s.tasks[task].id].q != [] && t == LockStep(s, task)
    ensures Halves(t, place) && TaskMoves(s, t, task)
  {
    assert HalfOk(s, place, s.tasks[task].w);
    forall h | h in place ensures HalfOk(t, place, h) {
      assert HalfOk(s, place, h);
      TakeHalf(s, t, place, task, h);
    }
  }

  /** One task at work writes, fails or moves on; the table is not touched. */
  ghost predicate TaskWrites(s: State, t: State, task: nat) {
    && TaskMoves(s, t, task) && t.streams == s.streams && t.accepted == s.accepted
    && t.delivered.Keys == s.delivered.Keys
    && (forall h :: h in s.delivered && h != s.tasks[task].w ==> t.delivered[h] == s.delivered[h])
    && (forall h :: h != s.tasks[task].w ==> (h in t.failed <==> h in s.failed))
  }

  lemma WritesOther(s: State, t: State, place: map<Half, Place>, task: nat, h: Half)
    requires h in place && HalfOk(s, place, h) && TaskWrites(s, t, task) && h != s.tasks[task].w
    ensures HalfOk(t, place, h)
  {
  }

  lemma WritesKeep(s: State, t: State, place: map<Half, Place>, task: nat)
    requires InvWith(s, place) && TaskWrites(s, t, task)
    requires var h := s.tasks[task].w; h in place && HalfOk(t, place, h)
    ensures InvWith(t, place)
  {
    forall h | h in place ensures HalfOk(t, place, h) {
      assert HalfOk(s, place, h);
      if h != s.tasks[task].w { WritesOther(s, t, place, task, h); }
    }
    MovesHolders(s, t, place, task);
  }

  lemma SendHalf(s: State, t: State, place: map<Half, Place>, task: nat, count: nat)
    requires Possible(s, Send(task, count)) && t == SendStep(s, task, count)
    requires var h := s.tasks[task].w; h in place && place[h] == AtTask(task) && HalfOk(s, place, h)
    ensures HalfOk(t, place, s.tasks[task].w) && TaskWrites(s, t, task)
  {
    var k, k1, h := s.tasks[task], t.tasks[task], s.tasks[task].w;
    Cut(k.items[0], count, s.delivered[h], Join(k.items[1..]));
    assert k1.items[1..] == k.items[1..];
    assert t.delivered[h] + Join(k1.items) == s.delivered[h] + Join(k.items);
  }

  lemma Cut(item: Bytes, count: nat, before: Bytes, after: Bytes)
    requires count <= |item|
    ensures before + item[..count] + (item[count..] + after) == before + (item + after)
  {
    assert item == item[..count] + item[count..];
  }

  lemma NextHalf(s: State, t: State, place: map<Half, Place>, task: nat)
    requires Possible(s, Next(task)) && t == Apply(s, Next(task))
    requires var h := s.tasks[task].w; h in place && place[h] == AtTask(task) && HalfOk(s, place, h)
    ensures HalfOk(t, place, s.tasks[task].w) && TaskWrites(s, t, task)
  {
    assert Join(s.tasks[task].items) == Join(t.tasks[task].items);
  }

  lemma TurnHalf(s: State, t: State, place: map<Half, Place>, task: nat)
    requires Possible(s, Turn(task)) && t == Apply(s, Turn(task))
    requires var h := s.tasks[task].w; h in place && place[h] == AtTask(task) && HalfOk(s, place, h)
    ensures HalfOk(t, place, s.tasks[task].w) && TaskWrites(s, t, task)
  {
  }

  lemma FailHalf(s: State, t: State, place: map<Half, Place>, task: nat)
    requires InPhase(s, task, Writing) && t == FailStep(s, task)
    requires var h := s.tasks[task].w; h in place && place[h] == AtTask(task) && HalfOk(s, place, h)
    ensures HalfOk(t, place, s.tasks[task].w) && TaskWrites(s, t, task)
  {
  }

  // ---- the end of a task

  lemma CloseHalf(s: State, t: State, place: map<Half, Place>, task: nat, h: Half)
    requires h in place && HalfOk(s, place, h) && InPhase(s, task, AtLock) && s.tasks[task].id !in s.streams
    requires t == LockStep(s, task)
    ensures HalfOk(t, place, h)
  {
  }

  lemma CloseKeeps(s: State, t: State, place: map<Half, Place>, task: nat)
    requires InvWith(s, place) && InPhase(s, task, AtLock) && s.tasks[task].id !in s.streams && t == LockStep(s, task)
    ensures InvWith(t, place)
  {
    forall h | h in place ensures HalfOk(t, place, h) { CloseHalf(s, t, place, task, h); }
    forall i | i in t.streams ensures RecordOk(t, place, i, t.streams[i].owner) {
      assert RecordOk(s, place, i, s.streams[i].owner);
    }
  }

  lemma ReturnHalf(s: State, t: State, place: map<Half, Place>, task: nat, h: Half)
    requires h in place && HalfOk(s, place, h) && InPhase(s, task, AtLock) && AtTaskOkFor(s, task)
    requires place[h] == AtTask(task) <==> s.tasks[task].w == h
    requires s.tasks[task].id in s.streams && s.streams[s.tasks[task].id].q == [] && t == LockStep(s, task)
    ensures HalfOk(t, place[s.tasks[task].w := AtRecord(s.tasks[task].id)], h)
  {
  }

  lemma ReturnHalves(s: State, t: State, place: map<Half, Place>, task: nat)
    requires Halves(s, place) && Tasks(s, place) && InPhase(s, task, AtLock)
    requires s.tasks[task].id in s.streams && s.streams[s.tasks[task].id].q == [] && t == LockStep(s, task)
    ensures Halves(t, place[s.tasks[task].w := AtRecord(s.tasks[task].id)])
  {
    var after := place[s.tasks[task].w := AtRecord(s.tasks[task].id)];
    assert HalfOk(s, place, s.tasks[task].w);
    forall h | h in place ensures HalfOk(t, after, h) {
      assert HalfOk(s, place, h);
      ReturnHalf(s, t, place, task, h);
    }
  }

  lemma ReturnHolders(s: State, t: State, place: map<Half, Place>, task: nat)
    requires Holders(s, place) && InPhase(s, task, AtLock) && OwnRecord(s, s.tasks[task])
    requires s.tasks[task].id in s.streams && s.streams[s.tasks[task].id].q == [] && t == LockStep(s, task)
    ensures Holders(t, place[s.tasks[task].w := AtRecord(s.tasks[task].id)])
  {
    forall i | i in t.streams
      ensures RecordOk(t, place[s.tasks[task].w := AtRecord(s.tasks[task].id)], i, t.streams[i].owner)
    {
      assert RecordOk(s, place, i, s.streams[i].owner);
    }
  }

  /** Either kind of shutdown: who held the half is gone. */
  ghost predicate Shuts(s: State, t: State, h: Half) {
    && t.streams == s.streams && t.accepted == s.accepted && t.delivered == s.delivered && t.failed == s.failed
    && t.shut == s.shut + multiset{h} && s.shut[h] == 0
    && (forall x :: x in t.removers <==> x in s.removers && x != h)
    && (forall u :: u in t.tasks <==> u in s.tasks && s.tasks[u].w != h)
    && (forall u :: u in t.tasks ==> t.tasks[u] == s.tasks[u])
  }

  lemma ShutHalf(s: State, t: State, place: map<Half, Place>, half: Half, h: Half)
    requires h in place && HalfOk(s, place, h) && h != half && Shuts(s, t, half)
    ensures HalfOk(t, place[half := IsShut], h)
  {
  }

  lemma ShutHalves(s: State, t: State, place: map<Half, Place>, half: Half)
    requires Halves(s, place) && half in place && Shuts(s, t, half)
    ensures Halves(t, place[half := IsShut])
  {
    forall h | h in place ensures HalfOk(t, place[half := IsShut], h) {
      assert HalfOk(s, place, h);
      if h != half { ShutHalf(s, t, place, half, h); }
    }
  }

  lemma ShutHolders(s: State, t: State, place: map<Half, Place>, half: Half)
    requires InvWith(s, place) && half in place && Shuts(s, t, half)
    requires forall i :: i in s.streams ==> s.streams[i].owner != half
    ensures Holders(t, place[half := IsShut])
  {
    forall i | i in t.streams ensures RecordOk(t, place[half := IsShut], i, t.streams[i].owner) {
      assert RecordOk(s, place, i, s.streams[i].owner);
      assert HalfOk(s, place, s.streams[i].owner);
    }
  }

  lemma ShutByTaskShuts(s: State, t: State, place: map<Half, Place>, task: nat)
    requires Holders(s, place) && InPhase(s, task, Closing) && t == Apply(s, ShutByTask(task))
    ensures var w := s.tasks[task].w; w in place && Shuts(s, t, w) && forall i :: i in s.streams ==>
              s.streams[i].owner != w
  {
    var w := s.tasks[task].w;
    forall i | i in s.streams ensures s.streams[i].owner != w { assert RecordOk(s, place, i, s.streams[i].owner); }
  }

  lemma ShutByRemoverShuts(s: State, t: State, place: map<Half, Place>, half: Half)
    requires Holders(s, place) && half in s.removers && t == Apply(s, ShutByRemover(half))
    ensures half in place && Shuts(s, t, half) && forall i :: i in s.streams ==> s.streams[i].owner != half
  {
    forall i | i in s.streams ensures s.streams[i].owner != half { assert RecordOk(s, place, i, s.streams[i].owner); }
  }

  // ---------------------------------------------------------------- all steps

  lemma WriteKeeps(s: State, t: State, place: map<Half, Place>, id: nat, buf: Bytes,
                   task: nat) returns (after: map<Half, Place>)
    requires InvWith(s, place) && task !in s.tasks && t == WriteStep(s, id, buf, task)
    ensures InvWith(t, after)
  {
    after := place;
    if id in s.streams {
      RecordHoldsIts(s, place, id);
      if s.streams[id].write.Some? {
        after := place[s.streams[id].owner := AtTask(task)];
        SpawnHalves(s, t, place, id, buf, task);
        SpawnHolders(s, t, place, id, buf, task);
      } else {
        QueueKeeps(s, t, place, id, buf, task);
        QueueHolders(s, t, place, id, buf, task);
      }
    }
  }

  lemma LockKeeps(s: State, t: State, place: map<Half, Place>, task: nat) returns (after: map<Half, Place>)
    requires InvWith(s, place) && InPhase(s, task, AtLock) && t == LockStep(s, task)
    ensures InvWith(t, after)
  {
    after := place;
    var k := s.tasks[task];
    if k.id !in s.streams {
      CloseKeeps(s, t, place, task);
    } else if s.streams[k.id].q == [] {
      assert HalfOk(s, place, k.w);
      after := place[k.w := AtRecord(k.id)];
      ReturnHalves(s, t, place, task);
      ReturnHolders(s, t, place, task);
    } else {
      TakeKeeps(s, t, place, task);
      MovesHolders(s, t, place, task);
    }
  }

  lemma TaskKeeps(s: State, t: State, place: map<Half, Place>, e: Event)
    requires InvWith(s, place) && (e.Send? || e.Next? || e.Turn? || e.Fail?) && Possible(s, e) && t == Apply(s, e)
    ensures InvWith(t, place)
  {
    assert HalfOk(s, place, s.tasks[e.task].w);
    match e {
      case Send(task, count) => SendHalf(s, t, place, task, count);
      case Next(task) => NextHalf(s, t, place, task);
      case Turn(task) => TurnHalf(s, t, place, task);
      case Fail(task) => FailHalf(s, t, place, task);
    }
    WritesKeep(s, t, place, e.task);
  }

  lemma EventKeeps(s: State, t: State, place: map<Half, Place>, e: Event) returns (after: map<Half, Place>)
    requires InvWith(s, place) && Legal(s, e) && t == Apply(s, e)
    ensures InvWith(t, after)
  {
    match e {
      case Insert(id, half) =>
        after := place[half := AtRecord(id)];
        InsertHalves(s, t, place, id, half);
        InsertHolders(s, t, place, id, half);
      case Write(id, buf, task) => after := WriteKeeps(s, t, place, id, buf, task);
      case Remove(id) =>
        after := place;
        if id in s.streams {
          after := AfterRemove(s, place, id);
          RecordHoldsIts(s, place, id);
          RemoveHalves(s, t, place, id);
          RemoveHolders(s, t, place, id);
        }
      case Lock(task) => after := LockKeeps(s, t, place, task);
      case ShutByTask(task) =>
        after := place[s.tasks[task].w := IsShut];
        ShutByTaskShuts(s, t, place, task);
        ShutHalves(s, t, place, s.tasks[task].w);
        ShutHolders(s, t, place, s.tasks[task].w);
      case ShutByRemover(half) =>
        after := place[half := IsShut];
        ShutByRemoverShuts(s, t, place, half);
        ShutHalves(s, t, place, half);
        ShutHolders(s, t, place, half);
      case _ =>
        after := place;
        TaskKeeps(s, t, place, e);
    }
  }

  lemma {:induction false} RunInv(states: seq<State>, events: seq<Event>, n: nat)
    requires IsRun(states, events) && Inv(states[0]) && n < |states|
    ensures Inv(states[n])
  {
    if n > 0 {
      RunInv(states, events, n - 1);
      var place :| InvWith(states[n - 1], place);
      var after := EventKeeps(states[n - 1], states[n], place, events[n - 1]);
    }
  }

  lemma LeadsInv(s: State, t: State)
    requires Inv(s) && Leads(s, t)
    ensures Inv(t)
  {
    var states, events :| IsRun(states, events) && states[0] == s && states[|events|] == t;
    RunInv(states, events, |events|);
  }

  /** The invariant holds in every reachable state. */
  lemma ReachableInv(s: State)
    requires Reachable(s)
    ensures Inv(s)
  {
    assert InvWith(START, map[]);
    LeadsInv(START, s);
  }
}
