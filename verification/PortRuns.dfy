/** Any number of senders and one receiver, over whole runs. */
module PortRuns {
  import opened Prelude
  import opened PortCounts
  import opened PortForwarding
  import opened Sums

  /** Where `apply_to` is: waiting for a change, woken by one, or in one of its two loops
      with these ports still to look at. */
  datatype Phase = Idle | Woken | InStopLoop(todo: set<nat>) | InStartLoop(todo: set<nat>)

  datatype System = System(
    ports: PortMap,                     // the shared map
    senders: map<nat, seq<Port>>,       // the list of each live sender
    changed: bool,                      // sent to since the receiver last woke up
    current: PortMap,                   // what the receiver applied last
    next: PortMap,                      // what it observed last
    phase: Phase,
    tunnel: Forwards,
    // history
    seen: map<nat, seq<Port>>)          // the senders when it observed

  /** One sender that lists nothing, as `new` makes it. */
  const START := System(map[], map[0 := []], false, map[], map[], Idle, NOTHING, map[0 := []])

  /** The receiver awaits every operation of the tunnel, so senders may act between any
      two of its steps. */
  datatype Event =
    | Clone(from: nat, id: nat)
    | SetPorts(id: nat, list: seq<Port>)
    | Drop(id: nat)
    | Wake
    | Observe
    | Stop(port: nat)
    | Turn
    | Start(port: nat)
    | Finish

  predicate Enabled(s: System, e: Event) {
    match e
    case Clone(from, id) => from in s.senders && id !in s.senders
    case SetPorts(id, _) => id in s.senders
    case Drop(id) => id in s.senders
    case Wake => s.phase == Idle && s.changed
    case Observe => s.phase == Woken
    case Stop(port) => s.phase.InStopLoop? && port in s.phase.todo && port in s.current
    case Turn => s.phase == InStopLoop({})
    case Start(port) => s.phase.InStartLoop? && port in s.phase.todo && port in s.next
    case Finish => s.phase == InStartLoop({})
  }

  predicate BySender(e: Event) { e.Clone? || e.SetPorts? || e.Drop? }

  /** A step of a sender; fails where the code panics. */
  function SenderStep(s: System, e: Event): Option<System>
    requires BySender(e) && Enabled(s, e)
  {
    match e
    case Clone(_, id) => Some(s.(senders := s.senders[id := []]))
    case SetPorts(id, list) =>
      var v := Replace(s.ports, s.senders[id], list);
      if v.None? then None else Some(s.(ports := v.value, senders := s.senders[id := list], changed := true))
    case Drop(id) =>
      var v := Replace(s.ports, s.senders[id], []);
      if v.None? then None else Some(s.(ports := v.value, senders := s.senders - {id}, changed := true))
  }

  /** A step of `apply_to`. */
  function ReceiverStep(s: System, e: Event): System
    requires !BySender(e) && Enabled(s, e)
  {
    match e
    case Wake => s.(changed := false, phase := Woken)
    case Observe => s.(next := s.ports, seen := s.senders, phase := InStopLoop(s.current.Keys))
    case Stop(port) =>
      s.(tunnel := StopOne(s.current, s.next, s.tunnel, port), phase := InStopLoop(s.phase.todo - {port}))
    case Turn => s.(phase := InStartLoop(s.next.Keys))
    case Start(port) =>
      s.(tunnel := StartOne(s.current, s.next, s.tunnel, port), phase := InStartLoop(s.phase.todo - {port}))
    case Finish => s.(current := s.next, phase := Idle)
  }

  function Apply(s: System, e: Event): Option<System>
    requires Enabled(s, e)
  {
    if BySender(e) then SenderStep(s, e) else Some(ReceiverStep(s, e))
  }

  ghost predicate IsRun(states: seq<System>, events: seq<Event>) {
    && |states| == |events| + 1 && states[0] == START
    && forall i :: 0 <= i < |events| ==>
        Enabled(states[i], events[i]) && Apply(states[i], events[i]) == Some(states[i + 1])
  }

  /** What each live sender listed last, told from the events alone: the first sender
      lists nothing at first, nor does a clone. */
  function Lists(events: seq<Event>, n: nat): map<nat, seq<Port>>
    requires n <= |events|
  {
    if n == 0 then map[0 := []]
    else
      var before := Lists(events, n - 1);
      match events[n - 1]
      case Clone(_, id) => before[id := []]
      case SetPorts(id, list) => before[id := list]
      case Drop(id) => before - {id}
      case _ => before
  }

  /** The senders list what they were last told to. */
  lemma {:induction false} SendersListed(states: seq<System>, events: seq<Event>, n: nat)
    requires IsRun(states, events) && n <= |events|
    ensures states[n].senders == Lists(events, n)
  {
    if n > 0 {
      SendersListed(states, events, n - 1);
      assert Enabled(states[n - 1], events[n - 1]) && Apply(states[n - 1], events[n - 1]) == Some(states[n]);
    }
  }

  // ---------------------------------------------------------------- conservation

  ghost function Requests(senders: map<nat, seq<Port>>, p: Port): map<nat, nat> {
    map id | id in senders :: Times(senders[id], p)
  }

  /** How often all senders together list the port. */
  ghost function Demand(senders: map<nat, seq<Port>>, p: Port): nat { Sum(Requests(senders, p)) }

  /** Every count is what the senders ask for. */
  ghost predicate Conserved(ports: PortMap, senders: map<nat, seq<Port>>) {
    Tidy(ports) && forall p :: Asked(ports, p) == Demand(senders, p)
  }

  lemma DemandUpdate(senders: map<nat, seq<Port>>, id: nat, list: seq<Port>, p: Port)
    ensures Demand(senders[id := list], p) ==
              Demand(senders, p) - (if id in senders then Times(senders[id], p) else 0) + Times(list, p)
  {
    assert Requests(senders[id := list], p) == Requests(senders, p)[id := Times(list, p)];
    SumUpdate(Requests(senders, p), id, Times(list, p));
  }

  lemma DemandDrop(senders: map<nat, seq<Port>>, id: nat, p: Port)
    requires id in senders
    ensures Demand(senders - {id}, p) == Demand(senders, p) - Times(senders[id], p)
  {
    assert Requests(senders - {id}, p) == Requests(senders, p) - {id};
    SumTake(Requests(senders, p), id);
  }

  /** Ports in both lists are there equally often. */
  ghost predicate Compatible(current: seq<Port>, list: seq<Port>) {
    forall p :: p in current && p in list ==> Times(current, p) == Times(list, p)
  }

  /** A sender may always replace its list without a panic, and the counts stay right
      exactly when the ports it keeps are listed as often as before. */
  lemma ReplaceConservesIff(ports: PortMap, senders: map<nat, seq<Port>>, id: nat, list: seq<Port>)
    requires Conserved(ports, senders) && id in senders
    ensures Replace(ports, senders[id], list).Some?
    ensures Conserved(Replace(ports, senders[id], list).value, senders[id := list]) <==> Compatible(senders[id], list)
  {
    var current := senders[id];
    forall p ensures Times(current, p) <= Asked(ports, p) {
      SumTake(Requests(senders, p), id);
      assert Asked(ports, p) == Demand(senders, p);
    }
    ReplaceEffect(ports, current, list);
    var v := Replace(ports, current, list).value;
    forall p
      ensures Asked(v, p) == Demand(senders[id := list], p) <==>
                (p in current && p in list ==> Times(current, p) == Times(list, p))
    {
      DemandUpdate(senders, id, list, p);
      assert Asked(ports, p) == Demand(senders, p);
    }
  }

  lemma DropConserves(ports: PortMap, senders: map<nat, seq<Port>>, id: nat)
    requires Conserved(ports, senders) && id in senders
    ensures Replace(ports, senders[id], []).Some?
    ensures Conserved(Replace(ports, senders[id], []).value, senders - {id})
  {
    ReplaceConservesIff(ports, senders, id, []);
    var v := Replace(ports, senders[id], []).value;
    forall p ensures Asked(v, p) == Demand(senders - {id}, p) {
      assert Asked(v, p) == Demand(senders[id := []], p);
      DemandUpdate(senders, id, [], p);
      DemandDrop(senders, id, p);
    }
  }

  lemma CloneConserves(ports: PortMap, senders: map<nat, seq<Port>>, id: nat)
    requires Conserved(ports, senders) && id !in senders
    ensures Conserved(ports, senders[id := []])
  {
    forall p ensures Asked(ports, p) == Demand(senders[id := []], p) {
      assert Asked(ports, p) == Demand(senders, p);
      DemandUpdate(senders, id, [], p);
    }
  }

  // ---------------------------------------------------------------- lists without duplicates

  ghost predicate Distinct(list: seq<Port>) {
    forall i, j :: 0 <= i < j < |list| ==> list[i] != list[j]
  }

  lemma {:induction false} DistinctTimes(list: seq<Port>, p: Port)
    requires Distinct(list)
    ensures Times(list, p) == if p in list then 1 else 0
    decreases |list|
  {
    if list != [] {
      TimesLast(list, p);
      DistinctTimes(list[..|list| - 1], p);
    }
  }

  lemma DistinctCompatible(current: seq<Port>, list: seq<Port>)
    requires Distinct(current) && Distinct(list)
    ensures Compatible(current, list)
  {
    forall p | p in current && p in list ensures Times(current, p) == Times(list, p) {
      DistinctTimes(current, p);
      DistinctTimes(list, p);
    }
  }

  ghost predicate AllDistinct(senders: map<nat, seq<Port>>) {
    forall id :: id in senders ==> Distinct(senders[id])
  }

  /** The live senders that list the port. */
  function Listing(senders: map<nat, seq<Port>>, p: Port): set<nat> {
    set id | id in senders && p in senders[id]
  }

  lemma ListingDrop(senders: map<nat, seq<Port>>, id: nat, p: Port)
    requires id in senders
    ensures |Listing(senders, p)| == |Listing(senders - {id}, p)| + if p in senders[id] then 1 else 0
  {
    var rest := Listing(senders - {id}, p);
    assert Listing(senders, p) == if p in senders[id] then rest + {id} else rest;
  }

  lemma {:induction false} DemandIsListing(senders: map<nat, seq<Port>>, p: Port)
    requires AllDistinct(senders)
    ensures Demand(senders, p) == |Listing(senders, p)|
    decreases senders.Keys
  {
    if senders == map[] {
      assert Requests(senders, p) == map[];
    } else {
      var id :| id in senders;
      var rest := senders - {id};
      DemandIsListing(rest, p);
      DemandDrop(senders, id, p);
      DistinctTimes(senders[id], p);
      ListingDrop(senders, id, p);
    }
  }

  // ---------------------------------------------------------------- runs

  /** The counts are right. */
  ghost predicate CountsOk(s: System) {
    && Conserved(s.ports, s.senders) && AllDistinct(s.senders)
    && Conserved(s.next, s.seen) && AllDistinct(s.seen)
  }

  /** The tunnel is as far as the round is. */
  ghost predicate TunnelOk(s: System) {
    match s.phase
    case Idle => s.current == s.next && s.tunnel == Forwards(Primary(s.current), 0)
    case Woken => s.current == s.next && s.tunnel == Forwards(Primary(s.current), 0)
    case InStopLoop(todo) => Stopping(s.current, s.next, s.tunnel, todo)
    case InStartLoop(todo) => Starting(s.current, s.next, s.tunnel, todo)
  }

  /** What has not been sent since the receiver woke up, it has seen or is about to. */
  ghost predicate NothingMissed(s: System) {
    !s.changed && s.phase != Woken ==> s.next == s.ports
  }

  ghost predicate Inv(s: System) { CountsOk(s) && TunnelOk(s) && NothingMissed(s) }

  /** No list handed in holds a port twice. */
  ghost predicate NoDuplicates(e: Event) { e.SetPorts? ==> Distinct(e.list) }

  lemma SenderKeeps(s: System, e: Event)
    requires CountsOk(s) && BySender(e) && Enabled(s, e) && NoDuplicates(e)
    ensures SenderStep(s, e).Some? && CountsOk(SenderStep(s, e).value)
  {
    match e {
      case Clone(_, id) => CloneConserves(s.ports, s.senders, id);
      case SetPorts(id, list) =>
        DistinctCompatible(s.senders[id], list);
        ReplaceConservesIff(s.ports, s.senders, id, list);
      case Drop(id) => DropConserves(s.ports, s.senders, id);
    }
  }

  lemma ReceiverKeeps(s: System, e: Event)
    requires TunnelOk(s) && !BySender(e) && Enabled(s, e)
    ensures TunnelOk(ReceiverStep(s, e))
  {
    match e {
      case Wake =>
      case Observe => StoppingBegins(s.current, s.ports, s.tunnel);
      case Stop(port) => StoppingTurn(s.current, s.next, s.tunnel, s.phase.todo, port);
      case Turn => StartingBegins(s.current, s.next, s.tunnel);
      case Start(port) => StartingTurn(s.current, s.next, s.tunnel, s.phase.todo, port);
      case Finish => StartingEnds(s.current, s.next, s.tunnel);
    }
  }

  /** No step panics, and every step keeps the counts and the tunnel right. */
  lemma StepKeeps(s: System, e: Event)
    requires Inv(s) && Enabled(s, e) && NoDuplicates(e)
    ensures Apply(s, e).Some? && Inv(Apply(s, e).value)
  {
    if BySender(e) { SenderKeeps(s, e); } else { ReceiverKeeps(s, e); }
  }

  lemma {:induction false} RunInv(states: seq<System>, events: seq<Event>, n: nat)
    requires IsRun(states, events) && n < |states|
    requires forall i :: 0 <= i < |events| ==> NoDuplicates(events[i])
    ensures Inv(states[n])
  {
    if n == 0 {
      forall p ensures Asked(START.ports, p) == Demand(START.senders, p) {
        assert Requests(START.senders, p) == map[][0 := 0];
        SumUpdate(map[], 0, 0);
      }
    } else {
      RunInv(states, events, n - 1);
      StepKeeps(states[n - 1], events[n - 1]);
    }
  }

  /** Over any run with lists free of duplicates: every count is the number of live
      senders that list the port, a port is in the map iff one of them lists it, the
      next step cannot panic, and once all senders are gone the map is empty. */
  lemma ReferenceCounts(states: seq<System>, events: seq<Event>, n: nat)
    requires IsRun(states, events) && n <= |events|
    requires forall i :: 0 <= i < |events| ==> NoDuplicates(events[i])
    ensures forall p :: Asked(states[n].ports, p) == |Listing(Lists(events, n), p)|
    ensures forall number :: number in states[n].ports <==>
              exists p: Port :: p.number == number && Listing(Lists(events, n), p) != {}
    ensures forall e :: Enabled(states[n], e) && NoDuplicates(e) ==> Apply(states[n], e).Some?
    ensures Lists(events, n) == map[] ==> states[n].ports == map[]
  {
    RunInv(states, events, n);
    SendersListed(states, events, n);
    var s := states[n];
    forall p ensures Asked(s.ports, p) == |Listing(s.senders, p)| {
      DemandIsListing(s.senders, p);
      assert Asked(s.ports, p) == Demand(s.senders, p);
    }
    forall number ensures number in s.ports <==> exists p: Port :: p.number == number && Listing(s.senders, p) != {} {
      PresentFromListing(s, number);
    }
    forall e | Enabled(s, e) && NoDuplicates(e) ensures Apply(s, e).Some? { StepKeeps(s, e); }
  }

  lemma PresentFromListing(s: System, number: nat)
    requires Tidy(s.ports) && forall p :: Asked(s.ports, p) == |Listing(s.senders, p)|
    ensures number in s.ports <==> exists p: Port :: p.number == number && Listing(s.senders, p) != {}
  {
    PresentIff(s.ports, number);
    if p: Port :| p.number == number && Listing(s.senders, p) != {} {
      assert Asked(s.ports, p) > 0;
      assert p == Port(number, Public) || p == Port(number, Private);
    }
    if number in s.ports {
      var p := if Asked(s.ports, Port(number, Public)) > 0 then Port(number, Public) else Port(number, Private);
      assert p.number == number && |Listing(s.senders, p)| > 0;
    }
  }

  ghost predicate SomebodyLists(senders: map<nat, seq<Port>>, p: Port) {
    exists id :: id in senders && p in senders[id]
  }

  /** What the tunnel should do for the senders: a port is forwarded iff some live
      sender lists it, and publicly iff one of them asked for that. */
  ghost predicate ForwardsExactly(tunnel: map<nat, Privacy>, senders: map<nat, seq<Port>>) {
    forall n ::
      && (n in tunnel <==> SomebodyLists(senders, Port(n, Public)) || SomebodyLists(senders, Port(n, Private)))
      && (n in tunnel ==> (tunnel[n] == Public <==> SomebodyLists(senders, Port(n, Public))))
  }

  /** The map at its primary privacies is what the senders ask for. */
  lemma PrimaryForwards(ports: PortMap, senders: map<nat, seq<Port>>)
    requires Conserved(ports, senders) && AllDistinct(senders)
    ensures ForwardsExactly(Primary(ports), senders)
  {
    forall p ensures Asked(ports, p) > 0 <==> SomebodyLists(senders, p) {
      DemandIsListing(senders, p);
      assert Asked(ports, p) == |Listing(senders, p)|;
      if SomebodyLists(senders, p) {
        var id :| id in senders && p in senders[id];
        assert id in Listing(senders, p);
      } else {
        assert Listing(senders, p) == {};
      }
    }
    forall n ensures n in ports <==> Asked(ports, Port(n, Public)) > 0 || Asked(ports, Port(n, Private)) > 0 {
      PresentIff(ports, n);
    }
  }

  /** The two groups of senders want the same ports, equally public. */
  ghost predicate SameWishes(a: map<nat, seq<Port>>, b: map<nat, seq<Port>>) {
    forall n: nat ::
      && (SomebodyLists(a, Port(n, Public)) <==> SomebodyLists(b, Port(n, Public)))
      && (SomebodyLists(a, Port(n, Private)) || SomebodyLists(a, Port(n, Public)) <==>
          SomebodyLists(b, Port(n, Private)) || SomebodyLists(b, Port(n, Public)))
  }

  lemma ForwardsIff(tunnel: map<nat, Privacy>, a: map<nat, seq<Port>>, b: map<nat, seq<Port>>)
    requires ForwardsExactly(tunnel, a)
    ensures ForwardsExactly(tunnel, b) <==> SameWishes(a, b)
  {
    if ForwardsExactly(tunnel, b) {
      forall n: nat
        ensures SomebodyLists(a, Port(n, Public)) <==> SomebodyLists(b, Port(n, Public))
        ensures SomebodyLists(a, Port(n, Private)) || SomebodyLists(a, Port(n, Public)) <==>
                SomebodyLists(b, Port(n, Private)) || SomebodyLists(b, Port(n, Public))
      {
        assert n in tunnel <==> SomebodyLists(a, Port(n, Public)) || SomebodyLists(a, Port(n, Private));
      }
    }
  }

  predicate UnderWay(s: System) { s.phase.InStopLoop? || s.phase.InStartLoop? }

  /** A round under way began at an observation, the last one so far. */
  ghost predicate BeganAt(states: seq<System>, events: seq<Event>, m: nat, k: nat)
    requires m < k < |states| && k <= |events|
  {
    && events[m] == Observe && (forall j :: m < j < k ==> events[j] != Observe && events[j] != Finish)
    && states[k].next == states[m].ports && states[k].seen == states[m].senders
  }

  lemma StillUnderWay(s: System, e: Event, t: System)
    requires Enabled(s, e) && Apply(s, e) == Some(t) && e != Observe && UnderWay(t)
    ensures UnderWay(s) && e != Finish && t.next == s.next && t.seen == s.seen
  {
  }

  lemma {:induction false} RoundBegan(states: seq<System>, events: seq<Event>, k: nat) returns (m: nat)
    requires IsRun(states, events) && k < |states| && UnderWay(states[k])
    ensures m < k && BeganAt(states, events, m, k)
    decreases k
  {
    assert k > 0 by { assert states[0] == START; }
    if events[k - 1] == Observe {
      m := k - 1;
    } else {
      StillUnderWay(states[k - 1], events[k - 1], states[k]);
      m := RoundBegan(states, events, k - 1);
      BeganBefore(states, events, m, k - 1);
    }
  }

  lemma BeganBefore(states: seq<System>, events: seq<Event>, m: nat, k: nat)
    requires m < k < |states| - 1 && k < |events| && BeganAt(states, events, m, k)
    requires events[k] != Observe && events[k] != Finish
    requires states[k + 1].next == states[k].next && states[k + 1].seen == states[k].seen
    ensures BeganAt(states, events, m, k + 1)
  {
  }

  /** End to end: when a round ends, whatever the senders did meanwhile, the tunnel has
      refused nothing and forwards exactly the ports the senders listed at the moment
      the round observed them, publicly iff one of them asked so; and this is what the
      senders live at the end want iff their wishes are still the same. */
  lemma EndToEnd(states: seq<System>, events: seq<Event>, n: nat) returns (m: nat)
    requires IsRun(states, events) && n < |events| && events[n] == Finish
    requires forall i :: 0 <= i < |events| ==> NoDuplicates(events[i])
    ensures m < n && BeganAt(states, events, m, n)
    ensures states[n + 1].tunnel == Forwards(Primary(states[m].ports), 0)
    ensures ForwardsExactly(states[n + 1].tunnel.forwarded, Lists(events, m))
    ensures ForwardsExactly(states[n + 1].tunnel.forwarded, Lists(events, n + 1)) <==>
              SameWishes(Lists(events, m), Lists(events, n + 1))
  {
    m := RoundBegan(states, events, n);
    RunInv(states, events, m);
    RunInv(states, events, n + 1);
    SendersListed(states, events, m);
    RoundForwards(states[m], states[n], states[n + 1], Lists(events, n + 1));
  }

  /** What a round that ends does for what it observed. */
  lemma RoundForwards(o: System, s: System, t: System, senders: map<nat, seq<Port>>)
    requires CountsOk(o) && TunnelOk(t) && s.next == o.ports && Enabled(s, Finish) && Apply(s, Finish) == Some(t)
    ensures t.tunnel == Forwards(Primary(o.ports), 0) && ForwardsExactly(t.tunnel.forwarded, o.senders)
    ensures ForwardsExactly(t.tunnel.forwarded, senders) <==> SameWishes(o.senders, senders)
  {
    PrimaryForwards(o.ports, o.senders);
    ForwardsIff(t.tunnel.forwarded, o.senders, senders);
  }

  /** Nothing is forgotten: when the receiver waits and nothing was sent since it last woke
      up, the tunnel forwards exactly what the live senders list, and no more is refused. */
  lemma CaughtUp(states: seq<System>, events: seq<Event>, n: nat)
    requires IsRun(states, events) && n <= |events| && states[n].phase == Idle && !states[n].changed
    requires forall i :: 0 <= i < |events| ==> NoDuplicates(events[i])
    ensures ForwardsExactly(states[n].tunnel.forwarded, Lists(events, n))
  {
    SendersListed(states, events, n);
    RunInv(states, events, n);
    PrimaryForwards(states[n].ports, states[n].senders);
  }

  /** What the receiver has left to do until it waits with nothing new. */
  function Left(s: System): nat {
    var now := match s.phase
      case Idle => 0
      case Woken => 3 + |s.current| + |s.ports|
      case InStopLoop(todo) => 2 + |todo| + |s.next|
      case InStartLoop(todo) => 1 + |todo|;
    var again := if s.changed then 4 + |s.ports| + (if s.phase == Woken then |s.ports| else |s.next|) else 0;
    now + again
  }

  lemma ReceiverLess(s: System, e: Event)
    requires TunnelOk(s) && !BySender(e) && Enabled(s, e)
    ensures Left(ReceiverStep(s, e)) < Left(s)
  {
    KeysCount(s.current);
    KeysCount(s.next);
    if e.Stop? || e.Start? { TodoLess(s.phase.todo, e.port); }
  }

  lemma KeysCount(v: PortMap)
    ensures |v.Keys| == |v|
  {
  }

  lemma TodoLess(todo: set<nat>, port: nat)
    requires port in todo
    ensures |todo - {port}| == |todo| - 1
  {
  }

  lemma ReceiverGoesOn(s: System) returns (e: Event)
    requires TunnelOk(s) && (s.phase != Idle || s.changed)
    ensures !BySender(e) && Enabled(s, e)
  {
    match s.phase
    case Idle => e := Wake;
    case Woken => e := Observe;
    case InStopLoop(todo) =>
      if todo == {} { e := Turn; } else { var port :| port in todo; e := Stop(port); }
    case InStartLoop(todo) =>
      if todo == {} { e := Finish; } else { var port :| port in todo; e := Start(port); }
  }

  /** All interleavings are runs: in every state of a run live senders may be cloned, given
      lists and dropped, whatever the receiver is doing, and the receiver goes on unless
      it waits with nothing new. */
  lemma AnyInterleaving(states: seq<System>, events: seq<Event>, n: nat, id: nat)
    requires IsRun(states, events) && n <= |events|
    requires forall i :: 0 <= i < |events| ==> NoDuplicates(events[i])
    ensures id in Lists(events, n) ==>
              Enabled(states[n], Drop(id)) && forall list :: Enabled(states[n], SetPorts(id, list))
    ensures forall from :: from in Lists(events, n) && id !in Lists(events, n) ==> Enabled(states[n], Clone(from, id))
    ensures states[n].phase != Idle || states[n].changed ==> exists e :: !BySender(e) && Enabled(states[n], e)
  {
    RunInv(states, events, n);
    SendersListed(states, events, n);
    if states[n].phase != Idle || states[n].changed { var e := ReceiverGoesOn(states[n]); }
  }

  lemma {:induction false} ReceiverBounded(states: seq<System>, events: seq<Event>, m: nat)
    requires IsRun(states, events) && m <= |events|
    requires forall i :: 0 <= i < |events| ==> NoDuplicates(events[i])
    requires forall i :: m <= i < |events| ==> !BySender(events[i])
    ensures |events| - m + Left(states[|events|]) <= Left(states[m])
    decreases |events| - m
  {
    if m < |events| {
      ReceiverBounded(states, events, m + 1);
      RunInv(states, events, m);
      ReceiverLess(states[m], events[m]);
    }
  }

  /** The tunnel catches up: once the senders keep still, the receiver takes a bounded
      number of steps, in any order, and when it cannot go on the tunnel forwards exactly
      what the live senders list. */
  lemma TunnelCatchesUp(states: seq<System>, events: seq<Event>, m: nat)
    requires IsRun(states, events) && m <= |events|
    requires forall i :: 0 <= i < |events| ==> NoDuplicates(events[i])
    requires forall i :: m <= i < |events| ==> !BySender(events[i])
    ensures |events| - m <= Left(states[m])
    ensures var t := states[|events|];
            (forall e :: !BySender(e) ==> !Enabled(t, e)) ==>
              ForwardsExactly(t.tunnel.forwarded, Lists(events, |events|))
  {
    ReceiverBounded(states, events, m);
    var t := states[|events|];
    RunInv(states, events, |events|);
    if forall e :: !BySender(e) ==> !Enabled(t, e) {
      assert t.phase == Idle && !t.changed by {
        if t.phase != Idle || t.changed { var e := ReceiverGoesOn(t); }
      }
      CaughtUp(states, events, |events|);
    }
  }

  /** At no time does the tunnel refuse an operation. */
  lemma NothingRefused(states: seq<System>, events: seq<Event>, n: nat)
    requires IsRun(states, events) && n < |states|
    requires forall i :: 0 <= i < |events| ==> NoDuplicates(events[i])
    ensures states[n].tunnel.errors == 0
  {
    RunInv(states, events, n);
  }

  // ---------------------------------------------------------------- lists with duplicates

  ghost predicate Reachable(s: System) {
    exists states, events :: IsRun(states, events) && states[|events|] == s
  }

  lemma ReachStart()
    ensures Reachable(START)
  {
    assert IsRun([START], []);
  }

  lemma ReachStep(s: System, e: Event, t: System)
    requires Reachable(s) && Enabled(s, e) && Apply(s, e) == Some(t)
    ensures Reachable(t)
  {
    var states, events :| IsRun(states, events) && states[|events|] == s;
    var states1, events1 := states + [t], events + [e];
    assert IsRun(states1, events1) && states1[|events1|] == t;
  }

  /** Before the receiver has observed anything. */
  function WithPorts(v: PortMap, senders: map<nat, seq<Port>>): System {
    START.(ports := v, senders := senders, changed := true)
  }

  /** Listed twice, then once, then not at all: the port is never given back. */
  lemma DuplicateLeaks(p: Port)
    ensures exists s :: Reachable(s) && s.senders == map[] && p.number in s.ports
  {
    var v1, v2, v3 := LeakSteps(p);
    var s1 := WithPorts(v1, map[0 := [p, p]]);
    var s2 := WithPorts(v2, map[0 := [p]]);
    var s3 := WithPorts(v3, map[0 := [p]] - {0});
    ReachStart();
    Sets(START, s1, [p, p]);
    Sets(s1, s2, [p]);
    ReachStep(s2, Drop(0), s3);
  }

  /** A lone sender replaces its list. */
  lemma Sets(s: System, t: System, list: seq<Port>)
    requires 0 in s.senders && s.senders == map[0 := s.senders[0]] && t.senders == map[0 := list]
    requires t == s.(ports := t.ports, senders := t.senders, changed := true)
    requires Replace(s.ports, s.senders[0], list) == Some(t.ports)
    requires Reachable(s)
    ensures Reachable(t)
  {
    assert s.senders[0 := list] == t.senders;
    ReachStep(s, SetPorts(0, list), t);
  }

  lemma LeakSteps(p: Port) returns (v1: PortMap, v2: PortMap, v3: PortMap)
    ensures Replace(map[], [], [p, p]) == Some(v1) && Replace(v1, [p, p], [p]) == Some(v2)
    ensures Replace(v2, [p], []) == Some(v3) && p.number in v3
  {
    assert Times([p, p], p) == 2 && Times([p], p) == 1;
    ReplaceEffect(map[], [], [p, p]);
    v1 := Replace(map[], [], [p, p]).value;
    ReplaceEffect(v1, [p, p], [p]);
    assert forall q :: q !in [p] ==> Times([p, p], q) == 0;
    v2 := Replace(v1, [p, p], [p]).value;
    assert Asked(v2, p) == 2;
    ReplaceEffect(v2, [p], []);
    assert forall q :: q != p ==> Times([p], q) == 0;
    v3 := Replace(v2, [p], []).value;
    assert Asked(v3, p) == 1;
  }

  /** Listed once, then twice: giving it up panics. */
  lemma DuplicatePanics(p: Port)
    ensures exists s :: Reachable(s) && s.senders == map[0 := [p, p]] && Apply(s, Drop(0)).None?
  {
    var v1, v2 := PanicSteps(p);
    var s1, s2 := WithPorts(v1, map[0 := [p]]), WithPorts(v2, map[0 := [p, p]]);
    ReachStart();
    Sets(START, s1, [p]);
    Sets(s1, s2, [p, p]);
    assert Apply(s2, Drop(0)).None?;
  }

  lemma PanicSteps(p: Port) returns (v1: PortMap, v2: PortMap)
    ensures Replace(map[], [], [p]) == Some(v1) && Replace(v1, [p], [p, p]) == Some(v2)
    ensures Replace(v2, [p, p], []).None?
  {
    assert Times([p, p], p) == 2 && Times([p], p) == 1;
    ReplaceEffect(map[], [], [p]);
    v1 := Replace(map[], [], [p]).value;
    ReplaceEffect(v1, [p], [p, p]);
    assert forall q :: q !in [p, p] ==> Times([p], q) == 0;
    v2 := Replace(v1, [p], [p, p]).value;
    assert Asked(v2, p) == 1;
    ReplaceEffect(v2, [p, p], []);
  }

  /** A sender that gives its port up while the round is under way: the round ends with
      a port forwarded that nobody lists. */
  lemma StaleAfterRound(p: Port)
    ensures exists s :: Reachable(s) && s.phase == Idle && p.number in s.tunnel.forwarded && s.senders == map[0 := []]
  {
    var v1, v2 := StaleSteps(p);
    var s1 := WithPorts(v1, map[0 := [p]]);
    var s2 := s1.(changed := false, phase := Woken);
    var s3 := s2.(next := v1, seen := map[0 := [p]], phase := InStopLoop({}));
    var s4 := s3.(phase := InStartLoop(v1.Keys));
    var s5 := s4.(tunnel := Added(NOTHING, p.number, v1[p.number].PrimaryPrivacy()), phase := InStartLoop({}));
    var s6 := s5.(ports := v2, senders := map[0 := []], changed := true);
    ReachStart();
    Sets(START, s1, [p]);
    StaleRound(s2, s3, s5, p.number);
    ReachStep(s1, Wake, s2);
    ReachStep(s2, Observe, s3);
    ReachStep(s3, Turn, s4);
    ReachStep(s4, Start(p.number), s5);
    Sets(s5, s6, []);
    ReachStep(s6, Finish, s6.(current := v1, phase := Idle));
  }

  lemma StaleRound(s2: System, s3: System, s5: System, n: nat)
    requires s2.current == map[] && s2.phase == Woken && s2.tunnel == NOTHING && s2.ports.Keys == {n}
    requires s3 == s2.(next := s2.ports, seen := s2.senders, phase := InStopLoop({}))
    requires s5 == s3.(tunnel := Added(NOTHING, n, s2.ports[n].PrimaryPrivacy()), phase := InStartLoop({}))
    ensures Apply(s2, Observe) == Some(s3)
    ensures Apply(s3.(phase := InStartLoop(s2.ports.Keys)), Start(n)) == Some(s5)
  {
    assert s2.current.Keys == {};
    assert s2.ports.Keys - {n} == {};
  }

  lemma StaleSteps(p: Port) returns (v1: PortMap, v2: PortMap)
    ensures Replace(map[], [], [p]) == Some(v1) && Replace(v1, [p], []) == Some(v2) && v1.Keys == {p.number}
  {
    assert Times([p], p) == 1 && forall q :: q != p ==> Times([p], q) == 0;
    ReplaceEffect(map[], [], [p]);
    v1 := Replace(map[], [], [p]).value;
    ReplaceEffect(v1, [p], []);
    v2 := Replace(v1, [p], []).value;
    forall n ensures n in v1 <==> n == p.number {
      PresentIff(v1, n);
      assert Asked(v1, Port(n, Public)) == (if Port(n, Public) == p then 1 else 0);
      assert Asked(v1, Port(n, Private)) == (if Port(n, Private) == p then 1 else 0);
      assert n == p.number ==> p == Port(n, Public) || p == Port(n, Private);
    }
  }
}
