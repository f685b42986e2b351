/** Senders that share one count map, and the receiver that makes a tunnel follow it. */
module PortForwarding {
  import opened Prelude
  import opened PortCounts

  // ---------------------------------------------------------------- the senders

  lemma {:induction false} ReleaseFails(v: PortMap, list: seq<Port>, other: seq<Port>, n: nat)
    requires n <= |list| && ReleaseAll(v, Minus(list[..n], other)).None?
    ensures ReleaseAll(v, Minus(list, other)).None?
    decreases |list| - n
  {
    if n == |list| {
      assert list[..n] == list;
    } else {
      MinusNext(list, other, n);
      assert ReleaseAll(v, Minus(list[..n + 1], other)).None?;
      ReleaseFails(v, list, other, n + 1);
    }
  }

  lemma MinusNext(list: seq<Port>, other: seq<Port>, n: nat)
    requires n < |list|
    ensures var m, m1 := Minus(list[..n], other), Minus(list[..n + 1], other);
            if list[n] in other then m1 == m else m1 != [] && m1[..|m1| - 1] == m && m1[|m1| - 1] == list[n]
  {
    assert list[..n + 1][..n] == list[..n];
  }

  /** The value of the watch channel. */
  class Watch {
    var ports: PortMap

    constructor ()
      ensures ports == map[]
    {
      ports := map[];
    }
  }

  class Sender {
    var current: seq<Port>
    const sender: Watch

    constructor (sender: Watch)
      ensures this.sender == sender && current == []
    {
      this.sender, current := sender, [];
    }

    /** Gives up the ports that are not listed any more; false where the code panics. */
    method GiveUp(ports: seq<Port>) returns (ok: bool)
      modifies sender
      ensures var r := ReleaseAll(old(sender.ports), Minus(current, ports));
              ok == r.Some? && (ok ==> sender.ports == r.value)
    {
      for i := 0 to |current|
        invariant ReleaseAll(old(sender.ports), Minus(current[..i], ports)) == Some(sender.ports)
      {
        MinusNext(current, ports, i);
        var p := current[i];
        if p !in ports {
          if p.number !in sender.ports || sender.ports[p.number].At(p.privacy) == 0 {
            ReleaseFails(old(sender.ports), current, ports, i + 1);
            return false;
          }
          var n := sender.ports[p.number].With(p.privacy, sender.ports[p.number].At(p.privacy) - 1);
          ghost var before := sender.ports;
          sender.ports := sender.ports[p.number := n];
          if n.IsEmpty() {
            assert sender.ports - {p.number} == before - {p.number};
            sender.ports := sender.ports - {p.number};
          }
        }
      }
      assert current[..|current|] == current;
      ok := true;
    }

    /** Asks for the ports that are newly listed. */
    method Ask(ports: seq<Port>)
      modifies sender
      ensures sender.ports == AcquireAll(old(sender.ports), Minus(ports, current))
    {
      for i := 0 to |ports|
        invariant sender.ports == AcquireAll(old(sender.ports), Minus(ports[..i], current))
      {
        MinusNext(ports, current, i);
        var p := ports[i];
        if p !in current {
          if p.number in sender.ports {
            var n := sender.ports[p.number];
            sender.ports := sender.ports[p.number := n.With(p.privacy, n.At(p.privacy) + 1)];
          } else {
            sender.ports := sender.ports[p.number := PortCount(0, 0).With(p.privacy, 1)];
          }
        }
      }
      assert ports[..|ports|] == ports;
    }

    /** `set_ports`. */
    method SetPorts(ports: seq<Port>) returns (ok: bool)
      modifies this, sender
      ensures var r := Replace(old(sender.ports), old(current), ports);
              ok == r.Some? && (ok ==> sender.ports == r.value && current == ports)
    {
      ok := GiveUp(ports);
      if ok {
        Ask(ports);
        current := ports;
      }
    }

    /** `clone`: a sender of the same map that lists nothing. */
    method Clone() returns (s: Sender)
      ensures fresh(s) && s.sender == sender && s.current == []
    {
      s := new Sender(sender);
    }

    /** `drop`. */
    method Drop() returns (ok: bool)
      modifies this, sender
      ensures var r := Replace(old(sender.ports), old(current), []);
              ok == r.Some? && (ok ==> sender.ports == r.value && current == [])
    {
      ok := SetPorts([]);
    }
  }

  // ---------------------------------------------------------------- the tunnel

  /** What the tunnel forwards, and how often it refused: forwarding a port twice, or
      stopping one that is not forwarded, is an error. */
  datatype Forwards = Forwards(forwarded: map<nat, Privacy>, errors: nat)

  const NOTHING := Forwards(map[], 0)

  function Added(f: Forwards, port: nat, privacy: Privacy): Forwards {
    if port in f.forwarded then f.(errors := f.errors + 1) else f.(forwarded := f.forwarded[port := privacy])
  }

  function Removed(f: Forwards, port: nat): Forwards {
    if port in f.forwarded then f.(forwarded := f.forwarded - {port}) else f.(errors := f.errors + 1)
  }

  // ---------------------------------------------------------------- one round, port by port

  /** Every port of the map at its primary privacy. */
  function Primary(v: PortMap): map<nat, Privacy> {
    map n | n in v :: v[n].PrimaryPrivacy()
  }

  /** The map has the port at this privacy. */
  predicate Matches(v: PortMap, port: nat, privacy: Privacy) {
    port in v && v[port].PrimaryPrivacy() == privacy
  }

  /** The ports that stay as they are. */
  predicate Stays(current: PortMap, next: PortMap, port: nat) {
    port in current && Matches(next, port, current[port].PrimaryPrivacy())
  }

  /** One turn of the first loop: stop what is gone or has another privacy. */
  function StopOne(current: PortMap, next: PortMap, f: Forwards, port: nat): Forwards
    requires port in current
  {
    if Matches(next, port, current[port].PrimaryPrivacy()) then f else Removed(f, port)
  }

  /** One turn of the second loop: start what is new or was stopped. */
  function StartOne(current: PortMap, next: PortMap, f: Forwards, port: nat): Forwards
    requires port in next
  {
    if Matches(current, port, next[port].PrimaryPrivacy()) then f else Added(f, port, next[port].PrimaryPrivacy())
  }

  /** The first loop has the ports in `todo` still to look at. */
  ghost predicate Stopping(current: PortMap, next: PortMap, f: Forwards, todo: set<nat>) {
    && todo <= current.Keys && f.errors == 0
    && (forall n :: n in f.forwarded <==> n in todo || Stays(current, next, n))
    && (forall n :: n in f.forwarded ==> n in current && f.forwarded[n] == current[n].PrimaryPrivacy())
  }

  /** The second loop has the ports in `todo` still to look at. */
  ghost predicate Starting(current: PortMap, next: PortMap, f: Forwards, todo: set<nat>) {
    && todo <= next.Keys && f.errors == 0
    && (forall n :: n in f.forwarded <==> (n in next && n !in todo) || Stays(current, next, n))
    && (forall n :: n in f.forwarded ==> n in next && f.forwarded[n] == next[n].PrimaryPrivacy())
  }

  lemma StoppingBegins(current: PortMap, next: PortMap, f: Forwards)
    requires f == Forwards(Primary(current), 0)
    ensures Stopping(current, next, f, current.Keys)
  {
  }

  lemma StoppingTurn(current: PortMap, next: PortMap, f: Forwards, todo: set<nat>, port: nat)
    requires Stopping(current, next, f, todo) && port in todo
    ensures Stopping(current, next, StopOne(current, next, f, port), todo - {port})
  {
  }

  lemma StartingBegins(current: PortMap, next: PortMap, f: Forwards)
    requires Stopping(current, next, f, {})
    ensures Starting(current, next, f, next.Keys)
  {
  }

  lemma StartingTurn(current: PortMap, next: PortMap, f: Forwards, todo: set<nat>, port: nat)
    requires Starting(current, next, f, todo) && port in todo
    ensures Starting(current, next, StartOne(current, next, f, port), todo - {port})
  {
  }

  /** Then the tunnel forwards exactly the new map, and has refused nothing. */
  lemma StartingEnds(current: PortMap, next: PortMap, f: Forwards)
    requires Starting(current, next, f, {})
    ensures f == Forwards(Primary(next), 0)
  {
    assert f.forwarded == Primary(next);
  }

  // ---------------------------------------------------------------- the receiver

  class Tunnel {
    var forwarded: map<nat, Privacy>
    var errors: nat

    ghost function View(): Forwards
      reads this
    {
      Forwards(forwarded, errors)
    }

    constructor ()
      ensures View() == NOTHING
    {
      forwarded, errors := map[], 0;
    }

    method AddPort(port: nat, privacy: Privacy)
      modifies this
      ensures View() == Added(old(View()), port, privacy)
    {
      if port in forwarded { errors := errors + 1; } else { forwarded := forwarded[port := privacy]; }
    }

    method RemovePort(port: nat)
      modifies this
      ensures View() == Removed(old(View()), port)
    {
      if port in forwarded { forwarded := forwarded - {port}; } else { errors := errors + 1; }
    }
  }

  /** The first loop, in any order. */
  method StopOld(current: PortMap, next: PortMap, tunnel: Tunnel)
    requires tunnel.View() == Forwards(Primary(current), 0)
    modifies tunnel
    ensures Stopping(current, next, tunnel.View(), {})
  {
    var todo := current.Keys;
    StoppingBegins(current, next, tunnel.View());
    while todo != {}
      invariant Stopping(current, next, tunnel.View(), todo)
    {
      var port :| port in todo;
      StoppingTurn(current, next, tunnel.View(), todo, port);
      if !Matches(next, port, current[port].PrimaryPrivacy()) {
        tunnel.RemovePort(port);
      }
      todo := todo - {port};
    }
  }

  /** The second loop, in any order. */
  method StartNew(current: PortMap, next: PortMap, tunnel: Tunnel)
    requires Stopping(current, next, tunnel.View(), {})
    modifies tunnel
    ensures tunnel.View() == Forwards(Primary(next), 0)
  {
    var todo := next.Keys;
    StartingBegins(current, next, tunnel.View());
    while todo != {}
      invariant Starting(current, next, tunnel.View(), todo)
    {
      var port :| port in todo;
      StartingTurn(current, next, tunnel.View(), todo, port);
      if !Matches(current, port, next[port].PrimaryPrivacy()) {
        tunnel.AddPort(port, next[port].PrimaryPrivacy());
      }
      todo := todo - {port};
    }
    StartingEnds(current, next, tunnel.View());
  }

  /** One round of `apply_to`: whatever the order in which the maps are walked, the
      tunnel ends up forwarding exactly what the new map says, and is never asked to
      forward a port twice or to stop one it does not forward. */
  method ApplyRound(current: PortMap, next: PortMap, tunnel: Tunnel)
    requires tunnel.View() == Forwards(Primary(current), 0)
    modifies tunnel
    ensures tunnel.View() == Forwards(Primary(next), 0)
  {
    StopOld(current, next, tunnel);
    StartNew(current, next, tunnel);
  }
}
