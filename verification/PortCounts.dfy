/** The shared count map of port forwarding: how often each port is asked for, publicly
    and privately, by all senders together. */
module PortCounts {
  import opened Prelude

  datatype Privacy = Public | Private

  /** `PortRec`. */
  datatype Port = Port(number: nat, privacy: Privacy)

  /** `PortCount`. */
  datatype PortCount = PortCount(public: nat, private: nat) {
    function At(privacy: Privacy): nat {
      match privacy case Public => public case Private => private
    }

    function With(privacy: Privacy, n: nat): PortCount {
      match privacy case Public => this.(public := n) case Private => this.(private := n)
    }

    predicate IsEmpty() { public == 0 && private == 0 }

    function PrimaryPrivacy(): Privacy { if public > 0 then Public else Private }
  }

  type PortMap = map<nat, PortCount>

  /** How often the map counts the port. */
  function Asked(v: PortMap, p: Port): nat {
    if p.number in v then v[p.number].At(p.privacy) else 0
  }

  /** No port stays in the map with nobody asking for it. */
  ghost predicate Tidy(v: PortMap) {
    forall n :: n in v ==> !v[n].IsEmpty()
  }

  /** A port is in a tidy map iff somebody asks for it. */
  lemma PresentIff(v: PortMap, number: nat)
    requires Tidy(v)
    ensures number in v <==> Asked(v, Port(number, Public)) > 0 || Asked(v, Port(number, Private)) > 0
  {
  }

  /** Fails where the code panics: no such port, or nothing left to take away. */
  function Release(v: PortMap, p: Port): Option<PortMap> {
    if p.number !in v || v[p.number].At(p.privacy) == 0 then None
    else
      var n := v[p.number].With(p.privacy, v[p.number].At(p.privacy) - 1);
      Some(if n.IsEmpty() then v - {p.number} else v[p.number := n])
  }

  function Acquire(v: PortMap, p: Port): PortMap {
    if p.number in v then v[p.number := v[p.number].With(p.privacy, v[p.number].At(p.privacy) + 1)]
    else v[p.number := PortCount(0, 0).With(p.privacy, 1)]
  }

  lemma ReleaseEffect(v: PortMap, p: Port)
    requires Tidy(v)
    ensures Release(v, p).Some? <==> Asked(v, p) > 0
    ensures Asked(v, p) > 0 ==> Tidy(Release(v, p).value)
    ensures Asked(v, p) > 0 ==> forall q :: Asked(Release(v, p).value, q) == Asked(v, q) - if q == p then 1 else 0
  {
  }

  lemma AcquireEffect(v: PortMap, p: Port)
    requires Tidy(v)
    ensures Tidy(Acquire(v, p))
    ensures forall q :: Asked(Acquire(v, p), q) == Asked(v, q) + if q == p then 1 else 0
  {
  }

  // ---------------------------------------------------------------- whole lists

  /** The ports of the list that are not in the other one. */
  function Minus(list: seq<Port>, other: seq<Port>): seq<Port> {
    if list == [] then []
    else Minus(list[..|list| - 1], other) + if list[|list| - 1] in other then [] else [list[|list| - 1]]
  }

  function ReleaseAll(v: PortMap, list: seq<Port>): Option<PortMap>
    decreases |list|
  {
    if list == [] then Some(v)
    else
      var w := ReleaseAll(v, list[..|list| - 1]);
      if w.None? then None else Release(w.value, list[|list| - 1])
  }

  function AcquireAll(v: PortMap, list: seq<Port>): PortMap
    decreases |list|
  {
    if list == [] then v else Acquire(AcquireAll(v, list[..|list| - 1]), list[|list| - 1])
  }

  /** What `set_ports` makes of the map when the sender's list is replaced. */
  function Replace(v: PortMap, current: seq<Port>, ports: seq<Port>): Option<PortMap> {
    var w := ReleaseAll(v, Minus(current, ports));
    if w.None? then None else Some(AcquireAll(w.value, Minus(ports, current)))
  }

  function Times(list: seq<Port>, p: Port): nat { multiset(list)[p] }

  lemma TimesLast(list: seq<Port>, p: Port)
    requires list != []
    ensures Times(list, p) == Times(list[..|list| - 1], p) + if list[|list| - 1] == p then 1 else 0
  {
    assert list == list[..|list| - 1] + [list[|list| - 1]];
  }

  lemma {:induction false} MinusTimes(list: seq<Port>, other: seq<Port>, p: Port)
    ensures Times(Minus(list, other), p) == if p in other then 0 else Times(list, p)
    decreases |list|
  {
    if list != [] {
      var front, last := list[..|list| - 1], list[|list| - 1];
      MinusTimes(front, other, p);
      TimesLast(list, p);
      if last !in other {
        assert Minus(list, other)[..|Minus(list, other)| - 1] == Minus(front, other);
        TimesLast(Minus(list, other), p);
      }
    }
  }

  /** The map after a list was released. */
  ghost predicate Released(v: PortMap, list: seq<Port>, w: PortMap) {
    Tidy(w) && forall q :: Asked(w, q) == Asked(v, q) - Times(list, q)
  }

  lemma {:induction false} ReleaseAllEffect(v: PortMap, list: seq<Port>)
    requires Tidy(v)
    ensures ReleaseAll(v, list).Some? <==> forall q :: Times(list, q) <= Asked(v, q)
    ensures ReleaseAll(v, list).Some? ==> Released(v, list, ReleaseAll(v, list).value)
    decreases |list|
  {
    if list != [] {
      var front, last := list[..|list| - 1], list[|list| - 1];
      ReleaseAllEffect(v, front);
      forall q ensures Times(list, q) == Times(front, q) + if last == q then 1 else 0 { TimesLast(list, q); }
      var w := ReleaseAll(v, front);
      if w.Some? {
        ReleaseEffect(w.value, last);
        assert Asked(w.value, last) == Asked(v, last) - Times(front, last);
      } else {
        var q :| Times(front, q) > Asked(v, q);
        assert Times(list, q) > Asked(v, q);
      }
    }
  }

  lemma {:induction false} AcquireAllEffect(v: PortMap, list: seq<Port>, q: Port)
    requires Tidy(v)
    ensures Tidy(AcquireAll(v, list)) && Asked(AcquireAll(v, list), q) == Asked(v, q) + Times(list, q)
    decreases |list|
  {
    if list != [] {
      var front, last := list[..|list| - 1], list[|list| - 1];
      AcquireAllEffect(v, front, q);
      TimesLast(list, q);
      AcquireEffect(AcquireAll(v, front), last);
    }
  }

  /** Replacing a list: it fails iff some port given up was counted too few times, and
      otherwise counts fall by what was given up and rise by what is new. */
  lemma ReplaceEffect(v: PortMap, current: seq<Port>, ports: seq<Port>)
    requires Tidy(v)
    ensures Replace(v, current, ports).Some? <==> forall q :: q !in ports ==> Times(current, q) <= Asked(v, q)
    ensures Replace(v, current, ports).Some? ==>
      && Tidy(Replace(v, current, ports).value)
      && forall q :: Asked(Replace(v, current, ports).value, q) ==
           Asked(v, q) - (if q in ports then 0 else Times(current, q)) + (if q in current then 0 else Times(ports, q))
  {
    var gone, new_ := Minus(current, ports), Minus(ports, current);
    forall q ensures Times(gone, q) == if q in ports then 0 else Times(current, q) { MinusTimes(current, ports, q); }
    forall q ensures Times(new_, q) == if q in current then 0 else Times(ports, q) { MinusTimes(ports, current, q); }
    ReleaseAllEffect(v, gone);
    var w := ReleaseAll(v, gone);
    if w.Some? {
      forall q
        ensures Tidy(AcquireAll(w.value, new_))
        ensures Asked(AcquireAll(w.value, new_), q) == Asked(w.value, q) + Times(new_, q)
      {
        AcquireAllEffect(w.value, new_, q);
      }
    }
  }
}
