/** Finite directed graphs over numbered nodes, given by their edge sets: paths,
    reachability, and the two facts about cycles that the loader proofs need. */
module Graph {

  type Edges = set<(nat, nat)>

  ghost predicate IsPath(g: Edges, p: seq<nat>) {
    && |p| >= 1
    && forall i :: 0 <= i < |p| - 1 ==> (p[i], p[i + 1]) in g
  }

  ghost predicate Connects(g: Edges, p: seq<nat>, x: nat, y: nat) {
    IsPath(g, p) && p[0] == x && p[|p| - 1] == y
  }

  /** A path of zero or more edges. */
  ghost predicate Reaches(g: Edges, x: nat, y: nat) {
    exists p :: Connects(g, p, x, y)
  }

  /** A path of at least one edge. */
  ghost predicate ReachesByEdge(g: Edges, x: nat, y: nat) {
    exists p :: Connects(g, p, x, y) && |p| >= 2
  }

  ghost predicate Acyclic(g: Edges) {
    forall x :: !ReachesByEdge(g, x, x)
  }

  lemma ReachesSelf(g: Edges, x: nat)
    ensures Reaches(g, x, x)
  {
    assert Connects(g, [x], x, x);
  }

  lemma ReachesOne(g: Edges, x: nat, y: nat)
    requires (x, y) in g
    ensures ReachesByEdge(g, x, y) && Reaches(g, x, y)
  {
    assert Connects(g, [x, y], x, y);
  }

  lemma ConnectsJoin(g: Edges, p: seq<nat>, q: seq<nat>, x: nat, y: nat, z: nat)
    requires Connects(g, p, x, y) && Connects(g, q, y, z)
    ensures Connects(g, p + q[1..], x, z)
  {
    var r := p + q[1..];
    forall i | 0 <= i < |r| - 1
      ensures (r[i], r[i + 1]) in g
    {
      if i < |p| - 1 {
        assert r[i] == p[i] && r[i + 1] == p[i + 1];
      } else {
        var j := i - (|p| - 1);
        assert r[i] == q[j] && r[i + 1] == q[j + 1];
      }
    }
  }

  lemma ReachesTrans(g: Edges, x: nat, y: nat, z: nat)
    requires Reaches(g, x, y) && Reaches(g, y, z)
    ensures Reaches(g, x, z)
    ensures ReachesByEdge(g, x, y) || ReachesByEdge(g, y, z) ==> ReachesByEdge(g, x, z)
  {
    var p :| Connects(g, p, x, y) && (ReachesByEdge(g, x, y) ==> |p| >= 2);
    var q :| Connects(g, q, y, z) && (ReachesByEdge(g, y, z) ==> |q| >= 2);
    ConnectsJoin(g, p, q, x, y, z);
  }

  /** An edge followed by a path is a path of at least one edge. */
  lemma ReachesCons(g: Edges, x: nat, y: nat, z: nat)
    requires (x, y) in g && Reaches(g, y, z)
    ensures ReachesByEdge(g, x, z) && Reaches(g, x, z)
  {
    ReachesOne(g, x, y);
    ReachesTrans(g, x, y, z);
  }

  /** Every path of at least one edge starts with an edge. */
  lemma ReachesFirst(g: Edges, x: nat, z: nat) returns (y: nat)
    requires ReachesByEdge(g, x, z)
    ensures (x, y) in g && Reaches(g, y, z)
  {
    var p :| Connects(g, p, x, z) && |p| >= 2;
    y := p[1];
    assert Connects(g, p[1..], y, z);
  }

  lemma ReachesCases(g: Edges, x: nat, y: nat)
    ensures Reaches(g, x, y) <==> x == y || ReachesByEdge(g, x, y)
  {
    if x == y { ReachesSelf(g, x); }
  }

  lemma ReachesMono(g: Edges, h: Edges, x: nat, y: nat)
    requires g <= h
    ensures Reaches(g, x, y) ==> Reaches(h, x, y)
    ensures ReachesByEdge(g, x, y) ==> ReachesByEdge(h, x, y)
  {
    if Reaches(g, x, y) {
      var p :| Connects(g, p, x, y) && (ReachesByEdge(g, x, y) ==> |p| >= 2);
      assert Connects(h, p, x, y);
    }
  }

  lemma AcyclicMono(g: Edges, h: Edges)
    requires g <= h && Acyclic(h)
    ensures Acyclic(g)
  {
    forall x ensures !ReachesByEdge(g, x, x) { ReachesMono(g, h, x, x); }
  }

  lemma NoEdges(g: Edges)
    ensures g == {} ==> Acyclic(g)
  {
    if !Acyclic(g) {
      var x :| ReachesByEdge(g, x, x);
      var y := ReachesFirst(g, x, x);
    }
  }

  /** A path that may use the new edge (a, b) either avoids it or splits around it. */
  lemma {:induction false} SplitAtEdge(g: Edges, a: nat, b: nat, p: seq<nat>, x: nat, y: nat)
    requires Connects(g + {(a, b)}, p, x, y)
    ensures (Connects(g, p, x, y)) || (Reaches(g, x, a) && Reaches(g, b, y))
    decreases |p|
  {
    if |p| >= 2 {
      SplitAtEdge(g, a, b, p[1..], p[1], y);
      if (p[0], p[1]) in g {
        if Connects(g, p[1..], p[1], y) {
          assert forall i :: 1 <= i < |p| - 1 ==> p[i] == p[1..][i - 1] && p[i + 1] == p[1..][i];
        } else {
          ReachesCons(g, x, p[1], a);
        }
      } else {
        ReachesSelf(g, a);
        if Connects(g, p[1..], p[1], y) { assert Reaches(g, b, y); }
      }
    }
  }

  lemma ReachesWithEdge(g: Edges, a: nat, b: nat, x: nat, y: nat)
    requires ReachesByEdge(g + {(a, b)}, x, y)
    ensures ReachesByEdge(g, x, y) || (Reaches(g, x, a) && Reaches(g, b, y))
  {
    var p :| Connects(g + {(a, b)}, p, x, y) && |p| >= 2;
    SplitAtEdge(g, a, b, p, x, y);
  }

  /** Adding the edge (a, b) to an acyclic graph in which b does not reach a
      leaves it acyclic. */
  lemma AcyclicAddEdge(g: Edges, a: nat, b: nat)
    ensures Acyclic(g) && !Reaches(g, b, a) ==> Acyclic(g + {(a, b)})
  {
    forall x | ReachesByEdge(g + {(a, b)}, x, x) ensures ReachesByEdge(g, x, x) || Reaches(g, b, a) {
      ReachesWithEdge(g, a, b, x, x);
      if !ReachesByEdge(g, x, x) { ReachesTrans(g, b, x, a); }
    }
  }

  /** In a finite set of nodes where each has an edge to another node of the
      set, some node lies on a cycle. */
  lemma {:induction false} EndlessWalk(g: Edges, nodes: set<nat>, p: seq<nat>)
    requires IsPath(g, p)
    requires forall x :: x in p ==> x in nodes
    requires forall i, j :: 0 <= i < j < |p| ==> p[i] != p[j]
    requires forall x :: x in nodes ==> exists y :: y in nodes && (x, y) in g
    ensures !Acyclic(g)
    decreases nodes - (set x | x in p)
  {
    var last := p[|p| - 1];
    assert last in nodes;
    var y :| y in nodes && (last, y) in g;
    var q := p + [y];
    assert IsPath(g, q) by {
      forall i | 0 <= i < |q| - 1 ensures (q[i], q[i + 1]) in g {
        if i < |p| - 1 { assert q[i] == p[i] && q[i + 1] == p[i + 1]; }
      }
    }
    if y in p {
      var k :| 0 <= k < |p| && p[k] == y;
      assert Connects(g, q[k..], y, y);
      assert ReachesByEdge(g, y, y);
    } else {
      assert y in (nodes - (set x | x in p));
      EndlessWalk(g, nodes, q);
    }
  }

  lemma SomeCycle(g: Edges, nodes: set<nat>, x: nat)
    requires x in nodes
    requires forall x :: x in nodes ==> exists y :: y in nodes && (x, y) in g
    ensures !Acyclic(g)
  {
    EndlessWalk(g, nodes, [x]);
  }

  /** A set of nodes that contains x and is closed under the edges contains
      everything x reaches. */
  lemma {:induction false} ClosedContains(g: Edges, nodes: set<nat>, p: seq<nat>)
    requires IsPath(g, p) && p[0] in nodes
    requires forall x, y :: x in nodes && (x, y) in g ==> y in nodes
    ensures forall v :: v in p ==> v in nodes
    decreases |p|
  {
    if |p| >= 2 {
      assert (p[0], p[1]) in g;
      assert IsPath(g, p[1..]);
      ClosedContains(g, nodes, p[1..]);
      assert p == [p[0]] + p[1..];
    }
  }

  /** A set of nodes that contains z and every node with an edge into the set
      contains everything that reaches z. */
  lemma {:induction false} ClosedBackwards(g: Edges, nodes: set<nat>, x: nat, z: nat)
    requires z in nodes && Reaches(g, x, z)
    requires forall a: nat, b: nat :: b in nodes && (a, b) in g ==> a in nodes
    ensures x in nodes
  {
    var p :| Connects(g, p, x, z);
    PathBackwards(g, nodes, p);
  }

  lemma {:induction false} PathBackwards(g: Edges, nodes: set<nat>, p: seq<nat>)
    requires IsPath(g, p) && p[|p| - 1] in nodes
    requires forall a: nat, b: nat :: b in nodes && (a, b) in g ==> a in nodes
    ensures p[0] in nodes
    decreases |p|
  {
    if |p| >= 2 {
      assert IsPath(g, p[1..]);
      PathBackwards(g, nodes, p[1..]);
      assert (p[0], p[1]) in g;
    }
  }

  /** An edge of h lies on a cycle of the two graphs together. */
  ghost predicate ClosesCycle(g: Edges, h: Edges) {
    exists x, y :: (x, y) in h && Reaches(g + h, y, x)
  }

  /** A part of a path is a path. */
  lemma ReachesAlong(g: Edges, p: seq<nat>, i: nat, j: nat)
    requires IsPath(g, p) && i <= j < |p|
    ensures Reaches(g, p[i], p[j])
  {
    var q := p[i..j + 1];
    assert Connects(g, q, p[i], p[j]);
  }

  /** A cycle of two graphs together uses an edge of the second one, unless the first
      one has a cycle by itself. */
  lemma AcyclicUnion(g: Edges, h: Edges)
    requires Acyclic(g)
    ensures Acyclic(g + h) <==> !ClosesCycle(g, h)
  {
    if !Acyclic(g + h) {
      var x :| ReachesByEdge(g + h, x, x);
      var p :| Connects(g + h, p, x, x) && |p| >= 2;
      assert !ReachesByEdge(g, x, x);
      assert !Connects(g, p, x, x);
      var i :| 0 <= i < |p| - 1 && (p[i], p[i + 1]) !in g;
      ReachesAlong(g + h, p, i + 1, |p| - 1);
      ReachesAlong(g + h, p, 0, i);
      ReachesTrans(g + h, p[i + 1], x, p[i]);
    } else if ClosesCycle(g, h) {
      var x, y :| (x, y) in h && Reaches(g + h, y, x);
      ReachesCons(g + h, x, y, x);
    }
  }

  ghost predicate NoRepeats(p: seq<nat>) { forall i, j :: 0 <= i < j < |p| ==> p[i] != p[j] }

  /** A path without repetitions, by leaving out detours. */
  lemma {:induction false} SimplePath(g: Edges, p: seq<nat>) returns (q: seq<nat>)
    requires IsPath(g, p)
    ensures IsPath(g, q) && q[0] == p[0] && q[|q| - 1] == p[|p| - 1] && NoRepeats(q)
    decreases |p|
  {
    if NoRepeats(p) {
      q := p;
    } else {
      var i, j :| 0 <= i < j < |p| && p[i] == p[j];
      var r := p[..i] + p[j..];
      forall k | 0 <= k < |r| - 1 ensures (r[k], r[k + 1]) in g {
        if k + 1 < i { assert r[k] == p[k] && r[k + 1] == p[k + 1]; }
        else if k + 1 == i { assert r[k] == p[k] && r[k + 1] == p[j] == p[k + 1]; }
        else { assert r[k] == p[j + (k - i)] && r[k + 1] == p[j + (k - i) + 1]; }
      }
      assert r[0] == p[0] && r[|r| - 1] == p[|p| - 1];
      q := SimplePath(g, r);
    }
  }
}
