/** Going down some folders, up as often, and then on: when this leads where going on
    alone would have led. */
module CssPathsFollow {
  import opened Prelude
  import opened CssPaths
  import opened CssPathsProof

  function UpPieces(n: nat): (l: seq<string>)
    ensures |l| == n && forall i :: 0 <= i < n ==> l[i] == UP
  {
    if n == 0 then [] else [UP] + UpPieces(n - 1)
  }

  /** From p down the folders f, up as often, then along t. */
  function Followed(p: seq<string>, f: seq<string>, t: seq<string>): seq<string> {
    PushAll(PushAll(PushAll(p, f), UpPieces(|f|)), t)
  }

  ghost predicate EndsInRoot(p: seq<string>) { p != [] && p[|p| - 1] == ROOT }

  /** Going up as often as one went down leads back: no folder is empty, and none is "." or
      "..", unless one cannot go up at all. */
  ghost predicate LeadsBack(p: seq<string>, f: seq<string>) {
    ROOT !in f && (AllOrdinary(f) || EndsInRoot(p))
  }

  // ---------------------------------------------------------------- down and up again

  lemma {:induction false} Down(s: seq<string>, more: seq<string>)
    requires AllOrdinary(more)
    ensures PushAll(s, more) == s + more
    decreases |more|
  {
    if more == [] {
      assert s + more == s;
    } else {
      assert Ordinary(more[0]);
      Down(s + [more[0]], more[1..]);
      assert s + [more[0]] + more[1..] == s + more;
    }
  }

  lemma {:induction false} Up(s: seq<string>, more: seq<string>)
    requires AllOrdinary(more)
    ensures PushAll(s + more, UpPieces(|more|)) == s
    decreases |more|
  {
    var n := |more|;
    if n == 0 {
      assert s + more == s;
    } else {
      assert Ordinary(more[n - 1]);
      assert (s + more)[..|s + more| - 1] == s + more[..n - 1];
      assert UpPieces(n)[1..] == UpPieces(n - 1);
      Up(s, more[..n - 1]);
    }
  }

  lemma FollowedHome(p: seq<string>, f: seq<string>, t: seq<string>)
    requires Normal(p + t) && AllOrdinary(f)
    ensures Followed(p, f, t) == p + t
  {
    Down(p, f);
    Up(p, f);
    PushAgain(p, t);
  }

  // ---------------------------------------------------------------- empty segments

  function Roots(l: seq<string>): nat {
    if l == [] then 0 else Roots(l[..|l| - 1]) + if l[|l| - 1] == ROOT then 1 else 0
  }

  lemma {:induction false} RootsJoin(a: seq<string>, b: seq<string>)
    ensures Roots(a + b) == Roots(a) + Roots(b)
    decreases |b|
  {
    if b == [] {
      assert a + b == a;
    } else {
      assert (a + b)[..|a + b| - 1] == a + b[..|b| - 1];
      RootsJoin(a, b[..|b| - 1]);
    }
  }

  lemma {:induction false} RootsOf(l: seq<string>)
    ensures Roots(l) > 0 <==> ROOT in l
    decreases |l|
  {
    if l != [] {
      RootsOf(l[..|l| - 1]);
      assert l == l[..|l| - 1] + [l[|l| - 1]];
    }
  }

  /** Empty segments are neither dropped nor taken back. */
  lemma {:induction false} PushRoots(s: seq<string>, more: seq<string>)
    ensures Roots(PushAll(s, more)) == Roots(s) + Roots(more)
    decreases |more|
  {
    if more != [] {
      PushOneRoots(s, more[0]);
      PushRoots(PushPiece(s, more[0]), more[1..]);
      assert more == [more[0]] + more[1..];
      RootsJoin([more[0]], more[1..]);
    }
  }

  lemma PushOneRoots(s: seq<string>, x: string)
    ensures Roots(PushPiece(s, x)) == Roots(s) + Roots([x])
  {
    assert [x][..0] == [];
    if PushPiece(s, x) == s + [x] { RootsJoin(s, [x]); }
  }

  lemma UpsHaveNoRoot(n: nat)
    ensures Roots(UpPieces(n)) == 0
  {
    RootsOf(UpPieces(n));
  }

  lemma EmptyFolderAstray(p: seq<string>, f: seq<string>, t: seq<string>)
    requires ROOT in f
    ensures Followed(p, f, t) != p + t
  {
    PushRoots(p, f);
    PushRoots(PushAll(p, f), UpPieces(|f|));
    PushRoots(PushAll(PushAll(p, f), UpPieces(|f|)), t);
    UpsHaveNoRoot(|f|);
    RootsOf(f);
    RootsJoin(p, t);
  }

  // ---------------------------------------------------------------- above an empty segment

  /** How many of the pieces lead down. */
  function Ordinaries(l: seq<string>): nat {
    if l == [] then 0 else Ordinaries(l[1..]) + if l[0] == UP || l[0] == HERE || l[0] == ROOT then 0 else 1
  }

  lemma {:induction false} OrdinariesAtMost(l: seq<string>)
    ensures Ordinaries(l) <= |l| && (Ordinaries(l) == |l| ==> AllOrdinary(l))
    decreases |l|
  {
    if l != [] {
      OrdinariesAtMost(l[1..]);
      if Ordinaries(l) == |l| {
        forall i | 0 <= i < |l| ensures Ordinary(l[i]) { if i > 0 { assert l[i] == l[1..][i - 1]; } }
      }
    }
  }

  /** On top of an empty segment, which one cannot go above: what is there after more
      pieces is no longer than what was there and what leads down. */
  lemma {:induction false} Floor(base: seq<string>, g: seq<string>, more: seq<string>) returns (h: seq<string>)
    requires EndsInRoot(base) && AllOrdinary(g) && ROOT !in more
    ensures PushAll(base + g, more) == base + h && AllOrdinary(h) && |h| <= |g| + Ordinaries(more)
    decreases |more|
  {
    if more == [] {
      h := g;
    } else {
      var g1 := FloorOne(base, g, more[0]);
      h := Floor(base, g1, more[1..]);
    }
  }

  lemma FloorOne(base: seq<string>, g: seq<string>, x: string) returns (h: seq<string>)
    requires EndsInRoot(base) && AllOrdinary(g) && x != ROOT
    ensures PushPiece(base + g, x) == base + h && AllOrdinary(h)
    ensures |h| <= |g| + (if x == UP || x == HERE then 0 else 1)
    ensures x == UP ==> |h| == if g == [] then 0 else |g| - 1
  {
    var s := base + g;
    if x == HERE {
      h := g;
    } else if x == UP && g == [] {
      assert s == base;
      h := g;
    } else if x == UP {
      assert s[|s| - 1] == g[|g| - 1] && Ordinary(g[|g| - 1]);
      h := g[..|g| - 1];
      assert s[..|s| - 1] == base + h;
    } else {
      h := g + [x];
      assert s + [x] == base + h;
    }
  }

  lemma {:induction false} FloorUps(base: seq<string>, g: seq<string>, n: nat) returns (h: seq<string>)
    requires EndsInRoot(base) && AllOrdinary(g)
    ensures PushAll(base + g, UpPieces(n)) == base + h && |h| == if |g| <= n then 0 else |g| - n
    decreases n
  {
    if n == 0 {
      h := g;
    } else {
      var g1 := FloorOne(base, g, UP);
      assert UpPieces(n)[1..] == UpPieces(n - 1);
      h := FloorUps(base, g1, n - 1);
    }
  }

  lemma FloorBack(p: seq<string>, f: seq<string>, t: seq<string>)
    requires Normal(p + t) && EndsInRoot(p) && ROOT !in f
    ensures Followed(p, f, t) == p + t
  {
    assert p + [] == p;
    var g := Floor(p, [], f);
    OrdinariesAtMost(f);
    var h := FloorUps(p, g, |f|);
    assert p + h == p;
    PushAgain(p, t);
  }

  /** Part of the way down is above the last empty segment, and one comes back too high. */
  lemma FloorAstray(base: seq<string>, g: seq<string>, f: seq<string>, t: seq<string>)
    requires EndsInRoot(base) && AllOrdinary(g) && g != [] && ROOT !in f && !AllOrdinary(f)
    requires UP !in t && HERE !in t
    ensures Followed(base + g, f, t) != base + g + t
  {
    var h := Floor(base, g, f);
    OrdinariesAtMost(f);
    var k := FloorUps(base, h, |f|);
    PushPlain(base + k, t);
    assert |base + k + t| < |base + g + t|;
  }

  lemma {:induction false} PushPlain(s: seq<string>, more: seq<string>)
    requires UP !in more && HERE !in more
    ensures PushAll(s, more) == s + more
    decreases |more|
  {
    if more == [] {
      assert s + more == s;
    } else {
      assert more[0] in more;
      PushPlain(s + [more[0]], more[1..]);
      assert s + [more[0]] + more[1..] == s + more;
    }
  }

  // ---------------------------------------------------------------- no empty segment shared

  lemma {:induction false} DepthUps(n: nat)
    ensures Depth(UpPieces(n)) + n == 0
  {
    if n > 0 {
      DepthUps(n - 1);
      DepthJoin([UP], UpPieces(n - 1));
      assert Depth([UP]) == -1 by { assert [UP][..0] == []; }
    }
  }

  lemma FollowedDepth(p: seq<string>, f: seq<string>, t: seq<string>)
    requires Normal(p) && ROOT !in p && ROOT !in t && ROOT !in f
    ensures Depth(Followed(p, f, t)) == Depth(p) + Depth(f) - |f| + Depth(t)
  {
    var u := UpPieces(|f|);
    PushJoin(p, f, u);
    PushJoin(p, f + u, t);
    PushDepth(p, f + u + t);
    DepthJoin(f + u, t);
    DepthJoin(f, u);
    DepthUps(|f|);
  }

  /** The ".." in front of a list. */
  lemma {:induction false} SplitUps(t: seq<string>) returns (ups: seq<string>, rest: seq<string>)
    ensures t == ups + rest && (forall x :: x in ups ==> x == UP) && (rest == [] || rest[0] != UP)
    decreases |t|
  {
    if t != [] && t[0] == UP {
      ups, rest := SplitUps(t[1..]);
      ups := [UP] + ups;
    } else {
      ups, rest := [], t;
    }
  }

  /** After anything but ".." there is no "..". */
  lemma {:induction false} NoMoreUps(l: seq<string>, i: nat, j: nat)
    requires Normal(l) && i < j < |l| && l[i] != UP
    ensures l[j] != UP
    decreases j
  {
    if l[j] == UP && j - 1 > i { NoMoreUps(l, i, j - 1); }
  }

  lemma DepthAstray(p: seq<string>, f: seq<string>, t: seq<string>)
    requires Normal(p + t) && ROOT !in p && ROOT !in f && !AllOrdinary(f)
    ensures Followed(p, f, t) != p + t
  {
    var ups, rest := SplitUps(t);
    NormalPrefix(p, t);
    RestPlain(p, ups, rest, t);
    DepthDiffers(p, f, ups);
    PushJoin(PushAll(PushAll(p, f), UpPieces(|f|)), ups, rest);
    PushPlain(Followed(p, f, ups), rest);
    SameEnd(Followed(p, f, ups), p + ups, rest);
    Regroup(p, ups, rest);
  }

  lemma DepthDiffers(p: seq<string>, f: seq<string>, ups: seq<string>)
    requires Normal(p) && ROOT !in p && ROOT !in f && !AllOrdinary(f) && forall x :: x in ups ==> x == UP
    ensures Followed(p, f, ups) != p + ups
  {
    FollowedDepth(p, f, ups);
    DepthAtMost(f);
    DepthJoin(p, ups);
  }

  lemma SameEnd(a: seq<string>, b: seq<string>, c: seq<string>)
    requires a != b
    ensures a + c != b + c
  {
    if |a| == |b| {
      var i :| 0 <= i < |a| && a[i] != b[i];
      assert (a + c)[i] != (b + c)[i];
    }
  }

  lemma NormalPrefix(p: seq<string>, t: seq<string>)
    requires Normal(p + t)
    ensures Normal(p)
  {
    forall i | 0 < i < |p| && p[i] == UP
      ensures p[i - 1] == UP
    {
      assert (p + t)[i] == UP && (p + t)[i - 1] == p[i - 1];
    }
    assert HERE in p ==> HERE in p + t;
  }

  lemma RestPlain(p: seq<string>, ups: seq<string>, rest: seq<string>, t: seq<string>)
    requires Normal(p + t) && t == ups + rest && (rest == [] || rest[0] != UP)
    ensures UP !in rest && HERE !in rest
  {
    var all, n := p + t, |p| + |ups|;
    assert forall j :: 0 <= j < |rest| ==> all[n + j] == rest[j];
    forall j | 0 < j < |rest| ensures rest[j] != UP { NoMoreUps(all, n, n + j); }
  }

  // ---------------------------------------------------------------- exactly when

  /** The last empty segment. */
  lemma {:induction false} SplitRoot(p: seq<string>) returns (base: seq<string>, g: seq<string>)
    requires ROOT in p
    ensures p == base + g && EndsInRoot(base) && ROOT !in g
    decreases |p|
  {
    var n := |p| - 1;
    if p[n] == ROOT {
      base, g := p, [];
    } else {
      assert p == p[..n] + [p[n]];
      base, g := SplitRoot(p[..n]);
      g := g + [p[n]];
    }
  }

  lemma AfterRoot(base: seq<string>, g: seq<string>, t: seq<string>)
    requires Normal(base + g + t) && EndsInRoot(base) && ROOT !in g
    ensures AllOrdinary(g) && UP !in t && HERE !in t
  {
    var all, n := base + g + t, |base| - 1;
    assert all[n] == ROOT;
    forall j | n < j < |all| ensures all[j] != UP && all[j] != HERE {
      NoMoreUps(all, n, j);
      assert all[j] in all;
    }
    assert forall j :: 0 <= j < |g| ==> all[n + 1 + j] == g[j];
    assert forall j :: 0 <= j < |t| ==> all[n + 1 + |g| + j] == t[j];
  }

  lemma NotBackAstray(p: seq<string>, f: seq<string>, t: seq<string>)
    requires Normal(p + t) && !LeadsBack(p, f)
    ensures Followed(p, f, t) != p + t
  {
    if ROOT in f {
      EmptyFolderAstray(p, f, t);
    } else if ROOT in p {
      var base, g := SplitRoot(p);
      AfterRoot(base, g, t);
      assert g == [] ==> p == base;
      FloorAstray(base, g, f, t);
    } else {
      DepthAstray(p, f, t);
    }
  }

  lemma FollowedIff(p: seq<string>, f: seq<string>, t: seq<string>)
    requires Normal(p + t)
    ensures Followed(p, f, t) == p + t <==> LeadsBack(p, f)
  {
    if !LeadsBack(p, f) {
      NotBackAstray(p, f, t);
    } else if AllOrdinary(f) {
      FollowedHome(p, f, t);
    } else {
      FloorBack(p, f, t);
    }
  }
}
