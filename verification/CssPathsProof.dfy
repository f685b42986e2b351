/** Relocating a URL keeps its target. */
module CssPathsProof {
  import opened Prelude
  import opened CssPaths

  // ---------------------------------------------------------------- pieces and strings

  /** Not empty, and no slash before the last character. */
  ghost predicate IsPiece(p: string) {
    p != [] && forall i :: 0 <= i < |p| - 1 ==> p[i] != '/'
  }

  ghost predicate IsFolder(p: string) { IsPiece(p) && p[|p| - 1] == '/' }

  ghost predicate Folders(l: seq<string>) { forall i :: 0 <= i < |l| ==> IsFolder(l[i]) }

  /** Pieces that only the last of may lack its slash. */
  ghost predicate Shaped(l: seq<string>) { l == [] || (Folders(l[..|l| - 1]) && IsPiece(l[|l| - 1])) }

  ghost predicate EndsFolder(s: string) { s == [] || s[|s| - 1] == '/' }

  lemma FirstSlash(s: string, from: nat, i: nat)
    requires from <= i < |s| && s[i] == '/' && forall k :: from <= k < i ==> s[k] != '/'
    ensures IndexOf(s, from) == i
  {
  }

  lemma PiecesOfFolder(p: string, rest: string)
    requires IsFolder(p)
    ensures Pieces(p + rest) == [p] + Pieces(rest)
  {
    var s := p + rest;
    FirstSlash(s, 0, |p| - 1);
    assert s[..|p|] == p && s[|p|..] == rest;
  }

  lemma PiecesOfPiece(p: string)
    requires IsPiece(p)
    ensures Pieces(p) == [p]
  {
    if p[|p| - 1] == '/' {
      PiecesOfFolder(p, []);
      assert p + [] == p;
    } else {
      assert IndexOf(p, 0) == -1;
    }
  }

  /** Splitting undoes joining. */
  lemma {:induction false} PiecesFlatten(l: seq<string>)
    requires Shaped(l)
    ensures Pieces(Flatten(l)) == l
    decreases |l|
  {
    if |l| == 1 {
      assert Flatten(l) == l[0] by { assert l[1..] == [] && l[0] + [] == l[0]; }
      PiecesOfPiece(l[0]);
    } else if |l| > 1 {
      assert l[1..][..|l[1..]| - 1] == l[..|l| - 1][1..];
      PiecesFlatten(l[1..]);
      assert l[..|l| - 1][0] == l[0];
      PiecesOfFolder(l[0], Flatten(l[1..]));
    }
  }

  lemma SplitFirst(s: string) returns (p: string, rest: string)
    requires IndexOf(s, 0) >= 0
    ensures IsFolder(p) && s == p + rest && Pieces(s) == [p] + Pieces(rest) && (EndsFolder(s) ==> EndsFolder(rest))
  {
    var i := IndexOf(s, 0);
    p, rest := s[..i + 1], s[i + 1..];
  }

  lemma FlattenFirst(p: string, l: seq<string>)
    ensures Flatten([p] + l) == p + Flatten(l)
  {
    assert ([p] + l)[1..] == l;
  }

  /** Joining undoes splitting. */
  lemma {:induction false} FlattenPieces(s: string)
    ensures Flatten(Pieces(s)) == s && Shaped(Pieces(s))
    decreases |s|
  {
    if s != [] && IndexOf(s, 0) >= 0 {
      var p, rest := SplitFirst(s);
      FlattenPieces(rest);
      FlattenFirst(p, Pieces(rest));
      ShapedFirst(p, Pieces(rest));
    } else if s != [] {
      FlattenFirst(s, []);
      assert Pieces(s) == [s] + [];
    }
  }

  lemma {:induction false} PiecesAreFolders(s: string)
    requires EndsFolder(s)
    ensures Folders(Pieces(s))
    decreases |s|
  {
    if s != [] {
      var p, rest := SplitFirst(s);
      PiecesAreFolders(rest);
    }
  }

  lemma ShapedFirst(p: string, l: seq<string>)
    requires IsFolder(p) && Shaped(l)
    ensures Shaped([p] + l)
  {
    var m := [p] + l;
    if l != [] { assert m[..|m| - 1] == [p] + l[..|l| - 1]; }
  }

  lemma {:induction false} PiecesJoin(a: string, b: string)
    requires EndsFolder(a)
    ensures Pieces(a + b) == Pieces(a) + Pieces(b)
    decreases |a|
  {
    if a == [] {
      assert a + b == b;
    } else {
      var p, rest := SplitFirst(a);
      PiecesJoin(rest, b);
      Regroup(p, rest, b);
      PiecesOfFolder(p, rest + b);
      Regroup([p], Pieces(rest), Pieces(b));
    }
  }

  lemma PathOfEndsFolder(s: string)
    ensures EndsFolder(PathOf(s)) && PathOf(s) <= s
  {
  }

  // ---------------------------------------------------------------- pushing

  lemma {:induction false} PushJoin(s: seq<string>, a: seq<string>, b: seq<string>)
    ensures PushAll(s, a + b) == PushAll(PushAll(s, a), b)
    decreases |a|
  {
    if a == [] {
      assert a + b == b;
    } else {
      assert (a + b)[0] == a[0] && (a + b)[1..] == a[1..] + b;
      PushJoin(PushPiece(s, a[0]), a[1..], b);
    }
  }

  /** No "./", and "../" only in front. */
  ghost predicate Normal(l: seq<string>) {
    HERE !in l && forall i :: 0 < i < |l| && l[i] == UP ==> l[i - 1] == UP
  }

  lemma {:induction false} PushNormal(s: seq<string>, more: seq<string>)
    requires Normal(s)
    ensures Normal(PushAll(s, more))
    decreases |more|
  {
    if more != [] { PushNormal(PushPiece(s, more[0]), more[1..]); }
  }

  /** What is normal is not changed by normalising it again. */
  lemma {:induction false} PushAgain(s: seq<string>, more: seq<string>)
    requires Normal(s + more)
    ensures PushAll(s, more) == s + more
    decreases |more|
  {
    if more == [] {
      assert s + more == s;
    } else {
      var all := s + more;
      assert all[|s|] == more[0];
      assert more[0] in all;
      assert more[0] == UP && |s| > 0 ==> s[|s| - 1] == all[|s| - 1];
      assert PushPiece(s, more[0]) == s + [more[0]];
      assert s + [more[0]] + more[1..] == all;
      PushAgain(s + [more[0]], more[1..]);
    }
  }

  lemma {:induction false} PushShaped(s: seq<string>, more: seq<string>)
    requires Folders(s) && Shaped(more)
    ensures Shaped(PushAll(s, more))
    ensures Folders(more) ==> Folders(PushAll(s, more))
    decreases |more|
  {
    if |more| == 1 {
      assert more[1..] == [];
      var r := PushPiece(s, more[0]);
      if r == s + [more[0]] { assert r[..|r| - 1] == s; }
    } else if |more| > 1 {
      assert more[..|more| - 1][0] == more[0];
      assert more[1..][..|more[1..]| - 1] == more[..|more| - 1][1..];
      PushShaped(PushPiece(s, more[0]), more[1..]);
    }
  }

  // ---------------------------------------------------------------- depth

  /** Neither "./", "../" nor "/". */
  ghost predicate Ordinary(p: string) { p != HERE && p != UP && p != ROOT }

  ghost predicate AllOrdinary(l: seq<string>) { forall i :: 0 <= i < |l| ==> Ordinary(l[i]) }

  function Weight(p: string): int {
    if p == HERE then 0 else if p == UP then -1 else 1
  }

  /** How far down a list of pieces leads. */
  function Depth(l: seq<string>): int {
    if l == [] then 0 else Depth(l[..|l| - 1]) + Weight(l[|l| - 1])
  }

  lemma {:induction false} DepthJoin(a: seq<string>, b: seq<string>)
    ensures Depth(a + b) == Depth(a) + Depth(b)
    decreases |b|
  {
    if b == [] {
      assert a + b == a;
    } else {
      assert (a + b)[..|a + b| - 1] == a + b[..|b| - 1];
      DepthJoin(a, b[..|b| - 1]);
    }
  }

  /** Without empty segments normalising keeps the depth. */
  lemma {:induction false} PushDepth(s: seq<string>, more: seq<string>)
    requires Normal(s) && ROOT !in s && ROOT !in more
    ensures Depth(PushAll(s, more)) == Depth(s) + Depth(more)
    decreases |more|
  {
    if more != [] {
      var s1 := PushPiece(s, more[0]);
      PushNormal(s, [more[0]]);
      assert PushAll(s, [more[0]]) == s1 by { assert [more[0]][1..] == []; }
      assert s1 == s + [more[0]] ==> s1[..|s1| - 1] == s;
      assert Depth(s1) == Depth(s) + Weight(more[0]);
      PushDepth(s1, more[1..]);
      assert more == [more[0]] + more[1..];
      DepthJoin([more[0]], more[1..]);
      assert Depth([more[0]]) == Weight(more[0]) by { assert [more[0]][..0] == []; }
    }
  }

  lemma {:induction false} DepthAtMost(l: seq<string>)
    requires ROOT !in l
    ensures Depth(l) <= |l| && (Depth(l) == |l| <==> AllOrdinary(l))
    decreases |l|
  {
    if l != [] {
      DepthAtMost(l[..|l| - 1]);
      assert l[|l| - 1] in l;
      var front := l[..|l| - 1];
      assert AllOrdinary(l) <==> AllOrdinary(front) && Ordinary(l[|l| - 1]) by {
        assert forall i :: 0 <= i < |front| ==> front[i] == l[i];
      }
    }
  }
}
