/** When the URL written into a relocated stylesheet leads to the same target. */
module CssPathsTheorems {
  import opened Prelude
  import opened CssPaths
  import opened CssPathsProof
  import opened CssPathsFollow

  // ---------------------------------------------------------------- protocols

  lemma RootFirst(s: string)
    requires ROOT <= s
    ensures ROOT in Pieces(s)
  {
    PiecesOfFolder(ROOT, s[1..]);
    assert s == ROOT + s[1..];
    assert ([ROOT] + Pieces(s[1..]))[0] == ROOT;
  }

  lemma RootSecond(p: string, s: string)
    requires IsFolder(p) && p + ROOT <= s
    ensures ROOT in Pieces(s)
  {
    var rest := s[|p|..];
    assert s[..|p|] == p && s == p + rest;
    assert rest[0] == s[|p|] == (p + ROOT)[|p|];
    RootFirst(rest);
    PiecesOfFolder(p, rest);
  }

  /** A protocol makes an empty segment. */
  lemma ProtocolRoot(s: string)
    ensures IsAbsolute(s) || "//" <= s ==> ROOT in Pieces(s)
  {
    if ROOT <= s || "//" <= s {
      RootFirst(s);
    } else if "http://" <= s {
      assert "http:/" + ROOT == "http://";
      RootSecond("http:/", s);
    } else if "https://" <= s {
      assert "https:/" + ROOT == "https://";
      RootSecond("https:/", s);
    }
  }

  /** What is in front of the path keeps its protocol. */
  lemma StartRoot(a: string, rest: string)
    requires PathStart(a) > 0
    ensures ROOT in Pieces(a[..PathStart(a)] + rest)
  {
    var s := a[..PathStart(a)] + rest;
    StartKeepsPrefix(a, rest, "//");
    StartKeepsPrefix(a, rest, "http://");
    StartKeepsPrefix(a, rest, "https://");
    ProtocolRoot(s);
  }

  lemma StartKeepsPrefix(a: string, rest: string, prefix: string)
    ensures prefix <= a && PathStart(a) == SlashIndexAfter(a, prefix) ==> prefix <= a[..PathStart(a)] + rest
  {
  }

  lemma ProtocolInFolder(a: string)
    requires PathStart(a) > 0
    ensures ROOT in Pieces(a)
  {
    StartRoot(a, a[PathStart(a)..]);
    assert a[..PathStart(a)] + a[PathStart(a)..] == a;
  }

  // ---------------------------------------------------------------- joining

  ghost function Stack(a: string, b: string): seq<string> {
    PushAll(if ROOT <= b then [] else PushAll([], Pieces(a)), Pieces(b))
  }

  /** A joined path is normal, and splits into what was pushed. */
  lemma JoinStack(a: string, b: string)
    requires EndsFolder(a) && PathStart(a) == 0
    ensures JoinPaths(a, b) == Flatten(Stack(a, b)) && Pieces(JoinPaths(a, b)) == Stack(a, b) && Normal(Stack(a, b))
  {
    assert a[0..] == a && a[..0] == [];
    FlattenPieces(a);
    PiecesAreFolders(a);
    PushShaped([], Pieces(a));
    PushNormal([], Pieces(a));
    var first := if ROOT <= b then [] else PushAll([], Pieces(a));
    FlattenPieces(b);
    PushShaped(first, Pieces(b));
    PushNormal(first, Pieces(b));
    PiecesFlatten(Stack(a, b));
  }

  // ---------------------------------------------------------------- counting

  lemma {:induction false} SlashesJoin(a: string, b: string)
    ensures Slashes(a + b) == Slashes(a) + Slashes(b)
    decreases |a|
  {
    if a == [] {
      assert a + b == b;
    } else {
      assert (a + b)[1..] == a[1..] + b;
      SlashesJoin(a[1..], b);
    }
  }

  lemma {:induction false} NoSlashes(s: string)
    requires forall i :: 0 <= i < |s| ==> s[i] != '/'
    ensures Slashes(s) == 0
  {
    if s != [] { NoSlashes(s[1..]); }
  }

  lemma OneSlash(p: string)
    requires IsFolder(p)
    ensures Slashes(p) == 1
  {
    var front := p[..|p| - 1];
    assert p == front + ROOT;
    NoSlashes(front);
    SlashesJoin(front, ROOT);
    assert ROOT[1..] == [];
  }

  lemma {:induction false} SlashesPieces(s: string)
    requires EndsFolder(s)
    ensures Slashes(s) == |Pieces(s)|
    decreases |s|
  {
    if s != [] {
      var p, rest := SplitFirst(s);
      OneSlash(p);
      SlashesJoin(p, rest);
      SlashesPieces(rest);
    }
  }

  lemma {:induction false} PiecesUps(n: nat, rest: string)
    ensures Pieces(Ups(n) + rest) == UpPieces(n) + Pieces(rest)
  {
    if n == 0 {
      assert Ups(n) + rest == rest;
    } else {
      PiecesUps(n - 1, rest);
      PiecesUpsStep(n, rest, Ups(n - 1) + rest, Pieces(rest));
    }
  }

  lemma PiecesUpsStep(n: nat, rest: string, tail: string, l: seq<string>)
    requires n > 0 && tail == Ups(n - 1) + rest && Pieces(tail) == UpPieces(n - 1) + l
    ensures Pieces(Ups(n) + rest) == UpPieces(n) + l
  {
    UpsFirst(n, rest);
    PiecesStep(UP, tail, Ups(n) + rest);
    Regroup([UP], UpPieces(n - 1), l);
  }

  lemma PiecesStep(first: string, rest: string, all: string)
    requires IsFolder(first) && all == first + rest
    ensures Pieces(all) == [first] + Pieces(rest)
  {
    PiecesOfFolder(first, rest);
  }

  lemma UpsFirst(n: nat, rest: string)
    requires n > 0
    ensures Ups(n) + rest == UP + (Ups(n - 1) + rest)
  {
    Regroup(UP, Ups(n - 1), rest);
  }

  // ---------------------------------------------------------------- relocation

  /** The folders of the new file below the part it shares with the target. */
  ghost function Below(newFile: string, target: string): seq<string> {
    SharedIsFolder(newFile, target);
    Pieces(PathOf(newFile)[|CommonFolder(newFile, target)|..])
  }

  lemma SharedIsFolder(newFile: string, target: string)
    ensures var p := CommonFolder(newFile, target); EndsFolder(p) && p <= PathOf(newFile) && p <= target
    ensures EndsFolder(PathOf(newFile)[|CommonFolder(newFile, target)|..])
  {
    FolderIsPrefix(newFile, target);
    PathOfEndsFolder(newFile);
    var common := newFile[..CommonLength(newFile, target)];
    PathOfEndsFolder(common);
    var p := PathOf(common);
    if p != [] { assert newFile[|p| - 1] == p[|p| - 1]; }
  }

  lemma RelativeIs(newFile: string, target: string)
    requires !IsAbsolute(target)
    ensures CommonFolder(newFile, target) <= target
    ensures RelativePath(newFile, target) == Ups(|Below(newFile, target)|) + target[|CommonFolder(newFile, target)|..]
  {
    SharedIsFolder(newFile, target);
    var n, folder := |CommonFolder(newFile, target)|, PathOf(newFile);
    SlashesPieces(folder[n..]);
    SlashesOfRest(newFile, n);
  }

  /** The slashes of a file from some position on are those of its folder. */
  lemma SlashesOfRest(file: string, n: nat)
    requires n <= |PathOf(file)|
    ensures Slashes(file[n..]) == Slashes(PathOf(file)[n..])
  {
    var folder := PathOf(file);
    var f, name := folder[n..], file[|folder|..];
    NoSlashes(name);
    SlashesJoin(f, name);
    assert file[n..] == f + name;
  }

  lemma PiecesSplit(c: string, s: string)
    requires EndsFolder(c) && c <= s
    ensures Pieces(s) == Pieces(c) + Pieces(s[|c|..])
  {
    PiecesJoin(c, s[|c|..]);
    assert s == c + s[|c|..];
  }

  /** The pieces of the stylesheet's folder and of the target: shared, below, rest. */
  lemma Shares(newFile: string, target: string) returns (p: seq<string>, f: seq<string>, t: seq<string>)
    ensures CommonFolder(newFile, target) <= target && p == Pieces(CommonFolder(newFile, target))
    ensures Pieces(PathOf(newFile)) == p + f && f == Below(newFile, target)
    ensures Pieces(target) == p + t && t == Pieces(target[|CommonFolder(newFile, target)|..])
  {
    SharedIsFolder(newFile, target);
    var c := CommonFolder(newFile, target);
    var folder := PathOf(newFile);
    p, f, t := Pieces(c), Below(newFile, target), Pieces(target[|c|..]);
    PiecesSplit(c, folder);
    PiecesSplit(c, target);
  }

  /** The URL is not rooted, so the folder counts. */
  lemma NotRooted(n: nat, rest: string)
    requires ROOT !in Pieces(rest)
    ensures !(ROOT <= Ups(n) + rest)
  {
    if n == 0 {
      if ROOT <= Ups(n) + rest { assert Ups(n) + rest == rest; RootFirst(rest); }
    } else {
      assert (Ups(n) + rest)[0] == UP[0];
    }
  }

  /** Everything pushed when the rewritten URL is followed from the new file. */
  lemma FollowedStack(newFile: string, target: string, p: seq<string>, f: seq<string>, t: seq<string>)
    requires !IsAbsolute(target) && !(ROOT <= RelativePath(newFile, target)) && Normal(Pieces(target))
    requires CommonFolder(newFile, target) <= target
    requires Pieces(PathOf(newFile)) == p + f && f == Below(newFile, target)
    requires Pieces(target) == p + t && t == Pieces(target[|CommonFolder(newFile, target)|..])
    ensures Stack(PathOf(newFile), RelativePath(newFile, target)) == Followed(p, f, t)
  {
    RelativeIs(newFile, target);
    PiecesUps(|f|, target[|CommonFolder(newFile, target)|..]);
    PushJoin([], p, f);
    NormalPrefix(p, t);
    assert [] + p == p;
    PushAgain([], p);
    PushJoin(PushAll([], p + f), UpPieces(|f|), t);
  }

  lemma FollowedShared(newFile: string, target: string) returns (p: seq<string>, f: seq<string>, t: seq<string>)
    requires !IsAbsolute(target) && !(ROOT <= RelativePath(newFile, target)) && Normal(Pieces(target))
    ensures p == Pieces(CommonFolder(newFile, target)) && f == Below(newFile, target) && Pieces(target) == p + t
    ensures Stack(PathOf(newFile), RelativePath(newFile, target)) == Followed(p, f, t)
  {
    p, f, t := Shares(newFile, target);
    FollowedStack(newFile, target, p, f, t);
  }

  /** Following the rewritten URL from the new file leads to the target. */
  ghost predicate LeadsTo(newFile: string, target: string) {
    JoinPaths(PathOf(newFile), RelativePath(newFile, target)) == target
  }

  /** A URL that starts at the root leads to the root. */
  lemma RootedStays(a: string, b: string)
    requires EndsFolder(a) && PathStart(a) == 0 && ROOT <= b
    ensures ROOT <= JoinPaths(a, b)
  {
    JoinStack(a, b);
    RootedPieces(b);
    RootedPush(Pieces(b));
    RootedFlatten(Stack(a, b));
  }

  lemma RootedPieces(b: string)
    requires ROOT <= b
    ensures Pieces(b) != [] && Pieces(b)[0] == ROOT
  {
    PiecesOfFolder(ROOT, b[1..]);
    assert b == ROOT + b[1..];
  }

  lemma RootedPush(l: seq<string>)
    requires l != [] && l[0] == ROOT
    ensures PushAll([], l) != [] && PushAll([], l)[0] == ROOT
  {
    assert PushPiece([], l[0]) == [ROOT];
    FirstStays([ROOT], l[1..]);
  }

  lemma RootedFlatten(l: seq<string>)
    requires l != [] && l[0] == ROOT
    ensures ROOT <= Flatten(l)
  {
  }

  lemma {:induction false} FirstStays(s: seq<string>, more: seq<string>)
    requires s != [] && s[0] == ROOT
    ensures PushAll(s, more) != [] && PushAll(s, more)[0] == ROOT
    decreases |more|
  {
    if more != [] { FirstStays(PushPiece(s, more[0]), more[1..]); }
  }

  /** A protocol stays in front of whatever is joined to it. */
  lemma ProtocolStays(a: string, b: string)
    requires PathStart(a) > 0
    ensures IsAbsolute(JoinPaths(a, b))
  {
    var rest := Flatten(PushAll(if ROOT <= b then [] else PushAll([], Pieces(a[PathStart(a)..])), Pieces(b)));
    StartKeepsPrefix(a, rest, "//");
    StartKeepsPrefix(a, rest, "http://");
    StartKeepsPrefix(a, rest, "https://");
  }

  /** What it takes to be led to the target: a new file without protocol, a URL that does
      not start at the root, and a way down from the shared folder that leads back. */
  ghost predicate Followable(newFile: string, target: string) {
    && PathStart(PathOf(newFile)) == 0 && !(ROOT <= RelativePath(newFile, target))
    && LeadsBack(Pieces(CommonFolder(newFile, target)), Below(newFile, target))
  }

  lemma LeadsToIff(newFile: string, target: string)
    requires !IsAbsolute(target) && Normal(Pieces(target))
    ensures LeadsTo(newFile, target) <==> Followable(newFile, target)
  {
    var folder, r := PathOf(newFile), RelativePath(newFile, target);
    PathOfEndsFolder(newFile);
    if PathStart(folder) > 0 {
      ProtocolStays(folder, r);
    } else if ROOT <= r {
      RootedStays(folder, r);
    } else {
      JoinStack(folder, r);
      var p, f, t := FollowedShared(newFile, target);
      FlattenPieces(target);
      FollowedIff(p, f, t);
    }
  }

  /** Whatever is joined to a folder is normal, unless it starts at the root or with a
      protocol. */
  lemma JoinNormal(originalFile: string, url: string)
    requires !IsAbsolute(JoinPaths(PathOf(originalFile), url))
    ensures Normal(Pieces(JoinPaths(PathOf(originalFile), url)))
  {
    var a := PathOf(originalFile);
    if PathStart(a) > 0 {
      ProtocolStays(a, url);
    } else {
      PathOfEndsFolder(originalFile);
      JoinStack(a, url);
    }
  }

  /** Relocation keeps the target exactly when it can be followed: for every file, URL and
      new file whose target is relative, the URL written into the new file leads to the
      same target if and only if the new file has no protocol, the URL does not start at
      the root, no folder below what the new file shares with the target is empty, and none
      is "." or ".." unless what they share ends in an empty segment. */
  lemma RelocationIff(originalFile: string, newFile: string, url: string)
    requires !IsAbsolute(JoinPaths(PathOf(originalFile), url))
    ensures JoinPaths(PathOf(newFile), Rewrite(originalFile, newFile, url)) == JoinPaths(PathOf(originalFile), url)
            <==> Followable(newFile, JoinPaths(PathOf(originalFile), url))
  {
    JoinNormal(originalFile, url);
    LeadsToIff(newFile, JoinPaths(PathOf(originalFile), url));
  }

  /** When the target has no empty segment either, only the folders matter. */
  lemma PlainRelocationIff(originalFile: string, newFile: string, url: string)
    requires ROOT !in Pieces(JoinPaths(PathOf(originalFile), url))
    ensures JoinPaths(PathOf(newFile), Rewrite(originalFile, newFile, url)) == JoinPaths(PathOf(originalFile), url)
            <==> AllOrdinary(Below(newFile, JoinPaths(PathOf(originalFile), url)))
  {
    var target := JoinPaths(PathOf(originalFile), url);
    ProtocolRoot(target);
    RelocationIff(originalFile, newFile, url);
    PlainFollowable(newFile, target);
  }

  lemma PlainFollowable(newFile: string, target: string)
    requires ROOT !in Pieces(target)
    ensures Followable(newFile, target) <==> AllOrdinary(Below(newFile, target))
  {
    var p, f, t := Shares(newFile, target);
    ProtocolRoot(target);
    RelativeIs(newFile, target);
    NoRootShared(p, t);
    NotRooted(|f|, target[|CommonFolder(newFile, target)|..]);
    PlainLeadsBack(p, f);
    if AllOrdinary(f) { NoRootFolder(PathOf(newFile), p, f); }
  }

  lemma NoRootShared(p: seq<string>, t: seq<string>)
    requires ROOT !in p + t
    ensures ROOT !in p && ROOT !in t
  {
    assert ROOT in p || ROOT in t ==> ROOT in p + t;
  }

  lemma PlainLeadsBack(p: seq<string>, f: seq<string>)
    requires ROOT !in p
    ensures LeadsBack(p, f) <==> AllOrdinary(f)
  {
    assert EndsInRoot(p) ==> ROOT in p;
    if AllOrdinary(f) { assert [] + f == f; OrdinaryEnd([], f); }
  }

  lemma NoRootFolder(folder: string, p: seq<string>, f: seq<string>)
    requires Pieces(folder) == p + f && ROOT !in p && AllOrdinary(f)
    ensures PathStart(folder) == 0
  {
    assert [] + f == f;
    OrdinaryEnd([], f);
    if PathStart(folder) > 0 { ProtocolInFolder(folder); }
  }

  /** For a new file whose folders are all ordinary, the URL leads to the target unless it
      was written as one that starts at the root. */
  lemma RelocationKeepsTarget(originalFile: string, newFile: string, url: string)
    requires !IsAbsolute(JoinPaths(PathOf(originalFile), url)) && AllOrdinary(Pieces(PathOf(newFile)))
    ensures JoinPaths(PathOf(newFile), Rewrite(originalFile, newFile, url)) == JoinPaths(PathOf(originalFile), url)
            <==> !(ROOT <= Rewrite(originalFile, newFile, url))
  {
    OrdinaryFollowable(newFile, JoinPaths(PathOf(originalFile), url));
    RelocationIff(originalFile, newFile, url);
  }

  lemma OrdinaryFollowable(newFile: string, target: string)
    requires AllOrdinary(Pieces(PathOf(newFile)))
    ensures Followable(newFile, target) <==> !(ROOT <= RelativePath(newFile, target))
  {
    var p, f, t := Shares(newFile, target);
    OrdinaryEnd(p, f);
    OrdinaryNoProtocol(PathOf(newFile));
  }

  lemma OrdinaryEnd(p: seq<string>, f: seq<string>)
    requires AllOrdinary(p + f)
    ensures AllOrdinary(f) && ROOT !in f
  {
    forall i | 0 <= i < |f| ensures Ordinary(f[i]) { assert (p + f)[|p| + i] == f[i]; }
  }

  lemma OrdinaryNoProtocol(a: string)
    requires AllOrdinary(Pieces(a))
    ensures PathStart(a) == 0
  {
    OrdinaryEnd([], Pieces(a)) by { assert [] + Pieces(a) == Pieces(a); }
    if PathStart(a) > 0 { ProtocolInFolder(a); }
  }

  /** A rooted target is written as it is, and found again unless the new file has a
      protocol. */
  lemma RootedIff(originalFile: string, newFile: string, url: string)
    requires PathStart(PathOf(originalFile)) == 0 && ROOT <= JoinPaths(PathOf(originalFile), url)
    ensures Rewrite(originalFile, newFile, url) == JoinPaths(PathOf(originalFile), url)
    ensures JoinPaths(PathOf(newFile), Rewrite(originalFile, newFile, url)) == JoinPaths(PathOf(originalFile), url)
            <==> PathStart(PathOf(newFile)) == 0
  {
    PathOfEndsFolder(originalFile);
    var target := JoinPaths(PathOf(originalFile), url);
    JoinStack(PathOf(originalFile), url);
    assert [] + Pieces(target) == Pieces(target);
    PushAgain([], Pieces(target));
    FlattenPieces(target);
    var folder := PathOf(newFile);
    assert JoinPaths(folder, target) == folder[..PathStart(folder)] + target;
    assert |JoinPaths(folder, target)| == PathStart(folder) + |target|;
  }
}
