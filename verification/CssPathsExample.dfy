/** A stylesheet that is moved into a folder reached through "..": its URL is wrong. */
module CssPathsExample {
  import opened CssPaths
  import opened CssPathsProof
  import opened CssPathsFollow
  import opened CssPathsTheorems

  const ORIGINAL := "c/s.css"
  const URL := "i.png"
  const TARGET := "c/i.png"
  const NEW_FILE := "a/../b/n.css"

  lemma PathIs(folder: string, name: string)
    requires EndsFolder(folder) && forall i :: 0 <= i < |name| ==> name[i] != '/'
    ensures PathOf(folder + name) == folder
  {
    var s := folder + name;
    if folder != [] { assert s[|folder| - 1] == '/'; }
    assert LastIndexOf(s) == |folder| - 1;
  }

  lemma TwoPieces(p: string, q: string)
    requires IsFolder(p) && IsPiece(q)
    ensures Pieces(p + q) == [p, q]
  {
    PiecesOfFolder(p, q);
    PiecesOfPiece(q);
  }

  lemma ThreePieces(p: string, q: string, r: string)
    requires IsFolder(p) && IsFolder(q) && IsPiece(r)
    ensures Pieces(p + (q + r)) == [p, q, r]
  {
    PiecesOfFolder(p, q + r);
    TwoPieces(q, r);
  }

  lemma Push1(s: seq<string>, p: string)
    ensures PushAll(s, [p]) == PushPiece(s, p)
  {
    assert [p][1..] == [];
  }

  lemma Push2(s: seq<string>, p: string, q: string)
    ensures PushAll(s, [p, q]) == PushPiece(PushPiece(s, p), q)
  {
    assert [p, q][1..] == [q];
    Push1(PushPiece(s, p), q);
  }

  lemma Push3(s: seq<string>, p: string, q: string, r: string)
    ensures PushAll(s, [p, q, r]) == PushPiece(PushPiece(PushPiece(s, p), q), r)
  {
    assert [p, q, r][1..] == [q, r];
    Push2(PushPiece(s, p), q, r);
  }

  lemma StackTwo(a: string, b: string)
    requires IsFolder(a) && Ordinary(a) && IsPiece(b) && Ordinary(b) && b[0] != '/'
    ensures Stack(a, b) == [a, b]
  {
    PiecesOfPiece(a);
    PiecesOfPiece(b);
    Push1([], a);
    Push1([a], b);
    assert !(ROOT <= b) && PushPiece([], a) == [a] && PushPiece([a], b) == [a] + [b];
  }

  lemma FlattenTwo(a: string, b: string)
    ensures Flatten([a, b]) == a + b
  {
    FlattenFirst(b, []);
    FlattenFirst(a, [b]);
    assert [b] == [b] + [] && [a, b] == [a] + [b] && b + [] == b;
  }

  lemma JoinTwo(a: string, b: string)
    requires IsFolder(a) && Ordinary(a) && IsPiece(b) && Ordinary(b) && b[0] != '/' && PathStart(a) == 0
    ensures JoinPaths(a, b) == a + b && Pieces(a + b) == [a, b]
  {
    TwoPieces(a, b);
    JoinStack(a, b);
    StackTwo(a, b);
    FlattenTwo(a, b);
  }

  lemma NoProtocol(a: string)
    requires |a| >= 2 && a[0] != '/' && a[0] != 'h'
    ensures PathStart(a) == 0
  {
  }

  /** The target of the URL before the move. */
  lemma Before()
    ensures PathOf(ORIGINAL) == "c/" && JoinPaths("c/", URL) == TARGET && Pieces(TARGET) == ["c/", URL]
  {
    assert ORIGINAL == "c/" + "s.css" && TARGET == "c/" + URL;
    PathIs("c/", "s.css");
    NoProtocol("c/");
    JoinTwo("c/", URL);
  }

  lemma Folder()
    ensures PathOf(NEW_FILE) == "a/../b/" && Pieces("a/../b/") == ["a/", UP, "b/"]
    ensures CommonFolder(NEW_FILE, TARGET) == "" && Below(NEW_FILE, TARGET) == ["a/", UP, "b/"]
  {
    assert NEW_FILE == "a/../b/" + "n.css" && "a/../b/" == "a/" + (UP + "b/");
    PathIs("a/../b/", "n.css");
    ThreePieces("a/", UP, "b/");
    assert CommonLength(NEW_FILE, TARGET) == 0;
    assert NEW_FILE[..0] == "";
    assert "a/../b/"[0..] == "a/../b/";
  }

  lemma ThreeUps()
    ensures Ups(3) == "../../../" && UpPieces(3) == [UP, UP, UP]
  {
    assert Ups(1) == UP + Ups(0) && Ups(2) == UP + Ups(1) && Ups(3) == UP + Ups(2);
    assert UpPieces(1) == [UP] + UpPieces(0) && UpPieces(2) == [UP] + UpPieces(1) && UpPieces(3) == [UP] + UpPieces(2);
  }

  /** The way the browser goes from the new folder. */
  lemma Way(f: seq<string>)
    requires f == ["a/", UP, "b/"]
    ensures PushAll([], f) == ["b/"]
    ensures PushAll(["b/"], [UP, UP, UP]) == [UP, UP]
    ensures PushAll([UP, UP], ["c/", "i.png"]) == [UP, UP, "c/", "i.png"]
  {
    Push3([], "a/", UP, "b/");
    assert PushPiece(["a/"], UP) == [];
    Push3(["b/"], UP, UP, UP);
    assert PushPiece(["b/"], UP) == [];
    Push2([UP, UP], "c/", "i.png");
  }

  lemma Flat()
    ensures Flatten([UP, UP, "c/", "i.png"]) == "../../c/i.png"
  {
    FlattenFirst("i.png", []);
    FlattenFirst("c/", ["i.png"]);
    FlattenFirst(UP, ["c/", "i.png"]);
    FlattenFirst(UP, [UP, "c/", "i.png"]);
    assert ["i.png"] == ["i.png"] + [] && ["c/", "i.png"] == ["c/"] + ["i.png"];
    assert [UP, "c/", "i.png"] == [UP] + ["c/", "i.png"] && [UP, UP, "c/", "i.png"] == [UP] + [UP, "c/", "i.png"];
  }

  /** A URL to "c/i.png", rewritten for a file in "a/../b/", leads to "../../c/i.png". */
  lemma WrongUrl()
    ensures JoinPaths(PathOf(ORIGINAL), URL) == TARGET
    ensures Rewrite(ORIGINAL, NEW_FILE, URL) == "../../../c/i.png"
    ensures JoinPaths(PathOf(NEW_FILE), Rewrite(ORIGINAL, NEW_FILE, URL)) == "../../c/i.png"
  {
    Before();
    Folder();
    Written();
    Arrived();
  }

  lemma Written()
    ensures RelativePath(NEW_FILE, TARGET) == "../../../c/i.png"
  {
    WrittenFacts();
    WrittenFrom(NEW_FILE, TARGET, 3);
    ThreeUpsTo(TARGET);
  }

  lemma WrittenFacts()
    ensures CommonFolder(NEW_FILE, TARGET) == "" && |Below(NEW_FILE, TARGET)| == 3 && ROOT !in Pieces(TARGET)
  {
    Before();
    Folder();
  }

  lemma ThreeUpsTo(target: string)
    requires target == TARGET
    ensures Ups(3) + target == "../../../c/i.png"
  {
    ThreeUps();
  }

  lemma WrittenFrom(newFile: string, target: string, n: nat)
    requires CommonFolder(newFile, target) == "" && |Below(newFile, target)| == n && ROOT !in Pieces(target)
    ensures RelativePath(newFile, target) == Ups(n) + target
  {
    ProtocolRoot(target);
    RelativeIs(newFile, target);
    assert target[0..] == target;
  }

  lemma Arrived()
    ensures JoinPaths(PathOf(NEW_FILE), RelativePath(NEW_FILE, TARGET)) == "../../c/i.png"
  {
    Before();
    Folder();
    NoProtocol("a/../b/");
    var f, t := ["a/", UP, "b/"], ["c/", URL];
    ArrivedText(f, t);
    ArrivedFrom(NEW_FILE, TARGET, f, t);
  }

  lemma ArrivedText(f: seq<string>, t: seq<string>)
    requires f == ["a/", UP, "b/"] && t == ["c/", "i.png"]
    ensures Flatten(Followed([], f, t)) == "../../c/i.png" && Normal(t) && ROOT !in t
  {
    Route(f, t);
    Flat();
  }

  /** Nothing is shared, so the whole folder is gone down and up again. */
  lemma ArrivedFrom(newFile: string, target: string, f: seq<string>, t: seq<string>)
    requires Pieces(PathOf(newFile)) == f && Below(newFile, target) == f && PathStart(PathOf(newFile)) == 0
    requires Pieces(target) == t && ROOT !in t && Normal(t) && CommonFolder(newFile, target) == ""
    ensures JoinPaths(PathOf(newFile), RelativePath(newFile, target)) == Flatten(Followed([], f, t))
  {
    ArrivedStack(newFile, target, f, t);
    PathOfEndsFolder(newFile);
    JoinStack(PathOf(newFile), RelativePath(newFile, target));
  }

  lemma ArrivedStack(newFile: string, target: string, f: seq<string>, t: seq<string>)
    requires Pieces(PathOf(newFile)) == f && Below(newFile, target) == f
    requires Pieces(target) == t && ROOT !in t && Normal(t) && CommonFolder(newFile, target) == ""
    ensures Stack(PathOf(newFile), RelativePath(newFile, target)) == Followed([], f, t)
  {
    ArrivedPlain(newFile, target, |f|);
    ArrivedAlone(newFile, target, [], f, t);
  }

  lemma ArrivedPlain(newFile: string, target: string, n: nat)
    requires CommonFolder(newFile, target) == "" && |Below(newFile, target)| == n && ROOT !in Pieces(target)
    ensures !IsAbsolute(target) && !(ROOT <= RelativePath(newFile, target))
  {
    ProtocolRoot(target);
    WrittenFrom(newFile, target, n);
    NotRooted(n, target);
  }

  lemma ArrivedAlone(newFile: string, target: string, p: seq<string>, f: seq<string>, t: seq<string>)
    requires p == [] && Pieces(PathOf(newFile)) == f && Below(newFile, target) == f
    requires Pieces(target) == t && Normal(t) && CommonFolder(newFile, target) == ""
    requires !IsAbsolute(target) && !(ROOT <= RelativePath(newFile, target))
    ensures Stack(PathOf(newFile), RelativePath(newFile, target)) == Followed(p, f, t)
  {
    var p1, f1, t1 := FollowedShared(newFile, target);
    assert p1 == p && f1 == f;
    assert p1 + t1 == t1;
  }

  lemma Route(f: seq<string>, t: seq<string>)
    requires f == ["a/", UP, "b/"] && t == ["c/", "i.png"]
    ensures Followed([], f, t) == [UP, UP, "c/", "i.png"]
  {
    ThreeUps();
    Way(f);
  }

  // ---------------------------------------------------------------- an empty segment

  const GAP_URL := "x//y.png"
  const GAP_TARGET := "c/x//y.png"
  const GAP_FILE := "c/x/n.css"

  lemma GapTarget()
    ensures JoinPaths("c/", GAP_URL) == GAP_TARGET
  {
    NoProtocol("c/");
    assert GAP_URL == "x/" + (ROOT + "y.png");
    ThreePieces("x/", ROOT, "y.png");
    PiecesOfPiece("c/");
    GapJoin("c/", "x/", "y.png", GAP_URL);
    GapText();
  }

  lemma GapText()
    ensures "c/" + ("x/" + (ROOT + "y.png")) == GAP_TARGET
    ensures |GAP_TARGET| == 10 && GAP_TARGET[4..] == "/y.png"
  {
  }

  lemma GapJoin(a: string, b: string, c: string, url: string)
    requires IsFolder(a) && Ordinary(a) && PathStart(a) == 0 && Pieces(a) == [a]
    requires Pieces(url) == [b, ROOT, c] && Ordinary(b) && Ordinary(c) && !(ROOT <= url)
    ensures JoinPaths(a, url) == a + (b + (ROOT + c))
  {
    JoinStack(a, url);
    GapStack(a, b, c, url);
    FlattenFour(a, b, ROOT, c);
  }

  lemma GapStack(a: string, b: string, c: string, url: string)
    requires Ordinary(a) && Pieces(a) == [a] && Pieces(url) == [b, ROOT, c] && Ordinary(b) && Ordinary(c)
    requires !(ROOT <= url)
    ensures Stack(a, url) == [a, b, ROOT, c]
  {
    Push1([], a);
    PushPlain([a], [b, ROOT, c]);
    assert PushPiece([], a) == [a] && [a] + [b, ROOT, c] == [a, b, ROOT, c];
  }

  lemma FlattenFour(a: string, b: string, c: string, d: string)
    ensures Flatten([a, b, c, d]) == a + (b + (c + d))
  {
    FlattenTwo(c, d);
    FlattenFirst(b, [c, d]);
    FlattenFirst(a, [b, c, d]);
    assert [b, c, d] == [b] + [c, d] && [a, b, c, d] == [a] + [b, c, d];
  }

  lemma GapShared()
    ensures PathOf(GAP_FILE) == "c/x/" && CommonFolder(GAP_FILE, GAP_TARGET) == "c/x/"
  {
    assert GAP_FILE == "c/x/" + "n.css";
    PathIs("c/x/", "n.css");
    CommonIs(GAP_FILE, GAP_TARGET, 4);
    assert GAP_FILE[..4] == "c/x/" + "";
    PathIs("c/x/", "");
  }

  lemma GapWritten(newFile: string, target: string)
    requires PathOf(newFile) == CommonFolder(newFile, target) && !IsAbsolute(target)
    ensures CommonFolder(newFile, target) <= target
    ensures RelativePath(newFile, target) == target[|CommonFolder(newFile, target)|..]
  {
    RelativeIs(newFile, target);
    assert Below(newFile, target) == Pieces("");
  }

  lemma GapFollowed()
    ensures JoinPaths("c/x/", "/y.png") == "/y.png"
  {
    NoProtocol("c/x/");
    assert "/y.png" == ROOT + "y.png";
    TwoPieces(ROOT, "y.png");
    assert EndsFolder("c/x/");
    GapRoot("c/x/", "/y.png", "y.png");
  }

  lemma GapRoot(a: string, b: string, c: string)
    requires EndsFolder(a) && PathStart(a) == 0 && b == ROOT + c && Pieces(b) == [ROOT, c] && Ordinary(c)
    ensures JoinPaths(a, b) == b
  {
    JoinStack(a, b);
    Push2([], ROOT, c);
    assert PushPiece([ROOT], c) == [ROOT] + [c];
    FlattenTwo(ROOT, c);
  }

  /** A URL with an empty segment, moved into the folder before it: what is written starts
      at the root, and leads there. */
  lemma RootedUrl()
    ensures JoinPaths(PathOf(ORIGINAL), GAP_URL) == GAP_TARGET
    ensures Rewrite(ORIGINAL, GAP_FILE, GAP_URL) == "/y.png"
    ensures JoinPaths(PathOf(GAP_FILE), Rewrite(ORIGINAL, GAP_FILE, GAP_URL)) == "/y.png"
  {
    Before();
    GapTarget();
    GapRewritten();
    GapFollowed();
  }

  lemma GapRewritten()
    ensures PathOf(GAP_FILE) == "c/x/" && RelativePath(GAP_FILE, GAP_TARGET) == "/y.png"
  {
    GapShared();
    GapRelative();
    GapWritten(GAP_FILE, GAP_TARGET);
    GapText();
  }

  lemma GapRelative()
    ensures !IsAbsolute(GAP_TARGET)
  {
    assert GAP_TARGET[0] == 'c';
  }
}
