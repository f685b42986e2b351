/** What a path means, apart from how it is written: the place one comes to by following
    it.  Joining keeps it. */
module CssPathsMeaning {
  import opened Prelude
  import opened CssPaths
  import opened CssPathsProof
  import opened CssPathsTheorems

  /** So many folders up from the start, and then down; there is no way up from the root. */
  datatype Place = Place(up: nat, down: seq<string>)

  const HOME := Place(0, [])

  function Go(l: Place, piece: string): Place {
    var n := |l.down|;
    if piece == HERE then l
    else if piece != UP then Place(l.up, l.down + [piece])
    else if n == 0 then Place(l.up + 1, [])
    else if l.down[n - 1] == ROOT then l
    else Place(l.up, l.down[..n - 1])
  }

  function Walk(l: Place, pieces: seq<string>): Place
    decreases |pieces|
  {
    if pieces == [] then l else Walk(Go(l, pieces[0]), pieces[1..])
  }

  /** Where a path leads. */
  function Locate(path: string): Place { Walk(HOME, Pieces(path)) }

  // ---------------------------------------------------------------- places as lists of pieces

  ghost predicate Proper(l: Place) { UP !in l.down && HERE !in l.down }

  ghost function Climbs(n: nat): (s: seq<string>)
    ensures |s| == n && forall i :: 0 <= i < n ==> s[i] == UP
  {
    seq(n, _ => UP)
  }

  ghost function ListOf(l: Place): seq<string> { Climbs(l.up) + l.down }

  lemma GoPushes(l: Place, piece: string)
    requires Proper(l)
    ensures Proper(Go(l, piece)) && PushPiece(ListOf(l), piece) == ListOf(Go(l, piece))
  {
    var s, n := ListOf(l), |l.down|;
    if n > 0 {
      assert s[|s| - 1] == l.down[n - 1];
      assert l.down[n - 1] in l.down;
      assert s[..|s| - 1] == Climbs(l.up) + l.down[..n - 1];
    } else {
      assert Climbs(l.up) + [UP] == Climbs(l.up + 1);
    }
  }

  lemma {:induction false} WalkPushes(l: Place, pieces: seq<string>)
    requires Proper(l)
    ensures Proper(Walk(l, pieces)) && PushAll(ListOf(l), pieces) == ListOf(Walk(l, pieces))
    decreases |pieces|
  {
    if pieces != [] {
      GoPushes(l, pieces[0]);
      WalkPushes(Go(l, pieces[0]), pieces[1..]);
    }
  }

  lemma {:induction false} WalkJoin(l: Place, a: seq<string>, b: seq<string>)
    ensures Walk(l, a + b) == Walk(Walk(l, a), b)
    decreases |a|
  {
    if a == [] {
      assert a + b == b;
    } else {
      assert (a + b)[1..] == a[1..] + b;
      WalkJoin(Go(l, a[0]), a[1..], b);
    }
  }

  lemma {:induction false} WalkUp(k: nat, n: nat)
    ensures Walk(Place(k, []), Climbs(n)) == Place(k + n, [])
    decreases n
  {
    if n > 0 {
      assert Climbs(n)[1..] == Climbs(n - 1);
      WalkUp(k + 1, n - 1);
    }
  }

  lemma {:induction false} WalkDown(l: Place, down: seq<string>)
    requires UP !in down && HERE !in down
    ensures Walk(l, down) == Place(l.up, l.down + down)
    decreases |down|
  {
    if down == [] {
      assert l.down + down == l.down;
    } else {
      assert down[0] in down && (forall p :: p in down[1..] ==> p in down);
      WalkDown(Go(l, down[0]), down[1..]);
      assert l.down + [down[0]] + down[1..] == l.down + down;
    }
  }

  /** Following the list of a place leads to the place. */
  lemma ListLeads(l: Place)
    requires Proper(l)
    ensures Walk(HOME, ListOf(l)) == l
  {
    WalkJoin(HOME, Climbs(l.up), l.down);
    WalkUp(0, l.up);
    WalkDown(Place(l.up, []), l.down);
    assert [] + l.down == l.down;
  }

  // ---------------------------------------------------------------- joining

  /** Where following b from the folder a leads. */
  function Followed(a: string, b: string): Place {
    if ROOT <= b then Locate(b) else Walk(Locate(a), Pieces(b))
  }

  lemma StackLeads(a: string, b: string)
    ensures Walk(HOME, Stack(a, b)) == Followed(a, b)
  {
    assert ListOf(HOME) == [];
    WalkPushes(HOME, Pieces(a));
    var l := if ROOT <= b then HOME else Locate(a);
    WalkPushes(l, Pieces(b));
    ListLeads(Walk(l, Pieces(b)));
  }

  /** Joining keeps the host of the folder, if it has one, and otherwise leads where
      following the URL from the folder leads; a URL that starts at the root is followed
      from there. */
  lemma JoinLeads(file: string, url: string)
    ensures var a := PathOf(file);
            var n := PathStart(a);
            && n <= |JoinPaths(a, url)| && JoinPaths(a, url)[..n] == a[..n]
            && Locate(JoinPaths(a, url)[n..]) == Followed(a[n..], url)
  {
    var a := PathOf(file);
    var n := PathStart(a);
    var rest := a[n..];
    PathOfEndsFolder(file);
    StackLeads(rest, url);
    StackShaped(rest, url);
    PiecesFlatten(Stack(rest, url));
    assert JoinPaths(a, url) == a[..n] + Flatten(Stack(rest, url));
    assert JoinPaths(a, url)[n..] == Flatten(Stack(rest, url));
  }

  lemma StackShaped(a: string, b: string)
    requires EndsFolder(a)
    ensures Shaped(Stack(a, b))
  {
    FlattenPieces(a);
    PiecesAreFolders(a);
    PushShaped([], Pieces(a));
    FlattenPieces(b);
    PushShaped(if ROOT <= b then [] else PushAll([], Pieces(a)), Pieces(b));
  }

  // ---------------------------------------------------------------- relocation

  /** Without a host, the joined path is normal and leads there. */
  lemma JoinLocates(file: string, url: string)
    requires PathStart(PathOf(file)) == 0
    ensures var j := JoinPaths(PathOf(file), url);
            Locate(j) == Followed(PathOf(file), url) && Normal(Pieces(j))
  {
    var a := PathOf(file);
    var j := JoinPaths(a, url);
    JoinLeads(file, url);
    assert j[0..] == j && a[0..] == a;
    PathOfEndsFolder(file);
    JoinStack(a, url);
  }

  lemma NormalIsList(p: string)
    requires Normal(Pieces(p))
    ensures ListOf(Locate(p)) == Pieces(p)
  {
    assert ListOf(HOME) == [];
    WalkPushes(HOME, Pieces(p));
    assert [] + Pieces(p) == Pieces(p);
    PushAgain([], Pieces(p));
  }

  /** Two normal paths lead to the same place only if they are the same. */
  lemma SamePlace(p: string, q: string)
    requires Normal(Pieces(p)) && Normal(Pieces(q)) && Locate(p) == Locate(q)
    ensures p == q
  {
    NormalIsList(p);
    NormalIsList(q);
    FlattenPieces(p);
    FlattenPieces(q);
  }

  /** Relocation in terms of places: followed from the folder of the new file, the
      rewritten URL leads where the original one leads from the folder of the original
      file, exactly when it can be followed. */
  lemma RelocationLeadsIff(originalFile: string, newFile: string, url: string)
    requires !IsAbsolute(JoinPaths(PathOf(originalFile), url)) && PathStart(PathOf(newFile)) == 0
    ensures Followed(PathOf(newFile), Rewrite(originalFile, newFile, url)) == Followed(PathOf(originalFile), url)
            <==> Followable(newFile, JoinPaths(PathOf(originalFile), url))
  {
    if PathStart(PathOf(originalFile)) > 0 { ProtocolStays(PathOf(originalFile), url); }
    var r := Rewrite(originalFile, newFile, url);
    var p, q := JoinPaths(PathOf(newFile), r), JoinPaths(PathOf(originalFile), url);
    JoinLocates(newFile, r);
    JoinLocates(originalFile, url);
    RelocationIff(originalFile, newFile, url);
    if Locate(p) == Locate(q) { SamePlace(p, q); }
  }
}
