/** Paths of the stylesheet plugin: joining, normalising and making relative. */
module CssPaths {
  const UP := "../"
  const HERE := "./"
  const ROOT := "/"

  /** `indexOf('/', from)`: the first slash at or after a position, or -1. */
  function IndexOf(s: string, from: nat): (i: int)
    ensures i == -1 || from <= i < |s|
    ensures i >= 0 ==> s[i] == '/' && forall k :: from <= k < i ==> s[k] != '/'
    ensures i == -1 ==> forall k :: from <= k < |s| ==> s[k] != '/'
    decreases |s| - from
  {
    if from >= |s| then -1 else if s[from] == '/' then from else IndexOf(s, from + 1)
  }

  /** `lastIndexOf('/')`. */
  function LastIndexOf(s: string): (i: int)
    ensures -1 <= i < |s|
    ensures i >= 0 ==> s[i] == '/'
    ensures forall k :: i < k < |s| ==> s[k] != '/'
  {
    if s == [] then -1
    else if s[|s| - 1] == '/' then |s| - 1
    else LastIndexOf(s[..|s| - 1])
  }

  /** `pathOf`: the folder of a file, with its slash. */
  function PathOf(filename: string): string { filename[..LastIndexOf(filename) + 1] }

  /** Where the path starts after a protocol and host; 0 without the prefix. */
  function SlashIndexAfter(haystack: string, prefix: string): (i: nat)
    ensures i <= |haystack|
  {
    if prefix <= haystack then
      var i := IndexOf(haystack, |prefix|);
      if i > |prefix| then i else |prefix|
    else 0
  }

  function PathStart(a: string): (i: nat)
    ensures i <= |a|
  {
    var i := SlashIndexAfter(a, "//");
    var j := if i != 0 then i else SlashIndexAfter(a, "http://");
    if j != 0 then j else SlashIndexAfter(a, "https://")
  }

  /** The position is that of the first slash behind the prefix, or the end of the prefix
      when there is none. */
  ghost predicate Behind(a: string, prefix: string, i: nat) {
    && |prefix| <= i <= |a| && (forall k :: |prefix| <= k < i ==> a[k] != '/')
    && ((i < |a| && a[i] == '/') || (i == |prefix| && forall k :: |prefix| <= k < |a| ==> a[k] != '/'))
  }

  lemma SlashIsBehind(a: string, prefix: string)
    requires prefix <= a
    ensures Behind(a, prefix, SlashIndexAfter(a, prefix))
  {
  }

  lemma OneProtocol(a: string)
    ensures "//" <= a ==> a[0] == '/'
    ensures "http://" <= a ==> a[0] == 'h' && a[4] == ':'
    ensures "https://" <= a ==> a[0] == 'h' && a[4] == 's'
  {
  }

  /** The path starts behind the host of a URL, with or without its scheme, and at the
      very beginning of everything else. */
  lemma PathStartIs(a: string)
    ensures "//" <= a ==> Behind(a, "//", PathStart(a))
    ensures "http://" <= a ==> Behind(a, "http://", PathStart(a))
    ensures "https://" <= a ==> Behind(a, "https://", PathStart(a))
    ensures !("//" <= a) && !("http://" <= a) && !("https://" <= a) ==> PathStart(a) == 0
  {
    OneProtocol(a);
    if "//" <= a { SlashIsBehind(a, "//"); }
    if "http://" <= a { SlashIsBehind(a, "http://"); }
    if "https://" <= a { SlashIsBehind(a, "https://"); }
  }

  /** The pieces of a path: each ends in its slash, except perhaps the last one. */
  function Pieces(path: string): seq<string>
    decreases |path|
  {
    var i := IndexOf(path, 0);
    if path == [] then []
    else if i < 0 then [path]
    else [path[..i + 1]] + Pieces(path[i + 1..])
  }

  /** `join('')`. */
  function Flatten(pieces: seq<string>): string {
    if pieces == [] then [] else pieces[0] + Flatten(pieces[1..])
  }

  function PushPiece(pieces: seq<string>, piece: string): seq<string> {
    var n := |pieces|;
    if piece == HERE then pieces
    else if piece == UP && n > 0 && pieces[n - 1] == ROOT then pieces
    else if piece == UP && n > 0 && pieces[n - 1] != UP then pieces[..n - 1]
    else pieces + [piece]
  }

  function PushAll(pieces: seq<string>, more: seq<string>): seq<string>
    decreases |more|
  {
    if more == [] then pieces else PushAll(PushPiece(pieces, more[0]), more[1..])
  }

  /** `joinPaths`. */
  function JoinPaths(a: string, b: string): string {
    var start := PathStart(a);
    var pieces := if ROOT <= b then [] else PushAll([], Pieces(a[start..]));
    a[..start] + Flatten(PushAll(pieces, Pieces(b)))
  }

  function CommonLength(a: string, b: string): (n: nat)
    ensures n <= |a| && n <= |b| && a[..n] == b[..n]
    ensures n < |a| && n < |b| ==> a[n] != b[n]
  {
    if a == [] || b == [] || a[0] != b[0] then 0
    else
      assert a == [a[0]] + a[1..] && b == [b[0]] + b[1..];
      1 + CommonLength(a[1..], b[1..])
  }

  /** `commonFolderPrefix`. */
  function CommonFolder(a: string, b: string): string {
    PathOf(a[..CommonLength(a, b)])
  }

  function Slashes(s: string): nat {
    if s == [] then 0 else Slashes(s[1..]) + if s[0] == '/' then 1 else 0
  }

  function Ups(n: nat): string {
    if n == 0 then [] else UP + Ups(n - 1)
  }

  /** The target is not relative. */
  predicate IsAbsolute(path: string) {
    ROOT <= path || "http://" <= path || "https://" <= path
  }

  /** `relativePath`. */
  function RelativePath(from: string, to: string): string {
    if IsAbsolute(to) then to
    else
      var n := |CommonFolder(from, to)|;
      FolderIsPrefix(from, to);
      Ups(Slashes(from[n..])) + to[n..]
  }

  lemma FolderIsPrefix(a: string, b: string)
    ensures CommonFolder(a, b) <= a && CommonFolder(a, b) <= b
  {
  }

  /** No longer folder is shared. */
  lemma CommonFolderIs(a: string, b: string, folder: string)
    ensures var r := CommonFolder(a, b); r <= a && r <= b && (r == [] || r[|r| - 1] == '/')
    ensures folder <= a && folder <= b && (folder == [] || folder[|folder| - 1] == '/') ==>
              folder <= CommonFolder(a, b)
  {
    FolderIsPrefix(a, b);
    var n := CommonLength(a, b);
    if folder <= a && folder <= b && folder != [] && folder[|folder| - 1] == '/' {
      var k := |folder|;
      assert forall i :: 0 <= i < k ==> a[i] == folder[i] && b[i] == folder[i];
      assert a[..n][k - 1] == '/';
    }
  }

  /** `rewriteUrls`, for one URL. */
  function Rewrite(originalFile: string, newFile: string, url: string): string {
    RelativePath(newFile, JoinPaths(PathOf(originalFile), url))
  }

  // ---------------------------------------------------------------- the loops

  /** The loop of `push`. */
  method Push(pieces: seq<string>, path: string) returns (r: seq<string>)
    ensures r == PushAll(pieces, Pieces(path))
  {
    r := pieces;
    var rest := path;
    while |rest| > 0
      invariant PushAll(r, Pieces(rest)) == PushAll(pieces, Pieces(path))
      decreases |rest|
    {
      var slash := IndexOf(rest, 0);
      var piece := if slash >= 0 then rest[..slash + 1] else rest;
      PushFirst(r, rest);
      rest := if slash >= 0 then rest[slash + 1..] else [];
      r := PushPiece(r, piece);
    }
  }

  lemma PushFirst(pieces: seq<string>, path: string)
    requires |path| > 0
    ensures var i := IndexOf(path, 0);
            PushAll(pieces, Pieces(path)) ==
            if i >= 0 then PushAll(PushPiece(pieces, path[..i + 1]), Pieces(path[i + 1..]))
            else PushAll(PushPiece(pieces, path), Pieces([]))
  {
    assert Pieces(path)[1..] == if IndexOf(path, 0) >= 0 then Pieces(path[IndexOf(path, 0) + 1..]) else Pieces([]);
  }

  method Join(a: string, b: string) returns (r: string)
    ensures r == JoinPaths(a, b)
  {
    var start := PathStart(a);
    var pieces := Push([], a[start..]);
    if |b| > 0 && b[0] == '/' {
      pieces := [];
    }
    pieces := Push(pieces, b);
    r := a[..start] + Flatten(pieces);
  }

  method CommonPrefix(a: string, b: string) returns (r: string)
    ensures r <= a && r <= b && (|r| < |a| && |r| < |b| ==> a[|r|] != b[|r|])
    ensures r == a[..CommonLength(a, b)]
  {
    var len := if |a| < |b| then |a| else |b|;
    for i := 0 to len
      invariant a[..i] == b[..i]
    {
      if a[i] != b[i] {
        CommonIs(a, b, i);
        return a[..i];
      }
    }
    CommonIs(a, b, len);
    r := a[..len];
  }

  lemma {:induction false} CommonIs(a: string, b: string, n: nat)
    requires n <= |a| && n <= |b| && a[..n] == b[..n] && (n < |a| && n < |b| ==> a[n] != b[n])
    ensures CommonLength(a, b) == n
  {
    if n > 0 {
      assert a[0] == a[..n][0] && b[0] == b[..n][0];
      assert a[1..][..n - 1] == a[..n][1..] && b[1..][..n - 1] == b[..n][1..];
      CommonIs(a[1..], b[1..], n - 1);
    }
  }

  lemma UpsNext(r: string, n: nat)
    requires n > 0
    ensures r + Ups(n) == r + UP + Ups(n - 1)
  {
  }

  /** The loop of `relativePath`. */
  method Climb(n: nat) returns (r: string)
    ensures r == Ups(n)
  {
    r := "";
    for i := 0 to n
      invariant Ups(n) == r + Ups(n - i)
    {
      UpsNext(r, n - i);
      r := r + UP;
    }
  }

  method Relative(from: string, to: string) returns (r: string)
    ensures r == RelativePath(from, to)
    ensures "/" <= to || "http://" <= to || "https://" <= to ==> r == to
  {
    if IsAbsolute(to) {
      return to;
    }
    var common := CommonPrefix(from, to);
    var n := |PathOf(common)|;
    FolderIsPrefix(from, to);
    var ups := Climb(Slashes(from[n..]));
    r := ups + to[n..];
  }
}
