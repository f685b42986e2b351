/** The cache of downloads: a folder of named directories and a persisted list of their
    names, most recently used first, that keeps five of them. */
module DownloadCache {
  const KEEP_LRU := 5
  const STAGING_SUFFIX := ".staging"

  predicate IsStaging(name: string) {
    |name| >= |STAGING_SUFFIX| && name[|name| - |STAGING_SUFFIX|..] == STAGING_SUFFIX
  }

  lemma StagingIs(name: string)
    ensures IsStaging(name + STAGING_SUFFIX)
  {
    assert (name + STAGING_SUFFIX)[|name|..] == STAGING_SUFFIX;
  }

  ghost predicate NoDuplicates(l: seq<string>) {
    forall i, j :: 0 <= i < j < |l| ==> l[i] != l[j]
  }

  function Names(l: seq<string>): set<string> { set x | x in l }

  // ---------------------------------------------------------------- lists

  /** `position` and `remove`: without the first occurrence. */
  function Without(l: seq<string>, name: string): (r: seq<string>)
    ensures |r| == if name in l then |l| - 1 else |l|
  {
    if l == [] then []
    else if l[0] == name then l[1..]
    else [l[0]] + Without(l[1..], name)
  }

  /** `retain`. */
  function Retain(l: seq<string>, name: string): seq<string> {
    if l == [] then []
    else (if l[0] == name then [] else [l[0]]) + Retain(l[1..], name)
  }

  lemma {:induction false} RetainHas(l: seq<string>, name: string, x: string)
    ensures x in Retain(l, name) <==> x in l && x != name
    decreases |l|
  {
    if l != [] {
      RetainHas(l[1..], name, x);
      assert x in l <==> x == l[0] || x in l[1..];
    }
  }

  lemma {:induction false} RetainDistinct(l: seq<string>, name: string)
    requires NoDuplicates(l)
    ensures NoDuplicates(Retain(l, name))
    decreases |l|
  {
    if l != [] {
      RetainDistinct(l[1..], name);
      RetainHas(l[1..], name, l[0]);
    }
  }

  lemma {:induction false} RetainAbsent(l: seq<string>, name: string)
    requires name !in l
    ensures Retain(l, name) == l
    decreases |l|
  {
    if l != [] { RetainAbsent(l[1..], name); }
  }

  lemma {:induction false} WithoutIsRetain(l: seq<string>, name: string)
    requires NoDuplicates(l)
    ensures Without(l, name) == Retain(l, name)
    decreases |l|
  {
    if l != [] {
      if l[0] == name { RetainAbsent(l[1..], name); } else { WithoutIsRetain(l[1..], name); }
    }
  }

  lemma WithoutNames(l: seq<string>, name: string)
    requires NoDuplicates(l)
    ensures NoDuplicates(Without(l, name)) && Names(Without(l, name)) == Names(l) - {name}
    ensures Without(l, name) == Retain(l, name)
  {
    WithoutIsRetain(l, name);
    RetainDistinct(l, name);
    forall x ensures x in Names(Without(l, name)) <==> x in Names(l) - {name} { RetainHas(l, name, x); }
  }

  /** The list after a name was used, before anything is dropped. */
  function Front(l: seq<string>, name: string): seq<string> { [name] + Without(l, name) }

  /** What `touch` makes of the list. */
  function Touched(l: seq<string>, name: string): seq<string> {
    var f := Front(l, name);
    if |f| <= KEEP_LRU then f else f[..|f| - 1]
  }

  /** The name `touch` drops. */
  function Evicted(l: seq<string>, name: string): set<string> {
    var f := Front(l, name);
    if |f| <= KEEP_LRU then {} else {f[|f| - 1]}
  }

  lemma FrontNames(l: seq<string>, name: string)
    requires NoDuplicates(l)
    ensures NoDuplicates(Front(l, name)) && Names(Front(l, name)) == Names(l) + {name}
  {
    WithoutNames(l, name);
    var w := Without(l, name);
    assert name !in w by { assert name !in Names(w); }
    forall x ensures x in Names(Front(l, name)) <==> x in Names(l) + {name} {
      assert x in Names(w) <==> x in Names(l) - {name};
    }
  }

  /** The name touched stays; the name dropped, if any, is another one. */
  lemma TouchedNames(l: seq<string>, name: string)
    requires NoDuplicates(l) && |l| <= KEEP_LRU
    ensures NoDuplicates(Touched(l, name)) && |Touched(l, name)| <= KEEP_LRU && name in Touched(l, name)
    ensures name !in Evicted(l, name)
    ensures Names(Touched(l, name)) == Names(l) + {name} - Evicted(l, name)
  {
    FrontNames(l, name);
    var f := Front(l, name);
    var t := Touched(l, name);
    assert f[0] == name == t[0];
    if |f| > KEEP_LRU {
      var last := f[|f| - 1];
      assert f == t + [last];
      forall x ensures x in Names(t) <==> x in Names(f) - {last} {
        if x in t { var i :| 0 <= i < |t| && t[i] == x; assert f[i] == x; }
      }
    }
  }

  // ---------------------------------------------------------------- recency

  /** When a name was last used, or -1. */
  function LastUse(uses: seq<string>, name: string): (i: int)
    ensures -1 <= i < |uses|
  {
    if uses == [] then -1
    else if uses[|uses| - 1] == name then |uses| - 1
    else LastUse(uses[..|uses| - 1], name)
  }

  lemma LastUseNext(uses: seq<string>, name: string, x: string)
    ensures LastUse(uses + [name], x) == if x == name then |uses| else LastUse(uses, x)
  {
    assert (uses + [name])[..|uses|] == uses;
  }

  /** Most recently used first. */
  ghost predicate ByRecency(l: seq<string>, uses: seq<string>) {
    forall i, j :: 0 <= i < j < |l| ==> LastUse(uses, l[i]) > LastUse(uses, l[j])
  }

  lemma {:induction false} RetainByRecency(l: seq<string>, name: string, uses: seq<string>)
    requires ByRecency(l, uses)
    ensures ByRecency(Retain(l, name), uses)
    decreases |l|
  {
    if l != [] {
      RetainByRecency(l[1..], name, uses);
      var r, r1 := Retain(l, name), Retain(l[1..], name);
      forall x | x in r1 ensures LastUse(uses, x) < LastUse(uses, l[0]) { RetainHas(l[1..], name, x); }
      if l[0] != name {
        forall i, j | 0 <= i < j < |r| ensures LastUse(uses, r[i]) > LastUse(uses, r[j]) {
          assert r[j] == r1[j - 1];
          if i > 0 { assert r[i] == r1[i - 1]; }
        }
      }
    }
  }

  /** Using a name keeps the order, so what is dropped is the least recently used. */
  lemma TouchedByRecency(l: seq<string>, uses: seq<string>, name: string)
    requires NoDuplicates(l) && ByRecency(l, uses)
    ensures ByRecency(Front(l, name), uses + [name]) && ByRecency(Touched(l, name), uses + [name])
    ensures forall x, y :: x in Evicted(l, name) && y in Touched(l, name) ==>
              LastUse(uses + [name], x) < LastUse(uses + [name], y)
  {
    FrontByRecency(l, uses, name);
    var f := Front(l, name);
    Drops(f, uses + [name]);
    if |f| > KEEP_LRU { EvictedIs(l, name, f); }
  }

  lemma EvictedIs(l: seq<string>, name: string, f: seq<string>)
    requires f == Front(l, name) && |f| > KEEP_LRU
    ensures Evicted(l, name) == {f[|f| - 1]} && Touched(l, name) == f[..|f| - 1]
  {
  }

  lemma FrontByRecency(l: seq<string>, uses: seq<string>, name: string)
    requires NoDuplicates(l) && ByRecency(l, uses)
    ensures ByRecency(Front(l, name), uses + [name])
  {
    WithoutNames(l, name);
    RetainByRecency(l, name, uses);
    var w := Without(l, name);
    assert name !in Names(w);
    UseFirst(w, uses, name);
  }

  lemma Drops(f: seq<string>, uses: seq<string>)
    requires f != [] && ByRecency(f, uses)
    ensures ByRecency(f[..|f| - 1], uses)
    ensures forall y :: y in f[..|f| - 1] ==> LastUse(uses, f[|f| - 1]) < LastUse(uses, y)
  {
  }

  lemma UseFirst(w: seq<string>, uses: seq<string>, name: string)
    requires ByRecency(w, uses) && name !in w
    ensures ByRecency([name] + w, uses + [name])
  {
    var f := [name] + w;
    forall i, j | 0 <= i < j < |f| ensures LastUse(uses + [name], f[i]) > LastUse(uses + [name], f[j]) {
      LastUseNext(uses, name, f[i]);
      LastUseNext(uses, name, f[j]);
      assert f[j] == w[j - 1];
      if i > 0 { assert f[i] == w[i - 1]; }
    }
  }

  // ---------------------------------------------------------------- a simple form

  /** All names used, most recent first. */
  function AllUsed(uses: seq<string>): seq<string> {
    if uses == [] then [] else Front(AllUsed(uses[..|uses| - 1]), uses[|uses| - 1])
  }

  function Kept(uses: seq<string>): seq<string> {
    if uses == [] then [] else Touched(Kept(uses[..|uses| - 1]), uses[|uses| - 1])
  }

  function Take(l: seq<string>): seq<string> { if |l| <= KEEP_LRU then l else l[..KEEP_LRU] }

  lemma {:induction false} TakeWithout(l: seq<string>, name: string, n: nat)
    requires n <= |Without(l, name)| && n <= |l|
    ensures n <= |Without(l[..n], name)| ==> Without(l[..n], name) == Without(l, name)[..n]
    ensures n > 0 ==> Without(l, name)[..n - 1] == Without(l[..n], name)[..n - 1]
    decreases |l|
  {
    if n > 0 {
      assert l[..n][1..] == l[1..][..n - 1];
      if l[0] != name { TakeWithout(l[1..], name, n - 1); }
    }
  }

  /** Dropping names one at a time keeps the five most recently used of all. */
  lemma {:induction false} KeptIsTake(uses: seq<string>)
    ensures Kept(uses) == Take(AllUsed(uses))
    decreases |uses|
  {
    if uses != [] {
      var before, name := uses[..|uses| - 1], uses[|uses| - 1];
      KeptIsTake(before);
      TouchTake(AllUsed(before), name);
    }
  }

  lemma TouchTake(l: seq<string>, name: string)
    ensures Touched(Take(l), name) == Take(Front(l, name))
  {
    if |l| > KEEP_LRU {
      TakeWithout(l, name, KEEP_LRU);
      var a, b := Front(l[..KEEP_LRU], name), Front(l, name);
      assert a[..KEEP_LRU] == [name] + Without(l[..KEEP_LRU], name)[..KEEP_LRU - 1];
      assert b[..KEEP_LRU] == [name] + Without(l, name)[..KEEP_LRU - 1];
    }
  }

  // ---------------------------------------------------------------- the cache

  class Cache {
    var list: seq<string>         // the persisted list
    var dirs: set<string>         // the directories that exist, staging ones included
    ghost var uses: seq<string>   // every use, in order

    ghost function Cached(): set<string>
      reads this
    {
      set d | d in dirs && !IsStaging(d)
    }

    /** The list is in order of use, without duplicates, and not too long. */
    ghost predicate ListOk()
      reads this
    {
      NoDuplicates(list) && |list| <= KEEP_LRU && ByRecency(list, uses)
    }

    /** The list names exactly the cached directories. */
    ghost predicate Valid()
      reads this
    {
      ListOk() && Names(list) == Cached()
    }

    constructor ()
      ensures Valid() && list == [] && dirs == {}
    {
      list, dirs, uses := [], {}, [];
    }

    /** `touch`: to the front of the list; the last one goes when there are too many. */
    method Touch(name: string)
      requires ListOk()
      modifies this
      ensures ListOk() && uses == old(uses) + [name]
      ensures list == Touched(old(list), name) && dirs == old(dirs) - Evicted(old(list), name)
    {
      TouchedNames(list, name);
      TouchedByRecency(list, uses, name);
      uses := uses + [name];
      list := [name] + Without(list, name);
      if |list| <= KEEP_LRU {
        return;
      }
      dirs := dirs - {list[|list| - 1]};
      list := list[..|list| - 1];
    }

    /** `exists`. */
    method Exists(name: string) returns (found: bool)
      requires Valid() && !IsStaging(name)
      modifies this
      ensures Valid() && found == (name in old(Cached()))
      ensures list == if found then Touched(old(list), name) else old(list)
      ensures Cached() == old(Cached()) && dirs == old(dirs)
      ensures uses == if found then old(uses) + [name] else old(uses)
    {
      if name !in dirs {
        return false;
      }
      TouchedNames(list, name);
      assert name in Names(list);
      TouchKnown(list, name);
      Touch(name);
      found := true;
    }

    /** `delete`. */
    method Delete(name: string)
      requires Valid() && !IsStaging(name)
      modifies this
      ensures Valid() && Cached() == old(Cached()) - {name} && uses == old(uses)
      ensures list == Retain(old(list), name) && dirs == old(dirs) - {name}
    {
      WithoutNames(list, name);
      RetainByRecency(list, name, uses);
      dirs := dirs - {name};
      list := Retain(list, name);
    }

    /** `create`, with a function that succeeds or fails.  The directory is made under
        another name and renamed in the end; the list is updated before. */
    method Create(name: string, created: bool) returns (ok: bool)
      requires Valid() && !IsStaging(name)
      modifies this
      ensures Valid() && ok == (created || name in old(Cached()))
      ensures ok ==> name in Cached()
      ensures name in old(Cached()) || !ok ==> list == old(list) && Cached() == old(Cached()) && uses == old(uses)
      ensures name !in old(Cached()) && ok ==>
                uses == old(uses) + [name] && list == Touched(old(list), name) &&
                Cached() == old(Cached()) + {name} - Evicted(old(list), name)
      ensures dirs == if name in old(Cached()) then old(dirs)
                      else if !ok then old(dirs) + {name + STAGING_SUFFIX}
                      else old(dirs) - {name + STAGING_SUFFIX} + {name} - Evicted(old(list), name)
    {
      if name in dirs {
        return true;
      }
      var temp := name + STAGING_SUFFIX;
      StagingIs(name);
      dirs := dirs - {temp} + {temp};
      if !created {
        return false;
      }
      TouchedNames(list, name);
      Touch(name);
      dirs := dirs - {temp} + {name};
      ok := true;
    }
  }

  /** A name that is already listed drops no other. */
  lemma TouchKnown(l: seq<string>, name: string)
    requires NoDuplicates(l) && |l| <= KEEP_LRU && name in l
    ensures Evicted(l, name) == {}
  {
  }
}
