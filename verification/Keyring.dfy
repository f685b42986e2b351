/** Credentials in the system keyring: a value too long for one entry is cut into
    chunks, and every chunk that has a successor ends in a marker. */
module Keyring {
  import opened Prelude

  const MARKER := "<MORE>"

  datatype Platform = Windows | Other

  /** KEYCHAIN_ENTRY_LIMIT. */
  function EntryLimit(p: Platform): nat {
    match p case Windows => 1024 case Other => 128 * 1024
  }

  predicate EndsWith(s: string, suffix: string) {
    |suffix| <= |s| && s[|s| - |suffix|..] == suffix
  }

  lemma MarkedEnds(s: string)
    ensures EndsWith(s + MARKER, MARKER) && Unmarked(s + MARKER) == s
  {
    assert (s + MARKER)[|s|..] == MARKER;
  }

  /** A chunk without its marker. */
  function Unmarked(chunk: string): string
    requires EndsWith(chunk, MARKER)
  {
    chunk[..|chunk| - |MARKER|]
  }

  /** The entries after the value was written from the n-th one on, `step` characters
      to an entry. */
  function StoreFrom(slots: map<nat, string>, value: string, step: nat, n: nat): map<nat, string>
    requires step > 0
    decreases |value|
  {
    if value == "" then slots
    else if step <= |value| then StoreFrom(slots[n := value[..step] + MARKER], value[step..], step, n + 1)
    else slots[n := value]
  }

  ghost function Later(slots: map<nat, string>, n: nat): set<nat> { set k | k in slots && k >= n }

  lemma FewerLater(slots: map<nat, string>, n: nat)
    requires n in slots
    ensures Later(slots, n + 1) < Later(slots, n)
  {
    assert n in Later(slots, n) && n !in Later(slots, n + 1);
  }

  /** What is read from the n-th entry on: nothing when an entry is missing. */
  function ReadFrom(slots: map<nat, string>, n: nat): Option<string>
    decreases Later(slots, n)
  {
    if n !in slots then None
    else if !EndsWith(slots[n], MARKER) then Some(slots[n])
    else
      FewerLater(slots, n);
      Then(Unmarked(slots[n]), ReadFrom(slots, n + 1))
  }

  function Then(s: string, rest: Option<string>): Option<string> {
    match rest case None => None case Some(t) => Some(s + t)
  }

  lemma JoinThen(s: string, t: string, rest: Option<string>)
    ensures Then(s, Then(t, rest)) == Then(s + t, rest)
    ensures Then("", rest) == rest
  {
    if rest.Some? { assert s + (t + rest.value) == s + t + rest.value && "" + rest.value == rest.value; }
  }

  // ---------------------------------------------------------------- the round trip

  lemma {:induction false} StoreKeepsEarlier(slots: map<nat, string>, value: string, step: nat, n: nat)
    requires step > 0
    ensures forall k :: k < n ==> (k in StoreFrom(slots, value, step, n) <==> k in slots)
    ensures forall k :: k < n && k in slots ==> StoreFrom(slots, value, step, n)[k] == slots[k]
    decreases |value|
  {
    if value != "" && step <= |value| {
      StoreKeepsEarlier(slots[n := value[..step] + MARKER], value[step..], step, n + 1);
    }
  }

  /** The chunk after the last full one. */
  function LastChunk(value: string, step: nat): string
    requires step > 0
    decreases |value|
  {
    if step <= |value| then LastChunk(value[step..], step) else value
  }

  lemma ModAtMost(n: nat, d: nat)
    requires d > 0
    ensures 0 <= n % d <= n
  {
    if n < d { Euclid(n, d, 0, n); }
  }

  /** The end of the value that does not fill a chunk. */
  function Remainder(value: string, step: nat): (r: string)
    requires step > 0
    ensures |r| == |value| % step && |r| <= |value|
  {
    ModAtMost(|value|, step);
    value[|value| - |value| % step..]
  }

  /** The last chunk is what is left over by the length. */
  lemma {:induction false} LastChunkIs(value: string, step: nat)
    requires step > 0
    ensures LastChunk(value, step) == Remainder(value, step)
    decreases |value|
  {
    if step <= |value| {
      LastChunkIs(value[step..], step);
      assert |value[step..]| % step == |value| % step by { ModStep(|value|, step); }
    } else {
      assert |value| % step == |value| by { ModSmall(|value|, step); }
    }
  }

  lemma ModStep(n: nat, step: nat)
    requires 0 < step <= n
    ensures (n - step) % step == n % step
  {
    var q := (n - step) / step;
    assert n - step == q * step + (n - step) % step;
    Euclid(n, step, q + 1, (n - step) % step);
  }

  lemma Euclid(n: nat, d: nat, q: nat, r: nat)
    requires d > 0 && n == q * d + r && r < d
    ensures n / d == q && n % d == r
  {
    var q1, r1 := n / d, n % d;
    assert n == q1 * d + r1;
    assert (q - q1) * d == r1 - r;
    if q > q1 { AtLeast(q - q1, d); } else if q < q1 { AtLeast(q1 - q, d); }
  }

  lemma AtLeast(a: nat, d: nat)
    requires a > 0
    ensures a * d >= d
  {
  }

  lemma ModSmall(n: nat, step: nat)
    requires n < step
    ensures n % step == n
  {
  }

  /** The value does not fill its chunks, and its last chunk does not look continued. */
  predicate Storable(value: string, step: nat)
    requires step > 0
  {
    |value| % step != 0 && !EndsWith(Remainder(value, step), MARKER)
  }

  lemma {:induction false} ReadStored(slots: map<nat, string>, value: string, step: nat, n: nat)
    requires step > 0
    requires LastChunk(value, step) != "" && !EndsWith(LastChunk(value, step), MARKER)
    ensures ReadFrom(StoreFrom(slots, value, step, n), n) == Some(value)
    decreases |value|
  {
    if step <= |value| {
      var chunk, rest := value[..step], value[step..];
      var first := slots[n := chunk + MARKER];
      ReadStored(first, rest, step, n + 1);
      StoreKeepsEarlier(first, rest, step, n + 1);
      MarkedEnds(chunk);
      assert value == chunk + rest;
    }
  }

  /** In an empty keyring a value that fills its chunks, or whose last chunk looks
      continued, cannot be read again. */
  lemma {:induction false} ReadFails(slots: map<nat, string>, value: string, step: nat, n: nat)
    requires step > 0 && forall k :: k in slots ==> k < n
    requires LastChunk(value, step) == "" || EndsWith(LastChunk(value, step), MARKER)
    ensures ReadFrom(StoreFrom(slots, value, step, n), n) == None
    decreases |value|
  {
    if value != "" && step <= |value| {
      var chunk, rest := value[..step], value[step..];
      var first := slots[n := chunk + MARKER];
      ReadFails(first, rest, step, n + 1);
      StoreKeepsEarlier(first, rest, step, n + 1);
      MarkedEnds(chunk);
    }
  }

  /** Reading gives back what was stored, whatever was in the keyring before. */
  ghost predicate AlwaysReadBack(value: string, step: nat)
    requires step > 0
  {
    forall slots: map<nat, string> :: ReadFrom(StoreFrom(slots, value, step, 0), 0) == Some(value)
  }

  /** A stored value is read back, over any older value, exactly when its length is not
      a multiple of the chunk size and its last chunk does not end in the marker; the
      empty value is the multiple zero. */
  lemma RoundTripIff(value: string, step: nat)
    requires step > 0
    ensures AlwaysReadBack(value, step) <==> Storable(value, step)
    ensures ReadFrom(StoreFrom(map[], value, step, 0), 0) == (if Storable(value, step) then Some(value) else None)
  {
    LastChunkIs(value, step);
    if Storable(value, step) {
      forall slots: map<nat, string> ensures ReadFrom(StoreFrom(slots, value, step, 0), 0) == Some(value) {
        ReadStored(slots, value, step, 0);
      }
    } else {
      ReadFails(map[], value, step, 0);
    }
  }

  // ---------------------------------------------------------------- over an older value

  function FullChunks(value: string, step: nat): nat
    requires step > 0
    decreases |value|
  {
    if step <= |value| then 1 + FullChunks(value[step..], step) else 0
  }

  lemma {:induction false} FullChunksIs(value: string, step: nat)
    requires step > 0
    ensures FullChunks(value, step) == |value| / step
    decreases |value|
  {
    if step <= |value| {
      FullChunksIs(value[step..], step);
      var n := |value| - step;
      assert n == (n / step) * step + n % step;
      Euclid(|value|, step, n / step + 1, n % step);
    } else {
      Euclid(|value|, step, 0, |value|);
    }
  }

  /** Reading looks at later entries only. */
  lemma {:induction false} ReadSame(a: map<nat, string>, b: map<nat, string>, n: nat)
    requires forall k :: k >= n ==> (k in a <==> k in b) && (k in a ==> a[k] == b[k])
    ensures ReadFrom(a, n) == ReadFrom(b, n)
    decreases Later(a, n)
  {
    if n in a && EndsWith(a[n], MARKER) {
      FewerLater(a, n);
      ReadSame(a, b, n + 1);
    }
  }

  lemma {:induction false} LastChunkEnds(value: string, step: nat)
    requires step > 0
    ensures |LastChunk(value, step)| <= |value|
    decreases |value|
  {
    if step <= |value| { LastChunkEnds(value[step..], step); }
  }

  /** What is read after a value was written from the n-th entry on: when its last chunk
      looks continued, whatever the next entry held before is read on. */
  ghost function ReadBack(slots: map<nat, string>, value: string, step: nat, n: nat): Option<string>
    requires step > 0
  {
    var last, next := LastChunk(value, step), n + FullChunks(value, step);
    LastChunkEnds(value, step);
    if last == "" then Then(value, ReadFrom(slots, next))
    else if EndsWith(last, MARKER) then Then(value[..|value| - |MARKER|], ReadFrom(slots, next + 1))
    else Some(value)
  }

  lemma {:induction false} ReadsBack(slots: map<nat, string>, value: string, step: nat, n: nat)
    requires step > 0
    ensures ReadFrom(StoreFrom(slots, value, step, n), n) == ReadBack(slots, value, step, n)
    decreases |value|
  {
    if value == "" {
      JoinThen("", "", ReadFrom(slots, n));
    } else if step <= |value| {
      var chunk, rest := value[..step], value[step..];
      var first := slots[n := chunk + MARKER];
      ReadsBack(first, rest, step, n + 1);
      StoreKeepsEarlier(first, rest, step, n + 1);
      MarkedEnds(chunk);
      ReadBackFirst(slots, first, value, step, n);
    } else {
      ReadSame(slots[n := value], slots, n + 1);
    }
  }

  lemma ReadBackFirst(slots: map<nat, string>, first: map<nat, string>, value: string, step: nat, n: nat)
    requires 0 < step <= |value| && first == slots[n := value[..step] + MARKER]
    ensures ReadBack(slots, value, step, n) == Then(value[..step], ReadBack(first, value[step..], step, n + 1))
  {
    var chunk, rest := value[..step], value[step..];
    var next := n + 1 + FullChunks(rest, step);
    ReadSame(first, slots, next);
    ReadSame(first, slots, next + 1);
    LastChunkEnds(rest, step);
    assert chunk + rest == value;
    JoinThen(chunk, rest, ReadFrom(slots, next));
    if EndsWith(LastChunk(rest, step), MARKER) {
      var cut := rest[..|rest| - |MARKER|];
      assert chunk + cut == value[..|value| - |MARKER|];
      JoinThen(chunk, cut, ReadFrom(slots, next + 1));
    }
  }

  /** Reading after storing, for every value and every keyring.  A value that fills its
      chunks is read together with what the entries after them still hold. */
  lemma ReadAfterStore(slots: map<nat, string>, value: string, step: nat)
    requires step > 0
    ensures var full, rest := |value| / step, Remainder(value, step);
            ReadFrom(StoreFrom(slots, value, step, 0), 0) ==
              if rest == "" then Then(value, ReadFrom(slots, full))
              else if EndsWith(rest, MARKER) then Then(value[..|value| - |MARKER|], ReadFrom(slots, full + 1))
              else Some(value)
  {
    ReadsBack(slots, value, step, 0);
    ReadBackIs(slots, value, step);
  }

  lemma ReadBackIs(slots: map<nat, string>, value: string, step: nat)
    requires step > 0
    ensures var full, rest := |value| / step, Remainder(value, step);
            ReadBack(slots, value, step, 0) ==
              if rest == "" then Then(value, ReadFrom(slots, full))
              else if EndsWith(rest, MARKER) then Then(value[..|value| - |MARKER|], ReadFrom(slots, full + 1))
              else Some(value)
  {
    LastChunkIs(value, step);
    FullChunksIs(value, step);
  }

  /** The end of a stored value, from a chunk on. */
  lemma {:induction false} ReadTail(slots: map<nat, string>, value: string, step: nat, n: nat, m: nat)
    requires step > 0 && m <= FullChunks(value, step)
    requires LastChunk(value, step) != "" && !EndsWith(LastChunk(value, step), MARKER)
    ensures m * step <= |value| && ReadFrom(StoreFrom(slots, value, step, n), n + m) == Some(value[m * step..])
    decreases m
  {
    if m == 0 {
      ReadStored(slots, value, step, n);
    } else {
      var rest := value[step..];
      ReadTail(slots[n := value[..step] + MARKER], rest, step, n + 1, m - 1);
      assert (m - 1) * step + step == m * step;
      assert rest[(m - 1) * step..] == value[m * step..];
    }
  }

  /** The worse failure: a value of m whole chunks stored over a longer one is read back
      with the end of the old value behind it. */
  lemma OldTailSpliced(slots: map<nat, string>, older: string, value: string, step: nat, m: nat)
    requires step > 0 && Storable(older, step) && |value| == m * step && |value| < |older|
    ensures var s := StoreFrom(StoreFrom(slots, older, step, 0), value, step, 0);
            ReadFrom(s, 0) == Some(value + older[|value|..])
  {
    Euclid(|value|, step, m, 0);
    LastChunkIs(older, step);
    FullChunksIs(older, step);
    Quotients(m, |older|, step);
    ReadTail(slots, older, step, 0, m);
    ReadAfterStore(StoreFrom(slots, older, step, 0), value, step);
  }

  lemma Quotients(m: nat, n: nat, step: nat)
    requires step > 0 && m * step <= n
    ensures m <= n / step
  {
    var q, r := n / step, n % step;
    assert n == q * step + r;
    assert (m - q) * step == m * step - q * step;
    if m > q { AtLeast(m - q, step); }
  }

  /** A value of exactly one chunk cannot be read back. */
  lemma FullChunkLost(value: string, p: Platform)
    requires |value| == match p case Windows => 1018 case Other => 131066
    ensures EntryLimit(p) - |MARKER| == |value|
    ensures ReadFrom(StoreFrom(map[], value, EntryLimit(p) - |MARKER|, 0), 0) == None
  {
    RoundTripIff(value, |value|);
  }

  /** No entry written is longer than a chunk and a marker. */
  lemma {:induction false} EntriesFit(slots: map<nat, string>, value: string, step: nat, n: nat, k: nat)
    requires step > 0 && k in StoreFrom(slots, value, step, n)
    ensures |StoreFrom(slots, value, step, n)[k]| <= step + |MARKER| ||
        (k in slots && StoreFrom(slots, value, step, n)[k] == slots[k])
    decreases |value|
  {
    if value != "" && step <= |value| {
      EntriesFit(slots[n := value[..step] + MARKER], value[step..], step, n + 1, k);
    }
  }

  // ---------------------------------------------------------------- the storage

  /** The keyring of the system. */
  class Entries {
    var slots: map<nat, string>

    constructor ()
      ensures slots == map[]
    {
      slots := map[];
    }
  }

  lemma NextIndex(i: nat, n: nat, step: nat)
    requires step > 0 && i == n * step
    ensures i / step == n && i + step == (n + 1) * step
  {
    Euclid(i, step, n, 0);
  }

  /** How many entries reading looks at from the n-th on, a missing one included. */
  function Looks(slots: map<nat, string>, n: nat): nat
    decreases Later(slots, n)
  {
    if n in slots && EndsWith(slots[n], MARKER) then
      FewerLater(slots, n);
      1 + Looks(slots, n + 1)
    else 1
  }

  /** How many entries are known after reading, when `known` were before. */
  function Known(slots: map<nat, string>, known: nat): nat {
    if known > Looks(slots, 0) then known else Looks(slots, 0)
  }

  /** All of them exist. */
  ghost predicate KnownExist(slots: map<nat, string>, known: nat) {
    forall k :: 0 <= k < Known(slots, known) ==> k in slots
  }

  /** The keyring without its first k entries. */
  function From(slots: map<nat, string>, k: nat): map<nat, string> {
    map j | j in slots && j >= k :: slots[j]
  }

  /** Deleting one entry after the other gets through k of the known ones: to the first
      that is missing, or through all. */
  ghost predicate StopsAt(slots: map<nat, string>, known: nat, k: nat) {
    k <= known && (forall j :: 0 <= j < k ==> j in slots) && (k < known ==> k !in slots)
  }

  class KeyringStorage {
    var entries: seq<nat>     // the number in the name of each entry object
    const keyring: Entries
    const platform: Platform

    /** The entry objects are those of the first entries, in order. */
    ghost predicate Valid()
      reads this
    {
      forall k :: 0 <= k < |entries| ==> entries[k] == k
    }

    constructor (keyring: Entries, platform: Platform)
      ensures Valid() && this.keyring == keyring && this.platform == platform
    {
      this.keyring, this.platform, entries := keyring, platform, [];
    }

    method GetNextEntry(i: nat) returns (e: nat)
      requires Valid() && i <= |entries|
      modifies this
      ensures Valid() && e == i && |entries| == if i < old(|entries|) then old(|entries|) else i + 1
    {
      if i == |entries| {
        entries := entries + [i];
      }
      e := entries[i];
    }

    method Read() returns (r: Option<string>)
      requires Valid()
      modifies this
      ensures Valid() && r == ReadFrom(keyring.slots, 0)
      ensures |entries| == Known(keyring.slots, old(|entries|))
    {
      var s, i := "", 0;
      JoinThen("", "", ReadFrom(keyring.slots, 0));
      while true
        invariant Valid() && |entries| == (if i < old(|entries|) then old(|entries|) else i)
        invariant Looks(keyring.slots, 0) == i + Looks(keyring.slots, i)
        invariant ReadFrom(keyring.slots, 0) == Then(s, ReadFrom(keyring.slots, i))
        decreases Later(keyring.slots, i)
      {
        var entry := GetNextEntry(i);
        if entry !in keyring.slots {
          return None;
        }
        var chunk := keyring.slots[entry];
        if EndsWith(chunk, MARKER) {
          FewerLater(keyring.slots, i);
          JoinThen(s, Unmarked(chunk), ReadFrom(keyring.slots, i + 1));
          s := s + Unmarked(chunk);
          i := i + 1;
        } else {
          return Some(s + chunk);
        }
      }
    }

    method Store(value: string)
      requires Valid()
      modifies this, keyring
      ensures Valid() && keyring.slots == StoreFrom(old(keyring.slots), value, EntryLimit(platform) - |MARKER|, 0)
    {
      var step := EntryLimit(platform) - |MARKER|;
      var i := 0;
      ghost var n := 0;
      while i < |value|
        invariant Valid() && i == n * step && n <= |entries|
        invariant StoreFrom(old(keyring.slots), value, step, 0) ==
                  if i < |value| then StoreFrom(keyring.slots, value[i..], step, n) else keyring.slots
      {
        NextIndex(i, n, step);
        var entry := GetNextEntry(i / step);
        var cutoff := i + step;
        if cutoff <= |value| {
          assert value[i..][..step] == value[i..cutoff] && value[i..][step..] == value[cutoff..];
          keyring.slots := keyring.slots[entry := value[i..cutoff] + MARKER];
        } else {
          keyring.slots := keyring.slots[entry := value[i..]];
        }
        i, n := cutoff, n + 1;
      }
    }

    /** `clear`: the entry objects known after reading are those of all entries read and
        of the first one missing, and those known before.  It succeeds iff all of them
        exist, and then they are gone and nothing is read any more; otherwise those before
        the first missing one are gone. */
    method Clear() returns (ok: bool)
      requires Valid()
      modifies this, keyring
      ensures Valid()
      ensures ok <==> KnownExist(old(keyring.slots), old(|entries|))
      ensures ok ==> entries == [] && ReadFrom(keyring.slots, 0) == None
      ensures !ok ==> |entries| == Known(old(keyring.slots), old(|entries|))
      ensures exists k :: StopsAt(old(keyring.slots), Known(old(keyring.slots), old(|entries|)), k) &&
                          keyring.slots == From(old(keyring.slots), k)
      ensures ok ==>
                forall k :: k in keyring.slots <==>
                    k in old(keyring.slots) && k >= Known(old(keyring.slots), old(|entries|))
    {
      var _ := Read();
      ghost var before, list := keyring.slots, entries;
      for k := 0 to |entries|
        invariant Valid() && entries == list
        invariant forall j :: 0 <= j < k ==> j in before
        invariant keyring.slots == From(before, k)
      {
        if entries[k] !in keyring.slots {
          assert StopsAt(before, |list|, k);
          return false;
        }
        keyring.slots := keyring.slots - {entries[k]};
      }
      assert StopsAt(before, |list|, |list|);
      entries := [];
      ok := true;
    }
  }
}
