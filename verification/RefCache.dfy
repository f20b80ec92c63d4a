/** The document cache: open addressing with linear probing, against a bounded insert-only map. */
module RefCaches {
  import opened Json
  import opened Bits

  const DEFAULT_MAX: nat := 100
  const INT_MAX: int := 0x7FFF_FFFF

  datatype Slot<T> = Free | Held(uri: string, root: T)

  datatype Status = Stored | NoSpace

  /** The simple map the cache must agree with: it keeps at most `limit` keys and never overwrites one. */
  function Insert<T>(m: map<string, T>, limit: nat, uri: string, root: T): (map<string, T>, Status) {
    if uri in m then (m, Stored)
    else if |m| >= limit then (m, NoSpace)
    else (m[uri := root], Stored)
  }

  function Run<T>(limit: nat, puts: seq<(string, T)>): map<string, T> {
    if puts == [] then map[]
    else
      var last := puts[|puts| - 1];
      Insert(Run(limit, puts[..|puts| - 1]), limit, last.0, last.1).0
  }

  function Keys<T>(puts: seq<(string, T)>): set<string> {
    set i | 0 <= i < |puts| :: puts[i].0
  }

  ghost predicate FirstAt<T>(puts: seq<(string, T)>, i: nat, uri: string) {
    i < |puts| && puts[i].0 == uri && uri !in Keys(puts[..i])
  }

  /** The first put of `uri` is number `i`, and fewer than `limit` keys came before it. */
  ghost predicate Admitted<T>(limit: nat, puts: seq<(string, T)>, i: nat, uri: string) {
    FirstAt(puts, i, uri) && |Keys(puts[..i])| < limit
  }

  lemma KeysLast<T>(puts: seq<(string, T)>)
    requires puts != []
    ensures Keys(puts) == Keys(puts[..|puts| - 1]) + {puts[|puts| - 1].0}
  {
    var front, uri := puts[..|puts| - 1], puts[|puts| - 1].0;
    forall u | u in Keys(puts) ensures u in Keys(front) + {uri} {
      var i :| 0 <= i < |puts| && puts[i].0 == u;
      assert i < |front| ==> front[i].0 == u;
    }
    forall u | u in Keys(front) ensures u in Keys(puts) {
      var i :| 0 <= i < |front| && front[i].0 == u;
      assert puts[i].0 == u;
    }
  }

  lemma {:induction false} RunKeys<T>(limit: nat, puts: seq<(string, T)>)
    ensures Run(limit, puts).Keys <= Keys(puts)
    ensures |Run(limit, puts)| == if |Keys(puts)| <= limit then |Keys(puts)| else limit
    ensures |Keys(puts)| <= limit ==> Run(limit, puts).Keys == Keys(puts)
    decreases |puts|
  {
    if puts != [] {
      var front, uri := puts[..|puts| - 1], puts[|puts| - 1].0;
      RunKeys(limit, front);
      KeysLast(puts);
      var m, n := Run(limit, front), Run(limit, puts);
      assert |m| == |m.Keys| && |n| == |n.Keys|;
      if uri in Keys(front) {
        assert Keys(puts) == Keys(front);
      } else {
        assert |Keys(puts)| == |Keys(front)| + 1;
        assert |m| < limit ==> n.Keys == m.Keys + {uri};
      }
    }
  }

  lemma AdmittedBefore<T>(limit: nat, puts: seq<(string, T)>, i: nat, n: nat, uri: string)
    requires i < n <= |puts|
    ensures Admitted(limit, puts, i, uri) == Admitted(limit, puts[..n], i, uri)
  {
    assert puts[..n][..i] == puts[..i];
  }

  lemma AdmittedLast<T>(limit: nat, puts: seq<(string, T)>, uri: string)
    requires puts != []
    ensures var n := |puts| - 1;
      Admitted(limit, puts, n, uri) <==>
        puts[n].0 == uri && uri !in Run(limit, puts[..n]) && |Run(limit, puts[..n])| < limit
  {
    RunKeys(limit, puts[..|puts| - 1]);
  }

  /** What any run of puts leaves: the first `limit` distinct keys, each with the root of its first put. */
  lemma {:induction false} RunHolds<T>(limit: nat, puts: seq<(string, T)>, uri: string)
    ensures uri in Run(limit, puts) <==> exists i: nat :: Admitted(limit, puts, i, uri)
    ensures forall i: nat | Admitted(limit, puts, i, uri) ::
              i < |puts| && uri in Run(limit, puts) && Run(limit, puts)[uri] == puts[i].1
    decreases |puts|
  {
    if puts != [] {
      var n := |puts| - 1;
      RunHolds(limit, puts[..n], uri);
      AdmittedLast(limit, puts, uri);
      forall i: nat | Admitted(limit, puts, i, uri) ensures i <= n {}
      hide Admitted;
      forall i: nat | i < n
        ensures Admitted(limit, puts, i, uri) == Admitted(limit, puts[..n], i, uri)
      {
        AdmittedBefore(limit, puts, i, n, uri);
      }
      assert forall i: nat | i < n :: puts[..n][i] == puts[i];
    }
  }

  // ----- probing -----

  function Taken<T>(slots: seq<Slot<T>>): nat {
    if slots == [] then 0 else (if slots[0].Held? then 1 else 0) + Taken(slots[1..])
  }

  /** A table that is not full has a free slot. */
  lemma {:induction false} FreeSlot<T>(slots: seq<Slot<T>>) returns (j: nat)
    requires Taken(slots) < |slots|
    ensures j < |slots| && slots[j].Free?
  {
    if slots[0].Free? {
      j := 0;
    } else {
      var k := FreeSlot(slots[1..]);
      j := k + 1;
    }
  }

  lemma {:induction false} TakeSlot<T>(slots: seq<Slot<T>>, j: nat, s: Slot<T>)
    requires j < |slots| && slots[j].Free? && s.Held?
    ensures Taken(slots[j := s]) == Taken(slots) + 1
  {
    if j == 0 {
      assert slots[0 := s][1..] == slots[1..];
    } else {
      TakeSlot(slots[1..], j - 1, s);
      assert slots[j := s][1..] == slots[1..][j - 1 := s];
    }
  }

  lemma {:induction false} AllFree<T>(slots: seq<Slot<T>>)
    requires forall s | s in slots :: s.Free?
    ensures Taken(slots) == 0
  {
    if slots != [] {
      assert slots[0] in slots && forall s | s in slots[1..] :: s in slots;
      AllFree(slots[1..]);
    }
  }

  /** The slot probed `i` steps after the home slot of a hash. */
  function Probe(hash: nat, i: nat, capacity: nat): (slot: nat)
    requires capacity > 0
    ensures slot < capacity
  {
    Mod(Mod(hash, capacity) + i, capacity)
  }

  /** The masks of the code compute exactly the probe sequence. */
  lemma MaskedProbe(hash: nat, i: nat, k: nat)
    ensures And(And(hash, Pow2(k) - 1) + i, Pow2(k) - 1) == Probe(hash, i, Pow2(k))
  {
    hide And, Mod;
    MaskIsModulo(hash, k);
    MaskIsModulo(Mod(hash, Pow2(k)) + i, k);
  }

  /** One round of probing visits every slot. */
  lemma ProbeReaches(hash: nat, j: nat, capacity: nat) returns (i: nat)
    requires j < capacity
    ensures i < capacity && Probe(hash, i, capacity) == j
  {
    var home := Mod(hash, capacity);
    if home <= j {
      i := j - home;
      Remainder(home + i, capacity, 0, j);
    } else {
      i := j + capacity - home;
      Remainder(home + i, capacity, 1, j);
    }
  }

  /** `next_pow2`: the least power of two that is at least 16 and `v`, unless that does not fit. */
  method NextPow2(v: nat) returns (n: nat, ghost k: nat)
    ensures n == Pow2(k) && 16 <= n <= SIZE_MAX
    ensures v <= SIZE_MAX / 2 + 1 ==> v <= n && (n == 16 || n < 2 * v)
    ensures v > SIZE_MAX / 2 + 1 ==> n == SIZE_MAX / 2 + 1
  {
    n, k := 16, 4;
    assert Pow2(4) == 16;
    Pow2At64();
    while n < v
      invariant n == Pow2(k) && 16 <= n <= SIZE_MAX
      invariant n == 16 || n < 2 * v
      invariant k <= 63 && n <= Pow2(63)
      decreases v - n
    {
      if n > SIZE_MAX / 2 { return; }
      assert k < 63;
      Monotone(k + 1, 63);
      n, k := n * 2, k + 1;
    }
  }

  /** `uri` is kept `i` steps after its home slot, with no free slot in between. */
  ghost predicate Placed<T>(slots: seq<Slot<T>>, hash: nat, uri: string, root: T, i: nat) {
    && i < |slots|
    && slots[Probe(hash, i, |slots|)] == Held(uri, root)
    && Occupied(slots, hash, i)
  }

  ghost predicate Occupied<T>(slots: seq<Slot<T>>, hash: nat, n: nat)
    requires slots != []
  {
    forall j: nat | j < n :: slots[Probe(hash, j, |slots|)].Held?
  }

  /** The table holds exactly `contents`, each key where a probe for it ends. */
  ghost predicate Layout<T>(slots: seq<Slot<T>>, hash: string -> nat, contents: map<string, T>,
                            steps: map<string, nat>) {
    && steps.Keys == contents.Keys
    && (forall uri | uri in contents :: Placed(slots, hash(uri), uri, contents[uri], steps[uri]))
    && (forall j | 0 <= j < |slots| && slots[j].Held? ::
          && slots[j].uri in contents
          && j == Probe(hash(slots[j].uri), steps[slots[j].uri], |slots|))
  }

  lemma PlacedKept<T>(slots: seq<Slot<T>>, hash: nat, uri: string, root: T, i: nat, j: nat, s: Slot<T>)
    requires Placed(slots, hash, uri, root, i)
    requires j < |slots| && slots[j].Free? && s.Held?
    ensures Placed(slots[j := s], hash, uri, root, i)
  {
  }

  lemma LayoutStore<T>(slots: seq<Slot<T>>, hash: string -> nat, contents: map<string, T>, steps: map<string, nat>,
                       uri: string, root: T, i: nat)
    requires Layout(slots, hash, contents, steps) && uri !in contents
    requires i < |slots| && slots[Probe(hash(uri), i, |slots|)].Free? && Occupied(slots, hash(uri), i)
    ensures Layout(slots[Probe(hash(uri), i, |slots|) := Held(uri, root)], hash,
                   contents[uri := root], steps[uri := i])
  {
    var j := Probe(hash(uri), i, |slots|);
    var after := slots[j := Held(uri, root)];
    assert Placed(after, hash(uri), uri, root, i);
    hide Placed, Probe;
    forall u | u in contents ensures Placed(after, hash(u), u, contents[u], steps[u]) {
      PlacedKept(slots, hash(u), u, contents[u], steps[u], j, Held(uri, root));
    }
  }

  /** The first `n` slots of the probe for `uri` hold other keys. */
  ghost predicate Missed<T>(slots: seq<Slot<T>>, hash: nat, uri: string, n: nat)
    requires slots != []
  {
    forall j: nat | j < n ::
      slots[Probe(hash, j, |slots|)].Held? && slots[Probe(hash, j, |slots|)].uri != uri
  }

  lemma NothingMissed<T>(slots: seq<Slot<T>>, hash: nat, uri: string)
    requires slots != []
    ensures Missed(slots, hash, uri, 0)
  {
  }

  lemma MissedOne<T>(slots: seq<Slot<T>>, hash: nat, uri: string, n: nat)
    requires slots != [] && Missed(slots, hash, uri, n)
    requires slots[Probe(hash, n, |slots|)].Held? && slots[Probe(hash, n, |slots|)].uri != uri
    ensures Missed(slots, hash, uri, n + 1)
  {
    hide Probe;
  }

  lemma HeldIsKept<T>(slots: seq<Slot<T>>, hash: string -> nat, contents: map<string, T>, steps: map<string, nat>,
      j: nat)
    requires Layout(slots, hash, contents, steps) && j < |slots| && slots[j].Held?
    ensures slots[j].uri in contents && contents[slots[j].uri] == slots[j].root
  {
    hide Probe;
    var uri := slots[j].uri;
    assert Placed(slots, hash(uri), uri, contents[uri], steps[uri]);
  }

  lemma FreeEnds<T>(slots: seq<Slot<T>>, hash: string -> nat, contents: map<string, T>, steps: map<string, nat>,
                    uri: string, n: nat)
    requires slots != [] && Layout(slots, hash, contents, steps) && Missed(slots, hash(uri), uri, n)
    requires slots[Probe(hash(uri), n, |slots|)].Free?
    ensures uri !in contents
  {
    hide Probe;
  }

  lemma AllMissed<T>(slots: seq<Slot<T>>, hash: string -> nat, contents: map<string, T>, steps: map<string, nat>,
                     uri: string)
    requires slots != [] && Layout(slots, hash, contents, steps) && Missed(slots, hash(uri), uri, |slots|)
    ensures uri !in contents
  {
    hide Probe;
  }

  class RefCache<T(0)> {
    const hash: string -> nat
    var entries: array<Slot<T>>
    var capacity: nat
    var count: nat
    var maxDocuments: nat
    ghost var shift: nat
    ghost var contents: map<string, T>
    ghost var steps: map<string, nat>

    ghost predicate Valid()
      reads this, entries
    {
      && capacity == entries.Length == Pow2(shift)
      && 0 < 2 * maxDocuments <= capacity
      && count == |contents| == Taken(entries[..]) <= maxDocuments
      && Layout(entries[..], hash, contents, steps)
    }

    constructor (hash: string -> nat, max: int)
      requires max <= INT_MAX
      ensures Valid() && fresh(entries)
      ensures this.hash == hash && contents == map[]
      ensures maxDocuments == if max <= 0 then 100 else max
    {
      var limit := if max <= 0 then DEFAULT_MAX else max;
      var n, k := NextPow2(limit * 2);
      var slots := new Slot<T>[n](_ => Free);
      this.hash, entries, capacity, count, maxDocuments := hash, slots, n, 0, limit;
      shift, contents, steps := k, map[], map[];
      new;
      AllFree(entries[..]);
    }

    method Get(uri: string) returns (root: Option<T>)
      requires Valid()
      ensures root == if uri in contents then Some(contents[uri]) else None
    {
      hide And, Mod, Pow2, Taken, Probe, Layout, Missed;
      var mask := capacity - 1;
      var idx := And(hash(uri), mask);
      NothingMissed(entries[..], hash(uri), uri);
      for i := 0 to capacity
        invariant Missed(entries[..], hash(uri), uri, i)
      {
        var slot := And(idx + i, mask);
        MaskedProbe(hash(uri), i, shift);
        if entries[slot].Free? {
          FreeEnds(entries[..], hash, contents, steps, uri, i);
          return None;
        }
        if entries[slot].uri == uri {
          HeldIsKept(entries[..], hash, contents, steps, slot);
          return Some(entries[slot].root);
        }
        MissedOne(entries[..], hash(uri), uri, i);
      }
      AllMissed(entries[..], hash, contents, steps, uri);
      root := None;
    }

    /** The first free slot from the home slot of `uri`: there always is one, so the probing never gives up. */
    method FindFree(uri: string) returns (slot: nat, ghost i: nat)
      requires Valid() && count < maxDocuments
      ensures i < capacity && slot == Probe(hash(uri), i, capacity) && entries[slot].Free?
      ensures Occupied(entries[..], hash(uri), i)
    {
      hide And, Mod, Pow2, Taken, Probe, Layout;
      var mask := capacity - 1;
      var idx := And(hash(uri), mask);
      var n := 0;
      slot := And(idx, mask);
      MaskedProbe(hash(uri), 0, shift);
      ghost var open := FreeSlot(entries[..]);
      ghost var reach := ProbeReaches(hash(uri), open, capacity);
      while n < capacity && entries[slot].Held?
        invariant n <= reach
        invariant slot == Probe(hash(uri), n, capacity)
        invariant Occupied(entries[..], hash(uri), n)
      {
        n := n + 1;
        slot := And(idx + n, mask);
        MaskedProbe(hash(uri), n, shift);
      }
      assert n < capacity;
      i := n;
    }

    /** Storing agrees with the bounded map, whatever the hash function. */
    method Put(uri: string, root: T) returns (status: Status)
      requires Valid()
      modifies this`count, this`contents, this`steps, entries
      ensures Valid()
      ensures (contents, status) == Insert(old(contents), maxDocuments, uri, root)
    {
      hide Taken, Layout, Occupied, Probe, Pow2;
      var cached := Get(uri);
      if cached.Some? {
        return Stored;
      }
      if count >= maxDocuments {
        return NoSpace;
      }
      var slot, i := FindFree(uri);
      TakeSlot(entries[..], slot, Held(uri, root));
      LayoutStore(entries[..], hash, contents, steps, uri, root, i);
      entries[slot] := Held(uri, root);
      assert entries[..] == old(entries[..])[slot := Held(uri, root)];
      count := count + 1;
      contents, steps := contents[uri := root], steps[uri := i];
      status := Stored;
    }
  }
}
