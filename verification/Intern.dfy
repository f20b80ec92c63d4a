/** The intern pool: a chained hash table that keeps one copy of every byte string. */
module Intern {

  const DEFAULT_CAPACITY: nat := 256

  /** A stored copy: its bytes, length included, and the address it was given. */
  datatype Entry = Entry(text: string, address: nat)

  /** The pool as a map, and the next free address of its arena. */
  datatype Pool = Pool(copies: map<string, nat>, next: nat)

  /** Interning: the copy that is there, or a new one. Every copy ends with a NUL of its own. */
  function Add(p: Pool, s: string): Pool {
    if s in p.copies then p else Pool(p.copies[s := p.next], p.next + |s| + 1)
  }

  function AddAll(p: Pool, calls: seq<string>): Pool {
    if calls == [] then p else Add(AddAll(p, calls[..|calls| - 1]), calls[|calls| - 1])
  }

  /** What call number `i` of a run returns. */
  function Answer(p: Pool, calls: seq<string>, i: nat): nat
    requires i < |calls|
  {
    Add(AddAll(p, calls[..i]), calls[i]).copies[calls[i]]
  }

  ghost predicate Canonical(p: Pool) {
    && (forall s | s in p.copies :: p.copies[s] < p.next)
    && forall s, t | s in p.copies && t in p.copies && p.copies[s] == p.copies[t] :: s == t
  }

  lemma AddCanonical(p: Pool, s: string)
    requires Canonical(p)
    ensures Canonical(Add(p, s))
    ensures forall t | t in p.copies :: t in Add(p, s).copies && Add(p, s).copies[t] == p.copies[t]
    ensures Add(p, s).copies.Keys == p.copies.Keys + {s}
  {
  }

  lemma {:induction false} RunCanonical(p: Pool, calls: seq<string>)
    requires Canonical(p)
    ensures Canonical(AddAll(p, calls))
    ensures forall s | s in p.copies :: s in AddAll(p, calls).copies && AddAll(p, calls).copies[s] == p.copies[s]
    ensures AddAll(p, calls).copies.Keys == p.copies.Keys + set s | s in calls
    decreases |calls|
  {
    if calls != [] {
      var n := |calls| - 1;
      hide Canonical, Add;
      RunCanonical(p, calls[..n]);
      AddCanonical(AddAll(p, calls[..n]), calls[n]);
      assert calls == calls[..n] + [calls[n]];
    }
  }

  lemma {:induction false} RunAnswers(p: Pool, calls: seq<string>, i: nat)
    requires Canonical(p) && i < |calls|
    ensures calls[i] in AddAll(p, calls).copies && Answer(p, calls, i) == AddAll(p, calls).copies[calls[i]]
    decreases |calls|
  {
    var n := |calls| - 1;
    RunCanonical(p, calls[..n]);
    if i < n {
      RunAnswers(p, calls[..n], i);
      assert calls[..n][..i] == calls[..i];
    }
  }

  /** In any run two calls return the same address exactly when their strings are equal. */
  lemma SameAnswer(p: Pool, calls: seq<string>, i: nat, j: nat)
    requires Canonical(p) && i < |calls| && j < |calls|
    ensures Answer(p, calls, i) == Answer(p, calls, j) <==> calls[i] == calls[j]
  {
    hide Answer;
    RunAnswers(p, calls, i);
    RunAnswers(p, calls, j);
    RunCanonical(p, calls);
  }

  /** The copies of a run from an empty pool are those of the distinct strings seen. */
  lemma DistinctStrings(calls: seq<string>, next: nat)
    ensures |AddAll(Pool(map[], next), calls).copies| == |set s | s in calls|
  {
    var p := Pool(map[], next);
    RunCanonical(p, calls);
    assert AddAll(p, calls).copies.Keys == set s | s in calls;
  }

  function Home(hash: string -> nat, s: string, capacity: nat): (b: nat)
    requires capacity > 0
    ensures b < capacity
  {
    hash(s) % capacity
  }

  /** Every copy has its entry in its hash's bucket, exactly once, and there are no other entries. */
  ghost predicate Layout(chains: seq<seq<Entry>>, hash: string -> nat, copies: map<string, nat>) {
    && chains != []
    && (forall s | s in copies :: Entry(s, copies[s]) in chains[Home(hash, s, |chains|)])
    && (forall b | 0 <= b < |chains| :: ChainOk(chains[b], b, hash, copies, |chains|))
  }

  ghost predicate ChainOk(chain: seq<Entry>, b: nat, hash: string -> nat, copies: map<string, nat>, capacity: nat)
    requires capacity > 0
  {
    && (forall e | e in chain :: Home(hash, e.text, capacity) == b && e.text in copies && copies[e.text] == e.address)
    && (forall j, k | 0 <= j < k < |chain| :: chain[j].text != chain[k].text)
  }

  lemma LayoutAdd(chains: seq<seq<Entry>>, hash: string -> nat, copies: map<string, nat>, s: string, address: nat)
    requires Layout(chains, hash, copies) && s !in copies
    ensures var b := Home(hash, s, |chains|);
      Layout(chains[b := [Entry(s, address)] + chains[b]], hash, copies[s := address])
  {
    hide Home;
    var b, n := Home(hash, s, |chains|), |chains|;
    var after := chains[b := [Entry(s, address)] + chains[b]];
    assert after[b][0] == Entry(s, address);
    forall t | t in copies ensures Entry(t, copies[t]) in after[Home(hash, t, n)] {
      assert Entry(t, copies[t]) in chains[Home(hash, t, n)];
      assert forall e | e in chains[b] :: e in after[b];
    }
    forall c | 0 <= c < n ensures ChainOk(after[c], c, hash, copies[s := address], n) {
      assert ChainOk(chains[c], c, hash, copies, n);
      assert forall k | 0 < k < |after[b]| :: after[b][k] == chains[b][k - 1];
    }
  }

  class InternPool {
    const hash: string -> nat
    /** The chains, newest entry first. */
    var buckets: array<seq<Entry>>
    var capacity: nat
    var count: nat
    /** The arena's next free address. */
    var next: nat
    ghost var pool: Pool

    ghost predicate Valid()
      reads this, buckets
    {
      && 0 < capacity == buckets.Length
      && pool.next == next && count == |pool.copies| && Canonical(pool)
      && Layout(buckets[..], hash, pool.copies)
    }

    constructor (hash: string -> nat, size: nat, next: nat)
      ensures Valid() && fresh(buckets) && this.hash == hash
      ensures pool == Pool(map[], next) && capacity == if size == 0 then 256 else size
    {
      var n := if size == 0 then DEFAULT_CAPACITY else size;
      this.hash, capacity, count, this.next := hash, n, 0, next;
      buckets := new seq<Entry>[n](_ => []);
      pool := Pool(map[], next);
    }

    /** Walks the chain of one bucket. */
    method Search(b: nat, s: string) returns (found: bool, address: nat)
      requires Valid() && b == Home(hash, s, capacity) < capacity
      ensures found <==> s in pool.copies
      ensures found ==> address == pool.copies[s]
    {
      hide Home, Canonical;
      var chain := buckets[b];
      assert ChainOk(buckets[..][b], b, hash, pool.copies, capacity);
      for k := 0 to |chain|
        invariant forall j | 0 <= j < k :: chain[j].text != s
      {
        if |chain[k].text| == |s| && chain[k].text == s {
          assert chain[k] in chain;
          return true, chain[k].address;
        }
      }
      return false, 0;
    }

    /** `oas_intern_get`. */
    method Get(s: string) returns (address: nat)
      requires Valid()
      modifies this`count, this`next, this`pool, buckets
      ensures Valid()
      ensures pool == Add(old(pool), s) && address == pool.copies[s]
    {
      hide Layout, Canonical;
      var b := hash(s) % capacity;
      var found, at := Search(b, s);
      if found {
        return at;
      }
      address := next;
      LayoutAdd(buckets[..], hash, pool.copies, s, address);
      AddCanonical(pool, s);
      next := next + |s| + 1;
      ghost var before := buckets[..];
      buckets[b] := [Entry(s, address)] + buckets[b];
      assert buckets[..] == before[b := [Entry(s, address)] + before[b]];
      count := count + 1;
      pool := Add(pool, s);
    }
  }
}
