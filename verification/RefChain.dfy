/** Following chains of local `$ref`s, with cycle detection and a depth limit. */
module RefChain {
  import opened Json

  const MAX_DEPTH: nat := 64
  const INITIAL_CAPACITY: nat := 16

  /** What a JSON Pointer reference finds in the document. */
  type Document = string -> Option<Value>

  datatype Result = Found(value: Value) | NotFound | Loop | NotSupported

  /** A reference consisting of a fragment only stays inside the document. */
  predicate IsLocal(ref: string) {
    ref != [] && ref[0] == '#'
  }

  /** The reference an object carries in its "$ref" member. */
  function NestedRef(v: Value): Option<string> {
    var r := Get(v, "$ref");
    if r.Some? && r.value.JStr? then Some(CStr(r.value.s)) else None
  }

  /** The reference one step behind `ref`, if it leads to another reference at all. */
  function Next(doc: Document, ref: string): Option<string> {
    if IsLocal(ref) && doc(ref).Some? then NestedRef(doc(ref).value) else None
  }

  /** What a reference that leads to no other one resolves to. */
  function Last(doc: Document, ref: string): Result
    requires Next(doc, ref).None?
  {
    if !IsLocal(ref) then NotSupported else if doc(ref).Some? then Found(doc(ref).value) else NotFound
  }

  // ----- chains -----

  /** The reference `k` steps behind `ref`. */
  function RefAt(doc: Document, ref: string, k: nat): Option<string> {
    if k == 0 then Some(ref)
    else
      var p := RefAt(doc, ref, k - 1);
      if p.Some? then Next(doc, p.value) else None
  }

  /** The chain of `ref` ends after `k` steps, with this result. */
  ghost predicate EndsAt(doc: Document, ref: string, k: nat, r: Result) {
    && RefAt(doc, ref, k).Some?
    && Next(doc, RefAt(doc, ref, k).value).None?
    && r == Last(doc, RefAt(doc, ref, k).value)
  }

  /** Walking at most `fuel` references, without any cycle detection. */
  function Walk(doc: Document, ref: string, fuel: nat): Result
    decreases fuel
  {
    if fuel == 0 then Loop
    else if Next(doc, ref).None? then Last(doc, ref)
    else Walk(doc, Next(doc, ref).value, fuel - 1)
  }

  lemma {:induction false} RefAtShift(doc: Document, ref: string, k: nat)
    requires Next(doc, ref).Some?
    ensures RefAt(doc, ref, k + 1) == RefAt(doc, Next(doc, ref).value, k)
  {
    hide Next;
    if k > 0 { RefAtShift(doc, ref, k - 1); }
  }

  lemma {:induction false} RefAtSplit(doc: Document, ref: string, i: nat, k: nat)
    requires RefAt(doc, ref, i).Some?
    ensures RefAt(doc, ref, i + k) == RefAt(doc, RefAt(doc, ref, i).value, k)
  {
    hide Next;
    if k > 0 { RefAtSplit(doc, ref, i, k - 1); }
  }

  /** A chain has one end only. */
  lemma EndsOnce(doc: Document, ref: string, j: nat, k: nat, q: Result, r: Result)
    requires EndsAt(doc, ref, j, q) && EndsAt(doc, ref, k, r)
    ensures j == k && q == r
  {
    hide Next;
    if j < k { NothingBehind(doc, ref, j, k); }
    if k < j { NothingBehind(doc, ref, k, j); }
  }

  lemma {:induction false} NothingBehind(doc: Document, ref: string, j: nat, k: nat)
    requires j < k && RefAt(doc, ref, j).Some? && Next(doc, RefAt(doc, ref, j).value).None?
    ensures RefAt(doc, ref, k).None?
  {
    hide Next;
    if k > j + 1 { NothingBehind(doc, ref, j, k - 1); }
  }

  /** The chain of `ref` ends with `r` after fewer than `fuel` steps. */
  ghost predicate EndsWithin(doc: Document, ref: string, fuel: nat, r: Result) {
    exists k: nat :: k < fuel && EndsAt(doc, ref, k, r)
  }

  /** A walk loops exactly when its references do not end the chain; otherwise it finds the end. */
  lemma {:induction false} WalkEnds(doc: Document, ref: string, fuel: nat)
    ensures Walk(doc, ref, fuel) == Loop <==> RefAt(doc, ref, fuel).Some?
    ensures Walk(doc, ref, fuel) != Loop ==> EndsWithin(doc, ref, fuel, Walk(doc, ref, fuel))
    decreases fuel
  {
    hide NestedRef, Next;
    if fuel > 0 {
      if Next(doc, ref).None? {
        assert EndsAt(doc, ref, 0, Last(doc, ref));
        NothingBehind(doc, ref, 0, fuel);
        LastIsNoLoop(doc, ref);
      } else {
        var n := Next(doc, ref).value;
        WalkEnds(doc, n, fuel - 1);
        RefAtShift(doc, ref, fuel - 1);
        if Walk(doc, ref, fuel) != Loop {
          var k: nat :| k < fuel - 1 && EndsAt(doc, n, k, Walk(doc, ref, fuel));
          RefAtShift(doc, ref, k);
          assert EndsAt(doc, ref, k + 1, Walk(doc, ref, fuel));
        }
      }
    }
  }

  /** The result of a walk is the end of the chain, if that is near enough. */
  lemma WalkDecides(doc: Document, ref: string, fuel: nat, r: Result)
    requires r != Loop
    ensures Walk(doc, ref, fuel) == r <==> EndsWithin(doc, ref, fuel, r)
  {
    hide Next, Walk, RefAt;
    WalkEnds(doc, ref, fuel);
    if EndsWithin(doc, ref, fuel, r) {
      var k: nat :| k < fuel && EndsAt(doc, ref, k, r);
      NothingBehind(doc, ref, k, fuel);
      var j: nat :| j < fuel && EndsAt(doc, ref, j, Walk(doc, ref, fuel));
      EndsOnce(doc, ref, j, k, Walk(doc, ref, fuel), r);
    }
  }

  lemma LastIsNoLoop(doc: Document, ref: string)
    requires Next(doc, ref).None?
    ensures Last(doc, ref) != Loop
  {
  }

  lemma WalkStep(doc: Document, ref: string, fuel: nat)
    ensures Walk(doc, ref, 0) == Loop
    ensures fuel > 0 ==>
      Walk(doc, ref, fuel) ==
        if !IsLocal(ref) then NotSupported
        else if doc(ref).None? then NotFound
        else if NestedRef(doc(ref).value).None? then Found(doc(ref).value)
        else Walk(doc, NestedRef(doc(ref).value).value, fuel - 1)
  {
    hide NestedRef;
  }

  // ----- cycles -----

  /** A chain that comes back to its start never ends. */
  lemma {:induction false} ReturnLoops(doc: Document, ref: string, period: nat, fuel: nat)
    requires period > 0 && RefAt(doc, ref, period) == Some(ref)
    ensures Walk(doc, ref, fuel) == Loop
    decreases fuel
  {
    hide Next;
    if fuel > period {
      ReturnLoops(doc, ref, period, fuel - period);
      WalkOn(doc, ref, period, fuel);
    } else {
      WalkShort(doc, ref, period, fuel);
    }
  }

  /** Steps `i` and `j` of the chain are the same reference. */
  predicate MeetsTwice(doc: Document, ref: string, i: nat, j: nat) {
    i < j && RefAt(doc, ref, i).Some? && RefAt(doc, ref, i) == RefAt(doc, ref, j)
  }

  /** A chain that meets any reference twice never ends, wherever the cycle is entered. */
  lemma CycleLoops(doc: Document, ref: string, i: nat, j: nat, fuel: nat)
    requires MeetsTwice(doc, ref, i, j)
    ensures Walk(doc, ref, fuel) == Loop
  {
    hide Next, Walk;
    var met := RefAt(doc, ref, i).value;
    RefAtSplit(doc, ref, i, j - i);
    if fuel <= i {
      WalkShort(doc, ref, i, fuel);
    } else {
      ReturnLoops(doc, met, j - i, fuel - i);
      WalkOn(doc, ref, i, fuel);
    }
  }

  lemma {:induction false} WalkOn(doc: Document, ref: string, k: nat, fuel: nat)
    requires k <= fuel && RefAt(doc, ref, k).Some?
    ensures Walk(doc, ref, fuel) == Walk(doc, RefAt(doc, ref, k).value, fuel - k)
    decreases k
  {
    hide Next;
    if k > 0 {
      FirstStep(doc, ref, k);
      RefAtShift(doc, ref, k - 1);
      WalkOn(doc, Next(doc, ref).value, k - 1, fuel - 1);
    }
  }

  lemma {:induction false} FirstStep(doc: Document, ref: string, k: nat)
    requires k > 0 && RefAt(doc, ref, k).Some?
    ensures Next(doc, ref).Some?
  {
    hide Next;
    if k > 1 { FirstStep(doc, ref, k - 1); } else { assert RefAt(doc, ref, 0) == Some(ref); }
  }

  lemma {:induction false} WalkShort(doc: Document, ref: string, k: nat, fuel: nat)
    requires fuel <= k && RefAt(doc, ref, k).Some?
    ensures Walk(doc, ref, fuel) == Loop
    decreases fuel
  {
    hide Next;
    if fuel > 0 {
      FirstStep(doc, ref, k);
      RefAtShift(doc, ref, k - 1);
      WalkShort(doc, Next(doc, ref).value, k - 1, fuel - 1);
    }
  }

  // ----- the resolver -----

  /** `refs` is a stretch of a chain: each reference leads to the next one. */
  ghost predicate IsChain(doc: Document, refs: seq<string>) {
    forall i | 0 <= i < |refs| - 1 :: Next(doc, refs[i]) == Some(refs[i + 1])
  }

  lemma {:induction false} ChainRefAt(doc: Document, refs: seq<string>, i: nat, k: nat)
    requires IsChain(doc, refs) && i + k < |refs|
    ensures RefAt(doc, refs[i], k) == Some(refs[i + k])
  {
    hide Next;
    if k > 0 { ChainRefAt(doc, refs, i, k - 1); }
  }

  /** Meeting a visited reference again means that the chain loops: cycle detection never rejects a
      chain that would have ended. */
  lemma RevisitLoops(doc: Document, visited: seq<string>, ref: string, fuel: nat)
    requires IsChain(doc, visited + [ref]) && ref in visited
    ensures Walk(doc, ref, fuel) == Loop
  {
    hide Next;
    var i :| 0 <= i < |visited| && visited[i] == ref;
    var refs := visited + [ref];
    ChainRefAt(doc, refs, i, |visited| - i);
    ReturnLoops(doc, ref, |visited| - i, fuel);
  }

  /** The resolver's context: a stack of visited references in an array that doubles. */
  class Context {
    const doc: Document
    var refs: array<string>
    var count: nat

    ghost predicate Valid()
      reads this
    {
      count <= refs.Length && refs.Length > 0
    }

    ghost function Visited(): seq<string>
      requires Valid()
      reads this, refs
    {
      refs[..count]
    }

    constructor (d: Document)
      ensures Valid() && doc == d && Visited() == [] && fresh(refs)
    {
      doc := d;
      refs := new string[INITIAL_CAPACITY](_ => "");
      count := 0;
    }

    method Contains(ref: string) returns (found: bool)
      requires Valid()
      ensures found <==> ref in Visited()
    {
      var i := 0;
      while i < count
        invariant 0 <= i <= count
        invariant forall j | 0 <= j < i :: refs[j] != ref
      {
        if refs[i] == ref { return true; }
        i := i + 1;
      }
      found := false;
    }

    method Push(ref: string)
      requires Valid()
      modifies this, refs
      ensures Valid() && (refs == old(refs) || fresh(refs))
      ensures Visited() == old(Visited()) + [ref]
    {
      if count >= refs.Length {
        var grown := new string[refs.Length * 2](_ => "");
        forall i | 0 <= i < count {
          grown[i] := refs[i];
        }
        refs := grown;
      }
      refs[count] := ref;
      count := count + 1;
    }

    method Pop()
      requires Valid()
      modifies this`count
      ensures Valid()
      ensures old(count) > 0 ==> Visited() == old(Visited())[..old(count) - 1]
    {
      if count > 0 { count := count - 1; }
    }

    /** `oas_ref_resolve` without options. The visited stack is as before on return, and the result
        is that of a plain walk over the references that are left. */
    method Resolve(ref: string) returns (r: Result)
      requires Valid() && count <= MAX_DEPTH && IsChain(doc, Visited() + [ref])
      modifies this, refs
      ensures Valid() && (refs == old(refs) || fresh(refs)) && Visited() == old(Visited())
      ensures r == Walk(doc, ref, MAX_DEPTH - old(count))
      decreases MAX_DEPTH - count
    {
      hide Get, Walk, NestedRef;
      WalkStep(doc, ref, MAX_DEPTH - count);
      var seen := Contains(ref);
      if seen {
        RevisitLoops(doc, Visited(), ref, MAX_DEPTH - count);
        return Loop;
      }
      if count >= MAX_DEPTH { return Loop; }
      if !IsLocal(ref) { return NotSupported; }
      var v := doc(ref);
      if v.None? { return NotFound; }
      var nested := NestedRef(v.value);
      if nested.Some? {
        ghost var chain := Visited() + [ref];
        assert IsChain(doc, chain + [nested.value]);
        Push(ref);
        r := Resolve(nested.value);
        Pop();
      } else {
        r := Found(v.value);
      }
    }
  }

  // ----- chains read off the document -----

  /** An object whose first member called "$ref" holds a string; `n` is what C sees of it. */
  ghost predicate Refers(v: Value, n: string) {
    v.JObj? && exists s :: FirstMember(v.members, "$ref", JStr(s)) && IsCText(n, s)
  }

  /** `ref` is a fragment, and the value it finds in the document refers to `n`. */
  ghost predicate LeadsTo(doc: Document, ref: string, n: string) {
    ref != "" && ref[0] == '#' && doc(ref).Some? && Refers(doc(ref).value, n)
  }

  /** What a reference stands for that leads to no other one. */
  ghost predicate StandsFor(doc: Document, ref: string, r: Result) {
    if ref == "" || ref[0] != '#' then r == NotSupported
    else if doc(ref).None? then r == NotFound
    else r == Found(doc(ref).value) && forall n :: !Refers(doc(ref).value, n)
  }

  /** References that start with `ref`, each leading to the next one. */
  ghost predicate Chained(doc: Document, ref: string, refs: seq<string>) {
    refs != [] && refs[0] == ref && forall i | 0 < i < |refs| :: LeadsTo(doc, refs[i - 1], refs[i])
  }

  /** A chain of references that ends in `r`. */
  ghost predicate ChainTo(doc: Document, ref: string, refs: seq<string>, r: Result) {
    Chained(doc, ref, refs) && StandsFor(doc, refs[|refs| - 1], r)
  }

  lemma NestedIs(v: Value, n: string)
    ensures Refers(v, n) <==> NestedRef(v) == Some(n)
  {
    hide CStr, Find, FirstMember, IsCText;
    CStrOfClean("$ref");
    assert v.JObj? ==> Get(v, "$ref") == Find(v.members, "$ref");
    forall s ensures v.JObj? ==> (FirstMember(v.members, "$ref", JStr(s)) <==> Get(v, "$ref") == Some(JStr(s))) {
      if v.JObj? { FindIsFirst(v.members, "$ref", JStr(s)); }
    }
    forall s ensures IsCText(n, s) <==> n == CStr(s) { CTextIs(n, s); }
  }

  lemma LeadsIsNext(doc: Document, ref: string, n: string)
    ensures LeadsTo(doc, ref, n) <==> Next(doc, ref) == Some(n)
  {
    hide NestedRef, Refers;
    if doc(ref).Some? { NestedIs(doc(ref).value, n); }
  }

  lemma StandsIsLast(doc: Document, ref: string, r: Result)
    requires forall n :: !LeadsTo(doc, ref, n)
    ensures Next(doc, ref).None?
    ensures StandsFor(doc, ref, r) <==> r == Last(doc, ref)
  {
    hide NestedRef, Refers;
    if Next(doc, ref).Some? { LeadsIsNext(doc, ref, Next(doc, ref).value); }
    assert IsLocal(ref) && doc(ref).Some? ==> forall n :: Refers(doc(ref).value, n) ==> LeadsTo(doc, ref, n);
  }

  lemma {:induction false} ChainedRefAt(doc: Document, ref: string, refs: seq<string>, k: nat)
    requires Chained(doc, ref, refs) && k < |refs|
    ensures RefAt(doc, ref, k) == Some(refs[k])
  {
    hide Next, LeadsTo;
    if k > 0 {
      ChainedRefAt(doc, ref, refs, k - 1);
      LeadsIsNext(doc, refs[k - 1], refs[k]);
    }
  }

  /** A chain in which a reference comes twice is one that meets it twice. */
  lemma ChainMeetsTwice(doc: Document, ref: string, refs: seq<string>, i: nat, j: nat)
    requires Chained(doc, ref, refs) && i < j < |refs| && refs[i] == refs[j]
    ensures MeetsTwice(doc, ref, i, j)
  {
    hide Chained, RefAt;
    ChainedRefAt(doc, ref, refs, i);
    ChainedRefAt(doc, ref, refs, j);
  }

  /** The first `k` steps behind `ref`. */
  lemma {:induction false} RefsTo(doc: Document, ref: string, k: nat) returns (refs: seq<string>)
    requires RefAt(doc, ref, k).Some?
    ensures |refs| == k + 1 && Chained(doc, ref, refs) && refs[k] == RefAt(doc, ref, k).value
  {
    hide Next, LeadsTo;
    if k == 0 {
      refs := [ref];
    } else {
      var front := RefsTo(doc, ref, k - 1);
      LeadsIsNext(doc, front[k - 1], RefAt(doc, ref, k).value);
      refs := front + [RefAt(doc, ref, k).value];
    }
  }

  lemma NoFurther(doc: Document, ref: string, r: Result)
    requires StandsFor(doc, ref, r)
    ensures forall n :: !LeadsTo(doc, ref, n)
  {
    hide Refers;
  }

  /** Chains read off the document end as the walk does. */
  lemma ChainsEnd(doc: Document, ref: string, fuel: nat, r: Result)
    ensures EndsWithin(doc, ref, fuel, r) <==> exists refs | |refs| <= fuel :: ChainTo(doc, ref, refs, r)
  {
    hide Next, LeadsTo, StandsFor, RefAt, Last;
    if EndsWithin(doc, ref, fuel, r) {
      var k: nat :| k < fuel && EndsAt(doc, ref, k, r);
      var refs := RefsTo(doc, ref, k);
      forall n ensures !LeadsTo(doc, refs[k], n) { LeadsIsNext(doc, refs[k], n); }
      StandsIsLast(doc, refs[k], r);
      assert ChainTo(doc, ref, refs, r);
    }
    if refs :| |refs| <= fuel && ChainTo(doc, ref, refs, r) {
      var k := |refs| - 1;
      ChainedRefAt(doc, ref, refs, k);
      NoFurther(doc, refs[k], r);
      StandsIsLast(doc, refs[k], r);
      assert EndsAt(doc, ref, k, r);
    }
  }

  /** At most 64 references end in `r`. */
  ghost predicate Reaches(doc: Document, ref: string, r: Result) {
    exists refs | |refs| <= 64 :: ChainTo(doc, ref, refs, r)
  }

  lemma ChainsGoOn(doc: Document, ref: string, k: nat)
    ensures RefAt(doc, ref, k).Some? <==> exists refs | |refs| == k + 1 :: Chained(doc, ref, refs)
  {
    hide RefAt, Chained;
    if RefAt(doc, ref, k).Some? {
      var refs := RefsTo(doc, ref, k);
    }
    if refs :| |refs| == k + 1 && Chained(doc, ref, refs) {
      ChainedRefAt(doc, ref, refs, k);
    }
  }

  /** Resolving from a fresh context. Any result but a loop is found exactly when the chain ends in
      it using at most 64 references; a loop is reported exactly when 64 references do not end it,
      and so for every chain that runs into a cycle. */
  method ResolveFresh(doc: Document, ref: string) returns (r: Result)
    ensures r != Loop ==> EndsWithin(doc, ref, MAX_DEPTH, r)
    ensures forall q :: q != Loop && EndsWithin(doc, ref, MAX_DEPTH, q) ==> r == q
    ensures r == Loop <==> RefAt(doc, ref, MAX_DEPTH).Some?
    ensures (exists i: nat, j: nat :: MeetsTwice(doc, ref, i, j)) ==> r == Loop
    ensures forall q :: q != Loop ==> (r == q <==> Reaches(doc, ref, q))
    ensures r == Loop <==> exists refs | |refs| == 65 :: Chained(doc, ref, refs)
  {
    hide ChainTo, Chained, RefAt, EndsWithin;
    var ctx := new Context(doc);
    assert ctx.Visited() + [ref] == [ref];
    r := ctx.Resolve(ref);
    WalkEnds(doc, ref, MAX_DEPTH);
    forall q | q != Loop && EndsWithin(doc, ref, MAX_DEPTH, q) ensures r == q {
      WalkDecides(doc, ref, MAX_DEPTH, q);
    }
    if i: nat, j: nat :| MeetsTwice(doc, ref, i, j) {
      CycleLoops(doc, ref, i, j, MAX_DEPTH);
    }
    forall q ensures q != Loop ==> (r == q <==> Reaches(doc, ref, q)) {
      ChainsEnd(doc, ref, MAX_DEPTH, q);
    }
    ChainsGoOn(doc, ref, MAX_DEPTH);
  }
}
