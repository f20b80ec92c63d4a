/** Structured programs: the bracket structure that the flat instruction array leaves implicit. */
module Trees {
  import opened Json
  import opened Schemas
  import opened Instructions

  /** A body: the instructions up to (not including) its END. */
  datatype Block = Block(trees: seq<Tree>)

  /** One instruction together with the bodies it owns. */
  datatype Tree =
    | Leaf(check: Check)
    | Nest(opener: Opener, body: Block)
    | Cond(ifBody: Block, thenBody: Option<Block>, elseBody: Option<Block>)
    | Quota(min: int, max: int, body: Block)
    | Fork(kind: BranchKind, bodies: seq<Block>)
    | Names(trigger: string, names: seq<Option<string>>)
    | Pick(property: string, keys: seq<Option<string>>, bodies: seq<Block>)

  // ----- flattening -----

  function NameCode(names: seq<Option<string>>): (c: Code)
    ensures |c| == |names|
    ensures forall i | 0 <= i < |c| :: c[i] == NopName(names[i])
  {
    seq(|names|, i requires 0 <= i < |names| => NopName(names[i]))
  }

  function Flat(t: Tree): Code
    decreases t
  {
    match t
    case Leaf(check) => [Test(check)]
    case Nest(opener, body) => [Open(opener)] + FlatSeq(body.trees) + [End]
    case Cond(i, t, e) =>
      [Open(CondIf)] + FlatSeq(i.trees) + [End]
      + (if t.Some? then [Open(CondThen)] + FlatSeq(t.value.trees) + [End] else [])
      + (if e.Some? then [Open(CondElse)] + FlatSeq(e.value.trees) + [End] else [])
    case Quota(min, max, body) => [Contains(min), NopCount(max)] + FlatSeq(body.trees) + [End]
    case Fork(kind, bodies) => [Branch(kind, |bodies| % 0x1_0000)] + FlatBodies(bodies)
    case Names(trigger, names) => [DepRequired(trigger), NopCount(|names|)] + NameCode(names)
    case Pick(property, keys, bodies) =>
      [Dispatch(property), NopCount(|keys|)] + NameCode(keys) + FlatBodies(bodies)
  }

  function FlatSeq(ts: seq<Tree>): Code
    decreases ts
  {
    if ts == [] then [] else Flat(ts[0]) + FlatSeq(ts[1..])
  }

  /** Consecutive bodies, each with its END. */
  function FlatBodies(bs: seq<Block>): Code
    decreases bs
  {
    if bs == [] then [] else FlatSeq(bs[0].trees) + [End] + FlatBodies(bs[1..])
  }

  // ----- laws of flattening -----

  lemma {:induction false} FlatSeqConcat(a: seq<Tree>, b: seq<Tree>)
    ensures FlatSeq(a + b) == FlatSeq(a) + FlatSeq(b)
  {
    if a == [] {
      assert a + b == b;
    } else {
      assert (a + b)[1..] == a[1..] + b;
      FlatSeqConcat(a[1..], b);
    }
  }

  lemma {:induction false} FlatBodiesConcat(a: seq<Block>, b: seq<Block>)
    ensures FlatBodies(a + b) == FlatBodies(a) + FlatBodies(b)
  {
    if a == [] {
      assert a + b == b;
    } else {
      assert (a + b)[1..] == a[1..] + b;
      FlatBodiesConcat(a[1..], b);
    }
  }

  /** Code made from trees never has an inline count that points outside. */
  lemma {:induction false} FlatWellCounted(t: Tree)
    ensures WellCounted(Flat(t))
    decreases t, 0
  {
    match t
    case Leaf(_) =>
    case Nest(opener, body) =>
      BodyWellCounted([Open(opener)], body.trees);
    case Cond(i, th, el) =>
      BodyWellCounted([Open(CondIf)], i.trees);
      var c := [Open(CondIf)] + FlatSeq(i.trees) + [End];
      var c1 := if th.Some? then [Open(CondThen)] + FlatSeq(th.value.trees) + [End] else [];
      var c2 := if el.Some? then [Open(CondElse)] + FlatSeq(el.value.trees) + [End] else [];
      if th.Some? { BodyWellCounted([Open(CondThen)], th.value.trees); }
      if el.Some? { BodyWellCounted([Open(CondElse)], el.value.trees); }
      WellCountedConcat(c, c1);
      WellCountedConcat(c + c1, c2);
    case Quota(min, max, body) =>
      BodyWellCounted([Contains(min), NopCount(max)], body.trees);
    case Fork(kind, bodies) =>
      BodiesWellCounted(bodies);
      WellCountedConcat([Branch(kind, |bodies| % 0x1_0000)], FlatBodies(bodies));
    case Names(trigger, names) =>
      NamesWellCounted(DepRequired(trigger), names);
    case Pick(property, keys, bodies) =>
      BodiesWellCounted(bodies);
      NamesWellCounted(Dispatch(property), keys);
      WellCountedConcat([Dispatch(property), NopCount(|keys|)] + NameCode(keys), FlatBodies(bodies));
  }

  lemma NamesWellCounted(op: Instr, names: seq<Option<string>>)
    requires op.DepRequired? || op.Dispatch?
    ensures WellCounted([op, NopCount(|names|)] + NameCode(names))
  {
    var c := [op, NopCount(|names|)] + NameCode(names);
    assert CountFits(c, 0);
  }

  lemma {:induction false} BodyWellCounted(op: Code, ts: seq<Tree>)
    requires WellCounted(op)
    ensures WellCounted(op + FlatSeq(ts) + [End])
    decreases ts, 1
  {
    FlatSeqWellCounted(ts);
    WellCountedConcat(op, FlatSeq(ts));
    WellCountedConcat(op + FlatSeq(ts), [End]);
  }

  lemma {:induction false} FlatSeqWellCounted(ts: seq<Tree>)
    ensures WellCounted(FlatSeq(ts))
    decreases ts, 0
  {
    if ts != [] {
      FlatWellCounted(ts[0]);
      FlatSeqWellCounted(ts[1..]);
      WellCountedConcat(Flat(ts[0]), FlatSeq(ts[1..]));
    }
  }

  lemma {:induction false} BodiesWellCounted(bs: seq<Block>)
    ensures WellCounted(FlatBodies(bs))
    decreases bs, 0
  {
    if bs != [] {
      BodyWellCounted([], bs[0].trees);
      assert [] + FlatSeq(bs[0].trees) + [End] == FlatSeq(bs[0].trees) + [End];
      BodiesWellCounted(bs[1..]);
      WellCountedConcat(FlatSeq(bs[0].trees) + [End], FlatBodies(bs[1..]));
    }
  }

  // ----- shape -----

  /** The trees the compiler builds: an if/then/else is one `Cond`, and a `Pick` has as many keys
      as bodies. */
  predicate ProperTree(t: Tree)
    decreases t
  {
    match t
    case Leaf(_) => true
    case Nest(opener, body) => !opener.CondIf? && !IsArm(t) && Proper(body.trees)
    case Cond(i, th, el) =>
      Proper(i.trees) && (th.Some? ==> Proper(th.value.trees)) && (el.Some? ==> Proper(el.value.trees))
    case Quota(_, _, body) => Proper(body.trees)
    case Fork(_, bodies) => forall i | 0 <= i < |bodies| :: Proper(bodies[i].trees)
    case Names(_, _) => true
    case Pick(_, keys, bodies) =>
      |keys| == |bodies| && forall i | 0 <= i < |bodies| :: Proper(bodies[i].trees)
  }

  predicate Proper(ts: seq<Tree>)
    decreases ts
  {
    forall i | 0 <= i < |ts| :: ProperTree(ts[i])
  }

  /** A then or else part seen on its own, without the if in front of it. */
  predicate IsArm(t: Tree) {
    t.Nest? && (t.opener.CondThen? || t.opener.CondElse?)
  }

  function CondTail(th: Option<Block>, el: Option<Block>): seq<Tree> {
    (if th.Some? then [Nest(CondThen, th.value)] else [])
    + (if el.Some? then [Nest(CondElse, el.value)] else [])
  }

  lemma FlatCond(i: Block, th: Option<Block>, el: Option<Block>)
    ensures Flat(Cond(i, th, el)) == [Open(CondIf)] + FlatSeq(i.trees) + [End] + FlatSeq(CondTail(th, el))
  {
    var a := if th.Some? then [Nest(CondThen, th.value)] else [];
    var b := if el.Some? then [Nest(CondElse, el.value)] else [];
    FlatSeqConcat(a, b);
    assert th.Some? ==> FlatSeq(a) == Flat(a[0]) + FlatSeq(a[1..]) == Flat(a[0]);
    assert el.Some? ==> FlatSeq(b) == Flat(b[0]) + FlatSeq(b[1..]) == Flat(b[0]);
  }

  // ----- skipping -----

  /** No composition and no discriminator anywhere inside. */
  predicate ForkFreeTree(t: Tree)
    decreases t
  {
    match t
    case Leaf(_) => true
    case Nest(_, body) => ForkFree(body.trees)
    case Cond(i, th, el) =>
      && ForkFree(i.trees)
      && (th.Some? ==> ForkFree(th.value.trees)) && (el.Some? ==> ForkFree(el.value.trees))
    case Quota(_, _, body) => ForkFree(body.trees)
    case Fork(_, bodies) => bodies == []
    case Names(_, _) => true
    case Pick(_, _, bodies) => bodies == []
  }

  predicate ForkFree(ts: seq<Tree>)
    decreases ts
  {
    forall i | 0 <= i < |ts| :: ForkFreeTree(ts[i])
  }
}
