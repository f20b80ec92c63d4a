/** Where skips and runs stop in code that was flattened from trees. Any position such a run reaches
    is the start of a list of bodies, so positions are described by that list (a stack). */
module Landing {
  import opened Json
  import opened Schemas
  import opened Instructions
  import opened Trees
  import opened Machine

  /** The bodies still ahead, the innermost on top. */
  datatype Stack = Bottom | Push(top: seq<Tree>, below: Stack)

  function FlatStack(st: Stack): Code {
    match st
    case Bottom => []
    case Push(ts, below) => FlatSeq(ts) + ([End] + FlatStack(below))
  }

  /** From `ip` on, the code is the bodies `st`, each with its END, and then `post`. */
  ghost predicate At(c: Code, ip: nat, st: Stack, post: Code) {
    ip <= |c| && c[ip..] == FlatStack(st) + post
  }

  // ----- stacks -----

  /** `a` is `b` with some bodies, possibly none, taken off. */
  predicate Under(a: Stack, b: Stack) {
    a == b || (b.Push? && Under(a, b.below))
  }

  /** `a` is `b` with at least one body taken off. */
  predicate WellUnder(a: Stack, b: Stack) {
    b.Push? && Under(a, b.below)
  }

  function Depth(st: Stack): nat {
    if st.Push? then 1 + Depth(st.below) else 0
  }

  function Pop(st: Stack, n: nat): Stack {
    if n == 0 || st.Bottom? then st else Pop(st.below, n - 1)
  }

  function PushAll(bs: seq<Block>, st: Stack): Stack {
    if bs == [] then st else Push(bs[0].trees, PushAll(bs[1..], st))
  }

  lemma {:induction false} UnderTransitive(a: Stack, b: Stack, d: Stack)
    requires Under(a, b) && Under(b, d)
    ensures Under(a, d)
    ensures WellUnder(a, b) || WellUnder(b, d) ==> WellUnder(a, d)
    decreases d
  {
    if b != d {
      UnderTransitive(a, b, d.below);
    }
  }

  lemma {:induction false} UnderDepth(a: Stack, b: Stack)
    requires Under(a, b)
    ensures Depth(a) <= Depth(b)
    ensures WellUnder(a, b) ==> Depth(a) < Depth(b)
  {
    if a != b { UnderDepth(a, b.below); } else if WellUnder(a, b) { UnderDepth(a, b.below); }
  }

  lemma {:induction false} PopUnder(st: Stack, n: nat)
    ensures Under(Pop(st, n), st)
    ensures n > 0 && st.Push? ==> WellUnder(Pop(st, n), st)
  {
    if n > 0 && st.Push? { PopUnder(st.below, n - 1); }
  }

  /** Taking the same number of bodies off keeps one stack under the other. */
  lemma {:induction false} PopMonotone(a: Stack, b: Stack, n: nat)
    requires Under(a, b) && n <= Depth(a)
    ensures Under(Pop(a, n), Pop(b, n))
    ensures WellUnder(a, b) ==> WellUnder(Pop(a, n), Pop(b, n))
    decreases b
  {
    if a != b {
      UnderDepth(a, b.below);
      PopMonotone(a, b.below, n);
      PopShift(b.below, n);
      UnderTransitive(Pop(a, n), Pop(b.below, n), Pop(b, n));
    } else if WellUnder(a, b) {
      UnderDepth(a, b);
    }
  }

  /** One body more on top is one body more after popping. */
  lemma {:induction false} PopShift(st: Stack, n: nat)
    requires n <= Depth(st)
    ensures forall ts :: WellUnder(Pop(st, n), Pop(Push(ts, st), n))
  {
    if n > 0 {
      PopShift(st.below, n - 1);
      assert st == Push(st.top, st.below);
      assert WellUnder(Pop(st.below, n - 1), Pop(Push(st.top, st.below), n - 1));
    }
  }

  lemma PushOne(b: Block, st: Stack)
    ensures PushAll([b], st) == Push(b.trees, st)
  {
    assert [b][1..] == [];
  }

  lemma {:induction false} PopPushAll(bs: seq<Block>, st: Stack, n: nat)
    requires n <= Depth(st)
    ensures Under(Pop(st, n), Pop(PushAll(bs, st), n))
    ensures bs != [] ==> WellUnder(Pop(st, n), Pop(PushAll(bs, st), n))
    ensures Under(st, PushAll(bs, st))
  {
    if bs != [] {
      var next := PushAll(bs[1..], st);
      PopPushAll(bs[1..], st, n);
      UnderDepth(st, next);
      PopShift(next, n);
      UnderTransitive(Pop(st, n), Pop(next, n), Pop(PushAll(bs, st), n));
    }
  }

  lemma {:induction false} PopAll(bs: seq<Block>, st: Stack)
    ensures Pop(PushAll(bs, st), |bs|) == st && Depth(PushAll(bs, st)) == |bs| + Depth(st)
  {
    if bs != [] { PopAll(bs[1..], st); }
  }

  /** Deeper stacks are longer code. */
  lemma {:induction false} UnderIsLater(a: Stack, b: Stack)
    requires Under(a, b)
    ensures |FlatStack(a)| <= |FlatStack(b)|
    ensures WellUnder(a, b) ==> |FlatStack(a)| < |FlatStack(b)|
  {
    if b.Push? && Under(a, b.below) { UnderIsLater(a, b.below); }
  }

  // ----- looseness -----

  /** A tree the compiler builds, or the then or else part of one, seen from inside. */
  predicate Loose(t: Tree) {
    ProperTree(t) || (IsArm(t) && Proper(t.body.trees))
  }

  predicate LooseTop(ts: seq<Tree>) {
    forall i | 0 <= i < |ts| :: Loose(ts[i])
  }

  predicate LooseStack(st: Stack) {
    st.Push? ==> LooseTop(st.top) && LooseStack(st.below)
  }

  lemma ProperIsLoose(ts: seq<Tree>)
    requires Proper(ts)
    ensures LooseTop(ts)
  {
  }

  lemma {:induction false} LoosePushAll(bs: seq<Block>, st: Stack)
    requires LooseStack(st) && forall i | 0 <= i < |bs| :: Proper(bs[i].trees)
    ensures LooseStack(PushAll(bs, st))
  {
    hide Proper, LooseTop;
    if bs != [] {
      ProperIsLoose(bs[0].trees);
      LoosePushAll(bs[1..], st);
    }
  }

  // ----- taking the head off -----

  lemma Advance(c: Code, ip: nat, pre: Code, rest: Code)
    requires ip <= |c| && c[ip..] == pre + rest
    ensures ip + |pre| <= |c| && c[ip + |pre|..] == rest
    ensures forall k | 0 <= k < |pre| :: c[ip + k] == pre[k]
  {
    assert forall k | 0 <= k < |pre| :: c[ip + k] == c[ip..][k];
    assert c[ip + |pre|..] == c[ip..][|pre|..];
  }

  /** The instructions of a tree in front of its first body. */
  function Opening(t: Tree): (c: Code)
    ensures c != [] && !c[0].End?
  {
    match t
    case Leaf(check) => [Test(check)]
    case Nest(opener, _) => [Open(opener)]
    case Cond(_, _, _) => [Open(CondIf)]
    case Quota(min, max, _) => [Contains(min), NopCount(max)]
    case Fork(kind, bodies) => [Branch(kind, |bodies| % 0x1_0000)]
    case Names(trigger, names) => [DepRequired(trigger), NopCount(|names|)] + NameCode(names)
    case Pick(property, keys, _) => [Dispatch(property), NopCount(|keys|)] + NameCode(keys)
  }

  /** The bodies that follow the opening directly. */
  function Inside(t: Tree): seq<Block> {
    match t
    case Leaf(_) => []
    case Nest(_, body) => [body]
    case Cond(i, _, _) => [i]
    case Quota(_, _, body) => [body]
    case Fork(_, bodies) => bodies
    case Names(_, _) => []
    case Pick(_, _, bodies) => bodies
  }

  /** What follows the bodies: for a conditional its arms, and then the other trees. */
  function Behind(t: Tree, ts: seq<Tree>): seq<Tree> {
    if t.Cond? then CondTail(t.thenBody, t.elseBody) + ts else ts
  }

  /** The stack just behind the opening of the first tree of `st`. */
  function Entered(st: Stack): Stack
    requires st.Push? && st.top != []
  {
    PushAll(Inside(st.top[0]), Push(Behind(st.top[0], st.top[1..]), st.below))
  }

  lemma Regroup(a: Code, b: Code, d: Code)
    ensures a + b + d == a + (b + d)
  {
  }

  /** A tree is its opening, its bodies, and for a conditional its remaining arms. */
  lemma FlatOpening(t: Tree)
    ensures Flat(t) == Opening(t) + FlatBodies(Inside(t)) + FlatSeq(Behind(t, []))
  {
    match t
    case Leaf(_) =>
    case Nest(opener, body) =>
      FlatSingle(body);
      Regroup([Open(opener)], FlatSeq(body.trees), [End]);
    case Cond(i, th, el) =>
      FlatCond(i, th, el);
      FlatSingle(i);
      Regroup([Open(CondIf)], FlatSeq(i.trees), [End]);
      assert CondTail(th, el) + [] == CondTail(th, el);
    case Quota(min, max, body) =>
      FlatSingle(body);
      Regroup([Contains(min), NopCount(max)], FlatSeq(body.trees), [End]);
    case Fork(_, _) =>
    case Names(_, _) =>
    case Pick(_, _, _) =>
  }

  lemma FlatBehind(t: Tree, ts: seq<Tree>)
    ensures FlatSeq(Behind(t, ts)) == FlatSeq(Behind(t, [])) + FlatSeq(ts)
  {
    FlatSeqConcat(Behind(t, []), ts);
    if t.Cond? {
      assert CondTail(t.thenBody, t.elseBody) + [] == CondTail(t.thenBody, t.elseBody);
    }
  }

  lemma FlatSingle(b: Block)
    ensures FlatBodies([b]) == FlatSeq(b.trees) + [End]
  {
    assert [b][1..] == [];
    assert FlatBodies([b]) == FlatSeq(b.trees) + [End] + FlatBodies([]);
  }

  lemma {:induction false} FlatPushAll(bs: seq<Block>, st: Stack)
    ensures FlatStack(PushAll(bs, st)) == FlatBodies(bs) + FlatStack(st)
  {
    if bs == [] {
    } else {
      FlatPushAll(bs[1..], st);
      var h, b, s := FlatSeq(bs[0].trees), FlatBodies(bs[1..]), FlatStack(st);
      Regroup(h, [End], b + s);
      Regroup(h + [End], b, s);
    }
  }

  lemma FlatEntered(st: Stack)
    requires st.Push? && st.top != []
    ensures FlatStack(st) == Opening(st.top[0]) + FlatStack(Entered(st))
  {
    hide Flat, FlatBodies, Opening, Inside, Behind, PushAll;
    var t, ts := st.top[0], st.top[1..];
    var o, x, y, s, z := Opening(t), FlatBodies(Inside(t)), FlatSeq(Behind(t, [])), FlatSeq(ts),
        [End] + FlatStack(st.below);
    calc {
      FlatStack(st);
      Flat(t) + s + z;
      { FlatOpening(t); }
      o + x + y + s + z;
      { Regroup(o + x, y, s); Regroup(o + x, y + s, z); Regroup(o, x, (y + s) + z); }
      o + (x + (y + s + z));
      { FlatBehind(t, ts); }
      o + (x + FlatStack(Push(Behind(t, ts), st.below)));
      { FlatPushAll(Inside(t), Push(Behind(t, ts), st.below)); }
      o + FlatStack(Entered(st));
    }
  }

  lemma Enter(c: Code, ip: nat, st: Stack, post: Code)
    requires At(c, ip, st, post) && st.Push? && st.top != []
    ensures ip + |Opening(st.top[0])| <= |c|
    ensures forall k | 0 <= k < |Opening(st.top[0])| :: c[ip + k] == Opening(st.top[0])[k]
    ensures c[ip] == Opening(st.top[0])[0]
    ensures At(c, ip + |Opening(st.top[0])|, Entered(st), post)
  {
    hide FlatStack, Entered, Opening;
    FlatEntered(st);
    var o := Opening(st.top[0]);
    Regroup(o, FlatStack(Entered(st)), post);
    Advance(c, ip, o, FlatStack(Entered(st)) + post);
    assert c[ip + 0] == o[0];
  }

  lemma Leave(c: Code, ip: nat, st: Stack, post: Code)
    requires At(c, ip, st, post) && st.Push? && st.top == []
    ensures ip < |c| && c[ip] == End && At(c, ip + 1, st.below, post)
  {
    FlatNil(st);
    hide FlatStack;
    Regroup([End], FlatStack(st.below), post);
    Advance(c, ip, [End], FlatStack(st.below) + post);
    assert c[ip + 0] == End;
  }

  lemma FlatNil(st: Stack)
    requires st.Push? && st.top == []
    ensures FlatStack(st) == [End] + FlatStack(st.below)
  {
    hide Flat;
    EmptyLeft([End] + FlatStack(st.below));
  }

  lemma EmptyLeft(y: Code)
    ensures [] + y == y
  {
  }

  lemma EnteredLoose(st: Stack)
    requires st.Push? && st.top != [] && LooseStack(st)
    ensures LooseStack(Entered(st))
  {
    var t, ts := st.top[0], st.top[1..];
    assert Loose(st.top[0]);
    assert LooseTop(Behind(t, ts)) by {
      assert forall j | 0 <= j < |ts| :: ts[j] == st.top[j + 1];
      if t.Cond? { ArmsLoose(t); }
    }
    LoosePushAll(Inside(t), Push(Behind(t, ts), st.below));
  }

  lemma ArmsLoose(t: Tree)
    requires t.Cond? && ProperTree(t)
    ensures LooseTop(CondTail(t.thenBody, t.elseBody))
  {
  }

  // ----- skipping -----

  lemma {:induction false} SkipNames(c: Code, ip: nat, n: nat, depth: nat)
    requires ip + n <= |c| && depth > 0
    requires forall j | ip <= j < ip + n :: c[j].NopName?
    ensures SkipFrom(c, ip, depth) == SkipFrom(c, ip + n, depth)
    decreases n
  {
    if n > 0 { SkipNames(c, ip + 1, n - 1, depth); }
  }

  lemma SkipOpening(c: Code, ip: nat, t: Tree, depth: nat)
    requires depth > 0 && ip + |Opening(t)| <= |c|
    requires forall k | 0 <= k < |Opening(t)| :: c[ip + k] == Opening(t)[k]
    ensures SkipFrom(c, ip, depth)
         == SkipFrom(c, ip + |Opening(t)|, if t.Nest? || t.Cond? || t.Quota? then depth + 1 else depth)
  {
    var o := Opening(t);
    assert c[ip + 0] == o[0];
    if t.Quota? {
      assert c[ip + 1] == o[1];
      assert SkipFrom(c, ip + 1, depth + 1) == SkipFrom(c, ip + 2, depth + 1);
    } else if t.Names? || t.Pick? {
      assert c[ip + 1] == o[1];
      assert SkipFrom(c, ip, depth) == SkipFrom(c, ip + 1, depth) == SkipFrom(c, ip + 2, depth);
      assert forall j | ip + 2 <= j < ip + |o| :: c[j] == o[j - ip];
      SkipNames(c, ip + 2, |o| - 2, depth);
    }
  }

  lemma ForkFreeHead(ts: seq<Tree>)
    requires ts != []
    ensures ForkFree(ts) <==> ForkFreeTree(ts[0]) && ForkFree(ts[1..])
  {
    assert forall i | 0 <= i < |ts[1..]| :: ts[1..][i] == ts[i + 1];
    if ForkFreeTree(ts[0]) && ForkFree(ts[1..]) {
      forall i | 0 <= i < |ts| ensures ForkFreeTree(ts[i]) {
        if i > 0 { assert ts[i] == ts[1..][i - 1]; }
      }
    }
  }

  lemma ForkFreeConcat(a: seq<Tree>, b: seq<Tree>)
    ensures ForkFree(a + b) <==> ForkFree(a) && ForkFree(b)
  {
    assert forall i | 0 <= i < |a| :: (a + b)[i] == a[i];
    assert forall i | 0 <= i < |b| :: (a + b)[|a| + i] == b[i];
  }

  lemma ForkFreeBehind(t: Tree, ts: seq<Tree>)
    requires !t.Fork? && !t.Pick?
    ensures ForkFreeTree(t) && ForkFree(ts)
       <==> (Inside(t) != [] ==> ForkFree(Inside(t)[0].trees)) && ForkFree(Behind(t, ts))
  {
    if t.Cond? {
      var x := if t.thenBody.Some? then [Nest(CondThen, t.thenBody.value)] else [];
      var y := if t.elseBody.Some? then [Nest(CondElse, t.elseBody.value)] else [];
      ForkFreeConcat(x, y);
      ForkFreeConcat(x + y, ts);
      assert t.thenBody.Some? ==> (ForkFree(x) <==> ForkFreeTree(x[0]));
      assert t.elseBody.Some? ==> (ForkFree(y) <==> ForkFreeTree(y[0]));
    }
  }

  /** No composition in the top `n` bodies. */
  predicate ForkFreeTops(st: Stack, n: nat) {
    n == 0 || (st.Push? && ForkFree(st.top) && ForkFreeTops(st.below, n - 1))
  }

  ghost predicate SkipsTo(st: Stack, n: nat, out: Stack) {
    if ForkFreeTops(st, n) then out == Pop(st, n) else WellUnder(Pop(st, n), out)
  }

  /** Skipping out of `depth` bodies: exact if and only if none of them holds composition. */
  lemma {:induction false} SkipLands(c: Code, ip: nat, depth: nat, st: Stack, post: Code) returns (out: Stack)
    requires At(c, ip, st, post) && LooseStack(st) && depth <= Depth(st)
    ensures At(c, SkipFrom(c, ip, depth), out, post) && LooseStack(out)
    ensures SkipsTo(st, depth, out)
    decreases |c| - ip
  {
    hide At, LooseTop;
    if depth == 0 {
      out := st;
      SkipNone(c, ip, st, post);
    } else if st.top == [] {
      SkipEnd(c, ip, depth, st, post);
      out := SkipLands(c, ip + 1, depth - 1, st.below, post);
    } else {
      var t := st.top[0];
      EnterSkip(c, ip, depth, st, post);
      EnteredLoose(st);
      EnteredDepth(st);
      if t.Fork? || t.Pick? {
        out := SkipLands(c, ip + |Opening(t)|, depth, Entered(st), post);
        SkipFork(st, depth, out);
      } else {
        out := SkipLands(c, ip + |Opening(t)|, depth + |Inside(t)|, Entered(st), post);
        ForkFreeEntered(st, depth);
      }
    }
  }

  lemma SkipNone(c: Code, ip: nat, st: Stack, post: Code)
    requires At(c, ip, st, post)
    ensures SkipFrom(c, ip, 0) == ip
  {
  }

  lemma SkipEnd(c: Code, ip: nat, depth: nat, st: Stack, post: Code)
    requires At(c, ip, st, post) && st.Push? && st.top == [] && depth > 0
    ensures ip < |c| && At(c, ip + 1, st.below, post) && SkipFrom(c, ip, depth) == SkipFrom(c, ip + 1, depth - 1)
    ensures ForkFree(st.top)
  {
    hide FlatStack;
    Leave(c, ip, st, post);
  }

  lemma EnterSkip(c: Code, ip: nat, depth: nat, st: Stack, post: Code)
    requires At(c, ip, st, post) && st.Push? && st.top != [] && depth > 0
    ensures ip + |Opening(st.top[0])| <= |c| && At(c, ip + |Opening(st.top[0])|, Entered(st), post)
    ensures var t := st.top[0];
            var deeper := if t.Fork? || t.Pick? then depth else depth + |Inside(t)|;
            SkipFrom(c, ip, depth) == SkipFrom(c, ip + |Opening(t)|, deeper)
  {
    hide FlatStack, Opening, Entered;
    Enter(c, ip, st, post);
    SkipOpening(c, ip, st.top[0], depth);
  }

  lemma EnteredDepth(st: Stack)
    requires st.Push? && st.top != []
    ensures Depth(Entered(st)) == Depth(st) + |Inside(st.top[0])|
  {
    PopAll(Inside(st.top[0]), Push(Behind(st.top[0], st.top[1..]), st.below));
  }

  lemma ForkFreeEntered(st: Stack, depth: nat)
    requires st.Push? && st.top != [] && depth > 0 && !st.top[0].Fork? && !st.top[0].Pick?
    ensures ForkFreeTops(Entered(st), depth + |Inside(st.top[0])|) <==> ForkFreeTops(st, depth)
    ensures Pop(Entered(st), depth + |Inside(st.top[0])|) == Pop(st, depth)
  {
    hide ForkFree, ForkFreeTree;
    var t, ts := st.top[0], st.top[1..];
    ForkFreeHead(st.top);
    ForkFreeBehind(t, ts);
    var b := Push(Behind(t, ts), st.below);
    if Inside(t) != [] {
      assert Inside(t) == [Inside(t)[0]];
      PushOne(Inside(t)[0], b);
    } else {
      assert Entered(st) == b;
    }
  }

  /** Entering a fork leaves more bodies to skip than it counts. */
  lemma SkipFork(st: Stack, depth: nat, out: Stack)
    requires st.Push? && st.top != [] && 1 <= depth <= Depth(st)
    requires st.top[0].Fork? || st.top[0].Pick?
    requires SkipsTo(Entered(st), depth, out)
    ensures SkipsTo(st, depth, out)
  {
    hide ForkFree, ForkFreeTree;
    var t, ts := st.top[0], st.top[1..];
    var b := Push(ts, st.below);
    ForkFreeHead(st.top);
    FlatForkFree(t);
    PopPushAll(Inside(t), b, depth);
    if Inside(t) == [] {
      assert Entered(st) == b;
    } else {
      UnderTransitive(Pop(b, depth), Pop(Entered(st), depth), out);
    }
  }

  lemma FlatForkFree(t: Tree)
    requires t.Fork? || t.Pick?
    ensures ForkFreeTree(t) <==> Inside(t) == []
  {
  }

  /** `skip_to_end` from the start of a body lands just behind the END of that body if and only if
      the body holds no composition and no discriminator; otherwise it stops earlier. */
  lemma SkipExact(c: Code, ip: nat, body: seq<Tree>, post: Code)
    requires ip <= |c| && c[ip..] == FlatSeq(body) + [End] + post && Proper(body)
    ensures var past := ip + |FlatSeq(body)| + 1;
            Skip(c, ip) <= past && (Skip(c, ip) == past <==> ForkFree(body))
  {
    hide FlatSeq, ForkFree, Proper;
    var st := Push(body, Bottom);
    ProperIsLoose(body);
    FlatOne(body);
    var out := SkipLands(c, ip, 1, st, post);
    assert ForkFreeTops(st, 1) <==> ForkFree(body);
    assert Pop(st, 1) == Bottom;
    UnderBottom(out);
    assert |c| - Skip(c, ip) == |FlatStack(out)| + |post|;
  }

  lemma FlatOne(body: seq<Tree>)
    ensures FlatStack(Push(body, Bottom)) == FlatSeq(body) + [End]
  {
    hide FlatSeq;
    assert FlatStack(Bottom) == [];
  }

  lemma {:induction false} UnderBottom(st: Stack)
    ensures |FlatStack(st)| > 0 <==> st != Bottom
    ensures Under(Bottom, st)
  {
    hide FlatSeq;
    if st.Push? { UnderBottom(st.below); }
  }
}
