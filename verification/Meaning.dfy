/** What structured programs accept, and on which values a run never has to skip a body that holds
    composition. */
module Meanings {
  import opened Json
  import opened Schemas
  import opened Instructions
  import opened Trees

  ghost predicate CheckOk(e: Env, k: Check, v: Value) {
    match k
    case CheckType(mask) => TypeOk(mask, v)
    case CheckMinLen(n) => v.JStr? ==> |CharStarts(v.s)| >= n
    case CheckMaxLen(n) => v.JStr? ==> |CharStarts(v.s)| <= n
    case CheckPattern(p) => v.JStr? && e.config.hasRegex ==> e.matches(p, v.s)
    case CheckFormat(f) => v.JStr? ==> e.formatOk(f, v.s)
    case CheckMinimum(x) => IsNum(v) ==> x <= AsReal(v)
    case CheckMaximum(x) => IsNum(v) ==> AsReal(v) <= x
    case CheckExMinimum(x) => IsNum(v) ==> x < AsReal(v)
    case CheckExMaximum(x) => IsNum(v) ==> AsReal(v) < x
    case CheckMultipleOf(x) => IsNum(v) ==> e.multipleOf(AsReal(v), x)
    case CheckMinItems(n) => v.JArr? ==> |v.items| >= n
    case CheckMaxItems(n) => v.JArr? ==> |v.items| <= n
    case CheckUnique =>
      v.JArr? ==> forall i, j | 0 <= i < j < |v.items| :: !e.equal(v.items[i], v.items[j])
    case CheckRequired(name) => v.JObj? ==> Get(v, name).Some?
    case CheckMinProps(n) => v.JObj? ==> |v.members| >= n
    case CheckMaxProps(n) => v.JObj? ==> |v.members| <= n
    case CheckEnum(allowed) =>
      allowed.JArr? ==> exists i :: 0 <= i < |allowed.items| && e.equal(v, allowed.items[i])
    case CheckConst(expected) => e.equal(v, expected)
    case CheckReadOnly => e.direction != Request
    case CheckWriteOnly => e.direction != Response
  }

  /** The discriminator property of `v` holds a string, and the first key equal to it is at `i`. */
  predicate PicksAt(property: string, keys: seq<Option<string>>, v: Value, i: int) {
    && var tag := Get(v, property);
    && tag.Some? && tag.value.JStr?
    && 0 <= i < |keys| && SameName(keys[i], tag.value.s)
    && forall j | 0 <= j < i :: !SameName(keys[j], tag.value.s)
  }

  ghost predicate AcceptsTree(e: Env, t: Tree, v: Value)
    decreases t
  {
    match t
    case Leaf(k) => CheckOk(e, k, v)
    case Nest(EnterItems, body) =>
      v.JArr? ==> forall i | 0 <= i < |v.items| :: Accepts(e, body.trees, v.items[i])
    case Nest(EnterPrefixItem(k), body) =>
      v.JArr? && k < |v.items| ==> Accepts(e, body.trees, v.items[k])
    case Nest(EnterProperty(name), body) =>
      Get(v, name).Some? ==> Accepts(e, body.trees, Get(v, name).value)
    case Nest(EnterAdditional, body) => true
    case Nest(Negate, body) => !Accepts(e, body.trees, v)
    case Nest(CondIf, body) => true
    case Nest(CondThen, body) => true
    case Nest(CondElse, body) => true
    case Nest(CheckPropNames, body) =>
      v.JObj? ==> forall i | 0 <= i < |v.members| :: Accepts(e, body.trees, JStr(CStr(v.members[i].key)))
    case Nest(CheckPatternProps(p), body) =>
      v.JObj? && e.config.hasRegex ==>
        forall i | 0 <= i < |v.members| ::
          e.matches(p, v.members[i].key) ==> Accepts(e, body.trees, v.members[i].value)
    case Nest(CheckDepSchema(trigger), body) =>
      Get(v, trigger).Some? ==> Accepts(e, body.trees, v)
    case Cond(i, th, el) =>
      if Accepts(e, i.trees, v) then th.Some? ==> Accepts(e, th.value.trees, v)
      else el.Some? ==> Accepts(e, el.value.trees, v)
    case Quota(min, max, body) =>
      v.JArr? ==>
        var hits := |Accepting(e, body.trees, v.items)|;
        hits >= min && (max >= 0 ==> hits <= max)
    case Fork(AllOf, bodies) => forall i | 0 <= i < |bodies| :: Accepts(e, bodies[i].trees, v)
    case Fork(AnyOf, bodies) => exists i :: 0 <= i < |bodies| && Accepts(e, bodies[i].trees, v)
    case Fork(OneOf, bodies) => |Admitting(e, bodies, v)| == 1
    case Names(trigger, names) =>
      Get(v, trigger).Some? ==> forall i | 0 <= i < |names| :: GetNamed(v, names[i]).Some?
    case Pick(property, keys, bodies) =>
      exists i :: 0 <= i < |bodies| && PicksAt(property, keys, v, i) && Accepts(e, bodies[i].trees, v)
  }

  ghost predicate Accepts(e: Env, ts: seq<Tree>, v: Value)
    decreases ts, 0
  {
    forall i | 0 <= i < |ts| :: AcceptsTree(e, ts[i], v)
  }

  /** The values a body accepts, by position. */
  ghost function Accepting(e: Env, ts: seq<Tree>, vs: seq<Value>): set<int>
    decreases ts, 1
  {
    set i | 0 <= i < |vs| && Accepts(e, ts, vs[i])
  }

  /** The bodies that accept a value, by position. */
  ghost function Admitting(e: Env, bs: seq<Block>, v: Value): set<int>
    decreases bs
  {
    set i | 0 <= i < |bs| && Accepts(e, bs[i].trees, v)
  }

  // ----- exact runs -----

  /** All bodies in front of position `i` accept. */
  ghost predicate AdmitBefore(e: Env, bodies: seq<Block>, i: int, v: Value)
    requires i <= |bodies|
  {
    forall j | 0 <= j < i :: Accepts(e, bodies[j].trees, v)
  }

  /** The body the discriminator picks accepts, if it is in front of position `i`. */
  ghost predicate PickBefore(e: Env, property: string, keys: seq<Option<string>>, bodies: seq<Block>, i: int, v: Value)
    requires i <= |bodies|
  {
    forall j | 0 <= j < i :: PicksAt(property, keys, v, j) ==> Accepts(e, bodies[j].trees, v)
  }

  /** A run over `t` that starts with verdict `ok` skips no body that holds composition, and no
      list of branches is too long for its 16-bit count. */
  ghost predicate CleanTree(e: Env, t: Tree, v: Value, ok: bool)
    decreases t
  {
    match t
    case Leaf(_) => true
    case Nest(Negate, body) => Clean(e, body.trees, v, ok)
    case Nest(CheckDepSchema(trigger), body) =>
      if Get(v, trigger).Some? then Clean(e, body.trees, v, ok) else ForkFree(body.trees)
    case Nest(_, body) => ForkFree(body.trees)
    case Cond(i, th, el) =>
      && Clean(e, i.trees, v, ok)
      && var pass := ok && Accepts(e, i.trees, v);
      && (th.Some? ==> if pass then Clean(e, th.value.trees, v, ok) else ForkFree(th.value.trees))
      && (el.Some? ==> if pass then ForkFree(el.value.trees) else Clean(e, el.value.trees, v, ok))
    case Quota(_, _, body) => ForkFree(body.trees)
    case Fork(AllOf, bodies) =>
      |bodies| < 0x1_0000 &&
      forall i | 0 <= i < |bodies| ::
        Clean(e, bodies[i].trees, v, ok && AdmitBefore(e, bodies, i, v))
    case Fork(_, bodies) =>
      |bodies| < 0x1_0000 && forall i | 0 <= i < |bodies| :: Clean(e, bodies[i].trees, v, ok)
    case Names(_, _) => true
    case Pick(property, keys, bodies) =>
      forall i | 0 <= i < |bodies| ::
        Clean(e, bodies[i].trees, v, ok && PickBefore(e, property, keys, bodies, i, v))
  }

  ghost predicate Clean(e: Env, ts: seq<Tree>, v: Value, ok: bool)
    decreases ts
  {
    ts == [] || (CleanTree(e, ts[0], v, ok) && Clean(e, ts[1..], v, ok && AcceptsTree(e, ts[0], v)))
  }

  lemma AcceptsStep(e: Env, ts: seq<Tree>, v: Value)
    requires ts != []
    ensures Accepts(e, ts, v) <==> AcceptsTree(e, ts[0], v) && Accepts(e, ts[1..], v)
  {
    assert ts == [ts[0]] + ts[1..];
    if AcceptsTree(e, ts[0], v) && Accepts(e, ts[1..], v) {
      forall i | 0 <= i < |ts| ensures AcceptsTree(e, ts[i], v) {
        if i > 0 { assert ts[i] == ts[1..][i - 1]; }
      }
    }
    if Accepts(e, ts, v) {
      forall i | 0 <= i < |ts[1..]| ensures AcceptsTree(e, ts[1..][i], v) {
        assert ts[1..][i] == ts[i + 1];
      }
    }
  }

  /** Without composition there is nothing to go wrong, whatever the value. */
  lemma {:induction false} ForkFreeIsClean(e: Env, ts: seq<Tree>, v: Value, ok: bool)
    requires Proper(ts) && ForkFree(ts)
    ensures Clean(e, ts, v, ok)
    decreases ts
  {
    if ts != [] {
      assert ProperTree(ts[0]) && ForkFreeTree(ts[0]);
      ForkFreeTreeIsClean(e, ts[0], v, ok);
      assert Proper(ts[1..]) && ForkFree(ts[1..]) by {
        assert forall i | 0 <= i < |ts[1..]| :: ts[1..][i] == ts[i + 1];
      }
      ForkFreeIsClean(e, ts[1..], v, ok && AcceptsTree(e, ts[0], v));
    }
  }

  lemma {:induction false} ForkFreeTreeIsClean(e: Env, t: Tree, v: Value, ok: bool)
    requires ProperTree(t) && ForkFreeTree(t)
    ensures CleanTree(e, t, v, ok)
    decreases t
  {
    match t
    case Leaf(_) =>
    case Nest(_, body) =>
      ForkFreeIsClean(e, body.trees, v, ok);
    case Cond(i, th, el) =>
      ForkFreeIsClean(e, i.trees, v, ok);
      if th.Some? { ForkFreeIsClean(e, th.value.trees, v, ok); }
      if el.Some? { ForkFreeIsClean(e, el.value.trees, v, ok); }
    case Quota(_, _, _) =>
    case Fork(_, _) =>
    case Names(_, _) =>
    case Pick(_, _, _) =>
  }
}
