/** Compiling a schema in memory is compiling the tree it unfolds to. */
module Unfolding {
  import opened Json
  import opened Schemas
  import opened Instructions
  import opened Trees
  import opened Compiler
  import opened SchemaGraph

  // ----- the tree behind a node -----

  function Link(o: Option<Id>, sub: Id -> Schema): Option<Schema> {
    if o.Some? then Some(sub(o.value)) else None
  }

  function Links(os: seq<Option<Id>>, sub: Id -> Schema): seq<Option<Schema>> {
    seq(|os|, i requires 0 <= i < |os| => Link(os[i], sub))
  }

  function PropertiesOf(ps: seq<PropertyLink>, sub: Id -> Schema): seq<Property> {
    seq(|ps|, i requires 0 <= i < |ps| => Property(ps[i].name, sub(ps[i].schema)))
  }

  function PatternsOf(ps: seq<OptionalLink>, sub: Id -> Schema): seq<PatternProperty> {
    seq(|ps|, i requires 0 <= i < |ps| => PatternProperty(ps[i].name, Link(ps[i].schema, sub)))
  }

  function DependentsOf(ps: seq<OptionalLink>, sub: Id -> Schema): seq<DependentSchema> {
    seq(|ps|, i requires 0 <= i < |ps| => DependentSchema(ps[i].name, Link(ps[i].schema, sub)))
  }

  function ArrayOf(r: ArrayNode, sub: Id -> Schema): ArrayRules {
    ArrayRules(Link(r.items, sub), Links(r.prefixItems, sub), r.minItems, r.maxItems, r.uniqueItems,
               Link(r.contains, sub), r.minContains, r.maxContains)
  }

  function ObjectOf(r: ObjectNode, sub: Id -> Schema): ObjectRules {
    ObjectRules(PropertiesOf(r.properties, sub), r.required, Link(r.additional, sub), r.additionalIsBool,
                r.minProperties, r.maxProperties, Link(r.propertyNames, sub), PatternsOf(r.patternProperties, sub),
                r.dependentRequired, DependentsOf(r.dependentSchemas, sub))
  }

  function CompositionOf(c: CompositionNode, sub: Id -> Schema): Composition {
    Composition(Links(c.allOf, sub), Links(c.anyOf, sub), Links(c.oneOf, sub), Link(c.notSchema, sub))
  }

  function ConditionalOf(c: ConditionalNode, sub: Id -> Schema): Conditional {
    Conditional(Link(c.ifSchema, sub), Link(c.thenSchema, sub), Link(c.elseSchema, sub))
  }

  /** The node with `sub` for what its links lead to. Fields the compiler does not read are left empty. */
  function SchemaOf(s: Node, sub: Id -> Schema): Schema {
    var e := EmptySchema();
    Schema(s.ref, Link(s.refResolved, sub), s.typeMask, s.nullable, e.meta, s.str, s.num,
           ArrayOf(s.arr, sub), ObjectOf(s.obj, sub), CompositionOf(s.comp, sub), ConditionalOf(s.cond, sub),
           s.constValue, s.enumValues, s.readOnly, s.writeOnly, s.disc, e.uneval)
  }

  /** The first `fuel` levels below a schema. */
  function Unfold(h: Heap, id: Id, fuel: nat): Schema
    decreases fuel, 0
  {
    if fuel == 0 || id >= |h| then EmptySchema() else SchemaOf(h[id], Unfolded(h, fuel - 1))
  }

  function Unfolded(h: Heap, fuel: nat): Id -> Schema
    decreases fuel, 1
  {
    (id: Id) => Unfold(h, id, fuel)
  }

  // ----- what the tree compiler makes of it -----

  function Result(ok: bool, code: Code): Outcome {
    if ok then Emitted(code) else Failed
  }

  /** What compiling the tree gives: it fails unless the tree is compilable. */
  function TreeResult(cfg: Config, s: Schema): Outcome {
    Result(Compilable(cfg, s), FlatSeq(Lower(cfg, s)))
  }

  function TreeCalls(cfg: Config, sub: Id -> Schema): Id -> Outcome {
    (id: Id) => TreeResult(cfg, sub(id))
  }

  lemma {:induction false} EvalConcat(a: seq<Action>, b: seq<Action>, sub: Id -> Outcome)
    ensures Eval(a + b, sub) == Then(Eval(a, sub), Eval(b, sub))
    decreases |a|
  {
    if a == [] {
      assert a + b == b;
      ThenNothing(Eval(b, sub));
    } else {
      assert (a + b)[0] == a[0] && (a + b)[1..] == a[1..] + b;
      EvalConcat(a[1..], b, sub);
      ThenTwice(if a[0].Emit? then Emitted(a[0].code) else if a[0].Fail? then Failed else sub(a[0].id),
                Eval(a[1..], sub), Eval(b, sub));
    }
  }

  lemma ThenNothing(b: Outcome)
    ensures Then(Emitted([]), b) == b
  {
    assert b.Emitted? ==> [] + b.code == b.code;
  }

  lemma ThenTwice(a: Outcome, b: Outcome, c: Outcome)
    ensures Then(Then(a, b), c) == Then(a, Then(b, c))
  {
    if a.Emitted? && b.Emitted? && c.Emitted? {
      assert (a.code + b.code) + c.code == a.code + (b.code + c.code);
    }
  }

  // ----- parts of a schema -----

  /** The actions have the result of a part of the tree compiler. */
  ghost predicate Part(actions: seq<Action>, sub: Id -> Outcome, ok: bool, code: Code) {
    Eval(actions, sub) == Result(ok, code)
  }

  lemma PartConcat(a: seq<Action>, b: seq<Action>, sub: Id -> Outcome, x: bool, y: bool, c: Code, d: Code)
    requires Part(a, sub, x, c) && Part(b, sub, y, d)
    ensures Part(a + b, sub, x && y, c + d)
  {
    hide Eval;
    EvalConcat(a, b, sub);
  }

  /** The same for parts whose code is that of trees. */
  lemma TreesConcat(a: seq<Action>, b: seq<Action>, sub: Id -> Outcome, x: bool, y: bool, s: seq<Tree>, t: seq<Tree>)
    requires Part(a, sub, x, FlatSeq(s)) && Part(b, sub, y, FlatSeq(t))
    ensures Part(a + b, sub, x && y, FlatSeq(s + t))
  {
    hide Part, FlatSeq;
    PartConcat(a, b, sub, x, y, FlatSeq(s), FlatSeq(t));
    FlatSeqConcat(s, t);
  }

  lemma NoPart(sub: Id -> Outcome)
    ensures Part([], sub, true, []) && Part([], sub, true, FlatSeq([]))
  {
  }

  lemma EmitPart(code: Code, sub: Id -> Outcome)
    ensures Part([Emit(code)], sub, true, code)
  {
    assert [Emit(code)][1..] == [];
    assert code + [] == code;
  }

  lemma FailPart(sub: Id -> Outcome, code: Code)
    ensures Part([Fail], sub, false, code)
  {
  }

  lemma OneLeaf(check: Check)
    ensures FlatSeq([Leaf(check)]) == [Test(check)]
  {
    assert [Leaf(check)][1..] == [];
  }

  lemma OneTree(t: Tree)
    ensures FlatSeq([t]) == Flat(t)
  {
    hide Flat;
    assert [t][1..] == [];
    assert Flat(t) + [] == Flat(t);
  }

  lemma CheckPart(condition: bool, check: Check, sub: Id -> Outcome)
    ensures Part(CheckIf(condition, check), sub, true, FlatSeq(When(condition, check)))
  {
    OneLeaf(check);
    EmitPart([Test(check)], sub);
    NoPart(sub);
    hide Part, FlatSeq;
  }

  lemma CheckSomePart(o: Option<real>, make: real -> Check, sub: Id -> Outcome)
    ensures Part(CheckIfSome(o, make), sub, true, FlatSeq(WhenSome(o, make)))
  {
    NoPart(sub);
    if o.Some? {
      OneLeaf(make(o.value));
      EmitPart([Test(make(o.value))], sub);
    }
    hide Part, FlatSeq;
  }

  lemma SubPart(cfg: Config, o: Option<Id>, sub: Id -> Schema)
    ensures Part(Sub(o), TreeCalls(cfg, sub), CompilableOpt(cfg, Link(o, sub)),
        FlatSeq(LowerOpt(cfg, Link(o, sub)).trees))
  {
    hide FlatSeq, Lower, Compilable;
    NoPart(TreeCalls(cfg, sub));
    if o.Some? {
      DescendPart(o.value, TreeCalls(cfg, sub));
      assert TreeCalls(cfg, sub)(o.value) == TreeResult(cfg, sub(o.value));
    }
  }

  lemma DescendPart(id: Id, sub: Id -> Outcome)
    ensures Eval([Descend(id)], sub) == sub(id)
  {
    assert [Descend(id)][1..] == [];
    assert sub(id).Emitted? ==> sub(id).code + [] == sub(id).code;
  }

  lemma BracketedPart(cfg: Config, open: Code, o: Option<Id>, sub: Id -> Schema)
    ensures Part(Bracketed(open, o), TreeCalls(cfg, sub), CompilableOpt(cfg, Link(o, sub)),
                 open + FlatSeq(LowerOpt(cfg, Link(o, sub)).trees) + [End])
  {
    hide Part, FlatSeq, Lower, Compilable;
    var calls, body := TreeCalls(cfg, sub), FlatSeq(LowerOpt(cfg, Link(o, sub)).trees);
    EmitPart(open, calls);
    SubPart(cfg, o, sub);
    EmitPart([End], calls);
    PartConcat([Emit(open)], Sub(o), calls, true, CompilableOpt(cfg, Link(o, sub)), open, body);
    PartConcat([Emit(open)] + Sub(o), [Emit([End])], calls, CompilableOpt(cfg, Link(o, sub)), true, open + body, [End]);
  }

  lemma NestedPart(cfg: Config, opener: Opener, o: Option<Id>, sub: Id -> Schema)
    ensures Part(Nested(opener, o), TreeCalls(cfg, sub), CompilableOpt(cfg, Link(o, sub)),
                 FlatSeq(LowerNested(cfg, opener, Link(o, sub))))
  {
    NoPart(TreeCalls(cfg, sub));
    BracketedPart(cfg, [Open(opener)], o, sub);
    OneTree(Nest(opener, LowerOpt(cfg, Link(o, sub))));
    hide Part, FlatSeq, Lower, Compilable, Bracketed;
  }

  // ----- values -----

  lemma StringPart(cfg: Config, r: StringRules, sub: Id -> Outcome)
    ensures Part(StringActions(cfg, r), sub, r.pattern.Some? && cfg.hasRegex ==> cfg.compiles(r.pattern.value),
                 FlatSeq(LowerString(cfg, r)))
  {
    hide Part, FlatSeq, CheckIf, When;
    var min, max := CheckIf(r.minLength >= 0, CheckMinLen(r.minLength)),
        CheckIf(r.maxLength >= 0, CheckMaxLen(r.maxLength));
    var format := if r.format.Some? then CheckIf(ChecksFormat(cfg, r.format.value), CheckFormat(r.format.value))
        else [];
    var x, y := When(r.minLength >= 0, CheckMinLen(r.minLength)), When(r.maxLength >= 0, CheckMaxLen(r.maxLength));
    var ok := r.pattern.Some? && cfg.hasRegex ==> cfg.compiles(r.pattern.value);
    CheckPart(r.minLength >= 0, CheckMinLen(r.minLength), sub);
    CheckPart(r.maxLength >= 0, CheckMaxLen(r.maxLength), sub);
    PatternPart(cfg, r.pattern, sub);
    NoPart(sub);
    if r.format.Some? { CheckPart(ChecksFormat(cfg, r.format.value), CheckFormat(r.format.value), sub); }
    TreesConcat(min, max, sub, true, true, x, y);
    TreesConcat(min + max, PatternActions(cfg, r.pattern), sub, true, ok, x + y, PatternLeaf(cfg, r.pattern));
    TreesConcat(min + max + PatternActions(cfg, r.pattern), format, sub, ok, true,
                x + y + PatternLeaf(cfg, r.pattern), FormatLeaf(cfg, r.format));
  }

  lemma PatternPart(cfg: Config, o: Option<string>, sub: Id -> Outcome)
    ensures Part(PatternActions(cfg, o), sub, o.Some? && cfg.hasRegex ==> cfg.compiles(o.value),
                 FlatSeq(PatternLeaf(cfg, o)))
  {
    hide Part, FlatSeq;
    NoPart(sub);
    if o.Some? {
      OneLeaf(CheckPattern(o.value));
      EmitPart([Test(CheckPattern(o.value))], sub);
      FailPart(sub, [Test(CheckPattern(o.value))]);
    }
  }

  lemma NumberPart(r: NumberRules, sub: Id -> Outcome)
    ensures Part(NumberActions(r), sub, true, FlatSeq(LowerNumber(r)))
  {
    hide Part, FlatSeq, CheckIfSome, WhenSome;
    var a, b := CheckIfSome(r.minimum, x => CheckMinimum(x)), CheckIfSome(r.maximum, x => CheckMaximum(x));
    var c, d := CheckIfSome(r.exclusiveMinimum, x => CheckExMinimum(x)),
        CheckIfSome(r.exclusiveMaximum, x => CheckExMaximum(x));
    var s, t := WhenSome(r.minimum, x => CheckMinimum(x)), WhenSome(r.maximum, x => CheckMaximum(x));
    var u, v := WhenSome(r.exclusiveMinimum, x => CheckExMinimum(x)),
        WhenSome(r.exclusiveMaximum, x => CheckExMaximum(x));
    CheckSomePart(r.minimum, x => CheckMinimum(x), sub);
    CheckSomePart(r.maximum, x => CheckMaximum(x), sub);
    CheckSomePart(r.exclusiveMinimum, x => CheckExMinimum(x), sub);
    CheckSomePart(r.exclusiveMaximum, x => CheckExMaximum(x), sub);
    CheckSomePart(r.multipleOf, x => CheckMultipleOf(x), sub);
    TreesConcat(a, b, sub, true, true, s, t);
    TreesConcat(a + b, c, sub, true, true, s + t, u);
    TreesConcat(a + b + c, d, sub, true, true, s + t + u, v);
    TreesConcat(a + b + c + d, CheckIfSome(r.multipleOf, x => CheckMultipleOf(x)), sub, true, true, s + t + u + v,
                WhenSome(r.multipleOf, x => CheckMultipleOf(x)));
  }

  // ----- arrays -----

  lemma AllEnd(cfg: Config, os: seq<Option<Id>>, sub: Id -> Schema, n: nat)
    requires |os| == n + 1
    ensures Links(os, sub) == Links(os[..n], sub) + [Link(os[n], sub)]
    ensures AllCompilable(cfg, Links(os, sub)) <==>
      AllCompilable(cfg, Links(os[..n], sub)) && CompilableOpt(cfg, Link(os[n], sub))
  {
    hide CompilableOpt, Link;
    var front, all := Links(os[..n], sub), Links(os, sub);
    assert all[n] == Link(os[n], sub) && forall i | 0 <= i < n :: all[i] == front[i];
  }

  lemma PrefixEnd(cfg: Config, os: seq<Option<Schema>>, o: Option<Schema>)
    ensures LowerPrefix(cfg, os + [o]) ==
      LowerPrefix(cfg, os) + [Nest(EnterPrefixItem(|os| % 0x1_0000), LowerOpt(cfg, o))]
  {
    hide LowerOpt;
    var all := LowerPrefix(cfg, os + [o]);
    assert forall i | 0 <= i < |os| :: (os + [o])[i] == os[i];
  }

  lemma {:induction false} PrefixPart(cfg: Config, os: seq<Option<Id>>, sub: Id -> Schema)
    ensures Part(PrefixActions(os), TreeCalls(cfg, sub), AllCompilable(cfg, Links(os, sub)),
                 FlatSeq(LowerPrefix(cfg, Links(os, sub))))
    decreases |os|
  {
    hide Part, FlatSeq, LowerPrefix, LowerOpt, CompilableOpt, Bracketed;
    if os == [] {
      NoPart(TreeCalls(cfg, sub));
      assert LowerPrefix(cfg, Links(os, sub)) == [];
    } else {
      var n := |os| - 1;
      var op, o := EnterPrefixItem(n % 0x1_0000), Link(os[n], sub);
      PrefixPart(cfg, os[..n], sub);
      BracketedPart(cfg, [Open(op)], os[n], sub);
      AllEnd(cfg, os, sub, n);
      PrefixEnd(cfg, Links(os[..n], sub), o);
      OneTree(Nest(op, LowerOpt(cfg, o)));
      hide AllCompilable, Links, Link;
      TreesConcat(PrefixActions(os[..n]), Bracketed([Open(op)], os[n]), TreeCalls(cfg, sub),
                  AllCompilable(cfg, Links(os[..n], sub)), CompilableOpt(cfg, o),
                  LowerPrefix(cfg, Links(os[..n], sub)), [Nest(op, LowerOpt(cfg, o))]);
    }
  }

  lemma ArrayPart(cfg: Config, r: ArrayNode, sub: Id -> Schema)
    ensures var a := ArrayOf(r, sub);
      Part(ArrayActions(r), TreeCalls(cfg, sub), AllCompilable(cfg, a.prefixItems) && CompilableOpt(cfg, a.items),
           FlatSeq(LowerArray(cfg, a)))
  {
    hide Part, FlatSeq, CheckIf, When, PrefixActions, Nested, LowerPrefix, LowerNested, AllCompilable, CompilableOpt,
      Links, Link, TreeCalls;
    var calls := TreeCalls(cfg, sub);
    var a, b := CheckIf(r.minItems >= 0, CheckMinItems(r.minItems)),
        CheckIf(r.maxItems >= 0, CheckMaxItems(r.maxItems));
    var c := CheckIf(r.uniqueItems, CheckUnique);
    var x, y := When(r.minItems >= 0, CheckMinItems(r.minItems)), When(r.maxItems >= 0, CheckMaxItems(r.maxItems));
    var z, prefix := When(r.uniqueItems, CheckUnique), Links(r.prefixItems, sub);
    CheckPart(r.minItems >= 0, CheckMinItems(r.minItems), calls);
    CheckPart(r.maxItems >= 0, CheckMaxItems(r.maxItems), calls);
    CheckPart(r.uniqueItems, CheckUnique, calls);
    PrefixPart(cfg, r.prefixItems, sub);
    NestedPart(cfg, EnterItems, r.items, sub);
    TreesConcat(a, b, calls, true, true, x, y);
    TreesConcat(a + b, c, calls, true, true, x + y, z);
    TreesConcat(a + b + c, PrefixActions(r.prefixItems), calls, true, AllCompilable(cfg, prefix), x + y + z,
                LowerPrefix(cfg, prefix));
    TreesConcat(a + b + c + PrefixActions(r.prefixItems), Nested(EnterItems, r.items), calls,
        AllCompilable(cfg, prefix),
                CompilableOpt(cfg, Link(r.items, sub)), x + y + z + LowerPrefix(cfg, prefix),
                LowerNested(cfg, EnterItems, Link(r.items, sub)));
  }

  lemma ContainsPart(cfg: Config, r: ArrayNode, sub: Id -> Schema)
    ensures Part(ContainsActions(r), TreeCalls(cfg, sub), CompilableOpt(cfg, Link(r.contains, sub)),
                 FlatSeq(LowerContains(cfg, ArrayOf(r, sub))))
  {
    hide Part, FlatSeq, Lower, Compilable, Bracketed, Links;
    NoPart(TreeCalls(cfg, sub));
    if r.contains.Some? {
      var min := if r.minContains >= 0 then r.minContains else 1;
      BracketedPart(cfg, [Contains(min), NopCount(r.maxContains)], r.contains, sub);
      OneTree(Quota(min, r.maxContains, LowerOpt(cfg, Link(r.contains, sub))));
    }
  }

  // ----- objects -----

  lemma RequiredEnd(names: seq<string>, n: nat)
    requires |names| == n + 1
    ensures LowerRequired(names) == LowerRequired(names[..n]) + [Leaf(CheckRequired(names[n]))]
  {
  }

  lemma {:induction false} RequiredPart(names: seq<string>, sub: Id -> Outcome)
    ensures Part(RequiredActions(names), sub, true, FlatSeq(LowerRequired(names)))
    decreases |names|
  {
    hide Part, FlatSeq, LowerRequired;
    if names == [] {
      NoPart(sub);
      assert LowerRequired(names) == [];
    } else {
      var n := |names| - 1;
      RequiredPart(names[..n], sub);
      RequiredEnd(names, n);
      OneLeaf(CheckRequired(names[n]));
      EmitPart([Test(CheckRequired(names[n]))], sub);
      TreesConcat(RequiredActions(names[..n]), [Emit([Test(CheckRequired(names[n]))])], sub, true, true,
                  LowerRequired(names[..n]), [Leaf(CheckRequired(names[n]))]);
    }
  }

  predicate PropertiesCompilable(cfg: Config, ps: seq<Property>) {
    forall i | 0 <= i < |ps| :: Compilable(cfg, ps[i].schema)
  }

  lemma PropertiesEnd(cfg: Config, ps: seq<PropertyLink>, sub: Id -> Schema, n: nat)
    requires |ps| == n + 1
    ensures var s := sub(ps[n].schema);
      && LowerProperties(cfg, PropertiesOf(ps, sub)) ==
           LowerProperties(cfg, PropertiesOf(ps[..n], sub)) + [Nest(EnterProperty(ps[n].name), Block(Lower(cfg, s)))]
      && (PropertiesCompilable(cfg, PropertiesOf(ps, sub)) <==>
            PropertiesCompilable(cfg, PropertiesOf(ps[..n], sub)) && Compilable(cfg, s))
  {
    hide Lower, Compilable;
    var front, all := PropertiesOf(ps[..n], sub), PropertiesOf(ps, sub);
    assert all[n] == Property(ps[n].name, sub(ps[n].schema)) && forall i | 0 <= i < n :: all[i] == front[i];
  }

  lemma {:induction false} PropertiesPart(cfg: Config, ps: seq<PropertyLink>, sub: Id -> Schema)
    ensures Part(PropertyActions(ps), TreeCalls(cfg, sub), PropertiesCompilable(cfg, PropertiesOf(ps, sub)),
                 FlatSeq(LowerProperties(cfg, PropertiesOf(ps, sub))))
    decreases |ps|
  {
    hide Part, FlatSeq, LowerProperties, Lower, Compilable, Bracketed;
    if ps == [] {
      NoPart(TreeCalls(cfg, sub));
      assert LowerProperties(cfg, PropertiesOf(ps, sub)) == [];
    } else {
      var n := |ps| - 1;
      var op, s := EnterProperty(ps[n].name), sub(ps[n].schema);
      PropertiesPart(cfg, ps[..n], sub);
      BracketedPart(cfg, [Open(op)], Some(ps[n].schema), sub);
      PropertiesEnd(cfg, ps, sub, n);
      OneTree(Nest(op, Block(Lower(cfg, s))));
      hide PropertiesCompilable, PropertiesOf;
      TreesConcat(PropertyActions(ps[..n]), Bracketed([Open(op)], Some(ps[n].schema)), TreeCalls(cfg, sub),
                  PropertiesCompilable(cfg, PropertiesOf(ps[..n], sub)), Compilable(cfg, s),
                  LowerProperties(cfg, PropertiesOf(ps[..n], sub)), [Nest(op, Block(Lower(cfg, s)))]);
    }
  }

  predicate PatternOk(cfg: Config, p: PatternProperty) {
    cfg.hasRegex ==> PatternCompilable(cfg, p)
  }

  predicate PatternsOk(cfg: Config, ps: seq<PatternProperty>) {
    forall i | 0 <= i < |ps| :: PatternOk(cfg, ps[i])
  }

  lemma PatternActionPart(cfg: Config, p: OptionalLink, sub: Id -> Schema)
    ensures var t := PatternProperty(p.name, Link(p.schema, sub));
      Part(PatternAction(cfg, p), TreeCalls(cfg, sub), PatternOk(cfg, t), FlatSeq(LowerPattern(cfg, t)))
  {
    hide Part, FlatSeq, Lower, Compilable, Bracketed;
    NoPart(TreeCalls(cfg, sub));
    BracketedPart(cfg, [Open(CheckPatternProps(p.name))], p.schema, sub);
    OneTree(Nest(CheckPatternProps(p.name), LowerOpt(cfg, Link(p.schema, sub))));
    FailPart(TreeCalls(cfg, sub), FlatSeq(LowerPattern(cfg, PatternProperty(p.name, Link(p.schema, sub)))));
  }

  lemma PatternsHead(ps: seq<OptionalLink>, sub: Id -> Schema)
    requires ps != []
    ensures PatternsOf(ps, sub) == [PatternProperty(ps[0].name, Link(ps[0].schema, sub))] + PatternsOf(ps[1..], sub)
  {
    hide Link;
  }

  lemma PatternsOkHead(cfg: Config, p: PatternProperty, ps: seq<PatternProperty>)
    ensures PatternsOk(cfg, [p] + ps) <==> PatternOk(cfg, p) && PatternsOk(cfg, ps)
  {
    hide PatternOk;
    var all := [p] + ps;
    assert all[0] == p && forall i | 0 <= i < |ps| :: all[i + 1] == ps[i];
    if PatternOk(cfg, p) && PatternsOk(cfg, ps) {
      forall i | 0 <= i < |all| ensures PatternOk(cfg, all[i]) {
        if i > 0 { assert all[i] == ps[i - 1]; }
      }
    }
    if PatternsOk(cfg, all) {
      forall i | 0 <= i < |ps| ensures PatternOk(cfg, ps[i]) {
        assert PatternOk(cfg, all[i + 1]);
      }
    }
  }

  lemma {:induction false} PatternsPart(cfg: Config, ps: seq<OptionalLink>, sub: Id -> Schema)
    ensures Part(PatternsActions(cfg, ps), TreeCalls(cfg, sub), PatternsOk(cfg, PatternsOf(ps, sub)),
                 FlatSeq(LowerPatterns(cfg, PatternsOf(ps, sub))))
    decreases |ps|
  {
    hide Part, FlatSeq, LowerPattern, PatternOk, PatternAction, Link;
    if ps == [] {
      NoPart(TreeCalls(cfg, sub));
      assert PatternsOf(ps, sub) == [];
    } else {
      var t := PatternProperty(ps[0].name, Link(ps[0].schema, sub));
      var rest := PatternsOf(ps[1..], sub);
      PatternActionPart(cfg, ps[0], sub);
      PatternsPart(cfg, ps[1..], sub);
      PatternsHead(ps, sub);
      PatternsOkHead(cfg, t, rest);
      hide PatternsOk, PatternsOf;
      assert ([t] + rest)[1..] == rest;
      TreesConcat(PatternAction(cfg, ps[0]), PatternsActions(cfg, ps[1..]), TreeCalls(cfg, sub), PatternOk(cfg, t),
                  PatternsOk(cfg, rest), LowerPattern(cfg, t), LowerPatterns(cfg, rest));
    }
  }

  lemma RequirementsEnd(ds: seq<DependentRequired>, n: nat)
    requires |ds| == n + 1
    ensures LowerDependentRequired(ds) == LowerDependentRequired(ds[..n]) + [Names(ds[n].property, ds[n].required)]
  {
  }

  lemma {:induction false} RequirementsPart(ds: seq<DependentRequired>, sub: Id -> Outcome)
    ensures Part(RequirementActions(ds), sub, true, FlatSeq(LowerDependentRequired(ds)))
    decreases |ds|
  {
    hide Part, FlatSeq, LowerDependentRequired, NameCode;
    if ds == [] {
      NoPart(sub);
      assert LowerDependentRequired(ds) == [];
    } else {
      var n := |ds| - 1;
      var code := [DepRequired(ds[n].property), NopCount(|ds[n].required|)] + NameCode(ds[n].required);
      RequirementsPart(ds[..n], sub);
      RequirementsEnd(ds, n);
      OneTree(Names(ds[n].property, ds[n].required));
      EmitPart(code, sub);
      TreesConcat(RequirementActions(ds[..n]), [Emit(code)], sub, true, true,
                  LowerDependentRequired(ds[..n]), [Names(ds[n].property, ds[n].required)]);
    }
  }

  predicate DependentsCompilable(cfg: Config, ds: seq<DependentSchema>) {
    forall i | 0 <= i < |ds| :: CompilableOpt(cfg, ds[i].schema)
  }

  lemma DependentsHead(ds: seq<OptionalLink>, sub: Id -> Schema)
    requires ds != []
    ensures DependentsOf(ds, sub) == [DependentSchema(ds[0].name, Link(ds[0].schema, sub))] + DependentsOf(ds[1..], sub)
  {
    hide Link;
  }

  lemma DependentsOkHead(cfg: Config, d: DependentSchema, ds: seq<DependentSchema>)
    ensures DependentsCompilable(cfg, [d] + ds) <==> CompilableOpt(cfg, d.schema) && DependentsCompilable(cfg, ds)
  {
    hide CompilableOpt;
    var all := [d] + ds;
    assert all[0] == d && forall i | 0 <= i < |ds| :: all[i + 1] == ds[i];
    if CompilableOpt(cfg, d.schema) && DependentsCompilable(cfg, ds) {
      forall i | 0 <= i < |all| ensures CompilableOpt(cfg, all[i].schema) {
        if i > 0 { assert all[i] == ds[i - 1]; }
      }
    }
    if DependentsCompilable(cfg, all) {
      forall i | 0 <= i < |ds| ensures CompilableOpt(cfg, ds[i].schema) {
        assert CompilableOpt(cfg, all[i + 1].schema);
      }
    }
  }

  lemma {:induction false} DependentsPart(cfg: Config, ds: seq<OptionalLink>, sub: Id -> Schema)
    ensures Part(DependentActions(ds), TreeCalls(cfg, sub), DependentsCompilable(cfg, DependentsOf(ds, sub)),
                 FlatSeq(LowerDependentSchemas(cfg, DependentsOf(ds, sub))))
    decreases |ds|
  {
    hide Part, FlatSeq, LowerNested, CompilableOpt, Nested, Link;
    if ds == [] {
      NoPart(TreeCalls(cfg, sub));
      assert DependentsOf(ds, sub) == [];
    } else {
      var t := DependentSchema(ds[0].name, Link(ds[0].schema, sub));
      var rest := DependentsOf(ds[1..], sub);
      NestedPart(cfg, CheckDepSchema(ds[0].name), ds[0].schema, sub);
      DependentsPart(cfg, ds[1..], sub);
      DependentsHead(ds, sub);
      DependentsOkHead(cfg, t, rest);
      hide DependentsCompilable, DependentsOf;
      assert ([t] + rest)[1..] == rest;
      TreesConcat(Nested(CheckDepSchema(ds[0].name), ds[0].schema), DependentActions(ds[1..]), TreeCalls(cfg, sub),
                  CompilableOpt(cfg, t.schema), DependentsCompilable(cfg, rest),
                  LowerNested(cfg, CheckDepSchema(t.property), t.schema), LowerDependentSchemas(cfg, rest));
    }
  }

  lemma MembersPart(cfg: Config, r: ObjectNode, sub: Id -> Schema)
    ensures var o := ObjectOf(r, sub);
      Part(MemberActions(r), TreeCalls(cfg, sub),
           PropertiesCompilable(cfg, o.properties) && CompilableOpt(cfg, o.additional), FlatSeq(LowerMembers(cfg, o)))
  {
    hide Part, FlatSeq, CheckIf, When, RequiredActions, PropertyActions, Nested, LowerRequired, LowerProperties,
      LowerNested, PropertiesCompilable, CompilableOpt, PropertiesOf, PatternsOf, DependentsOf, Link, TreeCalls;
    var calls := TreeCalls(cfg, sub);
    var a, b := RequiredActions(r.required), PropertyActions(r.properties);
    var c, d := Nested(EnterAdditional, r.additional), CheckIf(r.minProperties >= 0, CheckMinProps(r.minProperties));
    var x, y := LowerRequired(r.required), LowerProperties(cfg, PropertiesOf(r.properties, sub));
    var z, w := LowerNested(cfg, EnterAdditional, Link(r.additional, sub)),
        When(r.minProperties >= 0, CheckMinProps(r.minProperties));
    var p, q := PropertiesCompilable(cfg, PropertiesOf(r.properties, sub)), CompilableOpt(cfg, Link(r.additional, sub));
    RequiredPart(r.required, calls);
    PropertiesPart(cfg, r.properties, sub);
    NestedPart(cfg, EnterAdditional, r.additional, sub);
    CheckPart(r.minProperties >= 0, CheckMinProps(r.minProperties), calls);
    CheckPart(r.maxProperties >= 0, CheckMaxProps(r.maxProperties), calls);
    TreesConcat(a, b, calls, true, p, x, y);
    TreesConcat(a + b, c, calls, p, q, x + y, z);
    TreesConcat(a + b + c, d, calls, p && q, true, x + y + z, w);
    TreesConcat(a + b + c + d, CheckIf(r.maxProperties >= 0, CheckMaxProps(r.maxProperties)), calls, p && q, true,
                x + y + z + w, When(r.maxProperties >= 0, CheckMaxProps(r.maxProperties)));
  }

  lemma ObjectPart(cfg: Config, r: ObjectNode, sub: Id -> Schema)
    ensures Part(ObjectActions(cfg, r), TreeCalls(cfg, sub), ObjectCompilable(cfg, ObjectOf(r, sub)),
                 FlatSeq(LowerObject(cfg, ObjectOf(r, sub))))
  {
    var o, calls := ObjectOf(r, sub), TreeCalls(cfg, sub);
    ObjectConjuncts(cfg, o);
    hide *;
    ObjectFields(r, sub);
    ObjectCode(cfg, r, o);
    var a, b := MemberActions(r), Nested(CheckPropNames, r.propertyNames);
    var c, d := PatternsActions(cfg, r.patternProperties), RequirementActions(r.dependentRequired);
    var x, y := LowerMembers(cfg, o), LowerNested(cfg, CheckPropNames, o.propertyNames);
    var z, w := LowerPatterns(cfg, o.patternProperties), LowerDependentRequired(o.dependentRequired);
    var p := PropertiesCompilable(cfg, o.properties) && CompilableOpt(cfg, o.additional);
    var q, s := CompilableOpt(cfg, o.propertyNames), PatternsOk(cfg, o.patternProperties);
    MembersPart(cfg, r, sub);
    NestedPart(cfg, CheckPropNames, r.propertyNames, sub);
    PatternsPart(cfg, r.patternProperties, sub);
    RequirementsPart(r.dependentRequired, calls);
    DependentsPart(cfg, r.dependentSchemas, sub);
    TreesConcat(a, b, calls, p, q, x, y);
    TreesConcat(a + b, c, calls, p && q, s, x + y, z);
    TreesConcat(a + b + c, d, calls, p && q && s, true, x + y + z, w);
    TreesConcat(a + b + c + d, DependentActions(r.dependentSchemas), calls, p && q && s,
                DependentsCompilable(cfg, o.dependentSchemas), x + y + z + w,
                LowerDependentSchemas(cfg, o.dependentSchemas));
  }

  lemma ObjectFields(r: ObjectNode, sub: Id -> Schema)
    ensures var o := ObjectOf(r, sub);
      && o.properties == PropertiesOf(r.properties, sub) && o.additional == Link(r.additional, sub)
      && o.propertyNames == Link(r.propertyNames, sub) && o.patternProperties == PatternsOf(r.patternProperties, sub)
      && o.dependentRequired == r.dependentRequired && o.dependentSchemas == DependentsOf(r.dependentSchemas, sub)
  {
    hide PropertiesOf, Link, PatternsOf, DependentsOf;
  }

  lemma ObjectCode(cfg: Config, r: ObjectNode, o: ObjectRules)
    ensures LowerObject(cfg, o) ==
      LowerMembers(cfg, o) + LowerNested(cfg, CheckPropNames, o.propertyNames) + LowerPatterns(cfg, o.patternProperties)
      + LowerDependentRequired(o.dependentRequired) + LowerDependentSchemas(cfg, o.dependentSchemas)
    ensures ObjectActions(cfg, r) ==
      MemberActions(r) + Nested(CheckPropNames, r.propertyNames) + PatternsActions(cfg, r.patternProperties)
      + RequirementActions(r.dependentRequired) + DependentActions(r.dependentSchemas)
  {
    hide LowerMembers, LowerNested, LowerPatterns, LowerDependentRequired, LowerDependentSchemas, MemberActions, Nested,
      PatternsActions, RequirementActions, DependentActions;
  }

  lemma ObjectConjuncts(cfg: Config, o: ObjectRules)
    ensures ObjectCompilable(cfg, o) <==>
      && PropertiesCompilable(cfg, o.properties) && CompilableOpt(cfg, o.additional)
      && CompilableOpt(cfg, o.propertyNames) && PatternsOk(cfg, o.patternProperties)
      && DependentsCompilable(cfg, o.dependentSchemas)
  {
    hide Compilable, CompilableOpt, PatternCompilable;
  }

  // ----- composition -----

  lemma LinksHead(os: seq<Option<Id>>, sub: Id -> Schema)
    requires os != []
    ensures Links(os, sub) == [Link(os[0], sub)] + Links(os[1..], sub)
  {
    hide Link;
  }

  lemma AllHead(cfg: Config, o: Option<Schema>, os: seq<Option<Schema>>)
    ensures AllCompilable(cfg, [o] + os) <==> CompilableOpt(cfg, o) && AllCompilable(cfg, os)
  {
    hide CompilableOpt;
    var all := [o] + os;
    assert all[0] == o && forall i | 0 <= i < |os| :: all[i + 1] == os[i];
    if CompilableOpt(cfg, o) && AllCompilable(cfg, os) {
      forall i | 0 <= i < |all| ensures CompilableOpt(cfg, all[i]) {
        if i > 0 { assert all[i] == os[i - 1]; }
      }
    }
    if AllCompilable(cfg, all) {
      forall i | 0 <= i < |os| ensures CompilableOpt(cfg, os[i]) {
        assert CompilableOpt(cfg, all[i + 1]);
      }
    }
  }

  lemma BranchesHead(cfg: Config, o: Option<Schema>, os: seq<Option<Schema>>)
    ensures LowerBranches(cfg, [o] + os) == [LowerOpt(cfg, o)] + LowerBranches(cfg, os)
  {
    hide LowerOpt, LowerBranches;
    var all, bs := [o] + os, [LowerOpt(cfg, o)] + LowerBranches(cfg, os);
    forall i | 0 <= i < |all| ensures LowerBranches(cfg, all)[i] == bs[i] {
      if i > 0 { assert all[i] == os[i - 1]; }
    }
  }

  lemma BodiesHead(b: Block, bs: seq<Block>)
    ensures FlatBodies([b] + bs) == FlatSeq(b.trees) + [End] + FlatBodies(bs)
  {
    hide FlatSeq;
    assert ([b] + bs)[1..] == bs;
  }

  lemma {:induction false} BranchesPart(cfg: Config, os: seq<Option<Id>>, sub: Id -> Schema)
    ensures Part(BranchActions(os), TreeCalls(cfg, sub), AllCompilable(cfg, Links(os, sub)),
                 FlatBodies(LowerBranches(cfg, Links(os, sub))))
    decreases |os|
  {
    hide Part, FlatSeq, FlatBodies, LowerBranches, LowerOpt, CompilableOpt, Link, Sub;
    var calls := TreeCalls(cfg, sub);
    if os == [] {
      NoPart(calls);
      NoBodies(cfg, Links(os, sub));
    } else {
      var b, bs := LowerOpt(cfg, Link(os[0], sub)), LowerBranches(cfg, Links(os[1..], sub));
      var ok := CompilableOpt(cfg, Link(os[0], sub));
      SubPart(cfg, os[0], sub);
      EmitPart([End], calls);
      BranchesPart(cfg, os[1..], sub);
      LinksHead(os, sub);
      AllHead(cfg, Link(os[0], sub), Links(os[1..], sub));
      BranchesHead(cfg, Link(os[0], sub), Links(os[1..], sub));
      BodiesHead(b, bs);
      hide AllCompilable, Links;
      PartConcat(Sub(os[0]), [Emit([End])], calls, ok, true, FlatSeq(b.trees), [End]);
      PartConcat(Sub(os[0]) + [Emit([End])], BranchActions(os[1..]), calls, ok, AllCompilable(cfg, Links(os[1..], sub)),
                 FlatSeq(b.trees) + [End], FlatBodies(bs));
    }
  }

  lemma NoBodies(cfg: Config, os: seq<Option<Schema>>)
    requires os == []
    ensures FlatBodies(LowerBranches(cfg, os)) == [] && AllCompilable(cfg, os)
  {
  }

  lemma ForkPart(cfg: Config, kind: BranchKind, os: seq<Option<Id>>, sub: Id -> Schema)
    ensures Part(ForkActions(kind, os), TreeCalls(cfg, sub), AllCompilable(cfg, Links(os, sub)),
                 FlatSeq(LowerFork(cfg, kind, Links(os, sub))))
  {
    var calls := TreeCalls(cfg, sub);
    hide Part, FlatSeq, FlatBodies, LowerBranches, CompilableOpt, Link, BranchActions;
    if os == [] {
      NoPart(calls);
    } else {
      var bs, op := LowerBranches(cfg, Links(os, sub)), [Branch(kind, |os| % 0x1_0000)];
      EmitPart(op, calls);
      BranchesPart(cfg, os, sub);
      PartConcat([Emit(op)], BranchActions(os), calls, true, AllCompilable(cfg, Links(os, sub)), op, FlatBodies(bs));
      OneTree(Fork(kind, bs));
    }
  }

  lemma PickPart(cfg: Config, os: seq<Option<Id>>, d: Discriminator, sub: Id -> Schema)
    requires d.property.Some?
    ensures Part(PickActions(os, d), TreeCalls(cfg, sub), |os| == |d.mapping| ==> AllCompilable(cfg, Links(os, sub)),
                 FlatSeq(LowerPick(cfg, Links(os, sub), d)))
  {
    var calls := TreeCalls(cfg, sub);
    hide Part, FlatSeq, FlatBodies, LowerBranches, CompilableOpt, Link, BranchActions, NameCode;
    NoPart(calls);
    if |os| == |d.mapping| {
      var bs, keys := LowerBranches(cfg, Links(os, sub)), Keys(d.mapping);
      var op := [Dispatch(d.property.value), NopCount(|d.mapping|)] + NameCode(keys);
      EmitPart(op, calls);
      BranchesPart(cfg, os, sub);
      PartConcat([Emit(op)], BranchActions(os), calls, true, AllCompilable(cfg, Links(os, sub)), op, FlatBodies(bs));
      OneTree(Pick(d.property.value, keys, bs));
    }
  }

  lemma AlternativesPart(cfg: Config, c: CompositionNode, d: Discriminator, sub: Id -> Schema)
    ensures Part(AlternativeActions(c, d), TreeCalls(cfg, sub), AlternativesCompilable(cfg, CompositionOf(c, sub), d),
                 FlatSeq(LowerAlternatives(cfg, CompositionOf(c, sub), d)))
  {
    hide Part, FlatSeq, LowerFork, LowerPick, AllCompilable, Link, ForkActions, PickActions, TreeCalls;
    var calls := TreeCalls(cfg, sub);
    NoPart(calls);
    if HasDiscriminator(d) {
      if c.oneOf != [] { PickPart(cfg, c.oneOf, d, sub); } else { PickPart(cfg, c.anyOf, d, sub); }
    } else {
      ForkPart(cfg, AnyOf, c.anyOf, sub);
      ForkPart(cfg, OneOf, c.oneOf, sub);
      TreesConcat(ForkActions(AnyOf, c.anyOf), ForkActions(OneOf, c.oneOf), calls,
                  AllCompilable(cfg, Links(c.anyOf, sub)), AllCompilable(cfg, Links(c.oneOf, sub)),
                  LowerFork(cfg, AnyOf, Links(c.anyOf, sub)), LowerFork(cfg, OneOf, Links(c.oneOf, sub)));
    }
  }

  lemma CompositionPart(cfg: Config, c: CompositionNode, d: Discriminator, sub: Id -> Schema)
    ensures Part(CompositionActions(c, d), TreeCalls(cfg, sub), CompositionCompilable(cfg, CompositionOf(c, sub), d),
                 FlatSeq(LowerComposition(cfg, CompositionOf(c, sub), d)))
  {
    hide Part, FlatSeq, LowerFork, LowerAlternatives, LowerNested, AllCompilable, AlternativesCompilable, CompilableOpt,
      Link, Links, ForkActions, AlternativeActions, Nested, TreeCalls;
    var calls, t := TreeCalls(cfg, sub), CompositionOf(c, sub);
    ForkPart(cfg, AllOf, c.allOf, sub);
    AlternativesPart(cfg, c, d, sub);
    NestedPart(cfg, Negate, c.notSchema, sub);
    TreesConcat(ForkActions(AllOf, c.allOf), AlternativeActions(c, d), calls, AllCompilable(cfg, t.allOf),
                AlternativesCompilable(cfg, t, d), LowerFork(cfg, AllOf, t.allOf), LowerAlternatives(cfg, t, d));
    TreesConcat(ForkActions(AllOf, c.allOf) + AlternativeActions(c, d), Nested(Negate, c.notSchema), calls,
                AllCompilable(cfg, t.allOf) && AlternativesCompilable(cfg, t, d), CompilableOpt(cfg, t.notSchema),
                LowerFork(cfg, AllOf, t.allOf) + LowerAlternatives(cfg, t, d), LowerNested(cfg, Negate, t.notSchema));
  }

  lemma ArmPart(cfg: Config, opener: Opener, o: Option<Id>, sub: Id -> Schema)
    ensures Part(Nested(opener, o), TreeCalls(cfg, sub), CompilableOpt(cfg, Link(o, sub)),
                 ArmCode(opener, LowerOpt(cfg, Link(o, sub)), o.Some?))
  {
    NoPart(TreeCalls(cfg, sub));
    BracketedPart(cfg, [Open(opener)], o, sub);
    hide Part, FlatSeq, Lower, Compilable, Bracketed;
  }

  function ArmCode(opener: Opener, b: Block, present: bool): Code {
    if present then [Open(opener)] + FlatSeq(b.trees) + [End] else []
  }

  lemma ConditionalPart(cfg: Config, c: ConditionalNode, sub: Id -> Schema)
    ensures Part(ConditionalActions(c), TreeCalls(cfg, sub), ConditionalCompilable(cfg, ConditionalOf(c, sub)),
                 FlatSeq(LowerConditional(cfg, ConditionalOf(c, sub))))
  {
    var calls, t := TreeCalls(cfg, sub), ConditionalOf(c, sub);
    NoPart(calls);
    if c.ifSchema.Some? {
      var i, th, el := LowerOpt(cfg, t.ifSchema), LowerOpt(cfg, t.thenSchema), LowerOpt(cfg, t.elseSchema);
      CondCode(i, th, el, c.thenSchema.Some?, c.elseSchema.Some?);
      OneTree(LowerConditional(cfg, t)[0]);
      hide Part, FlatSeq, LowerOpt, CompilableOpt, Nested, ArmCode, Flat;
      var x, y := ArmCode(CondIf, i, true), ArmCode(CondThen, th, c.thenSchema.Some?);
      var p, q := CompilableOpt(cfg, t.ifSchema), CompilableOpt(cfg, t.thenSchema);
      ArmPart(cfg, CondIf, c.ifSchema, sub);
      ArmPart(cfg, CondThen, c.thenSchema, sub);
      ArmPart(cfg, CondElse, c.elseSchema, sub);
      PartConcat(Nested(CondIf, c.ifSchema), Nested(CondThen, c.thenSchema), calls, p, q, x, y);
      PartConcat(Nested(CondIf, c.ifSchema) + Nested(CondThen, c.thenSchema), Nested(CondElse, c.elseSchema), calls,
                 p && q, CompilableOpt(cfg, t.elseSchema), x + y, ArmCode(CondElse, el, c.elseSchema.Some?));
    }
  }

  lemma CondCode(i: Block, th: Block, el: Block, hasThen: bool, hasElse: bool)
    ensures Flat(Cond(i, if hasThen then Some(th) else None, if hasElse then Some(el) else None)) ==
      ArmCode(CondIf, i, true) + ArmCode(CondThen, th, hasThen) + ArmCode(CondElse, el, hasElse)
  {
    hide FlatSeq;
  }

  lemma AnnotationsPart(s: Node, t: Schema, sub: Id -> Outcome)
    requires t.enumValues == s.enumValues && t.constValue == s.constValue
    requires t.readOnly == s.readOnly && t.writeOnly == s.writeOnly
    ensures Part(AnnotationActions(s), sub, true, FlatSeq(LowerAnnotations(t)))
  {
    hide Part, FlatSeq, CheckIf, When;
    var a := if s.enumValues.Some? then [Emit([Test(CheckEnum(s.enumValues.value))])] else [];
    var b := if s.constValue.Some? then [Emit([Test(CheckConst(s.constValue.value))])] else [];
    var c, z := CheckIf(s.readOnly, CheckReadOnly), When(s.readOnly, CheckReadOnly);
    var x := if s.enumValues.Some? then [Leaf(CheckEnum(s.enumValues.value))] else [];
    var y := if s.constValue.Some? then [Leaf(CheckConst(s.constValue.value))] else [];
    NoPart(sub);
    if s.enumValues.Some? {
      OneLeaf(CheckEnum(s.enumValues.value));
      EmitPart([Test(CheckEnum(s.enumValues.value))], sub);
    }
    if s.constValue.Some? {
      OneLeaf(CheckConst(s.constValue.value));
      EmitPart([Test(CheckConst(s.constValue.value))], sub);
    }
    CheckPart(s.readOnly, CheckReadOnly, sub);
    CheckPart(s.writeOnly, CheckWriteOnly, sub);
    TreesConcat(a, b, sub, true, true, x, y);
    TreesConcat(a + b, c, sub, true, true, x + y, z);
    TreesConcat(a + b + c, CheckIf(s.writeOnly, CheckWriteOnly), sub, true, true, x + y + z,
                When(s.writeOnly, CheckWriteOnly));
  }

  // ----- schemas -----

  predicate ValueOk(cfg: Config, s: Schema) {
    && (s.str.pattern.Some? && cfg.hasRegex ==> cfg.compiles(s.str.pattern.value))
    && AllCompilable(cfg, s.arr.prefixItems) && CompilableOpt(cfg, s.arr.items)
  }

  lemma ValuePart(cfg: Config, s: Node, sub: Id -> Schema)
    ensures Part(ValueActions(cfg, s), TreeCalls(cfg, sub), ValueOk(cfg, SchemaOf(s, sub)),
                 FlatSeq(LowerValue(cfg, SchemaOf(s, sub))))
  {
    hide Part, FlatSeq, CheckIf, When, StringActions, NumberActions, ArrayActions, LowerString, LowerNumber, LowerArray,
      AllCompilable, CompilableOpt, Links, Link, TreeCalls, ObjectOf, CompositionOf, ConditionalOf;
    var calls, t := TreeCalls(cfg, sub), SchemaOf(s, sub);
    var mask := MaskOf(s);
    var ok := s.str.pattern.Some? && cfg.hasRegex ==> cfg.compiles(s.str.pattern.value);
    var x, y := When(mask != 0, CheckType(mask)), LowerString(cfg, s.str);
    var a, b := CheckIf(mask != 0, CheckType(mask)), StringActions(cfg, s.str);
    CheckPart(mask != 0, CheckType(mask), calls);
    StringPart(cfg, s.str, calls);
    NumberPart(s.num, calls);
    ArrayPart(cfg, s.arr, sub);
    TreesConcat(a, b, calls, true, ok, x, y);
    TreesConcat(a + b, NumberActions(s.num), calls, ok, true, x + y, LowerNumber(s.num));
    TreesConcat(a + b + NumberActions(s.num), ArrayActions(s.arr), calls, ok,
                AllCompilable(cfg, t.arr.prefixItems) && CompilableOpt(cfg, t.arr.items),
                x + y + LowerNumber(s.num), LowerArray(cfg, t.arr));
  }

  /** The actions for a node give what the tree compiler gives for the schema it stands for. */
  lemma NodePart(cfg: Config, s: Node, sub: Id -> Schema)
    ensures Eval(Actions(cfg, s), TreeCalls(cfg, sub)) == TreeResult(cfg, SchemaOf(s, sub))
  {
    var calls, t := TreeCalls(cfg, sub), SchemaOf(s, sub);
    if s.refResolved.Some? {
      hide Eval, FlatSeq;
      DescendPart(s.refResolved.value, calls);
    } else if s.ref.None? {
      KeywordsPart(cfg, s, sub);
      hide *;
      NodeCode(cfg, s, t);
      PartMeans(Actions(cfg, s), calls, Compilable(cfg, t), FlatSeq(Lower(cfg, t)), cfg, t);
    }
  }

  lemma PartMeans(actions: seq<Action>, calls: Id -> Outcome, ok: bool, code: Code, cfg: Config, t: Schema)
    requires Part(actions, calls, ok, code) && ok == Compilable(cfg, t) && code == FlatSeq(Lower(cfg, t))
    ensures Eval(actions, calls) == TreeResult(cfg, t)
  {
  }

  lemma NodeCode(cfg: Config, s: Node, t: Schema)
    requires s.refResolved.None? && s.ref.None?
    ensures Actions(cfg, s) == KeywordActions(cfg, s)
  {
    hide ValueActions, ObjectActions, ContainsActions, CompositionActions, ConditionalActions, AnnotationActions;
  }

  function KeywordActions(cfg: Config, s: Node): seq<Action> {
    ValueActions(cfg, s) + ObjectActions(cfg, s.obj) + ContainsActions(s.arr) + CompositionActions(s.comp, s.disc)
    + ConditionalActions(s.cond) + AnnotationActions(s)
  }

  lemma KeywordsPart(cfg: Config, s: Node, sub: Id -> Schema)
    requires s.refResolved.None? && s.ref.None?
    ensures Part(KeywordActions(cfg, s), TreeCalls(cfg, sub), Compilable(cfg, SchemaOf(s, sub)),
                 FlatSeq(Lower(cfg, SchemaOf(s, sub))))
  {
    var calls, t := TreeCalls(cfg, sub), SchemaOf(s, sub);
    SchemaConjuncts(cfg, t);
    SchemaCode(cfg, t);
    AnnotationsPart(s, t, calls);
    hide Part, FlatSeq, Lower, Compilable, ValueOk, ObjectCompilable, CompilableOpt, CompositionCompilable,
      ConditionalCompilable, LowerValue, LowerObject, LowerContains, LowerComposition, LowerConditional,
      LowerAnnotations, ValueActions, ObjectActions, ContainsActions, CompositionActions, ConditionalActions,
      AnnotationActions, ArrayOf, ObjectOf, CompositionOf, ConditionalOf, TreeCalls;
    var a, b, c := ValueActions(cfg, s), ObjectActions(cfg, s.obj), ContainsActions(s.arr);
    var d, f := CompositionActions(s.comp, s.disc), ConditionalActions(s.cond);
    var x, y, z := LowerValue(cfg, t), LowerObject(cfg, t.obj), LowerContains(cfg, t.arr);
    var w, u := LowerComposition(cfg, t.comp, t.disc), LowerConditional(cfg, t.cond);
    var p, q, r := ValueOk(cfg, t), ObjectCompilable(cfg, t.obj), CompilableOpt(cfg, t.arr.contains);
    var v := CompositionCompilable(cfg, t.comp, t.disc);
    ContainsLink(s.arr, sub);
    ValuePart(cfg, s, sub);
    ObjectPart(cfg, s.obj, sub);
    ContainsPart(cfg, s.arr, sub);
    CompositionPart(cfg, s.comp, s.disc, sub);
    ConditionalPart(cfg, s.cond, sub);
    TreesConcat(a, b, calls, p, q, x, y);
    TreesConcat(a + b, c, calls, p && q, r, x + y, z);
    TreesConcat(a + b + c, d, calls, p && q && r, v, x + y + z, w);
    TreesConcat(a + b + c + d, f, calls, p && q && r && v, ConditionalCompilable(cfg, t.cond), x + y + z + w, u);
    TreesConcat(a + b + c + d + f, AnnotationActions(s), calls, p && q && r && v && ConditionalCompilable(cfg, t.cond),
                true, x + y + z + w + u, LowerAnnotations(t));
  }

  lemma ContainsLink(r: ArrayNode, sub: Id -> Schema)
    ensures ArrayOf(r, sub).contains == Link(r.contains, sub)
  {
  }

  lemma SchemaConjuncts(cfg: Config, t: Schema)
    requires t.refResolved.None? && t.ref.None?
    ensures Compilable(cfg, t) <==>
      && ValueOk(cfg, t) && ObjectCompilable(cfg, t.obj) && CompilableOpt(cfg, t.arr.contains)
      && CompositionCompilable(cfg, t.comp, t.disc) && ConditionalCompilable(cfg, t.cond)
  {
    hide AllCompilable, CompilableOpt, ObjectCompilable, CompositionCompilable, ConditionalCompilable;
  }

  lemma SchemaCode(cfg: Config, t: Schema)
    requires t.refResolved.None?
    ensures Lower(cfg, t) ==
      LowerValue(cfg, t) + LowerObject(cfg, t.obj) + LowerContains(cfg, t.arr)
      + LowerComposition(cfg, t.comp, t.disc) + LowerConditional(cfg, t.cond) + LowerAnnotations(t)
  {
    hide LowerValue, LowerObject, LowerContains, LowerComposition, LowerConditional, LowerAnnotations;
  }

  // ----- the theorem -----

  /** Where compiling the schema in memory ends, it fails exactly if the tree it unfolds to is not
      compilable, and otherwise emits the code of that tree. */
  lemma {:induction false} CompileIsTree(cfg: Config, h: Heap, id: Id, fuel: nat)
    requires Compile(cfg, h, id, fuel) != Endless
    ensures Compile(cfg, h, id, fuel) == TreeResult(cfg, Unfold(h, id, fuel))
    decreases fuel
  {
    hide Actions, Eval, TreeResult, SchemaOf;
    var calls, sub := Calls(cfg, h, fuel - 1), Unfolded(h, fuel - 1);
    forall j | calls(j) != Endless ensures TreeCalls(cfg, sub)(j) == calls(j) {
      CompileIsTree(cfg, h, j, fuel - 1);
    }
    EvalAgrees(Actions(cfg, h[id]), calls, TreeCalls(cfg, sub));
    NodePart(cfg, h[id], sub);
  }

  /** Unless it runs into a cycle, compiling a schema in memory is compiling the tree it unfolds to in as
      many levels as there are schemas; deeper unfolding makes no difference. */
  lemma CompiledTree(cfg: Config, h: Heap, id: Id, fuel: nat)
    requires Guarded(cfg, h, id, {}) != Endless && fuel >= |h|
    ensures Compile(cfg, h, id, fuel) == TreeResult(cfg, Unfold(h, id, |h|)) == TreeResult(cfg, Unfold(h, id, fuel))
  {
    hide Compile, Guarded, TreeResult, Unfold;
    CompilationEnds(cfg, h, id);
    CompileIsTree(cfg, h, id, |h|);
    CompileIsTree(cfg, h, id, fuel);
  }
}
