/** Schemas as they lie in memory, where links may form cycles: when the compiler ends. */
module SchemaGraph {
  import opened Json
  import opened Schemas
  import opened Instructions
  import opened Trees
  import opened Compiler

  // ----- schema nodes -----

  /** Schemas refer to each other by number. */
  type Id = nat

  /** The fields of a schema that `compile_schema` reads, with numbers for its pointers. */
  datatype Node = Node(
    ref: Option<string>, refResolved: Option<Id>, typeMask: bv8, nullable: bool,
    str: StringRules, num: NumberRules, arr: ArrayNode, obj: ObjectNode, comp: CompositionNode, cond: ConditionalNode,
    constValue: Option<Value>, enumValues: Option<Value>, readOnly: bool, writeOnly: bool, disc: Discriminator)

  datatype ArrayNode = ArrayNode(
    items: Option<Id>, prefixItems: seq<Option<Id>>, minItems: int, maxItems: int, uniqueItems: bool,
    contains: Option<Id>, minContains: int, maxContains: int)

  datatype ObjectNode = ObjectNode(
    properties: seq<PropertyLink>, required: seq<string>, additional: Option<Id>, additionalIsBool: bool,
    minProperties: int, maxProperties: int, propertyNames: Option<Id>, patternProperties: seq<OptionalLink>,
    dependentRequired: seq<DependentRequired>, dependentSchemas: seq<OptionalLink>)

  datatype PropertyLink = PropertyLink(name: string, schema: Id)

  /** An entry of patternProperties or dependentSchemas. */
  datatype OptionalLink = OptionalLink(name: string, schema: Option<Id>)

  datatype CompositionNode = CompositionNode(
    allOf: seq<Option<Id>>, anyOf: seq<Option<Id>>, oneOf: seq<Option<Id>>, notSchema: Option<Id>)

  datatype ConditionalNode = ConditionalNode(ifSchema: Option<Id>, thenSchema: Option<Id>, elseSchema: Option<Id>)

  type Heap = seq<Node>

  // ----- what compile_schema does with a node, in order -----

  datatype Action = Emit(code: Code) | Fail | Descend(id: Id)

  function CheckIf(condition: bool, check: Check): seq<Action> {
    if condition then [Emit([Test(check)])] else []
  }

  function CheckIfSome(o: Option<real>, make: real -> Check): seq<Action> {
    if o.Some? then [Emit([Test(make(o.value))])] else []
  }

  /** A call for a null pointer returns at once. */
  function Sub(o: Option<Id>): seq<Action> {
    if o.Some? then [Descend(o.value)] else []
  }

  function Bracketed(open: Code, o: Option<Id>): seq<Action> {
    [Emit(open)] + Sub(o) + [Emit([End])]
  }

  function Nested(opener: Opener, o: Option<Id>): seq<Action> {
    if o.Some? then Bracketed([Open(opener)], o) else []
  }

  /** A pattern that the regex backend rejects ends compilation. */
  function PatternActions(cfg: Config, o: Option<string>): seq<Action> {
    if o.None? || !cfg.hasRegex then []
    else if cfg.compiles(o.value) then [Emit([Test(CheckPattern(o.value))])] else [Fail]
  }

  function StringActions(cfg: Config, r: StringRules): seq<Action> {
    CheckIf(r.minLength >= 0, CheckMinLen(r.minLength))
    + CheckIf(r.maxLength >= 0, CheckMaxLen(r.maxLength))
    + PatternActions(cfg, r.pattern)
    + (if r.format.Some? then CheckIf(ChecksFormat(cfg, r.format.value), CheckFormat(r.format.value)) else [])
  }

  function NumberActions(r: NumberRules): seq<Action> {
    CheckIfSome(r.minimum, x => CheckMinimum(x))
    + CheckIfSome(r.maximum, x => CheckMaximum(x))
    + CheckIfSome(r.exclusiveMinimum, x => CheckExMinimum(x))
    + CheckIfSome(r.exclusiveMaximum, x => CheckExMaximum(x))
    + CheckIfSome(r.multipleOf, x => CheckMultipleOf(x))
  }

  function PrefixActions(os: seq<Option<Id>>): seq<Action> {
    if os == [] then []
    else
      var n := |os| - 1;
      PrefixActions(os[..n]) + Bracketed([Open(EnterPrefixItem(n % 0x1_0000))], os[n])
  }

  function ArrayActions(r: ArrayNode): seq<Action> {
    CheckIf(r.minItems >= 0, CheckMinItems(r.minItems))
    + CheckIf(r.maxItems >= 0, CheckMaxItems(r.maxItems))
    + CheckIf(r.uniqueItems, CheckUnique)
    + PrefixActions(r.prefixItems)
    + Nested(EnterItems, r.items)
  }

  function RequiredActions(names: seq<string>): seq<Action> {
    if names == [] then []
    else RequiredActions(names[..|names| - 1]) + [Emit([Test(CheckRequired(names[|names| - 1]))])]
  }

  function PropertyActions(ps: seq<PropertyLink>): seq<Action> {
    if ps == [] then []
    else
      var n := |ps| - 1;
      PropertyActions(ps[..n]) + Bracketed([Open(EnterProperty(ps[n].name))], Some(ps[n].schema))
  }

  function PatternAction(cfg: Config, p: OptionalLink): seq<Action> {
    if p.schema.None? || !cfg.hasRegex then []
    else if !cfg.compiles(p.name) then [Fail]
    else Bracketed([Open(CheckPatternProps(p.name))], p.schema)
  }

  function PatternsActions(cfg: Config, ps: seq<OptionalLink>): seq<Action> {
    if ps == [] then [] else PatternAction(cfg, ps[0]) + PatternsActions(cfg, ps[1..])
  }

  function RequirementActions(ds: seq<DependentRequired>): seq<Action> {
    if ds == [] then []
    else
      var n := |ds| - 1;
      RequirementActions(ds[..n])
      + [Emit([DepRequired(ds[n].property), NopCount(|ds[n].required|)] + NameCode(ds[n].required))]
  }

  function DependentActions(ds: seq<OptionalLink>): seq<Action> {
    if ds == [] then [] else Nested(CheckDepSchema(ds[0].name), ds[0].schema) + DependentActions(ds[1..])
  }

  function ObjectActions(cfg: Config, r: ObjectNode): seq<Action> {
    MemberActions(r)
    + Nested(CheckPropNames, r.propertyNames)
    + PatternsActions(cfg, r.patternProperties)
    + RequirementActions(r.dependentRequired)
    + DependentActions(r.dependentSchemas)
  }

  function MemberActions(r: ObjectNode): seq<Action> {
    RequiredActions(r.required)
    + PropertyActions(r.properties)
    + Nested(EnterAdditional, r.additional)
    + CheckIf(r.minProperties >= 0, CheckMinProps(r.minProperties))
    + CheckIf(r.maxProperties >= 0, CheckMaxProps(r.maxProperties))
  }

  function ContainsActions(r: ArrayNode): seq<Action> {
    if r.contains.None? then []
    else
      Bracketed([Contains(if r.minContains >= 0 then r.minContains else 1), NopCount(r.maxContains)], r.contains)
  }

  /** The bodies of a branch list, each closed by END. */
  function BranchActions(os: seq<Option<Id>>): seq<Action> {
    if os == [] then [] else Sub(os[0]) + [Emit([End])] + BranchActions(os[1..])
  }

  function ForkActions(kind: BranchKind, os: seq<Option<Id>>): seq<Action> {
    if os == [] then [] else [Emit([Branch(kind, |os| % 0x1_0000)])] + BranchActions(os)
  }

  /** Branches whose number differs from that of the mapping are not compiled. */
  function PickActions(os: seq<Option<Id>>, d: Discriminator): seq<Action>
    requires d.property.Some?
  {
    if |os| != |d.mapping| then []
    else
      [Emit([Dispatch(d.property.value), NopCount(|d.mapping|)] + NameCode(Keys(d.mapping)))] + BranchActions(os)
  }

  function AlternativeActions(c: CompositionNode, d: Discriminator): seq<Action> {
    if HasDiscriminator(d) then
      if c.oneOf != [] then PickActions(c.oneOf, d)
      else if c.anyOf != [] then PickActions(c.anyOf, d) else []
    else ForkActions(AnyOf, c.anyOf) + ForkActions(OneOf, c.oneOf)
  }

  function CompositionActions(c: CompositionNode, d: Discriminator): seq<Action> {
    ForkActions(AllOf, c.allOf) + AlternativeActions(c, d) + Nested(Negate, c.notSchema)
  }

  /** Without an if, then and else are not looked at. */
  function ConditionalActions(c: ConditionalNode): seq<Action> {
    if c.ifSchema.None? then []
    else Nested(CondIf, c.ifSchema) + Nested(CondThen, c.thenSchema) + Nested(CondElse, c.elseSchema)
  }

  function AnnotationActions(s: Node): seq<Action> {
    (if s.enumValues.Some? then [Emit([Test(CheckEnum(s.enumValues.value))])] else [])
    + (if s.constValue.Some? then [Emit([Test(CheckConst(s.constValue.value))])] else [])
    + CheckIf(s.readOnly, CheckReadOnly)
    + CheckIf(s.writeOnly, CheckWriteOnly)
  }

  function MaskOf(s: Node): bv8 {
    if s.nullable && s.typeMask != 0 then s.typeMask | 0x01 else s.typeMask
  }

  /** A resolved reference is followed, and nothing else; one that is not resolved fails. */
  function Actions(cfg: Config, s: Node): seq<Action> {
    if s.refResolved.Some? then [Descend(s.refResolved.value)]
    else if s.ref.Some? then [Fail]
    else
      ValueActions(cfg, s)
      + ObjectActions(cfg, s.obj)
      + ContainsActions(s.arr)
      + CompositionActions(s.comp, s.disc)
      + ConditionalActions(s.cond)
      + AnnotationActions(s)
  }

  function ValueActions(cfg: Config, s: Node): seq<Action> {
    CheckIf(MaskOf(s) != 0, CheckType(MaskOf(s)))
    + StringActions(cfg, s.str)
    + NumberActions(s.num)
    + ArrayActions(s.arr)
  }

  // ----- compiling -----

  datatype Outcome = Emitted(code: Code) | Failed | Endless

  /** The first failure ends the whole compilation. */
  function Then(a: Outcome, b: Outcome): Outcome {
    if !a.Emitted? then a else if b.Emitted? then Emitted(a.code + b.code) else b
  }

  /** Taking actions in order, with `sub` for the calls. */
  function Eval(actions: seq<Action>, sub: Id -> Outcome): Outcome {
    if actions == [] then Emitted([])
    else
      match actions[0]
      case Emit(code) => Then(Emitted(code), Eval(actions[1..], sub))
      case Fail => Failed
      case Descend(id) => Then(sub(id), Eval(actions[1..], sub))
  }

  /** `compile_schema` with room for `fuel` nested calls; without room there is no result. */
  function Compile(cfg: Config, h: Heap, id: Id, fuel: nat): Outcome
    decreases fuel, 0
  {
    if fuel == 0 || id >= |h| then Endless else Eval(Actions(cfg, h[id]), Calls(cfg, h, fuel - 1))
  }

  function Calls(cfg: Config, h: Heap, fuel: nat): Id -> Outcome
    decreases fuel, 1
  {
    (id: Id) => Compile(cfg, h, id, fuel)
  }

  // ----- a search that always ends -----

  function Unopened(h: Heap, open: set<Id>): set<Id> {
    set i: Id | 0 <= i < |h| && i !in open
  }

  /** The same walk, stopped where it would enter a schema that is still being compiled. */
  function Guarded(cfg: Config, h: Heap, id: Id, open: set<Id>): Outcome
    decreases Unopened(h, open), 0
  {
    if id in open || id >= |h| then Endless
    else
      assert id in Unopened(h, open) && id !in Unopened(h, open + {id});
      Eval(Actions(cfg, h[id]), GuardedCalls(cfg, h, open + {id}))
  }

  function GuardedCalls(cfg: Config, h: Heap, open: set<Id>): Id -> Outcome
    decreases Unopened(h, open), 1
  {
    (id: Id) => Guarded(cfg, h, id, open)
  }

  lemma OneLess(h: Heap, open: set<Id>, id: Id)
    requires id < |h| && id !in open
    ensures |Unopened(h, open + {id})| + 1 == |Unopened(h, open)|
  {
    assert Unopened(h, open) == Unopened(h, open + {id}) + {id};
  }

  lemma {:induction false} AllUnopened(h: Heap)
    ensures |Unopened(h, {})| == |h|
    decreases |h|
  {
    if h != [] {
      var front := h[..|h| - 1];
      AllUnopened(front);
      assert Unopened(h, {}) == Unopened(front, {}) + {|h| - 1};
    } else {
      assert Unopened(h, {}) == {};
    }
  }

  // ----- evaluation under different calls -----

  lemma {:induction false} EvalAgrees(actions: seq<Action>, a: Id -> Outcome, b: Id -> Outcome)
    requires forall id :: a(id) != Endless ==> b(id) == a(id)
    ensures Eval(actions, a) != Endless ==> Eval(actions, b) == Eval(actions, a)
    decreases |actions|
  {
    if actions != [] { EvalAgrees(actions[1..], a, b); }
  }

  lemma {:induction false} EvalStuck(actions: seq<Action>, a: Id -> Outcome, b: Id -> Outcome)
    requires forall id :: b(id) == Endless || (a(id) != Endless && b(id) == a(id))
    ensures Eval(actions, a) == Endless ==> Eval(actions, b) == Endless
    decreases |actions|
  {
    if actions != [] { EvalStuck(actions[1..], a, b); }
  }

  /** More room does not change a result. */
  lemma {:induction false} MoreFuel(cfg: Config, h: Heap, id: Id, fuel: nat, more: nat)
    requires fuel <= more && Compile(cfg, h, id, fuel) != Endless
    ensures Compile(cfg, h, id, more) == Compile(cfg, h, id, fuel)
    decreases fuel
  {
    hide Actions, Eval;
    var a, b := Calls(cfg, h, fuel - 1), Calls(cfg, h, more - 1);
    forall j | a(j) != Endless ensures b(j) == a(j) {
      MoreFuel(cfg, h, j, fuel - 1, more - 1);
    }
    EvalAgrees(Actions(cfg, h[id]), a, b);
  }

  /** Where the guarded walk ends, so does the compiler, with the same result. */
  lemma {:induction false} GuardedAgrees(cfg: Config, h: Heap, id: Id, open: set<Id>, fuel: nat)
    requires Guarded(cfg, h, id, open) != Endless && |Unopened(h, open)| <= fuel
    ensures Compile(cfg, h, id, fuel) == Guarded(cfg, h, id, open)
    decreases fuel
  {
    hide Actions, Eval, Unopened;
    OneLess(h, open, id);
    var a, b := GuardedCalls(cfg, h, open + {id}), Calls(cfg, h, fuel - 1);
    forall j | a(j) != Endless ensures b(j) == a(j) {
      GuardedAgrees(cfg, h, j, open + {id}, fuel - 1);
    }
    EvalAgrees(Actions(cfg, h[id]), a, b);
  }

  /** Where it does not, the compiler has no result for any room. */
  lemma {:induction false} Stuck(cfg: Config, h: Heap, id: Id, open: set<Id>, fuel: nat)
    requires Guarded(cfg, h, id, open) == Endless
    requires forall x | x in open :: Compile(cfg, h, x, fuel) == Endless
    ensures Compile(cfg, h, id, fuel) == Endless
    decreases fuel
  {
    hide Actions, Eval, Unopened;
    if fuel > 0 && id < |h| && id !in open {
      forall x | x in open ensures Compile(cfg, h, x, fuel - 1) == Endless {
        if Compile(cfg, h, x, fuel - 1) != Endless { MoreFuel(cfg, h, x, fuel - 1, fuel); }
      }
      Stuck(cfg, h, id, open, fuel - 1);
      var inner := open + {id};
      var a, b := GuardedCalls(cfg, h, inner), Calls(cfg, h, fuel - 1);
      forall j ensures b(j) == Endless || (a(j) != Endless && b(j) == a(j)) {
        if a(j) == Endless {
          Stuck(cfg, h, j, inner, fuel - 1);
        } else if b(j) != Endless {
          var enough := fuel + |Unopened(h, inner)|;
          GuardedAgrees(cfg, h, j, inner, enough);
          MoreFuel(cfg, h, j, fuel - 1, enough);
        }
      }
      EvalStuck(Actions(cfg, h[id]), a, b);
    }
  }

  /** Compilation of a schema ends if and only if it never enters one that it is still compiling; the
      guarded walk, which always ends, decides that and gives the result. No more calls are nested then
      than there are schemas. */
  lemma CompilationEnds(cfg: Config, h: Heap, id: Id)
    ensures (exists fuel: nat :: Compile(cfg, h, id, fuel) != Endless) <==> Guarded(cfg, h, id, {}) != Endless
    ensures Guarded(cfg, h, id, {}) != Endless ==>
      forall fuel: nat | fuel >= |h| :: Compile(cfg, h, id, fuel) == Guarded(cfg, h, id, {})
  {
    hide Actions, Eval, Compile, Guarded, Unopened;
    AllUnopened(h);
    if Guarded(cfg, h, id, {}) != Endless {
      forall fuel: nat | fuel >= |h| ensures Compile(cfg, h, id, fuel) == Guarded(cfg, h, id, {}) {
        GuardedAgrees(cfg, h, id, {}, fuel);
      }
      assert Compile(cfg, h, id, |h|) != Endless;
    } else {
      forall fuel: nat ensures Compile(cfg, h, id, fuel) == Endless {
        Stuck(cfg, h, id, {}, fuel);
      }
    }
  }

  // ----- cycles -----

  /** The compiler gets through the schema. */
  ghost predicate Compiles(cfg: Config, h: Heap, id: Id) {
    exists fuel: nat :: Compile(cfg, h, id, fuel).Emitted?
  }

  /** Nothing in front of the action fails or stays without result. */
  ghost predicate Passed(cfg: Config, h: Heap, actions: seq<Action>) {
    forall i | 0 <= i < |actions| :: actions[i].Emit? || (actions[i].Descend? && Compiles(cfg, h, actions[i].id))
  }

  ghost predicate DescendsAt(cfg: Config, h: Heap, actions: seq<Action>, i: nat, id: Id) {
    i < |actions| && actions[i] == Descend(id) && Passed(cfg, h, actions[..i])
  }

  /** Compiling `from` gets to the call for `to`. */
  ghost predicate Enters(cfg: Config, h: Heap, from: Id, to: Id) {
    from < |h| && exists i: nat :: DescendsAt(cfg, h, Actions(cfg, h[from]), i, to)
  }

  /** Each schema is entered while the one before it is compiled. */
  ghost predicate CallPath(cfg: Config, h: Heap, p: seq<Id>) {
    p != [] && forall i | 0 < i < |p| :: Enters(cfg, h, p[i - 1], p[i])
  }

  /** Nested calls that come back to a schema that is still being compiled. */
  ghost predicate CallCycle(cfg: Config, h: Heap, p: seq<Id>) {
    CallPath(cfg, h, p) && p[|p| - 1] in p[..|p| - 1]
  }

  /** Every link leads to a schema. */
  ghost predicate Closed(cfg: Config, h: Heap) {
    forall i, a | 0 <= i < |h| && a in Actions(cfg, h[i]) :: a.Descend? ==> a.id < |h|
  }

  lemma {:induction false} EndlessAt(actions: seq<Action>, sub: Id -> Outcome) returns (i: nat)
    requires Eval(actions, sub) == Endless
    ensures i < |actions| && actions[i].Descend? && sub(actions[i].id) == Endless
    ensures forall k | 0 <= k < i :: actions[k].Emit? || (actions[k].Descend? && sub(actions[k].id).Emitted?)
    decreases |actions|
  {
    if actions[0].Descend? && sub(actions[0].id) == Endless {
      i := 0;
    } else {
      var k := EndlessAt(actions[1..], sub);
      i := k + 1;
    }
  }

  lemma {:induction false} FindCycle(cfg: Config, h: Heap, id: Id, open: set<Id>) returns (p: seq<Id>)
    requires Closed(cfg, h) && id < |h| && Guarded(cfg, h, id, open) == Endless
    ensures CallPath(cfg, h, p) && p[0] == id
    ensures p[|p| - 1] in open || p[|p| - 1] in p[..|p| - 1]
    decreases |Unopened(h, open)|
  {
    hide Actions, Eval, Unopened;
    if id in open {
      p := [id];
    } else {
      var inner := open + {id};
      OneLess(h, open, id);
      var i := EndlessAt(Actions(cfg, h[id]), GuardedCalls(cfg, h, inner));
      var actions := Actions(cfg, h[id]);
      forall k | 0 <= k < i ensures actions[k].Emit? || (actions[k].Descend? && Compiles(cfg, h, actions[k].id)) {
        if actions[k].Descend? {
          GuardedAgrees(cfg, h, actions[k].id, inner, |Unopened(h, inner)|);
        }
      }
      assert DescendsAt(cfg, h, actions, i, actions[i].id);
      var q := FindCycle(cfg, h, actions[i].id, inner);
      p := [id] + q;
      FrontOf(cfg, h, id, q);
    }
  }

  lemma FrontOf(cfg: Config, h: Heap, id: Id, q: seq<Id>)
    requires CallPath(cfg, h, q) && Enters(cfg, h, id, q[0])
    ensures var p := [id] + q;
      CallPath(cfg, h, p) && p[|p| - 1] == q[|q| - 1] && p[..|p| - 1] == [id] + q[..|q| - 1]
  {
    hide Enters;
    var p := [id] + q;
    forall i | 0 < i < |p| ensures Enters(cfg, h, p[i - 1], p[i]) {
      if i > 1 { assert p[i] == q[i - 1] && p[i - 1] == q[i - 2]; }
    }
  }

  lemma {:induction false} EvalGetsTo(actions: seq<Action>, sub: Id -> Outcome, i: nat)
    requires i < |actions| && actions[i].Descend? && Eval(actions, sub) != Endless
    requires forall k | 0 <= k < i :: actions[k].Emit? || (actions[k].Descend? && sub(actions[k].id) != Failed)
    ensures sub(actions[i].id) != Endless
    decreases i
  {
    if i > 0 {
      assert actions[0].Emit? || (actions[0].Descend? && sub(actions[0].id) != Failed);
      assert forall k | 0 <= k < i - 1 :: actions[1..][k] == actions[k + 1];
      EvalGetsTo(actions[1..], sub, i - 1);
    }
  }

  lemma NeverFails(cfg: Config, h: Heap, id: Id, fuel: nat)
    requires Compiles(cfg, h, id)
    ensures Compile(cfg, h, id, fuel) != Failed
  {
    hide Compile;
    var enough: nat :| Compile(cfg, h, id, enough).Emitted?;
    if Compile(cfg, h, id, fuel) == Failed {
      if fuel <= enough { MoreFuel(cfg, h, id, fuel, enough); } else { MoreFuel(cfg, h, id, enough, fuel); }
    }
  }

  /** A call that is got to has a result within less room. */
  lemma StepDown(cfg: Config, h: Heap, from: Id, to: Id, fuel: nat)
    requires Enters(cfg, h, from, to) && Compile(cfg, h, from, fuel) != Endless
    ensures fuel > 0 && Compile(cfg, h, to, fuel - 1) != Endless
  {
    hide Actions, Eval;
    var actions, sub := Actions(cfg, h[from]), Calls(cfg, h, fuel - 1);
    var i: nat :| DescendsAt(cfg, h, actions, i, to);
    forall k | 0 <= k < i ensures actions[k].Emit? || (actions[k].Descend? && sub(actions[k].id) != Failed) {
      assert actions[..i][k] == actions[k];
      if actions[k].Descend? { NeverFails(cfg, h, actions[k].id, fuel - 1); }
    }
    EvalGetsTo(actions, sub, i);
  }

  lemma {:induction false} Along(cfg: Config, h: Heap, p: seq<Id>, k: nat, fuel: nat)
    requires CallPath(cfg, h, p) && k < |p| && Compile(cfg, h, p[0], fuel) != Endless
    ensures k <= fuel && Compile(cfg, h, p[k], fuel - k) != Endless
    decreases k
  {
    hide Enters, Compile;
    if k > 0 {
      Along(cfg, h, p, k - 1, fuel);
      StepDown(cfg, h, p[k - 1], p[k], fuel - (k - 1));
    }
  }

  /** From a cycle of calls there is no way out: with enough room to end there would be enough with less. */
  lemma {:induction false} CycleIsEndless(cfg: Config, h: Heap, p: seq<Id>, i: nat, fuel: nat)
    requires CallPath(cfg, h, p) && i < |p| - 1 && p[i] == p[|p| - 1]
    ensures Compile(cfg, h, p[i], fuel) == Endless
    decreases fuel
  {
    hide Compile, Enters;
    if Compile(cfg, h, p[i], fuel) != Endless {
      var c, n := p[i..], |p| - 1 - i;
      forall k | 0 < k < |c| ensures Enters(cfg, h, c[k - 1], c[k]) {
        assert c[k] == p[i + k] && c[k - 1] == p[i + k - 1];
      }
      Along(cfg, h, c, n, fuel);
      CycleIsEndless(cfg, h, p, i, fuel - n);
    }
  }

  lemma CycleNeverEnds(cfg: Config, h: Heap, p: seq<Id>, fuel: nat)
    requires CallCycle(cfg, h, p)
    ensures p != [] && Compile(cfg, h, p[0], fuel) == Endless
  {
    hide Compile, Enters;
    var i: nat :| i < |p| - 1 && p[..|p| - 1][i] == p[|p| - 1];
    if Compile(cfg, h, p[0], fuel) != Endless {
      Along(cfg, h, p, i, fuel);
      CycleIsEndless(cfg, h, p, i, fuel - i);
    }
  }

  /** A cycle of calls that starts with `id`. */
  ghost predicate RunsIntoCycle(cfg: Config, h: Heap, id: Id) {
    exists p :: CallCycle(cfg, h, p) && p[0] == id
  }

  /** Compilation ends exactly when it does not get, before any failure, into a cycle of calls. */
  lemma EndsWithoutCycle(cfg: Config, h: Heap, id: Id)
    requires Closed(cfg, h) && id < |h|
    ensures (exists fuel: nat :: Compile(cfg, h, id, fuel) != Endless) <==> !RunsIntoCycle(cfg, h, id)
  {
    hide Compile, Guarded, Enters, Closed, CallCycle;
    CompilationEnds(cfg, h, id);
    if Guarded(cfg, h, id, {}) == Endless {
      var p := FindCycle(cfg, h, id, {});
      CycleFound(cfg, h, p);
    } else {
      forall p | CallCycle(cfg, h, p) ensures p != [] && p[0] != id {
        CycleNeverEnds(cfg, h, p, |h|);
      }
    }
  }

  lemma CycleFound(cfg: Config, h: Heap, p: seq<Id>)
    requires CallPath(cfg, h, p) && p[|p| - 1] in p[..|p| - 1]
    ensures CallCycle(cfg, h, p)
  {
  }

  // ----- the links alone -----

  /** Compiling `from` holds a call for `to`, whether or not it is reached. */
  ghost predicate Links(cfg: Config, h: Heap, from: Id, to: Id) {
    from < |h| && Descend(to) in Actions(cfg, h[from])
  }

  ghost predicate LinkPath(cfg: Config, h: Heap, p: seq<Id>) {
    p != [] && forall i | 0 < i < |p| :: Links(cfg, h, p[i - 1], p[i])
  }

  /** The links lead from `id` back to a schema they have passed. */
  ghost predicate LinksBack(cfg: Config, h: Heap, id: Id) {
    exists p :: LinkPath(cfg, h, p) && p[0] == id && p[|p| - 1] in p[..|p| - 1]
  }

  /** A caller who finds no cycle among the links has a schema whose compilation ends. */
  lemma EndsWithoutLinkCycle(cfg: Config, h: Heap, id: Id)
    requires Closed(cfg, h) && id < |h| && !LinksBack(cfg, h, id)
    ensures Compile(cfg, h, id, |h|) != Endless
  {
    hide Compile, Guarded, Closed, Links, Enters;
    CompilationEnds(cfg, h, id);
    EndsWithoutCycle(cfg, h, id);
    forall p | CallCycle(cfg, h, p) ensures LinkPath(cfg, h, p) {
      forall i | 0 < i < |p| ensures Links(cfg, h, p[i - 1], p[i]) {
        CallIsLink(cfg, h, p[i - 1], p[i]);
      }
    }
  }

  /** Every call listed for a schema is for one with a larger number. */
  ghost predicate Ordered(cfg: Config, h: Heap) {
    forall i, a | 0 <= i < |h| && a in Actions(cfg, h[i]) :: a.Descend? ==> i < a.id < |h|
  }

  lemma {:induction false} PathClimbs(cfg: Config, h: Heap, p: seq<Id>, i: nat, j: nat)
    requires Ordered(cfg, h) && LinkPath(cfg, h, p) && i < j < |p|
    ensures p[i] < p[j]
    decreases j
  {
    hide Actions;
    assert Links(cfg, h, p[j - 1], p[j]);
    if i < j - 1 { PathClimbs(cfg, h, p, i, j - 1); }
  }

  /** Schemas that only lead to later ones have no cycle of links, and their compilation ends. */
  lemma OrderedEnds(cfg: Config, h: Heap, id: Id)
    requires Ordered(cfg, h) && id < |h|
    ensures Closed(cfg, h) && !LinksBack(cfg, h, id) && Compile(cfg, h, id, |h|) != Endless
  {
    hide Actions, Compile, Ordered, LinkPath;
    OrderedCloses(cfg, h);
    forall p | LinkPath(cfg, h, p) ensures p != [] && p[|p| - 1] !in p[..|p| - 1] {
      PathStarts(cfg, h, p);
      forall i | 0 <= i < |p| - 1 ensures p[i] < p[|p| - 1] { PathClimbs(cfg, h, p, i, |p| - 1); }
    }
    EndsWithoutLinkCycle(cfg, h, id);
  }

  lemma OrderedCloses(cfg: Config, h: Heap)
    requires Ordered(cfg, h)
    ensures Closed(cfg, h)
  {
    hide Actions;
  }

  lemma PathStarts(cfg: Config, h: Heap, p: seq<Id>)
    requires LinkPath(cfg, h, p)
    ensures p != []
  {
    hide Links;
  }

  lemma CallIsLink(cfg: Config, h: Heap, from: Id, to: Id)
    requires Enters(cfg, h, from, to)
    ensures Links(cfg, h, from, to)
  {
    hide Actions;
  }

  // ----- instances -----

  function EmptyNode(): Node {
    Node(None, None, 0, false, StringRules(-1, -1, None, None), NumberRules(None, None, None, None, None),
         ArrayNode(None, [], -1, -1, false, None, -1, -1),
         ObjectNode([], [], None, false, -1, -1, None, [], [], []),
         CompositionNode([], [], [], None), ConditionalNode(None, None, None), None, None, false, false,
         Discriminator.Discriminator(None, []))
  }

  function Alias(ref: string, target: Id): Node {
    EmptyNode().(ref := Some(ref), refResolved := Some(target))
  }

  /** Components A and B, each a reference to the other: they are linked, and their compilation never ends. */
  function Mutual(): Heap {
    [Alias("#/components/schemas/B", 1), Alias("#/components/schemas/A", 0)]
  }

  lemma MutualClosed(cfg: Config)
    ensures Closed(cfg, Mutual())
  {
    assert Actions(cfg, Mutual()[0]) == [Descend(1)] && Actions(cfg, Mutual()[1]) == [Descend(0)];
  }

  lemma {:induction false} MutualNeverEnds(cfg: Config, id: Id, fuel: nat)
    requires id < 2
    ensures Compile(cfg, Mutual(), id, fuel) == Endless
    decreases fuel
  {
    if fuel > 0 {
      MutualNeverEnds(cfg, 1 - id, fuel - 1);
      assert Actions(cfg, Mutual()[id]) == [Descend(1 - id)];
      hide Actions, Mutual;
    }
  }

  /** A schema with a property that refers back to it, and a pattern. */
  function Looping(pattern: string): Heap {
    [EmptyNode().(str := StringRules(-1, -1, Some(pattern), None),
                  obj := ObjectNode([PropertyLink("x", 1)], [], None, false, -1, -1, None, [], [], [])),
     Alias("#", 0)]
  }

  /** A pattern that is rejected ends compilation before the cycle is entered. */
  lemma FailureComesFirst(cfg: Config, pattern: string, fuel: nat)
    requires cfg.hasRegex && !cfg.compiles(pattern) && fuel > 0
    ensures Compile(cfg, Looping(pattern), 0, fuel) == Failed
  {
    var s := Looping(pattern)[0];
    assert StringActions(cfg, s.str) == [Fail];
    assert CheckIf(MaskOf(s) != 0, CheckType(MaskOf(s))) == [];
    hide ObjectActions, ContainsActions, CompositionActions, ConditionalActions, AnnotationActions, ArrayActions,
      NumberActions, StringActions;
    assert Actions(cfg, s)[0] == Fail;
  }
}
