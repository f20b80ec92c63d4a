/** The schema compiler: which structured program a schema becomes, and the emitter that appends its
    flat form to a program. */
module Compiler {
  import opened Json
  import opened Schemas
  import opened Instructions
  import opened Trees

  // ----- which schemas compile -----

  /** Every reference is resolved and the regex backend accepts every pattern. */
  predicate Compilable(cfg: Config, s: Schema)
    decreases s
  {
    if s.refResolved.Some? then Compilable(cfg, s.refResolved.value)
    else
      && s.ref.None?
      && (s.str.pattern.Some? && cfg.hasRegex ==> cfg.compiles(s.str.pattern.value))
      && ArrayCompilable(cfg, s.arr)
      && ObjectCompilable(cfg, s.obj)
      && CompositionCompilable(cfg, s.comp, s.disc)
      && ConditionalCompilable(cfg, s.cond)
  }

  predicate CompilableOpt(cfg: Config, o: Option<Schema>)
    decreases o
  {
    o.Some? ==> Compilable(cfg, o.value)
  }

  predicate AllCompilable(cfg: Config, os: seq<Option<Schema>>)
    decreases os
  {
    forall i | 0 <= i < |os| :: CompilableOpt(cfg, os[i])
  }

  predicate ArrayCompilable(cfg: Config, r: ArrayRules)
    decreases r
  {
    AllCompilable(cfg, r.prefixItems) && CompilableOpt(cfg, r.items) && CompilableOpt(cfg, r.contains)
  }

  predicate ObjectCompilable(cfg: Config, r: ObjectRules)
    decreases r
  {
    && (forall i | 0 <= i < |r.properties| :: Compilable(cfg, r.properties[i].schema))
    && CompilableOpt(cfg, r.additional)
    && CompilableOpt(cfg, r.propertyNames)
    && (cfg.hasRegex ==>
          forall i | 0 <= i < |r.patternProperties| :: PatternCompilable(cfg, r.patternProperties[i]))
    && (forall i | 0 <= i < |r.dependentSchemas| :: CompilableOpt(cfg, r.dependentSchemas[i].schema))
  }

  predicate PatternCompilable(cfg: Config, p: PatternProperty)
    decreases p
  {
    p.schema.Some? ==> cfg.compiles(p.pattern) && Compilable(cfg, p.schema.value)
  }

  predicate CompositionCompilable(cfg: Config, c: Composition, d: Discriminator)
    decreases c
  {
    AllCompilable(cfg, c.allOf) && AlternativesCompilable(cfg, c, d) && CompilableOpt(cfg, c.notSchema)
  }

  predicate AlternativesCompilable(cfg: Config, c: Composition, d: Discriminator)
    decreases c, 0
  {
    if HasDiscriminator(d) then
      if c.oneOf != [] then |c.oneOf| == |d.mapping| ==> AllCompilable(cfg, c.oneOf)
      else c.anyOf != [] && |c.anyOf| == |d.mapping| ==> AllCompilable(cfg, c.anyOf)
    else AllCompilable(cfg, c.anyOf) && AllCompilable(cfg, c.oneOf)
  }

  predicate ConditionalCompilable(cfg: Config, c: Conditional)
    decreases c
  {
    c.ifSchema.Some? ==>
      && CompilableOpt(cfg, c.ifSchema) && CompilableOpt(cfg, c.thenSchema) && CompilableOpt(cfg, c.elseSchema)
  }

  // ----- what they become -----

  function When(condition: bool, check: Check): seq<Tree> {
    if condition then [Leaf(check)] else []
  }

  function Lower(cfg: Config, s: Schema): seq<Tree>
    decreases s
  {
    if s.refResolved.Some? then Lower(cfg, s.refResolved.value)
    else
      LowerValue(cfg, s)
      + LowerObject(cfg, s.obj)
      + LowerContains(cfg, s.arr)
      + LowerComposition(cfg, s.comp, s.disc)
      + LowerConditional(cfg, s.cond)
      + LowerAnnotations(s)
  }

  function LowerValue(cfg: Config, s: Schema): seq<Tree>
    decreases s.arr, 1
  {
    When(EffectiveMask(s) != 0, CheckType(EffectiveMask(s)))
    + LowerString(cfg, s.str)
    + LowerNumber(s.num)
    + LowerArray(cfg, s.arr)
  }

  /** A null sub-schema has an empty body. */
  function LowerOpt(cfg: Config, o: Option<Schema>): Block
    decreases o, 0
  {
    Block(if o.Some? then Lower(cfg, o.value) else [])
  }

  function LowerBranches(cfg: Config, os: seq<Option<Schema>>): (bs: seq<Block>)
    ensures |bs| == |os|
    ensures forall i | 0 <= i < |os| :: bs[i] == LowerOpt(cfg, os[i])
    decreases os, 0
  {
    seq(|os|, i requires 0 <= i < |os| => LowerOpt(cfg, os[i]))
  }

  function LowerString(cfg: Config, r: StringRules): seq<Tree> {
    When(r.minLength >= 0, CheckMinLen(r.minLength))
    + When(r.maxLength >= 0, CheckMaxLen(r.maxLength))
    + PatternLeaf(cfg, r.pattern)
    + FormatLeaf(cfg, r.format)
  }

  /** Without a regex backend a pattern is dropped. */
  function PatternLeaf(cfg: Config, o: Option<string>): seq<Tree> {
    if o.Some? then When(cfg.hasRegex, CheckPattern(o.value)) else []
  }

  function FormatLeaf(cfg: Config, o: Option<string>): seq<Tree> {
    if o.Some? then When(ChecksFormat(cfg, o.value), CheckFormat(o.value)) else []
  }

  function WhenSome(o: Option<real>, make: real -> Check): seq<Tree> {
    if o.Some? then [Leaf(make(o.value))] else []
  }

  function LowerNumber(r: NumberRules): seq<Tree> {
    WhenSome(r.minimum, x => CheckMinimum(x))
    + WhenSome(r.maximum, x => CheckMaximum(x))
    + WhenSome(r.exclusiveMinimum, x => CheckExMinimum(x))
    + WhenSome(r.exclusiveMaximum, x => CheckExMaximum(x))
    + WhenSome(r.multipleOf, x => CheckMultipleOf(x))
  }

  function LowerNested(cfg: Config, opener: Opener, o: Option<Schema>): seq<Tree>
    decreases o, 1
  {
    if o.Some? then [Nest(opener, LowerOpt(cfg, o))] else []
  }

  function LowerArray(cfg: Config, r: ArrayRules): seq<Tree>
    decreases r, 0
  {
    When(r.minItems >= 0, CheckMinItems(r.minItems))
    + When(r.maxItems >= 0, CheckMaxItems(r.maxItems))
    + When(r.uniqueItems, CheckUnique)
    + LowerPrefix(cfg, r.prefixItems)
    + LowerNested(cfg, EnterItems, r.items)
  }

  /** The 16-bit index of a prefix item wraps around. */
  function LowerPrefix(cfg: Config, os: seq<Option<Schema>>): (ts: seq<Tree>)
    ensures |ts| == |os|
    ensures forall i | 0 <= i < |os| :: ts[i] == Nest(EnterPrefixItem(i % 0x1_0000), LowerOpt(cfg, os[i]))
    decreases os
  {
    seq(|os|, i requires 0 <= i < |os| => Nest(EnterPrefixItem(i % 0x1_0000), LowerOpt(cfg, os[i])))
  }

  function LowerContains(cfg: Config, r: ArrayRules): seq<Tree>
    decreases r
  {
    if r.contains.Some? then
      [Quota(if r.minContains >= 0 then r.minContains else 1, r.maxContains, LowerOpt(cfg, r.contains))]
    else []
  }

  function LowerRequired(names: seq<string>): (ts: seq<Tree>)
    ensures |ts| == |names| && forall i | 0 <= i < |names| :: ts[i] == Leaf(CheckRequired(names[i]))
  {
    seq(|names|, i requires 0 <= i < |names| => Leaf(CheckRequired(names[i])))
  }

  function LowerProperties(cfg: Config, ps: seq<Property>): (ts: seq<Tree>)
    ensures |ts| == |ps|
    ensures forall i | 0 <= i < |ps| :: ts[i] == Nest(EnterProperty(ps[i].name), Block(Lower(cfg, ps[i].schema)))
    decreases ps
  {
    seq(|ps|, i requires 0 <= i < |ps| => Nest(EnterProperty(ps[i].name), Block(Lower(cfg, ps[i].schema))))
  }

  /** Without a regex backend pattern properties are dropped, with one those without a schema. */
  function LowerPatterns(cfg: Config, ps: seq<PatternProperty>): seq<Tree>
    decreases ps
  {
    if ps == [] then [] else LowerPattern(cfg, ps[0]) + LowerPatterns(cfg, ps[1..])
  }

  function LowerPattern(cfg: Config, p: PatternProperty): seq<Tree>
    decreases p
  {
    if cfg.hasRegex then LowerNested(cfg, CheckPatternProps(p.pattern), p.schema) else []
  }

  function LowerDependentRequired(ds: seq<DependentRequired>): (ts: seq<Tree>)
    ensures |ts| == |ds| && forall i | 0 <= i < |ds| :: ts[i] == Names(ds[i].property, ds[i].required)
  {
    seq(|ds|, i requires 0 <= i < |ds| => Names(ds[i].property, ds[i].required))
  }

  function LowerDependentSchemas(cfg: Config, ds: seq<DependentSchema>): seq<Tree>
    decreases ds
  {
    if ds == [] then []
    else LowerNested(cfg, CheckDepSchema(ds[0].property), ds[0].schema) + LowerDependentSchemas(cfg, ds[1..])
  }

  function LowerObject(cfg: Config, r: ObjectRules): seq<Tree>
    decreases r
  {
    LowerMembers(cfg, r)
    + LowerNested(cfg, CheckPropNames, r.propertyNames)
    + LowerPatterns(cfg, r.patternProperties)
    + LowerDependentRequired(r.dependentRequired)
    + LowerDependentSchemas(cfg, r.dependentSchemas)
  }

  function LowerMembers(cfg: Config, r: ObjectRules): seq<Tree>
    decreases r, 1
  {
    LowerRequired(r.required)
    + LowerProperties(cfg, r.properties)
    + LowerNested(cfg, EnterAdditional, r.additional)
    + When(r.minProperties >= 0, CheckMinProps(r.minProperties))
    + When(r.maxProperties >= 0, CheckMaxProps(r.maxProperties))
  }

  function Keys(mapping: seq<Mapping>): (ks: seq<Option<string>>)
    ensures |ks| == |mapping| && forall i | 0 <= i < |ks| :: ks[i] == Some(mapping[i].key)
  {
    seq(|mapping|, i requires 0 <= i < |mapping| => Some(mapping[i].key))
  }

  function LowerFork(cfg: Config, kind: BranchKind, os: seq<Option<Schema>>): seq<Tree>
    decreases os, 1
  {
    if os != [] then [Fork(kind, LowerBranches(cfg, os))] else []
  }

  function LowerPick(cfg: Config, os: seq<Option<Schema>>, d: Discriminator): seq<Tree>
    requires d.property.Some?
    decreases os, 1
  {
    if |os| == |d.mapping| then [Pick(d.property.value, Keys(d.mapping), LowerBranches(cfg, os))] else []
  }

  function LowerComposition(cfg: Config, c: Composition, d: Discriminator): seq<Tree>
    decreases c
  {
    LowerFork(cfg, AllOf, c.allOf)
    + LowerAlternatives(cfg, c, d)
    + LowerNested(cfg, Negate, c.notSchema)
  }

  /** A discriminator with a mapping takes the place of anyOf and oneOf. */
  function LowerAlternatives(cfg: Config, c: Composition, d: Discriminator): seq<Tree>
    decreases c, 0
  {
    if HasDiscriminator(d) then
      if c.oneOf != [] then LowerPick(cfg, c.oneOf, d)
      else if c.anyOf != [] then LowerPick(cfg, c.anyOf, d) else []
    else LowerFork(cfg, AnyOf, c.anyOf) + LowerFork(cfg, OneOf, c.oneOf)
  }

  function LowerConditional(cfg: Config, c: Conditional): seq<Tree>
    decreases c
  {
    if c.ifSchema.Some? then
      [Cond(LowerOpt(cfg, c.ifSchema),
            if c.thenSchema.Some? then Some(LowerOpt(cfg, c.thenSchema)) else None,
            if c.elseSchema.Some? then Some(LowerOpt(cfg, c.elseSchema)) else None)]
    else []
  }

  function LowerAnnotations(s: Schema): seq<Tree> {
    (if s.enumValues.Some? then [Leaf(CheckEnum(s.enumValues.value))] else [])
    + (if s.constValue.Some? then [Leaf(CheckConst(s.constValue.value))] else [])
    + When(s.readOnly, CheckReadOnly)
    + When(s.writeOnly, CheckWriteOnly)
  }

  /** The program `oas_schema_compile` builds. */
  function ProgramOf(cfg: Config, s: Schema): Code {
    FlatSeq(Lower(cfg, s)) + [End]
  }
}
