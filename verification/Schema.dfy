/** The schema tree, and what a schema means for a JSON value. */
module Schemas {
  import opened Json

  /** A schema node, grouped the way its parser fills it. A sub-schema that may be a null pointer
      is an `Option`. `refResolved` points at the target of a resolved `$ref`; since values of a
      datatype are finite, every schema here has an acyclic reference structure. */
  datatype Schema = Schema(
    ref: Option<string>,
    refResolved: Option<Schema>,
    typeMask: bv8,
    nullable: bool,
    meta: Meta,
    str: StringRules,
    num: NumberRules,
    arr: ArrayRules,
    obj: ObjectRules,
    comp: Composition,
    cond: Conditional,
    constValue: Option<Value>,
    enumValues: Option<Value>,
    readOnly: bool,
    writeOnly: bool,
    disc: Discriminator,
    uneval: Unevaluated)

  datatype Meta = Meta(
    title: Option<string>, description: Option<string>, defaultValue: Option<Value>, deprecated: bool)

  /** A length of -1 means "not set"; the code treats every negative number that way. */
  datatype StringRules = StringRules(
    minLength: int, maxLength: int, pattern: Option<string>, format: Option<string>)

  datatype NumberRules = NumberRules(
    minimum: Option<real>, maximum: Option<real>,
    exclusiveMinimum: Option<real>, exclusiveMaximum: Option<real>, multipleOf: Option<real>)

  datatype ArrayRules = ArrayRules(
    items: Option<Schema>, prefixItems: seq<Option<Schema>>,
    minItems: int, maxItems: int, uniqueItems: bool,
    contains: Option<Schema>, minContains: int, maxContains: int)

  datatype ObjectRules = ObjectRules(
    properties: seq<Property>, required: seq<string>,
    additional: Option<Schema>, additionalIsBool: bool,
    minProperties: int, maxProperties: int,
    propertyNames: Option<Schema>,
    patternProperties: seq<PatternProperty>,
    dependentRequired: seq<DependentRequired>,
    dependentSchemas: seq<DependentSchema>)

  datatype Property = Property(name: string, schema: Schema)
  datatype PatternProperty = PatternProperty(pattern: string, schema: Option<Schema>)
  /** A required name that is not a string in the document is a null pointer, and so is a mapping target. */
  datatype DependentRequired = DependentRequired(property: string, required: seq<Option<string>>)
  datatype DependentSchema = DependentSchema(property: string, schema: Option<Schema>)

  datatype Composition = Composition(
    allOf: seq<Option<Schema>>, anyOf: seq<Option<Schema>>, oneOf: seq<Option<Schema>>,
    notSchema: Option<Schema>)

  datatype Conditional = Conditional(
    ifSchema: Option<Schema>, thenSchema: Option<Schema>, elseSchema: Option<Schema>)

  datatype Discriminator = Discriminator(property: Option<string>, mapping: seq<Mapping>)
  datatype Mapping = Mapping(key: string, ref: Option<string>)

  datatype Unevaluated = Unevaluated(
    hasProperties: bool, properties: Option<Schema>, hasItems: bool, items: Option<Schema>)

  /** A fresh schema node: nothing set. */
  function EmptySchema(): Schema {
    Schema(None, None, 0, false, Meta(None, None, None, false), StringRules(-1, -1, None, None),
           NumberRules(None, None, None, None, None),
           ArrayRules(None, [], -1, -1, false, None, -1, -1),
           ObjectRules([], [], None, false, -1, -1, None, [], [], []),
           Composition([], [], [], None), Conditional(None, None, None), None, None, false, false,
           Discriminator.Discriminator(None, []), Unevaluated(false, None, false, None))
  }

  /** What the compiler is configured with. `compiles` says which patterns the regex backend
      accepts, `knownFormat` which format names have a checker. */
  datatype Config = Config(
    hasRegex: bool, compiles: string -> bool, checkFormats: bool, knownFormat: string -> bool)

  predicate ChecksFormat(cfg: Config, format: string) {
    cfg.checkFormats && cfg.knownFormat(format)
  }

  datatype Direction = AnyDirection | Request | Response

  /** What a validation run depends on besides the program and the value: the configuration the
      program was compiled with, and the direction. Regex matching, format checking, deep equality
      and the floating-point multipleOf test are left uninterpreted. */
  datatype Env = Env(
    config: Config,
    direction: Direction,
    matches: (string, string) -> bool,
    formatOk: (string, string) -> bool,
    equal: (Value, Value) -> bool,
    multipleOf: (real, real) -> bool)

  // ----- types -----

  datatype JsonType = TNull | TBoolean | TInteger | TNumber | TString | TArray | TObject

  function TypeBit(t: JsonType): bv8 {
    match t
    case TNull => 0x01
    case TBoolean => 0x02
    case TInteger => 0x04
    case TNumber => 0x08
    case TString => 0x10
    case TArray => 0x20
    case TObject => 0x40
  }

  /** JSON Schema's instance types: every integer is a number, and so is a real without fraction. */
  predicate HasType(v: Value, t: JsonType) {
    match t
    case TNull => v.JNull?
    case TBoolean => v.JBool?
    case TInteger => v.JInt? || (v.JReal? && v.r == v.r.Floor as real)
    case TNumber => v.JInt? || v.JReal?
    case TString => v.JStr?
    case TArray => v.JArr?
    case TObject => v.JObj?
  }

  predicate TypeIn(t: JsonType, mask: bv8) {
    mask & TypeBit(t) != 0
  }

  ghost predicate TypeOk(mask: bv8, v: Value) {
    exists t :: HasType(v, t) && TypeIn(t, mask)
  }

  /** `nullable` adds null to a type list that is present. */
  function EffectiveMask(s: Schema): bv8 {
    if s.nullable && s.typeMask != 0 then s.typeMask | 0x01 else s.typeMask
  }

  // ----- strings and numbers -----

  predicate IsContinuation(c: char) {
    '\U{80}' <= c < '\U{C0}'
  }

  /** The indices at which a character starts, in UTF-8 text. */
  ghost function CharStarts(s: string): set<int> {
    set i | 0 <= i < |s| && !IsContinuation(s[i])
  }

  function AsReal(v: Value): real
    requires v.JInt? || v.JReal?
  {
    if v.JInt? then v.i as real else v.r
  }

  predicate IsNum(v: Value) {
    v.JInt? || v.JReal?
  }

  // ----- the meaning of a schema -----

  /** `v` satisfies `s`: sections 10.2 and 10.3 of draft-bhutton-json-schema (2020-12), with the
      code's own choices. A resolved reference hides its siblings, `items` covers the elements
      that `prefixItems` covers, the position of a prefix schema is taken modulo 2^16,
      `additionalProperties` demands nothing, and a discriminator whose mapping is not as long as
      its branch list switches oneOf and anyOf off. */
  ghost predicate Satisfies(e: Env, s: Schema, v: Value)
    decreases s, 0
  {
    if s.refResolved.Some? then Satisfies(e, s.refResolved.value, v)
    else
      && (EffectiveMask(s) == 0 || TypeOk(EffectiveMask(s), v))
      && StringOk(e, s.str, v)
      && NumberOk(e, s.num, v)
      && ArrayOk(e, s.arr, v)
      && ObjectOk(e, s.obj, v)
      && CompositionOk(e, s.comp, s.disc, v)
      && ConditionalOk(e, s.cond, v)
      && (s.enumValues.Some? && s.enumValues.value.JArr? ==>
            exists i :: 0 <= i < |s.enumValues.value.items| && e.equal(v, s.enumValues.value.items[i]))
      && (s.constValue.Some? ==> e.equal(v, s.constValue.value))
      && (s.readOnly ==> e.direction != Request)
      && (s.writeOnly ==> e.direction != Response)
  }

  /** A null sub-schema accepts everything. */
  ghost predicate SatisfiesOpt(e: Env, o: Option<Schema>, v: Value)
    decreases o, 0
  {
    o.Some? ==> Satisfies(e, o.value, v)
  }

  ghost predicate StringOk(e: Env, r: StringRules, v: Value) {
    v.JStr? ==>
      && (r.minLength >= 0 ==> |CharStarts(v.s)| >= r.minLength)
      && (r.maxLength >= 0 ==> |CharStarts(v.s)| <= r.maxLength)
      && (r.pattern.Some? && e.config.hasRegex ==> e.matches(r.pattern.value, v.s))
      && (r.format.Some? && ChecksFormat(e.config, r.format.value) ==>
            e.formatOk(r.format.value, v.s))
  }

  ghost predicate NumberOk(e: Env, r: NumberRules, v: Value) {
    IsNum(v) ==>
      && (r.minimum.Some? ==> r.minimum.value <= AsReal(v))
      && (r.maximum.Some? ==> AsReal(v) <= r.maximum.value)
      && (r.exclusiveMinimum.Some? ==> r.exclusiveMinimum.value < AsReal(v))
      && (r.exclusiveMaximum.Some? ==> AsReal(v) < r.exclusiveMaximum.value)
      && (r.multipleOf.Some? ==> e.multipleOf(AsReal(v), r.multipleOf.value))
  }

  ghost predicate ArrayOk(e: Env, r: ArrayRules, v: Value)
    decreases r
  {
    && ArraySizeOk(e, r, v)
    && PrefixOk(e, r.prefixItems, v)
    && ItemsOk(e, r.items, v)
    && ContainsOk(e, r, v)
  }

  ghost predicate ArraySizeOk(e: Env, r: ArrayRules, v: Value) {
    v.JArr? ==>
      && (r.minItems >= 0 ==> |v.items| >= r.minItems)
      && (r.maxItems >= 0 ==> |v.items| <= r.maxItems)
      && (r.uniqueItems ==> forall i, j | 0 <= i < j < |v.items| :: !e.equal(v.items[i], v.items[j]))
  }

  ghost predicate PrefixOk(e: Env, os: seq<Option<Schema>>, v: Value)
    decreases os
  {
    v.JArr? ==>
      forall i | 0 <= i < |os| && i % 0x1_0000 < |v.items| :: SatisfiesOpt(e, os[i], v.items[i % 0x1_0000])
  }

  ghost predicate ItemsOk(e: Env, o: Option<Schema>, v: Value)
    decreases o, 1
  {
    v.JArr? ==> forall i | 0 <= i < |v.items| :: SatisfiesOpt(e, o, v.items[i])
  }

  /** The elements that satisfy a schema. */
  ghost function Matched(e: Env, s: Schema, vs: seq<Value>): set<int>
    decreases s, 1
  {
    set i | 0 <= i < |vs| && Satisfies(e, s, vs[i])
  }

  ghost predicate ContainsOk(e: Env, r: ArrayRules, v: Value)
    decreases r, 0
  {
    v.JArr? && r.contains.Some? ==>
      var hits := |Matched(e, r.contains.value, v.items)|;
      && hits >= (if r.minContains >= 0 then r.minContains else 1)
      && (r.maxContains >= 0 ==> hits <= r.maxContains)
  }

  ghost predicate ObjectOk(e: Env, r: ObjectRules, v: Value)
    decreases r
  {
    && RequiredOk(r.required, v)
    && PropertiesOk(e, r.properties, v)
    && PropertyCountOk(r, v)
    && PropertyNamesOk(e, r.propertyNames, v)
    && PatternsOk(e, r.patternProperties, v)
    && DependentRequiredOk(r.dependentRequired, v)
    && DependentSchemasOk(e, r.dependentSchemas, v)
  }

  predicate RequiredOk(names: seq<string>, v: Value) {
    v.JObj? ==> forall i | 0 <= i < |names| :: Get(v, names[i]).Some?
  }

  ghost predicate PropertiesOk(e: Env, ps: seq<Property>, v: Value)
    decreases ps
  {
    forall i | 0 <= i < |ps| ::
      Get(v, ps[i].name).Some? ==> Satisfies(e, ps[i].schema, Get(v, ps[i].name).value)
  }

  predicate PropertyCountOk(r: ObjectRules, v: Value) {
    v.JObj? ==>
      && (r.minProperties >= 0 ==> |v.members| >= r.minProperties)
      && (r.maxProperties >= 0 ==> |v.members| <= r.maxProperties)
  }

  /** Names are checked as strings, up to the first NUL. */
  ghost predicate PropertyNamesOk(e: Env, o: Option<Schema>, v: Value)
    decreases o, 1
  {
    v.JObj? ==> forall i | 0 <= i < |v.members| :: SatisfiesOpt(e, o, JStr(CStr(v.members[i].key)))
  }

  ghost predicate PatternsOk(e: Env, ps: seq<PatternProperty>, v: Value)
    decreases ps
  {
    v.JObj? && e.config.hasRegex ==>
      forall i, j | 0 <= i < |ps| && 0 <= j < |v.members| ::
        e.matches(ps[i].pattern, v.members[j].key) ==> SatisfiesOpt(e, ps[i].schema, v.members[j].value)
  }

  predicate DependentRequiredOk(ds: seq<DependentRequired>, v: Value) {
    forall i, j | 0 <= i < |ds| && 0 <= j < |ds[i].required| ::
      Get(v, ds[i].property).Some? ==> GetNamed(v, ds[i].required[j]).Some?
  }

  ghost predicate DependentSchemasOk(e: Env, ds: seq<DependentSchema>, v: Value)
    decreases ds
  {
    forall i | 0 <= i < |ds| :: Get(v, ds[i].property).Some? ==> SatisfiesOpt(e, ds[i].schema, v)
  }

  /** Which branches a sub-schema list satisfies. */
  ghost function Passing(e: Env, branches: seq<Option<Schema>>, v: Value): set<int>
    decreases branches, 0
  {
    set i | 0 <= i < |branches| && SatisfiesOpt(e, branches[i], v)
  }

  predicate HasDiscriminator(d: Discriminator) {
    d.property.Some? && d.mapping != []
  }

  ghost predicate CompositionOk(e: Env, c: Composition, d: Discriminator, v: Value)
    decreases c
  {
    && (forall i | 0 <= i < |c.allOf| :: SatisfiesOpt(e, c.allOf[i], v))
    && (if HasDiscriminator(d) then
          if c.oneOf != [] then |c.oneOf| == |d.mapping| ==> DiscriminatorOk(e, c.oneOf, d, v)
          else c.anyOf != [] && |c.anyOf| == |d.mapping| ==> DiscriminatorOk(e, c.anyOf, d, v)
        else
          && (c.anyOf != [] ==> Passing(e, c.anyOf, v) != {})
          && (c.oneOf != [] ==> |Passing(e, c.oneOf, v)| == 1))
    && (c.notSchema.Some? ==> !Satisfies(e, c.notSchema.value, v))
  }

  /** The value names, in the discriminator property, a mapping key; the branch at the position of
      the first such key accepts the value. */
  ghost predicate DiscriminatorOk(e: Env, branches: seq<Option<Schema>>, d: Discriminator, v: Value)
    requires d.property.Some? && |branches| == |d.mapping|
    decreases branches
  {
    exists i :: DiscriminatorPicks(d, v, i) && SatisfiesOpt(e, branches[i], v)
  }

  ghost predicate DiscriminatorPicks(d: Discriminator, v: Value, i: int)
    requires d.property.Some?
  {
    && var tag := Get(v, d.property.value);
    && tag.Some? && tag.value.JStr?
    && 0 <= i < |d.mapping| && SameCStr(d.mapping[i].key, tag.value.s)
    && forall j | 0 <= j < i :: !SameCStr(d.mapping[j].key, tag.value.s)
  }

  ghost predicate ConditionalOk(e: Env, c: Conditional, v: Value)
    decreases c
  {
    c.ifSchema.Some? ==>
      if Satisfies(e, c.ifSchema.value, v) then SatisfiesOpt(e, c.thenSchema, v)
      else SatisfiesOpt(e, c.elseSchema, v)
  }
}
