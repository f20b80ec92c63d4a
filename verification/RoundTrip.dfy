/** Printing a schema and parsing it again. */
module RoundTrip {
  import opened Json
  import opened Schemas
  import opened TypeNames
  import opened Keywords
  import opened SchemaParser
  import P = Printer

  // ----- schemas the C structure can hold -----

  predicate CText(o: Option<string>) {
    o.Some? ==> NUL !in o.value
  }

  predicate CNames(names: seq<string>) {
    forall i | 0 <= i < |names| :: NUL !in names[i]
  }

  predicate CMaybeNames(names: seq<Option<string>>) {
    forall i | 0 <= i < |names| :: CText(names[i])
  }

  predicate CMapping(ms: seq<Mapping>) {
    forall i | 0 <= i < |ms| :: NUL !in ms[i].key && CText(ms[i].ref)
  }

  /** Strings end at their first NUL, counts are 64-bit integers. */
  predicate Storable(s: Schema)
    decreases s
  {
    && CText(s.ref) && CText(s.meta.title) && CText(s.meta.description) && CText(s.str.format) && CText(s.str.pattern)
    && s.str.minLength <= INT64_MAX && s.str.maxLength <= INT64_MAX
    && StorableArray(s.arr) && StorableObject(s.obj) && StorableComposition(s.comp) && StorableConditional(s.cond)
    && CText(s.disc.property) && CMapping(s.disc.mapping)
  }

  predicate StorableOpt(o: Option<Schema>)
    decreases o
  {
    o.Some? ==> Storable(o.value)
  }

  predicate StorableAll(os: seq<Option<Schema>>)
    decreases os
  {
    forall i | 0 <= i < |os| :: StorableOpt(os[i])
  }

  predicate StorableArray(r: ArrayRules)
    decreases r
  {
    && StorableOpt(r.items) && StorableAll(r.prefixItems) && StorableOpt(r.contains)
    && r.minItems <= INT64_MAX && r.maxItems <= INT64_MAX
    && r.minContains <= INT64_MAX && r.maxContains <= INT64_MAX
  }

  predicate StorableProperties(ps: seq<Property>)
    decreases ps
  {
    forall i | 0 <= i < |ps| :: NUL !in ps[i].name && Storable(ps[i].schema)
  }

  predicate StorablePatterns(ps: seq<PatternProperty>)
    decreases ps
  {
    forall i | 0 <= i < |ps| :: NUL !in ps[i].pattern && StorableOpt(ps[i].schema)
  }

  predicate StorableRequirements(ds: seq<DependentRequired>) {
    forall i | 0 <= i < |ds| :: NUL !in ds[i].property && CMaybeNames(ds[i].required)
  }

  predicate StorableDependents(ds: seq<DependentSchema>)
    decreases ds
  {
    forall i | 0 <= i < |ds| :: NUL !in ds[i].property && StorableOpt(ds[i].schema)
  }

  predicate StorableObject(r: ObjectRules)
    decreases r
  {
    && StorableProperties(r.properties) && CNames(r.required)
    && StorableOpt(r.additional) && StorableOpt(r.propertyNames)
    && r.minProperties <= INT64_MAX && r.maxProperties <= INT64_MAX
    && StorablePatterns(r.patternProperties) && StorableRequirements(r.dependentRequired)
    && StorableDependents(r.dependentSchemas)
  }

  predicate StorableComposition(c: Composition)
    decreases c
  {
    StorableAll(c.allOf) && StorableAll(c.anyOf) && StorableAll(c.oneOf) && StorableOpt(c.notSchema)
  }

  predicate StorableConditional(c: Conditional)
    decreases c
  {
    StorableOpt(c.ifSchema) && StorableOpt(c.thenSchema) && StorableOpt(c.elseSchema)
  }

  // ----- what a round trip makes of a schema -----

  function Again(s: Schema): Schema
    decreases s
  {
    Schema(s.ref, None, AgainMask(s), s.nullable, s.meta,
           StringRules(AgainCount(s.str.minLength), AgainCount(s.str.maxLength), s.str.pattern, s.str.format),
           s.num, AgainArray(s.arr), AgainObject(s.obj), AgainComposition(s.comp), AgainConditional(s.cond),
           s.constValue, ArrayOf(s.enumValues), s.readOnly, s.writeOnly, AgainDiscriminator(s.disc),
           Unevaluated(false, None, false, None))
  }

  function AgainMask(s: Schema): bv8 {
    if s.nullable then (s.typeMask & KNOWN) | 0x01 else s.typeMask & KNOWN
  }

  function AgainCount(n: int): int {
    if n >= 0 then n else -1
  }

  function AgainOpt(o: Option<Schema>): Option<Schema>
    decreases o
  {
    if o.Some? then Some(Again(o.value)) else None
  }

  /** Null entries are lost. */
  function AgainAll(os: seq<Option<Schema>>): seq<Option<Schema>>
    decreases os
  {
    if os == [] then []
    else
      var n := |os| - 1;
      AgainAll(os[..n]) + if os[n].Some? then [AgainOpt(os[n])] else []
  }

  function AgainArray(r: ArrayRules): ArrayRules
    decreases r
  {
    ArrayRules(AgainOpt(r.items), AgainAll(r.prefixItems), AgainCount(r.minItems), AgainCount(r.maxItems),
               r.uniqueItems, AgainOpt(r.contains), AgainCount(r.minContains), AgainCount(r.maxContains))
  }

  /** The properties come back in reverse. */
  function AgainProperties(ps: seq<Property>): seq<Property>
    decreases ps
  {
    if ps == [] then []
    else
      var n := |ps| - 1;
      [Property(ps[n].name, Again(ps[n].schema))] + AgainProperties(ps[..n])
  }

  function AgainPatterns(ps: seq<PatternProperty>): seq<PatternProperty>
    decreases ps
  {
    if ps == [] then []
    else
      var n := |ps| - 1;
      AgainPatterns(ps[..n]) +
      if ps[n].schema.Some? then [PatternProperty(ps[n].pattern, AgainOpt(ps[n].schema))] else []
  }

  function AgainDependents(ds: seq<DependentSchema>): seq<DependentSchema>
    decreases ds
  {
    if ds == [] then []
    else
      var n := |ds| - 1;
      AgainDependents(ds[..n]) +
      if ds[n].schema.Some? then [DependentSchema(ds[n].property, AgainOpt(ds[n].schema))] else []
  }

  /** The boolean form of additionalProperties comes back negated. */
  function AgainAdditional(r: ObjectRules): Option<Schema>
    decreases r, 0
  {
    if !r.additionalIsBool then AgainOpt(r.additional)
    else if r.additional.Some? then None
    else Some(EmptySchema())
  }

  function AgainObject(r: ObjectRules): ObjectRules
    decreases r, 1
  {
    ObjectRules(AgainProperties(r.properties), r.required, AgainAdditional(r), r.additionalIsBool,
                AgainCount(r.minProperties), AgainCount(r.maxProperties), AgainOpt(r.propertyNames),
                AgainPatterns(r.patternProperties), AgainRequirements(r.dependentRequired),
                AgainDependents(r.dependentSchemas))
  }

  function AgainComposition(c: Composition): Composition
    decreases c
  {
    Composition(AgainAll(c.allOf), AgainAll(c.anyOf), AgainAll(c.oneOf), AgainOpt(c.notSchema))
  }

  function AgainConditional(c: Conditional): Conditional
    decreases c
  {
    Conditional(AgainOpt(c.ifSchema), AgainOpt(c.thenSchema), AgainOpt(c.elseSchema))
  }

  /** Null names are lost. */
  function Present(names: seq<Option<string>>): seq<Option<string>> {
    if names == [] then []
    else Present(names[..|names| - 1]) + if names[|names| - 1].Some? then [names[|names| - 1]] else []
  }

  function AgainRequirements(ds: seq<DependentRequired>): (r: seq<DependentRequired>)
    ensures |r| == |ds|
    ensures forall i | 0 <= i < |ds| ::
      r[i] == DependentRequired.DependentRequired(ds[i].property, Present(ds[i].required))
  {
    seq(|ds|, i requires 0 <= i < |ds| =>
          DependentRequired.DependentRequired(ds[i].property, Present(ds[i].required)))
  }

  /** An entry with a null target is lost, key and all. */
  function Targeted(ms: seq<Mapping>): seq<Mapping> {
    if ms == [] then []
    else Targeted(ms[..|ms| - 1]) + if ms[|ms| - 1].ref.Some? then [ms[|ms| - 1]] else []
  }

  /** Without a property name the mapping is lost. */
  function AgainDiscriminator(d: Discriminator): Discriminator {
    Discriminator.Discriminator(d.property, if d.property.Some? then Targeted(d.mapping) else [])
  }

  // ----- values -----

  lemma TextTrip(o: Option<string>)
    requires CText(o)
    ensures TextOf(P.TextOf(o)) == o
  {
    if o.Some? { CStrOfClean(o.value); }
  }

  lemma CountTrip(n: int)
    requires n <= INT64_MAX
    ensures CountOf(P.CountOf(n)) == AgainCount(n)
  {
  }

  lemma RealTrip(o: Option<real>)
    ensures RealOf(P.RealOf(o)) == o
  {
  }

  lemma FlagTrip(b: bool)
    ensures FlagOf(P.FlagOf(b)) == b
  {
  }

  lemma NamesTrip(names: seq<string>)
    requires CNames(names)
    ensures NamesOf(P.Strings(names)) == names
  {
    forall i | 0 <= i < |names| ensures NamesOf(P.Strings(names))[i] == names[i] {
      CStrOfClean(names[i]);
    }
  }

  lemma {:induction false} MaybeNamesTrip(names: seq<Option<string>>)
    requires CMaybeNames(names)
    ensures MaybeNames(JArr(P.EmitMaybeNames(names))) == Present(names)
    decreases |names|
  {
    if names != [] {
      var n := |names| - 1;
      MaybeNamesTrip(names[..n]);
      if names[n].Some? { CStrOfClean(names[n].value); }
    }
  }

  lemma RequirementsTrip(ds: seq<DependentRequired>)
    requires StorableRequirements(ds)
    ensures ParseRequirements(P.EmitRequirements(ds)) == AgainRequirements(ds)
  {
    hide Present, P.EmitMaybeNames, MaybeNames;
    forall i | 0 <= i < |ds| ensures ParseRequirements(P.EmitRequirements(ds))[i] == AgainRequirements(ds)[i] {
      CStrOfClean(ds[i].property);
      MaybeNamesTrip(ds[i].required);
    }
  }

  lemma {:induction false} MappingTrip(ms: seq<Mapping>)
    requires CMapping(ms)
    ensures ParseMapping(P.EmitMapping(ms)) == Targeted(ms)
    decreases |ms|
  {
    if ms != [] {
      var n := |ms| - 1;
      MappingTrip(ms[..n]);
      CStrOfClean(ms[n].key);
      if ms[n].ref.Some? { CStrOfClean(ms[n].ref.value); }
    }
  }

  lemma DiscriminatorTrip(d: Discriminator)
    requires CText(d.property) && CMapping(d.mapping)
    ensures ParseDiscriminator(P.DiscriminatorOf(d)) == AgainDiscriminator(d)
  {
    assert |"propertyName"| != |"mapping"|;
    MappingTrip(d.mapping);
    TextTrip(d.property);
    if d.property.Some? {
      var first := Member("propertyName", JStr(d.property.value));
      var ms := P.DiscriminatorOf(d).value.members;
      assert ms[0] == first;
      assert Find(ms, "propertyName") == Some(first.value);
      if d.mapping != [] {
        assert ms[1..] == [Member("mapping", JObj(P.EmitMapping(d.mapping)))];
      } else {
        assert ms[1..] == [];
      }
    }
  }

  // ----- sub-schemas -----

  lemma SubTrip(o: Option<Schema>)
    requires StorableOpt(o)
    ensures P.SchemaOf(o).Some? <==> o.Some?
    ensures o.Some? ==> P.SchemaOf(o).value.JObj? && Parse(P.SchemaOf(o).value) == AgainOpt(o)
    decreases o, 0
  {
    hide Parse, Again;
    if o.Some? { RoundTrip(o.value); }
  }

  lemma SchemaTrip(v: Value, k: Keyword, o: Option<Schema>)
    requires v.JObj? && StorableOpt(o) && Look(v, k) == P.SchemaOf(o)
    ensures SchemaAt(v, k) == AgainOpt(o)
    decreases o, 1
  {
    hide Parse, Look, Again;
    SubTrip(o);
  }

  lemma {:induction false} AllTrip(os: seq<Option<Schema>>)
    requires StorableAll(os)
    ensures ParseAll(P.EmitAll(os)) == AgainAll(os)
    decreases os, 0
  {
    hide Parse, Again;
    if os != [] {
      var n := |os| - 1;
      AllTrip(os[..n]);
      SubTrip(os[n]);
      var vs := P.EmitAll(os[..n]);
      if os[n].Some? {
        var v := P.SchemaOf(os[n]).value;
        assert P.EmitAll(os) == vs + [v] && (vs + [v])[..|vs|] == vs;
      } else {
        assert P.EmitAll(os) == vs;
      }
    }
  }

  lemma ListTrip(v: Value, k: Keyword, os: seq<Option<Schema>>)
    requires v.JObj? && StorableAll(os) && Look(v, k) == P.ListOf(os)
    ensures ListAt(v, k) == AgainAll(os)
    decreases os, 1
  {
    hide Parse, Look, Again;
    AllTrip(os);
  }

  lemma {:induction false} PropertiesTrip(ps: seq<Property>)
    requires StorableProperties(ps)
    ensures ParseProperties(P.EmitProperties(ps)) == AgainProperties(ps)
    decreases ps, 0
  {
    hide Parse, Again, CStr, Storable;
    if ps != [] {
      var n := |ps| - 1;
      PropertiesTrip(ps[..n]);
      RoundTrip(ps[n].schema);
      CStrOfClean(ps[n].name);
      var ms, m := P.EmitProperties(ps[..n]), Member(ps[n].name, P.Emit(ps[n].schema));
      assert P.EmitProperties(ps) == ms + [m] && (ms + [m])[..|ms|] == ms;
    }
  }

  lemma {:induction false} PatternsTrip(ps: seq<PatternProperty>)
    requires StorablePatterns(ps)
    ensures ParsePatterns(P.EmitPatterns(ps)) == AgainPatterns(ps)
    decreases ps, 0
  {
    hide Parse, Again, CStr, StorableOpt;
    if ps != [] {
      var n := |ps| - 1;
      PatternsTrip(ps[..n]);
      SubTrip(ps[n].schema);
      CStrOfClean(ps[n].pattern);
      var ms := P.EmitPatterns(ps[..n]);
      if ps[n].schema.Some? {
        var m := Member(ps[n].pattern, P.SchemaOf(ps[n].schema).value);
        assert P.EmitPatterns(ps) == ms + [m] && (ms + [m])[..|ms|] == ms;
      } else {
        assert P.EmitPatterns(ps) == ms;
      }
    }
  }

  lemma {:induction false} DependentsTrip(ds: seq<DependentSchema>)
    requires StorableDependents(ds)
    ensures ParseDependents(P.EmitDependents(ds)) == AgainDependents(ds)
    decreases ds, 0
  {
    hide Parse, Again, CStr, StorableOpt;
    if ds != [] {
      var n := |ds| - 1;
      DependentsTrip(ds[..n]);
      SubTrip(ds[n].schema);
      CStrOfClean(ds[n].property);
      var ms := P.EmitDependents(ds[..n]);
      if ds[n].schema.Some? {
        var m := Member(ds[n].property, P.SchemaOf(ds[n].schema).value);
        assert P.EmitDependents(ds) == ms + [m] && (ms + [m])[..|ms|] == ms;
      } else {
        assert P.EmitDependents(ds) == ms;
      }
    }
  }

  // ----- the groups of keywords -----

  lemma Printed(s: Schema, k: Keyword)
    ensures Look(P.Emit(s), k) == P.Field(s, k)
  {
    P.FindPrinted(s, k);
  }

  lemma TextRulesTrip(s: Schema)
    requires Storable(s)
    ensures ParseText(P.Emit(s)) == Again(s).str
  {
    hide Look;
    Printed(s, Text(MinLength));
    Printed(s, Text(MaxLength));
    Printed(s, Text(Pattern));
    Printed(s, Head(Format));
    CountTrip(s.str.minLength);
    CountTrip(s.str.maxLength);
    TextTrip(s.str.pattern);
    TextTrip(s.str.format);
  }

  lemma NumberRulesTrip(s: Schema)
    ensures ParseNumbers(P.Emit(s)) == s.num
  {
    hide Look;
    Printed(s, Num(Minimum));
    Printed(s, Num(Maximum));
    Printed(s, Num(ExclusiveMinimum));
    Printed(s, Num(ExclusiveMaximum));
    Printed(s, Num(MultipleOf));
    RealTrip(s.num.minimum);
    RealTrip(s.num.maximum);
    RealTrip(s.num.exclusiveMinimum);
    RealTrip(s.num.exclusiveMaximum);
    RealTrip(s.num.multipleOf);
  }

  lemma ArrayRulesTrip(s: Schema)
    requires StorableArray(s.arr)
    ensures ParseArray(P.Emit(s)) == AgainArray(s.arr)
    decreases s.arr, 2
  {
    hide Look, Parse, Again;
    var e, r := P.Emit(s), s.arr;
    Printed(s, Arr(Items));
    SchemaTrip(e, Arr(Items), r.items);
    Printed(s, Arr(PrefixItems));
    ListTrip(e, Arr(PrefixItems), r.prefixItems);
    Printed(s, Arr(MinItems));
    CountTrip(r.minItems);
    Printed(s, Arr(MaxItems));
    CountTrip(r.maxItems);
    Printed(s, Arr(UniqueItems));
    FlagTrip(r.uniqueItems);
    Printed(s, Arr(Contains));
    SchemaTrip(e, Arr(Contains), r.contains);
    Printed(s, Arr(MinContains));
    CountTrip(r.minContains);
    Printed(s, Arr(MaxContains));
    CountTrip(r.maxContains);
  }

  lemma PropertiesAtTrip(v: Value, k: Keyword, ps: seq<Property>)
    requires v.JObj? && Look(v, k) == P.PropertiesOf(ps)
    requires StorableProperties(ps)
    ensures PropertiesAt(v, k) == AgainProperties(ps)
    decreases ps, 1
  {
    hide Parse, Look, Again;
    PropertiesTrip(ps);
  }

  lemma PatternsAtTrip(v: Value, k: Keyword, ps: seq<PatternProperty>)
    requires v.JObj? && Look(v, k) == P.PatternsOf(ps)
    requires StorablePatterns(ps)
    ensures PatternsAt(v, k) == AgainPatterns(ps)
    decreases ps, 1
  {
    hide Parse, Look, Again;
    PatternsTrip(ps);
  }

  lemma DependentsAtTrip(v: Value, k: Keyword, ds: seq<DependentSchema>)
    requires v.JObj? && Look(v, k) == P.DependentsOf(ds)
    requires StorableDependents(ds)
    ensures DependentsAt(v, k) == AgainDependents(ds)
    decreases ds, 1
  {
    hide Parse, Look, Again;
    DependentsTrip(ds);
  }

  lemma NamesInTrip(names: seq<string>)
    requires CNames(names)
    ensures NamesIn(P.NamesOf(names)) == names
  {
    NamesTrip(names);
  }

  lemma RequirementsAtTrip(ds: seq<DependentRequired>)
    requires StorableRequirements(ds)
    ensures ParseRequirements(MembersOf(P.RequirementsOf(ds))) == AgainRequirements(ds)
  {
    RequirementsTrip(ds);
  }

  lemma AdditionalTrip(s: Schema)
    requires StorableOpt(s.obj.additional)
    ensures AdditionalAt(P.Emit(s)) == (AgainAdditional(s.obj), s.obj.additionalIsBool)
    decreases s.obj, 2
  {
    hide Look, Parse, Again;
    Printed(s, Obj(AdditionalProperties));
    assert P.Field(s, Obj(AdditionalProperties)) == P.AdditionalOf(s.obj);
    if !s.obj.additionalIsBool {
      SchemaTrip(P.Emit(s), Obj(AdditionalProperties), s.obj.additional);
      SubTrip(s.obj.additional);
    }
  }

  lemma ObjectRulesTrip(s: Schema)
    requires StorableObject(s.obj)
    ensures ParseObject(P.Emit(s)) == AgainObject(s.obj)
    decreases s.obj, 3
  {
    hide Look, Parse, Again, AdditionalAt, PropertiesAt, PatternsAt, DependentsAt, SchemaAt, Storable, StorableOpt,
      AgainProperties, AgainPatterns, AgainDependents, AgainAdditional, P.Emit, NamesIn, ParseRequirements, CNames,
      AgainRequirements;
    var e, r := P.Emit(s), s.obj;
    ObjectFields(s);
    PropertiesAtTrip(e, Obj(Properties), r.properties);
    NamesInTrip(r.required);
    AdditionalTrip(s);
    CountTrip(r.minProperties);
    CountTrip(r.maxProperties);
    SchemaTrip(e, Obj(PropertyNames), r.propertyNames);
    PatternsAtTrip(e, Obj(PatternProperties), r.patternProperties);
    RequirementsAtTrip(r.dependentRequired);
    DependentsAtTrip(e, Obj(DependentSchemas), r.dependentSchemas);
  }

  lemma ObjectFields(s: Schema)
    ensures var e, r := P.Emit(s), s.obj;
      && e.JObj?
      && Look(e, Obj(Properties)) == P.PropertiesOf(r.properties)
      && Look(e, Obj(Required)) == P.NamesOf(r.required)
      && Look(e, Obj(MinProperties)) == P.CountOf(r.minProperties)
      && Look(e, Obj(MaxProperties)) == P.CountOf(r.maxProperties)
      && Look(e, Obj(PropertyNames)) == P.SchemaOf(r.propertyNames)
      && Look(e, Obj(PatternProperties)) == P.PatternsOf(r.patternProperties)
      && Look(e, Obj(ObjectKey.DependentRequired)) == P.RequirementsOf(r.dependentRequired)
      && Look(e, Obj(DependentSchemas)) == P.DependentsOf(r.dependentSchemas)
  {
    hide Look;
    Printed(s, Obj(Properties));
    Printed(s, Obj(Required));
    Printed(s, Obj(MinProperties));
    Printed(s, Obj(MaxProperties));
    Printed(s, Obj(PropertyNames));
    Printed(s, Obj(PatternProperties));
    Printed(s, Obj(ObjectKey.DependentRequired));
    Printed(s, Obj(DependentSchemas));
  }

  lemma CompositionTrip(s: Schema)
    requires StorableComposition(s.comp)
    ensures ParseComposition(P.Emit(s)) == AgainComposition(s.comp)
    decreases s.comp, 2
  {
    hide Look, Parse, Again;
    var e, c := P.Emit(s), s.comp;
    Printed(s, Comp(AllOf));
    ListTrip(e, Comp(AllOf), c.allOf);
    Printed(s, Comp(AnyOf));
    ListTrip(e, Comp(AnyOf), c.anyOf);
    Printed(s, Comp(OneOf));
    ListTrip(e, Comp(OneOf), c.oneOf);
    Printed(s, Comp(Not));
    SchemaTrip(e, Comp(Not), c.notSchema);
  }

  lemma ConditionalTrip(s: Schema)
    requires StorableConditional(s.cond)
    ensures ParseConditional(P.Emit(s)) == AgainConditional(s.cond)
    decreases s.cond, 2
  {
    hide Look, Parse, Again;
    var e, c := P.Emit(s), s.cond;
    Printed(s, Cond(If));
    SchemaTrip(e, Cond(If), c.ifSchema);
    Printed(s, Cond(Then));
    SchemaTrip(e, Cond(Then), c.thenSchema);
    Printed(s, Cond(Else));
    SchemaTrip(e, Cond(Else), c.elseSchema);
  }

  lemma MaskTrip(s: Schema)
    ensures ParseMask(P.Emit(s)) == AgainMask(s)
  {
    hide Look, MaskOf, PrintType;
    Printed(s, Head(Type));
    Printed(s, Misc(Nullable));
    TypeRoundTrip(s.typeMask);
    FlagTrip(s.nullable);
    assert P.Field(s, Head(Type)) == PrintType(s.typeMask);
  }

  lemma MiscTrip(s: Schema)
    requires Storable(s)
    ensures var e := P.Emit(s);
      && e.JObj?
      && TextOf(Look(e, Head(Ref))) == s.ref && FlagOf(Look(e, Misc(Nullable))) == s.nullable
      && Look(e, Misc(Const)) == s.constValue && Look(e, Misc(Enum)) == s.enumValues
      && FlagOf(Look(e, Misc(ReadOnly))) == s.readOnly && FlagOf(Look(e, Misc(WriteOnly))) == s.writeOnly
      && Look(e, Misc(MiscKey.Discriminator)) == P.DiscriminatorOf(s.disc)
  {
    hide Look, TextOf, P.DiscriminatorOf;
    Printed(s, Head(Ref));
    TextTrip(s.ref);
    Printed(s, Misc(Nullable));
    Printed(s, Misc(Const));
    Printed(s, Misc(Enum));
    Printed(s, Misc(ReadOnly));
    Printed(s, Misc(WriteOnly));
    Printed(s, Misc(MiscKey.Discriminator));
    FlagTrip(s.nullable);
    FlagTrip(s.readOnly);
    FlagTrip(s.writeOnly);
  }

  lemma MetaTrip(s: Schema)
    requires Storable(s)
    ensures ParseMeta(P.Emit(s)) == s.meta
  {
    hide Look, Storable, P.Emit;
    MetaFields(s);
    TextTrip(s.meta.title);
    TextTrip(s.meta.description);
    FlagTrip(s.meta.deprecated);
  }

  lemma MetaFields(s: Schema)
    requires Storable(s)
    ensures CText(s.meta.title) && CText(s.meta.description)
    ensures var e := P.Emit(s);
      && e.JObj?
      && Look(e, Head(Title)) == P.TextOf(s.meta.title) && Look(e, Head(Description)) == P.TextOf(s.meta.description)
      && Look(e, Misc(Default)) == s.meta.defaultValue && Look(e, Misc(Deprecated)) == P.FlagOf(s.meta.deprecated)
  {
    hide Look;
    Printed(s, Head(Title));
    Printed(s, Head(Description));
    Printed(s, Misc(Default));
    Printed(s, Misc(Deprecated));
  }

  lemma UnevaluatedTrip(s: Schema)
    ensures ParseUnevaluated(P.Emit(s)) == Unevaluated(false, None, false, None)
  {
    hide Look;
    Printed(s, Misc(UnevaluatedProperties));
    Printed(s, Misc(UnevaluatedItems));
  }

  lemma StorableParts(s: Schema)
    requires Storable(s)
    ensures StorableArray(s.arr) && StorableObject(s.obj) && StorableComposition(s.comp) && StorableConditional(s.cond)
  {
  }

  /** What parsing makes of any printed schema. */
  lemma {:induction false} RoundTrip(s: Schema)
    requires Storable(s)
    ensures Parse(P.Emit(s)) == Some(Again(s))
    decreases s
  {
    hide Look, Storable, ParseText, ParseNumbers, ParseArray, ParseObject, ParseComposition, ParseConditional,
      ParseMask, ParseMeta, ParseUnevaluated, ParseDiscriminator, AgainArray, AgainObject, AgainComposition,
      AgainConditional, P.Emit, P.DiscriminatorOf, AgainMask;
    StorableParts(s);
    MiscTrip(s);
    MaskTrip(s);
    MetaTrip(s);
    UnevaluatedTrip(s);
    TextRulesTrip(s);
    NumberRulesTrip(s);
    ArrayRulesTrip(s);
    ObjectRulesTrip(s);
    CompositionTrip(s);
    ConditionalTrip(s);
    DiscriminatorPart(s);
    ParseIs(P.Emit(s));
  }

  lemma DiscriminatorPart(s: Schema)
    requires Storable(s)
    ensures ParseDiscriminator(P.DiscriminatorOf(s.disc)) == AgainDiscriminator(s.disc)
  {
    DiscriminatorTrip(s.disc);
  }
}
