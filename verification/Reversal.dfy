/** Schemas in the parser's normal form: a round trip reverses their properties, and nothing else. */
module Reversal {
  import opened Json
  import opened Schemas
  import opened TypeNames
  import opened SchemaParser
  import opened RoundTrip
  import P = Printer

  // ----- the normal form -----

  predicate NormalCount(n: int) {
    n >= -1
  }

  /** Every name is there. */
  predicate AllNamed(names: seq<Option<string>>) {
    forall i | 0 <= i < |names| :: names[i].Some?
  }

  predicate NormalRequirements(ds: seq<DependentRequired>) {
    forall i | 0 <= i < |ds| :: AllNamed(ds[i].required)
  }

  predicate AllTargeted(ms: seq<Mapping>) {
    forall i | 0 <= i < |ms| :: ms[i].ref.Some?
  }

  predicate NormalDiscriminator(d: Discriminator) {
    (d.property.None? ==> d.mapping == []) && AllTargeted(d.mapping)
  }

  /** The schemas a round trip keeps up to reversal: counts are -1 or more, additionalProperties is no
      boolean, no unevaluated keyword, no null sub-schema, no null name in dependentRequired and no null
      target in a mapping is there, and a mapping has a property name.
      `ParsedForms` says for which documents the parser produces them. */
  predicate Normal(s: Schema)
    decreases s
  {
    && s.typeMask & KNOWN == s.typeMask && (s.nullable ==> s.typeMask & 0x01 != 0)
    && NormalCount(s.str.minLength) && NormalCount(s.str.maxLength)
    && NormalArray(s.arr) && NormalObject(s.obj) && NormalComposition(s.comp) && NormalConditional(s.cond)
    && (s.enumValues.Some? ==> s.enumValues.value.JArr?)
    && NormalDiscriminator(s.disc)
    && s.uneval == Unevaluated(false, None, false, None)
  }

  predicate NormalOpt(o: Option<Schema>)
    decreases o
  {
    o.Some? ==> Normal(o.value)
  }

  predicate NormalAll(os: seq<Option<Schema>>)
    decreases os
  {
    forall i | 0 <= i < |os| :: os[i].Some? && NormalOpt(os[i])
  }

  predicate NormalArray(r: ArrayRules)
    decreases r
  {
    && NormalOpt(r.items) && NormalAll(r.prefixItems) && NormalOpt(r.contains)
    && NormalCount(r.minItems) && NormalCount(r.maxItems)
    && NormalCount(r.minContains) && NormalCount(r.maxContains)
  }

  predicate NormalProperties(ps: seq<Property>)
    decreases ps
  {
    forall i | 0 <= i < |ps| :: Normal(ps[i].schema)
  }

  predicate NormalPatterns(ps: seq<PatternProperty>)
    decreases ps
  {
    forall i | 0 <= i < |ps| :: ps[i].schema.Some? && NormalOpt(ps[i].schema)
  }

  predicate NormalDependents(ds: seq<DependentSchema>)
    decreases ds
  {
    forall i | 0 <= i < |ds| :: ds[i].schema.Some? && NormalOpt(ds[i].schema)
  }

  predicate NormalObject(r: ObjectRules)
    decreases r
  {
    && NormalProperties(r.properties)
    && !r.additionalIsBool && NormalOpt(r.additional)
    && NormalCount(r.minProperties) && NormalCount(r.maxProperties) && NormalOpt(r.propertyNames)
    && NormalPatterns(r.patternProperties) && NormalRequirements(r.dependentRequired)
    && NormalDependents(r.dependentSchemas)
  }

  predicate NormalComposition(c: Composition)
    decreases c
  {
    NormalAll(c.allOf) && NormalAll(c.anyOf) && NormalAll(c.oneOf) && NormalOpt(c.notSchema)
  }

  predicate NormalConditional(c: Conditional)
    decreases c
  {
    NormalOpt(c.ifSchema) && NormalOpt(c.thenSchema) && NormalOpt(c.elseSchema)
  }

  // ----- reversal -----

  /** References unresolved, the properties of every level reversed. */
  function Flip(s: Schema): Schema
    decreases s
  {
    Schema(s.ref, None, s.typeMask, s.nullable, s.meta, s.str, s.num,
           FlipArray(s.arr), FlipObject(s.obj), FlipComposition(s.comp), FlipConditional(s.cond),
           s.constValue, s.enumValues, s.readOnly, s.writeOnly, s.disc, s.uneval)
  }

  function FlipOpt(o: Option<Schema>): (r: Option<Schema>)
    ensures r.Some? <==> o.Some?
    decreases o
  {
    if o.Some? then Some(Flip(o.value)) else None
  }

  function FlipAll(os: seq<Option<Schema>>): (r: seq<Option<Schema>>)
    ensures |r| == |os|
    ensures forall i | 0 <= i < |os| :: r[i] == FlipOpt(os[i])
    decreases os
  {
    if os == [] then []
    else FlipAll(os[..|os| - 1]) + [FlipOpt(os[|os| - 1])]
  }

  function FlipArray(r: ArrayRules): ArrayRules
    decreases r
  {
    r.(items := FlipOpt(r.items), prefixItems := FlipAll(r.prefixItems), contains := FlipOpt(r.contains))
  }

  function FlipProperty(p: Property): Property
    decreases p
  {
    Property(p.name, Flip(p.schema))
  }

  function FlipProperties(ps: seq<Property>): (r: seq<Property>)
    ensures |r| == |ps|
    ensures forall i | 0 <= i < |ps| :: r[i] == FlipProperty(ps[|ps| - 1 - i])
    decreases ps
  {
    if ps == [] then []
    else [FlipProperty(ps[|ps| - 1])] + FlipProperties(ps[..|ps| - 1])
  }

  function FlipPatterns(ps: seq<PatternProperty>): (r: seq<PatternProperty>)
    ensures |r| == |ps|
    ensures forall i | 0 <= i < |ps| :: r[i] == PatternProperty(ps[i].pattern, FlipOpt(ps[i].schema))
    decreases ps
  {
    if ps == [] then []
    else FlipPatterns(ps[..|ps| - 1]) + [PatternProperty(ps[|ps| - 1].pattern, FlipOpt(ps[|ps| - 1].schema))]
  }

  function FlipDependents(ds: seq<DependentSchema>): (r: seq<DependentSchema>)
    ensures |r| == |ds|
    ensures forall i | 0 <= i < |ds| :: r[i] == DependentSchema(ds[i].property, FlipOpt(ds[i].schema))
    decreases ds
  {
    if ds == [] then []
    else FlipDependents(ds[..|ds| - 1]) + [DependentSchema(ds[|ds| - 1].property, FlipOpt(ds[|ds| - 1].schema))]
  }

  function FlipObject(r: ObjectRules): ObjectRules
    decreases r
  {
    ObjectRules(FlipProperties(r.properties), r.required, FlipOpt(r.additional), r.additionalIsBool,
                r.minProperties, r.maxProperties, FlipOpt(r.propertyNames),
                FlipPatterns(r.patternProperties), r.dependentRequired, FlipDependents(r.dependentSchemas))
  }

  function FlipComposition(c: Composition): Composition
    decreases c
  {
    Composition(FlipAll(c.allOf), FlipAll(c.anyOf), FlipAll(c.oneOf), FlipOpt(c.notSchema))
  }

  function FlipConditional(c: Conditional): Conditional
    decreases c
  {
    Conditional(FlipOpt(c.ifSchema), FlipOpt(c.thenSchema), FlipOpt(c.elseSchema))
  }

  // ----- one round trip -----

  lemma SnocSame<T>(a: seq<T>, x: T, b: seq<T>, y: T)
    ensures a + [x] == b + [y] <==> a == b && x == y
  {
    if a + [x] == b + [y] {
      assert (a + [x])[..|a|] == a && (b + [y])[..|b|] == b;
      assert (a + [x])[|a|] == x && (b + [y])[|b|] == y;
    }
  }

  lemma ConsSame<T>(a: seq<T>, x: T, b: seq<T>, y: T)
    ensures [x] + a == [y] + b <==> a == b && x == y
  {
    if [x] + a == [y] + b {
      assert ([x] + a)[1..] == a && ([y] + b)[1..] == b;
      assert ([x] + a)[0] == x && ([y] + b)[0] == y;
    }
  }

  lemma AgainOptIsFlip(o: Option<Schema>)
    ensures AgainOpt(o) == FlipOpt(o) <==> NormalOpt(o)
    decreases o
  {
    hide Again, Flip;
    if o.Some? { AgainIsFlip(o.value); }
  }

  lemma {:induction false} AgainAllIsFlip(os: seq<Option<Schema>>)
    ensures AgainAll(os) == FlipAll(os) <==> NormalAll(os)
    ensures |AgainAll(os)| <= |os|
    decreases os
  {
    hide Again, Flip, Normal, AgainOpt, FlipOpt, NormalOpt;
    if os != [] {
      var n := |os| - 1;
      AgainAllIsFlip(os[..n]);
      AgainOptIsFlip(os[n]);
      SnocSame(AgainAll(os[..n]), AgainOpt(os[n]), FlipAll(os[..n]), FlipOpt(os[n]));
      assert |FlipAll(os)| == n + 1;
    }
  }

  lemma PropertiesEnd(ps: seq<Property>, n: nat)
    requires |ps| == n + 1
    ensures AgainProperties(ps) == [Property(ps[n].name, Again(ps[n].schema))] + AgainProperties(ps[..n])
    ensures FlipProperties(ps) == [FlipProperty(ps[n])] + FlipProperties(ps[..n])
  {
    hide Again, Flip, FlipProperty;
  }

  lemma NormalPropertiesEnd(ps: seq<Property>, n: nat)
    requires |ps| == n + 1
    ensures NormalProperties(ps) <==> NormalProperties(ps[..n]) && Normal(ps[n].schema)
  {
    hide Normal;
    assert forall i | 0 <= i < n :: ps[..n][i] == ps[i];
    if NormalProperties(ps[..n]) && Normal(ps[n].schema) {
      forall i | 0 <= i < |ps| ensures Normal(ps[i].schema) {
        if i < n { assert Normal(ps[..n][i].schema); }
      }
    }
  }

  lemma {:induction false} AgainPropertiesIsFlip(ps: seq<Property>)
    ensures AgainProperties(ps) == FlipProperties(ps) <==> NormalProperties(ps)
    decreases ps
  {
    hide Again, Flip, Normal;
    if ps != [] {
      var n := |ps| - 1;
      PropertiesEnd(ps, n);
      NormalPropertiesEnd(ps, n);
      hide AgainProperties, FlipProperties, NormalProperties;
      AgainPropertiesIsFlip(ps[..n]);
      AgainIsFlip(ps[n].schema);
      ConsSame(AgainProperties(ps[..n]), Property(ps[n].name, Again(ps[n].schema)),
               FlipProperties(ps[..n]), FlipProperty(ps[n]));
    }
  }

  lemma {:induction false} AgainPatternsIsFlip(ps: seq<PatternProperty>)
    ensures AgainPatterns(ps) == FlipPatterns(ps) <==> NormalPatterns(ps)
    ensures |AgainPatterns(ps)| <= |ps|
    decreases ps
  {
    hide Again, Flip, Normal, AgainOpt, FlipOpt, NormalOpt;
    if ps != [] {
      var n := |ps| - 1;
      AgainPatternsIsFlip(ps[..n]);
      AgainOptIsFlip(ps[n].schema);
      SnocSame(AgainPatterns(ps[..n]), PatternProperty(ps[n].pattern, AgainOpt(ps[n].schema)),
               FlipPatterns(ps[..n]), PatternProperty(ps[n].pattern, FlipOpt(ps[n].schema)));
      assert |FlipPatterns(ps)| == n + 1;
    }
  }

  lemma DependentsEnd(ds: seq<DependentSchema>, n: nat)
    requires |ds| == n + 1
    ensures AgainDependents(ds) ==
      AgainDependents(ds[..n])
      + (if ds[n].schema.Some? then [DependentSchema(ds[n].property, AgainOpt(ds[n].schema))] else [])
    ensures FlipDependents(ds) == FlipDependents(ds[..n]) + [DependentSchema(ds[n].property, FlipOpt(ds[n].schema))]
  {
    hide AgainOpt, FlipOpt;
  }

  lemma NormalDependentsEnd(ds: seq<DependentSchema>, n: nat)
    requires |ds| == n + 1
    ensures NormalDependents(ds) <==> NormalDependents(ds[..n]) && ds[n].schema.Some? && NormalOpt(ds[n].schema)
  {
    hide NormalOpt;
    assert forall i | 0 <= i < n :: ds[..n][i] == ds[i];
    if NormalDependents(ds[..n]) && ds[n].schema.Some? && NormalOpt(ds[n].schema) {
      forall i | 0 <= i < |ds| ensures ds[i].schema.Some? && NormalOpt(ds[i].schema) {
        if i < n { assert NormalOpt(ds[..n][i].schema); }
      }
    }
  }

  lemma {:induction false} AgainDependentsIsFlip(ds: seq<DependentSchema>)
    ensures AgainDependents(ds) == FlipDependents(ds) <==> NormalDependents(ds)
    ensures |AgainDependents(ds)| <= |ds|
    decreases ds
  {
    hide Again, Flip, Normal, AgainOpt, FlipOpt, NormalOpt;
    if ds != [] {
      var n := |ds| - 1;
      DependentsEnd(ds, n);
      NormalDependentsEnd(ds, n);
      hide AgainDependents, FlipDependents, NormalDependents;
      AgainDependentsIsFlip(ds[..n]);
      AgainOptIsFlip(ds[n].schema);
      SnocSame(AgainDependents(ds[..n]), DependentSchema(ds[n].property, AgainOpt(ds[n].schema)),
               FlipDependents(ds[..n]), DependentSchema(ds[n].property, FlipOpt(ds[n].schema)));
      assert |FlipDependents(ds)| == n + 1;
    }
  }

  lemma {:induction false} PresentIsSame(names: seq<Option<string>>)
    ensures Present(names) == names <==> AllNamed(names)
    ensures |Present(names)| <= |names|
    decreases |names|
  {
    if names != [] {
      var n := |names| - 1;
      PresentIsSame(names[..n]);
      SnocSame(Present(names[..n]), names[n], names[..n], names[n]);
      assert names == names[..n] + [names[n]];
    }
  }

  lemma AgainRequirementsIsSame(ds: seq<DependentRequired>)
    ensures AgainRequirements(ds) == ds <==> NormalRequirements(ds)
  {
    hide Present, AllNamed;
    forall i | 0 <= i < |ds| ensures AgainRequirements(ds)[i] == ds[i] <==> AllNamed(ds[i].required) {
      PresentIsSame(ds[i].required);
    }
  }

  lemma {:induction false} TargetedIsSame(ms: seq<Mapping>)
    ensures Targeted(ms) == ms <==> AllTargeted(ms)
    ensures |Targeted(ms)| <= |ms|
    decreases |ms|
  {
    if ms != [] {
      var n := |ms| - 1;
      TargetedIsSame(ms[..n]);
      SnocSame(Targeted(ms[..n]), ms[n], ms[..n], ms[n]);
      assert ms == ms[..n] + [ms[n]];
    }
  }

  lemma AgainDiscriminatorIsSame(d: Discriminator)
    ensures AgainDiscriminator(d) == d <==> NormalDiscriminator(d)
  {
    hide Targeted;
    TargetedIsSame(d.mapping);
  }

  lemma AgainArrayIsFlip(r: ArrayRules)
    ensures AgainArray(r) == FlipArray(r) <==> NormalArray(r)
    decreases r
  {
    hide Again, Flip, Normal, AgainOpt, FlipOpt, NormalOpt, AgainAll, FlipAll, NormalAll;
    AgainOptIsFlip(r.items);
    AgainAllIsFlip(r.prefixItems);
    AgainOptIsFlip(r.contains);
  }

  lemma AgainObjectIsFlip(r: ObjectRules)
    ensures AgainObject(r) == FlipObject(r) <==> NormalObject(r)
    decreases r
  {
    hide Again, Flip, Normal, AgainOpt, NormalOpt, AgainProperties, FlipProperties, AgainPatterns, FlipPatterns,
      AgainDependents, FlipDependents, NormalProperties, NormalPatterns, NormalDependents, AgainRequirements,
      NormalRequirements;
    AgainRequirementsIsSame(r.dependentRequired);
    AgainPropertiesIsFlip(r.properties);
    AgainOptIsFlip(r.additional);
    AgainOptIsFlip(r.propertyNames);
    AgainPatternsIsFlip(r.patternProperties);
    AgainDependentsIsFlip(r.dependentSchemas);
  }

  lemma AgainCompositionIsFlip(c: Composition)
    ensures AgainComposition(c) == FlipComposition(c) <==> NormalComposition(c)
    decreases c
  {
    hide Again, Flip, Normal, AgainOpt, FlipOpt, NormalOpt, AgainAll, FlipAll, NormalAll;
    AgainAllIsFlip(c.allOf);
    AgainAllIsFlip(c.anyOf);
    AgainAllIsFlip(c.oneOf);
    AgainOptIsFlip(c.notSchema);
  }

  lemma AgainConditionalIsFlip(c: Conditional)
    ensures AgainConditional(c) == FlipConditional(c) <==> NormalConditional(c)
    decreases c
  {
    hide Again, Flip, Normal, AgainOpt, FlipOpt, NormalOpt;
    AgainOptIsFlip(c.ifSchema);
    AgainOptIsFlip(c.thenSchema);
    AgainOptIsFlip(c.elseSchema);
  }

  lemma MaskSame(s: Schema)
    ensures AgainMask(s) == s.typeMask <==>
      s.typeMask & KNOWN == s.typeMask && (s.nullable ==> s.typeMask & 0x01 != 0)
  {
  }

  /** A round trip is the reversal exactly on the normal form. */
  lemma {:induction false} AgainIsFlip(s: Schema)
    ensures Again(s) == Flip(s) <==> Normal(s)
    decreases s
  {
    hide AgainArray, FlipArray, AgainObject, FlipObject, AgainComposition, FlipComposition, AgainConditional,
      FlipConditional, NormalArray, NormalObject, NormalComposition, NormalConditional, AgainMask, AgainDiscriminator,
      NormalDiscriminator;
    MaskSame(s);
    AgainDiscriminatorIsSame(s.disc);
    AgainArrayIsFlip(s.arr);
    AgainObjectIsFlip(s.obj);
    AgainCompositionIsFlip(s.comp);
    AgainConditionalIsFlip(s.cond);
  }

  /** A round trip only reverses the properties and forgets where references led, exactly on the normal
      form. */
  lemma NormalRoundTrip(s: Schema)
    requires Storable(s)
    ensures Parse(P.Emit(s)) == Some(Flip(s)) <==> Normal(s)
  {
    hide Storable, Normal, Again, Flip, Parse, P.Emit;
    RoundTrip.RoundTrip(s);
    AgainIsFlip(s);
  }

  // ----- two round trips -----

  /** No reference in the schema is resolved. */
  predicate Unlinked(s: Schema)
    decreases s
  {
    s.refResolved.None? && UnlinkedArray(s.arr) && UnlinkedObject(s.obj) && UnlinkedComposition(s.comp)
    && UnlinkedConditional(s.cond)
  }

  predicate UnlinkedOpt(o: Option<Schema>)
    decreases o
  {
    o.Some? ==> Unlinked(o.value)
  }

  predicate UnlinkedAll(os: seq<Option<Schema>>)
    decreases os
  {
    forall i | 0 <= i < |os| :: UnlinkedOpt(os[i])
  }

  predicate UnlinkedArray(r: ArrayRules)
    decreases r
  {
    UnlinkedOpt(r.items) && UnlinkedAll(r.prefixItems) && UnlinkedOpt(r.contains)
  }

  predicate UnlinkedProperties(ps: seq<Property>)
    decreases ps
  {
    forall i | 0 <= i < |ps| :: Unlinked(ps[i].schema)
  }

  predicate UnlinkedPatterns(ps: seq<PatternProperty>)
    decreases ps
  {
    forall i | 0 <= i < |ps| :: UnlinkedOpt(ps[i].schema)
  }

  predicate UnlinkedDependents(ds: seq<DependentSchema>)
    decreases ds
  {
    forall i | 0 <= i < |ds| :: UnlinkedOpt(ds[i].schema)
  }

  predicate UnlinkedObject(r: ObjectRules)
    decreases r
  {
    && UnlinkedProperties(r.properties) && UnlinkedOpt(r.additional) && UnlinkedOpt(r.propertyNames)
    && UnlinkedPatterns(r.patternProperties) && UnlinkedDependents(r.dependentSchemas)
  }

  predicate UnlinkedComposition(c: Composition)
    decreases c
  {
    UnlinkedAll(c.allOf) && UnlinkedAll(c.anyOf) && UnlinkedAll(c.oneOf) && UnlinkedOpt(c.notSchema)
  }

  predicate UnlinkedConditional(c: Conditional)
    decreases c
  {
    UnlinkedOpt(c.ifSchema) && UnlinkedOpt(c.thenSchema) && UnlinkedOpt(c.elseSchema)
  }

  /** The schema with no reference resolved, at any level. */
  function Unlink(s: Schema): Schema
    decreases s
  {
    s.(refResolved := None, arr := UnlinkArray(s.arr), obj := UnlinkObject(s.obj),
       comp := UnlinkComposition(s.comp), cond := UnlinkConditional(s.cond))
  }

  function UnlinkOpt(o: Option<Schema>): Option<Schema>
    decreases o
  {
    if o.Some? then Some(Unlink(o.value)) else None
  }

  function UnlinkAll(os: seq<Option<Schema>>): seq<Option<Schema>>
    decreases os
  {
    seq(|os|, i requires 0 <= i < |os| => UnlinkOpt(os[i]))
  }

  function UnlinkArray(r: ArrayRules): ArrayRules
    decreases r
  {
    r.(items := UnlinkOpt(r.items), prefixItems := UnlinkAll(r.prefixItems), contains := UnlinkOpt(r.contains))
  }

  function UnlinkProperties(ps: seq<Property>): seq<Property>
    decreases ps
  {
    seq(|ps|, i requires 0 <= i < |ps| => Property(ps[i].name, Unlink(ps[i].schema)))
  }

  function UnlinkPatterns(ps: seq<PatternProperty>): seq<PatternProperty>
    decreases ps
  {
    seq(|ps|, i requires 0 <= i < |ps| => PatternProperty(ps[i].pattern, UnlinkOpt(ps[i].schema)))
  }

  function UnlinkDependents(ds: seq<DependentSchema>): seq<DependentSchema>
    decreases ds
  {
    seq(|ds|, i requires 0 <= i < |ds| => DependentSchema(ds[i].property, UnlinkOpt(ds[i].schema)))
  }

  function UnlinkObject(r: ObjectRules): ObjectRules
    decreases r
  {
    r.(properties := UnlinkProperties(r.properties), additional := UnlinkOpt(r.additional),
       propertyNames := UnlinkOpt(r.propertyNames), patternProperties := UnlinkPatterns(r.patternProperties),
       dependentSchemas := UnlinkDependents(r.dependentSchemas))
  }

  function UnlinkComposition(c: Composition): Composition
    decreases c
  {
    Composition(UnlinkAll(c.allOf), UnlinkAll(c.anyOf), UnlinkAll(c.oneOf), UnlinkOpt(c.notSchema))
  }

  function UnlinkConditional(c: Conditional): Conditional
    decreases c
  {
    Conditional(UnlinkOpt(c.ifSchema), UnlinkOpt(c.thenSchema), UnlinkOpt(c.elseSchema))
  }

  /** What one reversal keeps: `Storable` and `Normal` hold before and after, no reference stays
      resolved, and reversing again undoes it but for the links; without links there is nothing to lose. */
  ghost predicate Kept(s: Schema) {
    && Unlinked(Flip(s))
    && (Storable(s) ==> Storable(Flip(s)))
    && (Normal(s) ==> Normal(Flip(s)))
    && Flip(Flip(s)) == Unlink(s)
    && (Unlinked(s) ==> Unlink(s) == s)
  }

  ghost predicate KeptOpt(o: Option<Schema>) {
    && UnlinkedOpt(FlipOpt(o))
    && (StorableOpt(o) ==> StorableOpt(FlipOpt(o)))
    && (NormalOpt(o) ==> NormalOpt(FlipOpt(o)))
    && FlipOpt(FlipOpt(o)) == UnlinkOpt(o)
    && (UnlinkedOpt(o) ==> UnlinkOpt(o) == o)
  }

  lemma FlipOptKeeps(o: Option<Schema>)
    ensures KeptOpt(o)
    decreases o
  {
    hide Flip, Storable, Normal, Unlinked;
    if o.Some? { FlipKeeps(o.value); }
  }

  lemma FlipAllKeeps(os: seq<Option<Schema>>)
    ensures UnlinkedAll(FlipAll(os))
    ensures StorableAll(os) ==> StorableAll(FlipAll(os))
    ensures NormalAll(os) ==> NormalAll(FlipAll(os))
    ensures FlipAll(FlipAll(os)) == UnlinkAll(os)
    ensures UnlinkedAll(os) ==> UnlinkAll(os) == os
    decreases os
  {
    hide FlipAll, FlipOpt, StorableOpt, NormalOpt, UnlinkedOpt;
    forall i | 0 <= i < |os| ensures KeptOpt(os[i]) {
      FlipOptKeeps(os[i]);
    }
  }

  lemma FlipPropertiesKeeps(ps: seq<Property>)
    ensures UnlinkedProperties(FlipProperties(ps))
    ensures StorableProperties(ps) ==> StorableProperties(FlipProperties(ps))
    ensures NormalProperties(ps) ==> NormalProperties(FlipProperties(ps))
    ensures FlipProperties(FlipProperties(ps)) == UnlinkProperties(ps)
    ensures UnlinkedProperties(ps) ==> UnlinkProperties(ps) == ps
    decreases ps
  {
    hide FlipProperties, Flip, Storable, Normal, Unlinked;
    forall i | 0 <= i < |ps| ensures Kept(ps[i].schema) {
      FlipKeeps(ps[i].schema);
    }
    var r := FlipProperties(ps);
    forall i | 0 <= i < |ps| ensures FlipProperties(r)[i] == FlipProperty(FlipProperty(ps[i])) {
      assert r[|ps| - 1 - i] == FlipProperty(ps[i]);
    }
  }

  lemma FlipPatternsKeeps(ps: seq<PatternProperty>)
    ensures UnlinkedPatterns(FlipPatterns(ps))
    ensures StorablePatterns(ps) ==> StorablePatterns(FlipPatterns(ps))
    ensures NormalPatterns(ps) ==> NormalPatterns(FlipPatterns(ps))
    ensures FlipPatterns(FlipPatterns(ps)) == UnlinkPatterns(ps)
    ensures UnlinkedPatterns(ps) ==> UnlinkPatterns(ps) == ps
    decreases ps
  {
    hide FlipPatterns, FlipOpt, StorableOpt, NormalOpt, UnlinkedOpt;
    forall i | 0 <= i < |ps| ensures KeptOpt(ps[i].schema) {
      FlipOptKeeps(ps[i].schema);
    }
  }

  lemma FlipDependentsKeeps(ds: seq<DependentSchema>)
    ensures UnlinkedDependents(FlipDependents(ds))
    ensures StorableDependents(ds) ==> StorableDependents(FlipDependents(ds))
    ensures NormalDependents(ds) ==> NormalDependents(FlipDependents(ds))
    ensures FlipDependents(FlipDependents(ds)) == UnlinkDependents(ds)
    ensures UnlinkedDependents(ds) ==> UnlinkDependents(ds) == ds
    decreases ds
  {
    hide FlipDependents, FlipOpt, StorableOpt, NormalOpt, UnlinkedOpt;
    forall i | 0 <= i < |ds| ensures KeptOpt(ds[i].schema) {
      FlipOptKeeps(ds[i].schema);
    }
  }

  lemma FlipArrayKeeps(r: ArrayRules)
    ensures UnlinkedArray(FlipArray(r))
    ensures StorableArray(r) ==> StorableArray(FlipArray(r))
    ensures NormalArray(r) ==> NormalArray(FlipArray(r))
    ensures FlipArray(FlipArray(r)) == UnlinkArray(r)
    ensures UnlinkedArray(r) ==> UnlinkArray(r) == r
    decreases r
  {
    hide FlipAll, FlipOpt, StorableOpt, NormalOpt, UnlinkedOpt, StorableAll, NormalAll, UnlinkedAll;
    FlipOptKeeps(r.items);
    FlipAllKeeps(r.prefixItems);
    FlipOptKeeps(r.contains);
  }

  lemma FlipObjectKeeps(r: ObjectRules)
    ensures UnlinkedObject(FlipObject(r))
    ensures StorableObject(r) ==> StorableObject(FlipObject(r))
    ensures NormalObject(r) ==> NormalObject(FlipObject(r))
    ensures FlipObject(FlipObject(r)) == UnlinkObject(r)
    ensures UnlinkedObject(r) ==> UnlinkObject(r) == r
    decreases r
  {
    hide FlipOpt, StorableOpt, NormalOpt, UnlinkedOpt, FlipProperties, FlipPatterns, FlipDependents, StorableProperties,
      StorablePatterns, StorableRequirements, StorableDependents, NormalProperties, NormalPatterns, NormalDependents,
      UnlinkedProperties, UnlinkedPatterns, UnlinkedDependents, CNames;
    FlipPropertiesKeeps(r.properties);
    FlipOptKeeps(r.additional);
    FlipOptKeeps(r.propertyNames);
    FlipPatternsKeeps(r.patternProperties);
    FlipDependentsKeeps(r.dependentSchemas);
  }

  lemma FlipCompositionKeeps(c: Composition)
    ensures UnlinkedComposition(FlipComposition(c))
    ensures StorableComposition(c) ==> StorableComposition(FlipComposition(c))
    ensures NormalComposition(c) ==> NormalComposition(FlipComposition(c))
    ensures FlipComposition(FlipComposition(c)) == UnlinkComposition(c)
    ensures UnlinkedComposition(c) ==> UnlinkComposition(c) == c
    decreases c
  {
    hide FlipAll, FlipOpt, StorableOpt, NormalOpt, UnlinkedOpt, StorableAll, NormalAll, UnlinkedAll;
    FlipAllKeeps(c.allOf);
    FlipAllKeeps(c.anyOf);
    FlipAllKeeps(c.oneOf);
    FlipOptKeeps(c.notSchema);
  }

  lemma FlipConditionalKeeps(c: Conditional)
    ensures UnlinkedConditional(FlipConditional(c))
    ensures StorableConditional(c) ==> StorableConditional(FlipConditional(c))
    ensures NormalConditional(c) ==> NormalConditional(FlipConditional(c))
    ensures FlipConditional(FlipConditional(c)) == UnlinkConditional(c)
    ensures UnlinkedConditional(c) ==> UnlinkConditional(c) == c
    decreases c
  {
    hide FlipOpt, StorableOpt, NormalOpt, UnlinkedOpt;
    FlipOptKeeps(c.ifSchema);
    FlipOptKeeps(c.thenSchema);
    FlipOptKeeps(c.elseSchema);
  }

  lemma {:induction false} FlipKeeps(s: Schema)
    ensures Kept(s)
    decreases s
  {
    hide FlipArray, FlipObject, FlipComposition, FlipConditional, StorableArray, StorableObject, StorableComposition,
      StorableConditional, NormalArray, NormalObject, NormalComposition, NormalConditional, UnlinkedArray,
      UnlinkedObject, UnlinkedComposition, UnlinkedConditional, CText;
    FlipArrayKeeps(s.arr);
    FlipObjectKeeps(s.obj);
    FlipCompositionKeeps(s.comp);
    FlipConditionalKeeps(s.cond);
  }

  /** Two round trips give the schema itself with every reference unresolved. */
  lemma TwoRoundTrips(s: Schema)
    requires Storable(s) && Normal(s)
    ensures var once := Parse(P.Emit(s));
      once.Some? && Unlinked(once.value) && Parse(P.Emit(once.value)) == Some(Unlink(s))
    ensures Unlinked(s) ==> Unlink(s) == s
  {
    hide Storable, Normal, Flip, Parse, P.Emit, Unlinked;
    NormalRoundTrip(s);
    FlipKeeps(s);
    NormalRoundTrip(Flip(s));
  }

  // ----- the meaning -----

  lemma OptMeans(e: Env, o: Option<Schema>, v: Value)
    requires UnlinkedOpt(o)
    ensures SatisfiesOpt(e, FlipOpt(o), v) <==> SatisfiesOpt(e, o, v)
    decreases o, 0
  {
    hide Satisfies, Flip, Unlinked;
    if o.Some? { FlipMeans(e, o.value, v); }
  }

  lemma AllMean(e: Env, os: seq<Option<Schema>>, v: Value)
    requires UnlinkedAll(os)
    ensures forall i | 0 <= i < |os| :: SatisfiesOpt(e, FlipAll(os)[i], v) <==> SatisfiesOpt(e, os[i], v)
    ensures Passing(e, FlipAll(os), v) == Passing(e, os, v)
    decreases os, 0
  {
    hide SatisfiesOpt, FlipAll, FlipOpt, UnlinkedOpt;
    forall i | 0 <= i < |os| ensures SatisfiesOpt(e, FlipAll(os)[i], v) <==> SatisfiesOpt(e, os[i], v) {
      OptMeans(e, os[i], v);
    }
  }

  lemma PrefixMeans(e: Env, os: seq<Option<Schema>>, v: Value)
    requires UnlinkedAll(os)
    ensures PrefixOk(e, FlipAll(os), v) <==> PrefixOk(e, os, v)
    decreases os, 0
  {
    hide SatisfiesOpt, FlipAll, FlipOpt, UnlinkedOpt;
    forall i | v.JArr? && 0 <= i < |os| && i % 0x1_0000 < |v.items|
      ensures SatisfiesOpt(e, FlipAll(os)[i], v.items[i % 0x1_0000]) <==> SatisfiesOpt(e, os[i], v.items[i % 0x1_0000])
    {
      OptMeans(e, os[i], v.items[i % 0x1_0000]);
    }
  }

  lemma ItemsMean(e: Env, o: Option<Schema>, v: Value)
    requires UnlinkedOpt(o)
    ensures ItemsOk(e, FlipOpt(o), v) <==> ItemsOk(e, o, v)
    decreases o, 1
  {
    hide SatisfiesOpt, FlipOpt, UnlinkedOpt;
    forall i | v.JArr? && 0 <= i < |v.items|
      ensures SatisfiesOpt(e, FlipOpt(o), v.items[i]) <==> SatisfiesOpt(e, o, v.items[i])
    {
      OptMeans(e, o, v.items[i]);
    }
  }

  lemma MatchedSame(e: Env, s: Schema, vs: seq<Value>)
    requires Unlinked(s)
    ensures Matched(e, Flip(s), vs) == Matched(e, s, vs)
    decreases s, 1
  {
    hide Satisfies, Flip, Unlinked;
    forall i | 0 <= i < |vs| ensures Satisfies(e, Flip(s), vs[i]) <==> Satisfies(e, s, vs[i]) {
      FlipMeans(e, s, vs[i]);
    }
  }

  lemma ArrayMeans(e: Env, r: ArrayRules, v: Value)
    requires UnlinkedArray(r)
    ensures ArrayOk(e, FlipArray(r), v) <==> ArrayOk(e, r, v)
    decreases r, 0
  {
    hide Satisfies, SatisfiesOpt, Flip, Unlinked, FlipAll, UnlinkedAll, PrefixOk, ItemsOk, Matched;
    PrefixMeans(e, r.prefixItems, v);
    ItemsMean(e, r.items, v);
    if v.JArr? && r.contains.Some? {
      MatchedSame(e, r.contains.value, v.items);
    }
  }

  lemma PropertiesMean(e: Env, ps: seq<Property>, v: Value)
    requires UnlinkedProperties(ps)
    ensures PropertiesOk(e, FlipProperties(ps), v) <==> PropertiesOk(e, ps, v)
    decreases ps, 0
  {
    hide Satisfies, Flip, Unlinked, FlipProperties, Get;
    var r := FlipProperties(ps);
    forall i | 0 <= i < |ps|
      ensures PropertyHolds(e, r[|ps| - 1 - i], v) <==> PropertyHolds(e, ps[i], v)
    {
      assert r[|ps| - 1 - i] == FlipProperty(ps[i]);
      if Get(v, ps[i].name).Some? {
        FlipMeans(e, ps[i].schema, Get(v, ps[i].name).value);
      }
    }
    assert PropertiesOk(e, r, v) <==> forall i | 0 <= i < |ps| :: PropertyHolds(e, r[i], v);
    assert PropertiesOk(e, ps, v) <==> forall i | 0 <= i < |ps| :: PropertyHolds(e, ps[i], v);
    forall i | 0 <= i < |ps| && PropertiesOk(e, ps, v) ensures PropertyHolds(e, r[i], v) {
      assert PropertyHolds(e, ps[|ps| - 1 - i], v);
    }
  }

  ghost predicate PropertyHolds(e: Env, p: Property, v: Value) {
    Get(v, p.name).Some? ==> Satisfies(e, p.schema, Get(v, p.name).value)
  }

  lemma NamesMean(e: Env, o: Option<Schema>, v: Value)
    requires UnlinkedOpt(o)
    ensures PropertyNamesOk(e, FlipOpt(o), v) <==> PropertyNamesOk(e, o, v)
    decreases o, 1
  {
    hide SatisfiesOpt, FlipOpt, UnlinkedOpt;
    forall i | v.JObj? && 0 <= i < |v.members|
      ensures SatisfiesOpt(e, FlipOpt(o), JStr(CStr(v.members[i].key))) <==>
              SatisfiesOpt(e, o, JStr(CStr(v.members[i].key)))
    {
      OptMeans(e, o, JStr(CStr(v.members[i].key)));
    }
  }

  lemma PatternsMean(e: Env, ps: seq<PatternProperty>, v: Value)
    requires UnlinkedPatterns(ps)
    ensures PatternsOk(e, FlipPatterns(ps), v) <==> PatternsOk(e, ps, v)
    decreases ps, 0
  {
    hide SatisfiesOpt, FlipOpt, UnlinkedOpt, FlipPatterns;
    forall i, j | v.JObj? && 0 <= i < |ps| && 0 <= j < |v.members|
      ensures SatisfiesOpt(e, FlipOpt(ps[i].schema), v.members[j].value) <==>
              SatisfiesOpt(e, ps[i].schema, v.members[j].value)
    {
      OptMeans(e, ps[i].schema, v.members[j].value);
    }
  }

  lemma DependentsMean(e: Env, ds: seq<DependentSchema>, v: Value)
    requires UnlinkedDependents(ds)
    ensures DependentSchemasOk(e, FlipDependents(ds), v) <==> DependentSchemasOk(e, ds, v)
    decreases ds, 0
  {
    hide SatisfiesOpt, FlipOpt, UnlinkedOpt, FlipDependents, Get;
    forall i | 0 <= i < |ds| ensures SatisfiesOpt(e, FlipOpt(ds[i].schema), v) <==> SatisfiesOpt(e, ds[i].schema, v) {
      OptMeans(e, ds[i].schema, v);
    }
  }

  lemma ObjectMeans(e: Env, r: ObjectRules, v: Value)
    requires UnlinkedObject(r)
    ensures ObjectOk(e, FlipObject(r), v) <==> ObjectOk(e, r, v)
    decreases r, 0
  {
    hide Satisfies, SatisfiesOpt, FlipOpt, UnlinkedOpt, FlipProperties, FlipPatterns, FlipDependents, PropertiesOk,
      PropertyNamesOk, PatternsOk, DependentSchemasOk, UnlinkedProperties, UnlinkedPatterns, UnlinkedDependents,
      RequiredOk, DependentRequiredOk;
    PropertiesMean(e, r.properties, v);
    NamesMean(e, r.propertyNames, v);
    PatternsMean(e, r.patternProperties, v);
    DependentsMean(e, r.dependentSchemas, v);
  }

  lemma DiscriminatorMeans(e: Env, os: seq<Option<Schema>>, d: Discriminator, v: Value)
    requires UnlinkedAll(os) && d.property.Some?
    ensures |os| == |d.mapping| ==> (DiscriminatorOk(e, FlipAll(os), d, v) <==> DiscriminatorOk(e, os, d, v))
    decreases os, 1
  {
    hide SatisfiesOpt, FlipAll, UnlinkedAll;
    AllMean(e, os, v);
    if |os| == |d.mapping| {
      forall i ensures DiscriminatorPicks(d, v, i) ==>
                       (SatisfiesOpt(e, FlipAll(os)[i], v) <==> SatisfiesOpt(e, os[i], v)) {
      }
    }
  }

  lemma CompositionMeans(e: Env, c: Composition, d: Discriminator, v: Value)
    requires UnlinkedComposition(c)
    ensures CompositionOk(e, FlipComposition(c), d, v) <==> CompositionOk(e, c, d, v)
    decreases c, 0
  {
    hide Satisfies, SatisfiesOpt, Flip, Unlinked, FlipAll, UnlinkedAll, Passing, DiscriminatorOk;
    AllMean(e, c.allOf, v);
    AllMean(e, c.anyOf, v);
    AllMean(e, c.oneOf, v);
    if c.notSchema.Some? {
      FlipMeans(e, c.notSchema.value, v);
      assert FlipOpt(c.notSchema) == Some(Flip(c.notSchema.value));
    }
    if d.property.Some? {
      DiscriminatorMeans(e, c.anyOf, d, v);
      DiscriminatorMeans(e, c.oneOf, d, v);
    }
  }

  lemma ConditionalMeans(e: Env, c: Conditional, v: Value)
    requires UnlinkedConditional(c)
    ensures ConditionalOk(e, FlipConditional(c), v) <==> ConditionalOk(e, c, v)
    decreases c, 0
  {
    hide Satisfies, SatisfiesOpt, Flip, Unlinked;
    if c.ifSchema.Some? { FlipMeans(e, c.ifSchema.value, v); }
    OptMeans(e, c.thenSchema, v);
    OptMeans(e, c.elseSchema, v);
  }

  /** Reversal does not change what a schema without resolved references accepts. */
  lemma {:induction false} FlipMeans(e: Env, s: Schema, v: Value)
    requires Unlinked(s)
    ensures Satisfies(e, Flip(s), v) <==> Satisfies(e, s, v)
    decreases s, 0
  {
    hide FlipArray, FlipObject, FlipComposition, FlipConditional, UnlinkedArray, UnlinkedObject, UnlinkedComposition,
      UnlinkedConditional, ArrayOk, ObjectOk, CompositionOk, ConditionalOk, StringOk, NumberOk, TypeOk;
    ArrayMeans(e, s.arr, v);
    ObjectMeans(e, s.obj, v);
    CompositionMeans(e, s.comp, s.disc, v);
    ConditionalMeans(e, s.cond, v);
  }

  /** The boolean form is negated by each round trip. */
  lemma BooleanAdditionalNegated(s: Schema)
    requires Storable(s) && s.obj.additionalIsBool
    ensures var again := Parse(P.Emit(s));
      again.Some? && again.value.obj.additionalIsBool
      && (again.value.obj.additional.Some? <==> s.obj.additional.None?)
  {
    hide Parse, P.Emit, Storable;
    RoundTrip.RoundTrip(s);
    assert Again(s).obj == AgainObject(s.obj);
    assert AgainObject(s.obj).additional == AgainAdditional(s.obj);
  }
}
