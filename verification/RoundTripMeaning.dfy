/** A round trip keeps what a schema accepts, as long as no null sub-schema that counts gets lost. */
module RoundTripMeanings {
  import opened Json
  import opened Schemas
  import opened TypeNames
  import opened SchemaParser
  import opened RoundTrip
  import opened Reversal
  import P = Printer

  // ----- which schemas keep their meaning -----

  /** What a round trip loses of such a schema counts for nothing, at any level. A null name in
      dependentRequired and a null target of a mapping in use count. A null sub-schema counts in
      prefixItems in front of a schema, in anyOf beside a schema, in oneOf beside any other entry, and
      in the branches of a discriminator. Negative counts, a mapping without property name, boolean
      additionalProperties, unevaluated keywords and other null sub-schemas do not. */
  predicate Steady(s: Schema)
    decreases s
  {
    && s.typeMask & KNOWN == s.typeMask && (s.nullable ==> s.typeMask & 0x01 != 0)
    && SteadyArray(s.arr) && SteadyObject(s.obj) && SteadyComposition(s.comp) && SteadyConditional(s.cond)
    && SteadyAlternatives(s.comp, s.disc)
  }

  predicate SteadyOpt(o: Option<Schema>)
    decreases o
  {
    o.Some? ==> Steady(o.value)
  }

  predicate SteadyAll(os: seq<Option<Schema>>)
    decreases os
  {
    forall i | 0 <= i < |os| :: SteadyOpt(os[i])
  }

  predicate NoNull(os: seq<Option<Schema>>) {
    forall i | 0 <= i < |os| :: os[i].Some?
  }

  predicate OnlyNull(os: seq<Option<Schema>>) {
    forall i | 0 <= i < |os| :: os[i].None?
  }

  /** No null in front of a schema. */
  predicate NullsLast(os: seq<Option<Schema>>) {
    forall i, j | 0 <= i < j < |os| && os[j].Some? :: os[i].Some?
  }

  /** With a discriminator in use nothing may be lost of its branches and its mapping; without one, nulls
      alone are harmless in anyOf, and a single one in oneOf. */
  predicate SteadyAlternatives(c: Composition, d: Discriminator) {
    if HasDiscriminator(d) then
      && NoNull(c.oneOf) && (c.oneOf == [] ==> NoNull(c.anyOf))
      && (c.oneOf != [] || c.anyOf != [] ==> AllTargeted(d.mapping))
    else (NoNull(c.anyOf) || OnlyNull(c.anyOf)) && (NoNull(c.oneOf) || |c.oneOf| == 1)
  }

  predicate SteadyArray(r: ArrayRules)
    decreases r
  {
    SteadyOpt(r.items) && NullsLast(r.prefixItems) && SteadyAll(r.prefixItems) && SteadyOpt(r.contains)
  }

  predicate SteadyProperties(ps: seq<Property>)
    decreases ps
  {
    forall i | 0 <= i < |ps| :: Steady(ps[i].schema)
  }

  predicate SteadyPatterns(ps: seq<PatternProperty>)
    decreases ps
  {
    forall i | 0 <= i < |ps| :: SteadyOpt(ps[i].schema)
  }

  predicate SteadyDependents(ds: seq<DependentSchema>)
    decreases ds
  {
    forall i | 0 <= i < |ds| :: SteadyOpt(ds[i].schema)
  }

  predicate SteadyObject(r: ObjectRules)
    decreases r
  {
    && SteadyProperties(r.properties) && SteadyOpt(r.propertyNames)
    && SteadyPatterns(r.patternProperties) && NormalRequirements(r.dependentRequired)
    && SteadyDependents(r.dependentSchemas)
  }

  predicate SteadyComposition(c: Composition)
    decreases c
  {
    SteadyAll(c.allOf) && SteadyAll(c.anyOf) && SteadyAll(c.oneOf) && SteadyOpt(c.notSchema)
  }

  predicate SteadyConditional(c: Conditional)
    decreases c
  {
    SteadyOpt(c.ifSchema) && SteadyOpt(c.thenSchema) && SteadyOpt(c.elseSchema)
  }

  // ----- lists -----

  lemma {:induction false} AgainAllAt(os: seq<Option<Schema>>)
    requires NoNull(os)
    ensures |AgainAll(os)| == |os|
    ensures forall i | 0 <= i < |os| :: AgainAll(os)[i] == AgainOpt(os[i])
    decreases |os|
  {
    hide AgainOpt;
    if os != [] { AgainAllAt(os[..|os| - 1]); }
  }

  lemma OptMeans(e: Env, o: Option<Schema>, v: Value)
    requires UnlinkedOpt(o) && SteadyOpt(o)
    ensures SatisfiesOpt(e, AgainOpt(o), v) <==> SatisfiesOpt(e, o, v)
    decreases o, 0
  {
    hide Satisfies, Again, Unlinked, Steady;
    if o.Some? { AgainMeans(e, o.value, v); }
  }

  ghost predicate AllAccept(e: Env, os: seq<Option<Schema>>, v: Value) {
    forall i | 0 <= i < |os| :: SatisfiesOpt(e, os[i], v)
  }

  lemma AllAcceptEnd(e: Env, os: seq<Option<Schema>>, o: Option<Schema>, v: Value)
    ensures AllAccept(e, os + [o], v) <==> AllAccept(e, os, v) && SatisfiesOpt(e, o, v)
  {
    hide SatisfiesOpt;
    var all := os + [o];
    assert all[|os|] == o && forall i | 0 <= i < |os| :: all[i] == os[i];
  }

  /** In allOf a null entry accepts everything, so it may as well be lost. */
  lemma {:induction false} AllMean(e: Env, os: seq<Option<Schema>>, v: Value)
    requires UnlinkedAll(os) && SteadyAll(os)
    ensures AllAccept(e, AgainAll(os), v) <==> AllAccept(e, os, v)
    decreases os, 0
  {
    hide AllAccept, AgainOpt, UnlinkedOpt, SteadyOpt, Satisfies;
    if os != [] {
      var n := |os| - 1;
      AllMean(e, os[..n], v);
      assert os == os[..n] + [os[n]];
      OptMeans(e, os[n], v);
      AllAcceptEnd(e, os[..n], os[n], v);
      AllAcceptEnd(e, AgainAll(os[..n]), AgainOpt(os[n]), v);
      if os[n].None? { assert AgainAll(os) == AgainAll(os[..n]); }
    }
  }

  lemma EachMeans(e: Env, os: seq<Option<Schema>>, v: Value)
    requires UnlinkedAll(os) && SteadyAll(os) && NoNull(os)
    ensures |AgainAll(os)| == |os|
    ensures forall i | 0 <= i < |os| :: SatisfiesOpt(e, AgainAll(os)[i], v) <==> SatisfiesOpt(e, os[i], v)
    ensures Passing(e, AgainAll(os), v) == Passing(e, os, v)
    decreases os, 0
  {
    hide SatisfiesOpt, AgainAll, AgainOpt, UnlinkedOpt, SteadyOpt;
    AgainAllAt(os);
    forall i | 0 <= i < |os| ensures SatisfiesOpt(e, AgainAll(os)[i], v) <==> SatisfiesOpt(e, os[i], v) {
      OptMeans(e, os[i], v);
    }
  }

  lemma {:induction false} AgainNulls(os: seq<Option<Schema>>)
    requires OnlyNull(os)
    ensures AgainAll(os) == []
    decreases |os|
  {
    if os != [] { AgainNulls(os[..|os| - 1]); }
  }

  /** Nulls behind the last schema have no position to keep. */
  lemma {:induction false} PrefixMeans(e: Env, os: seq<Option<Schema>>, v: Value)
    requires UnlinkedAll(os) && SteadyAll(os) && NullsLast(os)
    ensures PrefixOk(e, AgainAll(os), v) <==> PrefixOk(e, os, v)
    decreases os, 1
  {
    hide SatisfiesOpt, AgainAll, AgainOpt, UnlinkedOpt, SteadyOpt, PrefixOk;
    if os != [] && os[|os| - 1].None? {
      var n := |os| - 1;
      PrefixMeans(e, os[..n], v);
      AgainNullLast(os, n);
      PrefixNullLast(e, os, n, v);
    } else {
      FullPrefixMeans(e, os, v);
    }
  }

  lemma AgainNullLast(os: seq<Option<Schema>>, n: nat)
    requires |os| == n + 1 && os[n].None?
    ensures AgainAll(os) == AgainAll(os[..n])
  {
    hide AgainOpt;
  }

  lemma PrefixNullLast(e: Env, os: seq<Option<Schema>>, n: nat, v: Value)
    requires |os| == n + 1 && os[n].None?
    ensures PrefixOk(e, os, v) <==> PrefixOk(e, os[..n], v)
  {
    hide Satisfies;
    assert forall i | 0 <= i < n :: os[..n][i] == os[i];
  }

  lemma FullPrefixMeans(e: Env, os: seq<Option<Schema>>, v: Value)
    requires UnlinkedAll(os) && SteadyAll(os) && NoNull(os)
    ensures PrefixOk(e, AgainAll(os), v) <==> PrefixOk(e, os, v)
    decreases os, 0
  {
    hide SatisfiesOpt, AgainAll, AgainOpt, UnlinkedOpt, SteadyOpt;
    AgainAllAt(os);
    forall i | v.JArr? && 0 <= i < |os| && i % 0x1_0000 < |v.items|
      ensures SatisfiesOpt(e, AgainAll(os)[i], v.items[i % 0x1_0000]) <==> SatisfiesOpt(e, os[i], v.items[i % 0x1_0000])
    {
      OptMeans(e, os[i], v.items[i % 0x1_0000]);
    }
  }

  // ----- arrays -----

  lemma ItemsMean(e: Env, o: Option<Schema>, v: Value)
    requires UnlinkedOpt(o) && SteadyOpt(o)
    ensures ItemsOk(e, AgainOpt(o), v) <==> ItemsOk(e, o, v)
    decreases o, 1
  {
    hide SatisfiesOpt, AgainOpt, UnlinkedOpt, SteadyOpt;
    forall i | v.JArr? && 0 <= i < |v.items|
      ensures SatisfiesOpt(e, AgainOpt(o), v.items[i]) <==> SatisfiesOpt(e, o, v.items[i])
    {
      OptMeans(e, o, v.items[i]);
    }
  }

  lemma MatchedSame(e: Env, s: Schema, vs: seq<Value>)
    requires Unlinked(s) && Steady(s)
    ensures Matched(e, Again(s), vs) == Matched(e, s, vs)
    decreases s, 1
  {
    hide Satisfies, Again, Unlinked, Steady;
    forall i | 0 <= i < |vs| ensures Satisfies(e, Again(s), vs[i]) <==> Satisfies(e, s, vs[i]) {
      AgainMeans(e, s, vs[i]);
    }
  }

  lemma ArrayMeans(e: Env, r: ArrayRules, v: Value)
    requires UnlinkedArray(r) && SteadyArray(r)
    ensures ArrayOk(e, AgainArray(r), v) <==> ArrayOk(e, r, v)
    decreases r, 0
  {
    hide Satisfies, SatisfiesOpt, Again, Unlinked, Steady, AgainAll, UnlinkedAll, SteadyAll, PrefixOk, ItemsOk, Matched,
         NullsLast;
    PrefixMeans(e, r.prefixItems, v);
    ItemsMean(e, r.items, v);
    if v.JArr? && r.contains.Some? {
      MatchedSame(e, r.contains.value, v.items);
    }
  }

  // ----- objects -----

  ghost predicate PropertyAccepts(e: Env, p: Property, v: Value) {
    Get(v, p.name).Some? ==> Satisfies(e, p.schema, Get(v, p.name).value)
  }

  lemma PropertiesFront(e: Env, p: Property, ps: seq<Property>, v: Value)
    ensures PropertiesOk(e, [p] + ps, v) <==> PropertyAccepts(e, p, v) && PropertiesOk(e, ps, v)
  {
    hide Satisfies, Get;
    var all := [p] + ps;
    assert all[0] == p && forall i | 0 <= i < |ps| :: all[i + 1] == ps[i];
    if PropertyAccepts(e, p, v) && PropertiesOk(e, ps, v) {
      forall i | 0 <= i < |all| ensures PropertyAccepts(e, all[i], v) {
        if i > 0 { assert PropertyAccepts(e, ps[i - 1], v); }
      }
      assert forall i | 0 <= i < |all| :: PropertyAccepts(e, all[i], v);
    }
  }

  lemma PropertiesBack(e: Env, ps: seq<Property>, p: Property, v: Value)
    ensures PropertiesOk(e, ps + [p], v) <==> PropertiesOk(e, ps, v) && PropertyAccepts(e, p, v)
  {
    hide Satisfies, Get;
    var all := ps + [p];
    assert all[|ps|] == p && forall i | 0 <= i < |ps| :: all[i] == ps[i];
  }

  lemma {:induction false} PropertiesMean(e: Env, ps: seq<Property>, v: Value)
    requires UnlinkedProperties(ps) && SteadyProperties(ps)
    ensures PropertiesOk(e, AgainProperties(ps), v) <==> PropertiesOk(e, ps, v)
    decreases ps, 0
  {
    hide Satisfies, Again, Unlinked, Steady, Get, PropertiesOk;
    if ps != [] {
      var n := |ps| - 1;
      PropertiesMean(e, ps[..n], v);
      assert ps == ps[..n] + [ps[n]];
      PropertiesBack(e, ps[..n], ps[n], v);
      PropertiesFront(e, Property(ps[n].name, Again(ps[n].schema)), AgainProperties(ps[..n]), v);
      if Get(v, ps[n].name).Some? { AgainMeans(e, ps[n].schema, Get(v, ps[n].name).value); }
    }
  }

  lemma NamesMean(e: Env, o: Option<Schema>, v: Value)
    requires UnlinkedOpt(o) && SteadyOpt(o)
    ensures PropertyNamesOk(e, AgainOpt(o), v) <==> PropertyNamesOk(e, o, v)
    decreases o, 1
  {
    hide SatisfiesOpt, AgainOpt, UnlinkedOpt, SteadyOpt;
    forall i | v.JObj? && 0 <= i < |v.members|
      ensures SatisfiesOpt(e, AgainOpt(o), JStr(CStr(v.members[i].key))) <==>
              SatisfiesOpt(e, o, JStr(CStr(v.members[i].key)))
    {
      OptMeans(e, o, JStr(CStr(v.members[i].key)));
    }
  }

  ghost predicate PatternAccepts(e: Env, p: PatternProperty, v: Value) {
    v.JObj? && e.config.hasRegex ==>
      forall j | 0 <= j < |v.members| && e.matches(p.pattern, v.members[j].key) ::
        SatisfiesOpt(e, p.schema, v.members[j].value)
  }

  lemma PatternsBack(e: Env, ps: seq<PatternProperty>, p: PatternProperty, v: Value)
    ensures PatternsOk(e, ps + [p], v) <==> PatternsOk(e, ps, v) && PatternAccepts(e, p, v)
  {
    hide SatisfiesOpt;
    var all := ps + [p];
    assert all[|ps|] == p && forall i | 0 <= i < |ps| :: all[i] == ps[i];
  }

  lemma {:induction false} PatternsMean(e: Env, ps: seq<PatternProperty>, v: Value)
    requires UnlinkedPatterns(ps) && SteadyPatterns(ps)
    ensures PatternsOk(e, AgainPatterns(ps), v) <==> PatternsOk(e, ps, v)
    decreases ps, 0
  {
    hide Satisfies, AgainOpt, UnlinkedOpt, SteadyOpt, PatternsOk;
    if ps != [] {
      var n := |ps| - 1;
      PatternsMean(e, ps[..n], v);
      assert ps == ps[..n] + [ps[n]];
      PatternsBack(e, ps[..n], ps[n], v);
      PatternsBack(e, AgainPatterns(ps[..n]), PatternProperty(ps[n].pattern, AgainOpt(ps[n].schema)), v);
      PatternMeans(e, ps[n], v);
      if ps[n].schema.None? { assert AgainPatterns(ps) == AgainPatterns(ps[..n]); }
    } else {
      NoPatterns(e, v);
    }
  }

  lemma NoPatterns(e: Env, v: Value)
    ensures PatternsOk(e, [], v)
  {
  }

  lemma PatternMeans(e: Env, p: PatternProperty, v: Value)
    requires UnlinkedOpt(p.schema) && SteadyOpt(p.schema)
    ensures PatternAccepts(e, PatternProperty(p.pattern, AgainOpt(p.schema)), v) <==> PatternAccepts(e, p, v)
    ensures p.schema.None? ==> PatternAccepts(e, p, v)
    decreases p
  {
    hide Satisfies, AgainOpt, UnlinkedOpt, SteadyOpt;
    forall j | v.JObj? && 0 <= j < |v.members|
      ensures SatisfiesOpt(e, AgainOpt(p.schema), v.members[j].value) <==> SatisfiesOpt(e, p.schema, v.members[j].value)
    {
      OptMeans(e, p.schema, v.members[j].value);
    }
  }

  ghost predicate DependentAccepts(e: Env, d: DependentSchema, v: Value) {
    Get(v, d.property).Some? ==> SatisfiesOpt(e, d.schema, v)
  }

  lemma DependentsBack(e: Env, ds: seq<DependentSchema>, d: DependentSchema, v: Value)
    ensures DependentSchemasOk(e, ds + [d], v) <==> DependentSchemasOk(e, ds, v) && DependentAccepts(e, d, v)
  {
    hide SatisfiesOpt, Get;
    var all := ds + [d];
    assert all[|ds|] == d && forall i | 0 <= i < |ds| :: all[i] == ds[i];
  }

  lemma {:induction false} DependentsMean(e: Env, ds: seq<DependentSchema>, v: Value)
    requires UnlinkedDependents(ds) && SteadyDependents(ds)
    ensures DependentSchemasOk(e, AgainDependents(ds), v) <==> DependentSchemasOk(e, ds, v)
    decreases ds, 0
  {
    hide Satisfies, AgainOpt, UnlinkedOpt, SteadyOpt, DependentSchemasOk, Get;
    if ds != [] {
      var n := |ds| - 1;
      DependentsMean(e, ds[..n], v);
      assert ds == ds[..n] + [ds[n]];
      DependentsBack(e, ds[..n], ds[n], v);
      DependentsBack(e, AgainDependents(ds[..n]), DependentSchema(ds[n].property, AgainOpt(ds[n].schema)), v);
      OptMeans(e, ds[n].schema, v);
      if ds[n].schema.None? { assert AgainDependents(ds) == AgainDependents(ds[..n]); }
    }
  }

  lemma ObjectMeans(e: Env, r: ObjectRules, v: Value)
    requires UnlinkedObject(r) && SteadyObject(r)
    ensures ObjectOk(e, AgainObject(r), v) <==> ObjectOk(e, r, v)
    decreases r, 0
  {
    hide Satisfies, SatisfiesOpt, AgainOpt, UnlinkedOpt, SteadyOpt, AgainProperties, AgainPatterns, AgainDependents,
      AgainAdditional, PropertiesOk, PropertyNamesOk, PatternsOk, DependentSchemasOk, UnlinkedProperties,
      UnlinkedPatterns, UnlinkedDependents, SteadyProperties, SteadyPatterns, SteadyDependents, RequiredOk,
      DependentRequiredOk, AgainRequirements, NormalRequirements;
    AgainRequirementsIsSame(r.dependentRequired);
    PropertiesMean(e, r.properties, v);
    NamesMean(e, r.propertyNames, v);
    PatternsMean(e, r.patternProperties, v);
    DependentsMean(e, r.dependentSchemas, v);
  }

  // ----- composition -----

  lemma DiscriminatorMeans(e: Env, os: seq<Option<Schema>>, d: Discriminator, v: Value)
    requires UnlinkedAll(os) && SteadyAll(os) && NoNull(os) && d.property.Some?
    ensures |AgainAll(os)| == |os|
    ensures |os| == |d.mapping| ==> (DiscriminatorOk(e, AgainAll(os), d, v) <==> DiscriminatorOk(e, os, d, v))
    decreases os, 1
  {
    hide SatisfiesOpt, AgainAll, UnlinkedAll, SteadyAll, NoNull;
    EachMeans(e, os, v);
    if |os| == |d.mapping| {
      forall i ensures DiscriminatorPicks(d, v, i) ==>
                       (SatisfiesOpt(e, AgainAll(os)[i], v) <==> SatisfiesOpt(e, os[i], v)) {
      }
    }
  }

  ghost predicate AnyOfOk(e: Env, os: seq<Option<Schema>>, v: Value) {
    os != [] ==> Passing(e, os, v) != {}
  }

  ghost predicate OneOfOk(e: Env, os: seq<Option<Schema>>, v: Value) {
    os != [] ==> |Passing(e, os, v)| == 1
  }

  lemma NullAccepts(e: Env, os: seq<Option<Schema>>, v: Value)
    requires os != [] && os[0].None?
    ensures Passing(e, os, v) != {}
    ensures |os| == 1 ==> Passing(e, os, v) == {0}
  {
    hide Satisfies;
    assert SatisfiesOpt(e, os[0], v) && 0 in Passing(e, os, v);
  }

  lemma AnyOfKept(e: Env, os: seq<Option<Schema>>, v: Value)
    requires UnlinkedAll(os) && SteadyAll(os) && (NoNull(os) || OnlyNull(os))
    ensures AnyOfOk(e, AgainAll(os), v) <==> AnyOfOk(e, os, v)
    decreases os, 1
  {
    hide SatisfiesOpt, AgainAll, UnlinkedOpt, SteadyOpt, Passing;
    if NoNull(os) {
      EachMeans(e, os, v);
    } else {
      AgainNulls(os);
      NullAccepts(e, os, v);
    }
  }

  lemma OneOfKept(e: Env, os: seq<Option<Schema>>, v: Value)
    requires UnlinkedAll(os) && SteadyAll(os) && (NoNull(os) || |os| == 1)
    ensures OneOfOk(e, AgainAll(os), v) <==> OneOfOk(e, os, v)
    decreases os, 1
  {
    hide SatisfiesOpt, AgainAll, UnlinkedOpt, SteadyOpt, Passing;
    if NoNull(os) {
      EachMeans(e, os, v);
    } else {
      AgainNulls(os);
      NullAccepts(e, os, v);
    }
  }

  /** What takes the place of anyOf and oneOf when there is a discriminator. */
  ghost predicate PickedOk(e: Env, c: Composition, d: Discriminator, v: Value)
    requires d.property.Some?
  {
    if c.oneOf != [] then |c.oneOf| == |d.mapping| ==> DiscriminatorOk(e, c.oneOf, d, v)
    else c.anyOf != [] && |c.anyOf| == |d.mapping| ==> DiscriminatorOk(e, c.anyOf, d, v)
  }

  ghost predicate AlternativesOk(e: Env, c: Composition, d: Discriminator, v: Value) {
    if HasDiscriminator(d) then PickedOk(e, c, d, v) else AnyOfOk(e, c.anyOf, v) && OneOfOk(e, c.oneOf, v)
  }

  ghost predicate NotOk(e: Env, o: Option<Schema>, v: Value) {
    o.Some? ==> !Satisfies(e, o.value, v)
  }

  lemma CompositionParts(e: Env, c: Composition, d: Discriminator, v: Value)
    ensures CompositionOk(e, c, d, v) <==>
      AllAccept(e, c.allOf, v) && AlternativesOk(e, c, d, v) && NotOk(e, c.notSchema, v)
  {
    hide Satisfies, SatisfiesOpt, Passing, DiscriminatorOk;
  }

  lemma NoBranches(os: seq<Option<Schema>>)
    requires os == []
    ensures AgainAll(os) == []
  {
  }

  lemma PickedKept(e: Env, c: Composition, d: Discriminator, v: Value)
    requires UnlinkedComposition(c) && SteadyComposition(c) && SteadyAlternatives(c, d) && HasDiscriminator(d)
    ensures c.oneOf != [] || c.anyOf != [] ==> AgainDiscriminator(d) == d
    ensures PickedOk(e, AgainComposition(c), d, v) <==> PickedOk(e, c, d, v)
    ensures c.oneOf == [] == c.anyOf ==> AgainComposition(c).oneOf == [] == AgainComposition(c).anyOf
    decreases c, 0
  {
    hide Satisfies, SatisfiesOpt, Again, Unlinked, Steady, AgainAll, UnlinkedAll, SteadyAll, NoNull, DiscriminatorOk,
      Targeted, AllTargeted;
    TargetedIsSame(d.mapping);
    if c.oneOf != [] {
      DiscriminatorMeans(e, c.oneOf, d, v);
    } else {
      NoBranches(c.oneOf);
      DiscriminatorMeans(e, c.anyOf, d, v);
    }
  }

  lemma AlternativesKept(e: Env, c: Composition, d: Discriminator, v: Value)
    requires UnlinkedComposition(c) && SteadyComposition(c) && SteadyAlternatives(c, d)
    ensures AlternativesOk(e, AgainComposition(c), AgainDiscriminator(d), v) <==> AlternativesOk(e, c, d, v)
    decreases c, 1
  {
    hide Satisfies, SatisfiesOpt, Again, Unlinked, Steady, AgainAll, UnlinkedAll, SteadyAll, NoNull, OnlyNull, Targeted,
      AllTargeted;
    if HasDiscriminator(d) {
      hide AgainDiscriminator;
      PickedKept(e, c, d, v);
      if c.oneOf == [] == c.anyOf { NothingToPick(e, AgainComposition(c), AgainDiscriminator(d), v); }
    } else {
      NotInUse(d);
      AnyOfKept(e, c.anyOf, v);
      OneOfKept(e, c.oneOf, v);
    }
  }

  lemma NothingToPick(e: Env, c: Composition, d: Discriminator, v: Value)
    requires c.oneOf == [] == c.anyOf
    ensures AlternativesOk(e, c, d, v)
  {
  }

  lemma NotInUse(d: Discriminator)
    requires !HasDiscriminator(d)
    ensures !HasDiscriminator(AgainDiscriminator(d))
  {
  }

  lemma CompositionMeans(e: Env, c: Composition, d: Discriminator, v: Value)
    requires UnlinkedComposition(c) && SteadyComposition(c) && SteadyAlternatives(c, d)
    ensures CompositionOk(e, AgainComposition(c), AgainDiscriminator(d), v) <==> CompositionOk(e, c, d, v)
    decreases c, 2
  {
    hide Satisfies, SatisfiesOpt, Again, Unlinked, Steady, AgainAll, UnlinkedAll, SteadyAll, AllAccept, AlternativesOk,
      SteadyAlternatives, AgainDiscriminator, CompositionOk;
    CompositionParts(e, c, d, v);
    CompositionParts(e, AgainComposition(c), AgainDiscriminator(d), v);
    AllMean(e, c.allOf, v);
    AlternativesKept(e, c, d, v);
    if c.notSchema.Some? {
      AgainMeans(e, c.notSchema.value, v);
      assert AgainOpt(c.notSchema) == Some(Again(c.notSchema.value));
    }
  }

  lemma ConditionalMeans(e: Env, c: Conditional, v: Value)
    requires UnlinkedConditional(c) && SteadyConditional(c)
    ensures ConditionalOk(e, AgainConditional(c), v) <==> ConditionalOk(e, c, v)
    decreases c, 0
  {
    hide Satisfies, SatisfiesOpt, Again, Unlinked, Steady;
    if c.ifSchema.Some? { AgainMeans(e, c.ifSchema.value, v); }
    OptMeans(e, c.thenSchema, v);
    OptMeans(e, c.elseSchema, v);
  }

  // ----- schemas -----

  /** What a round trip makes of such a schema accepts what the schema does. */
  lemma {:induction false} AgainMeans(e: Env, s: Schema, v: Value)
    requires Unlinked(s) && Steady(s)
    ensures Satisfies(e, Again(s), v) <==> Satisfies(e, s, v)
    decreases s, 0
  {
    hide AgainArray, AgainObject, AgainComposition, AgainConditional, AgainDiscriminator, UnlinkedArray, UnlinkedObject,
      UnlinkedComposition, UnlinkedConditional, SteadyArray, SteadyObject, SteadyComposition, SteadyConditional,
      SteadyAlternatives, ArrayOk, ObjectOk, CompositionOk, ConditionalOk, NumberOk, TypeOk, AgainMask;
    MaskSame(s);
    StringMeans(e, s.str, v);
    hide StringOk;
    ArrayMeans(e, s.arr, v);
    ObjectMeans(e, s.obj, v);
    CompositionMeans(e, s.comp, s.disc, v);
    ConditionalMeans(e, s.cond, v);
  }

  lemma StringMeans(e: Env, r: StringRules, v: Value)
    ensures StringOk(e, StringRules(AgainCount(r.minLength), AgainCount(r.maxLength), r.pattern, r.format), v) <==>
            StringOk(e, r, v)
  {
  }

  /** A printed and parsed schema accepts what the original does. */
  lemma RoundTripMeans(e: Env, s: Schema, v: Value)
    requires Storable(s) && Unlinked(s) && Steady(s)
    ensures var again := Parse(P.Emit(s));
      again.Some? && (Satisfies(e, again.value, v) <==> Satisfies(e, s, v))
  {
    hide Storable, Steady, Again, Parse, P.Emit, Unlinked, Satisfies;
    RoundTrip.RoundTrip(s);
    AgainMeans(e, s, v);
  }

  function AnyOfThese(os: seq<Option<Schema>>): Schema {
    EmptySchema().(comp := Composition([], os, [], None))
  }

  lemma NoRules(e: Env, v: Value)
    ensures var s := EmptySchema();
      StringOk(e, s.str, v) && NumberOk(e, s.num, v) && ArrayOk(e, s.arr, v) && ObjectOk(e, s.obj, v)
      && ConditionalOk(e, s.cond, v)
  {
    hide Satisfies, Matched, Get, CStr;
  }

  lemma AnyOfMeans(e: Env, os: seq<Option<Schema>>, v: Value)
    ensures Satisfies(e, AnyOfThese(os), v) <==> os == [] || Passing(e, os, v) != {}
  {
    hide Passing, StringOk, NumberOk, ArrayOk, ObjectOk, ConditionalOk, TypeOk;
    NoRules(e, v);
  }

  lemma AgainEmpty(os: seq<Option<Schema>>)
    ensures Again(AnyOfThese(os)) == AnyOfThese(AgainAll(os))
  {
  }

  function Strings(): Schema {
    EmptySchema().(typeMask := TypeBit(TString))
  }

  lemma StringsOnly(e: Env)
    ensures Again(Strings()) == Strings() && !Satisfies(e, Strings(), JInt(5))
    ensures Storable(Strings()) && Unlinked(Strings())
  {
    assert forall t :: HasType(JInt(5), t) && TypeIn(t, 0x10) ==> false;
    assert AgainMask(Strings()) == 0x10;
  }

  /** A null branch of anyOf accepts everything; a round trip loses it, and with it the value 5. */
  lemma NullBranchLost(e: Env)
    ensures var s := AnyOfThese([None, Some(Strings())]);
            Storable(s) && Unlinked(s) && Satisfies(e, s, JInt(5)) && !Satisfies(e, Again(s), JInt(5))
  {
    var os, rest := [None, Some(Strings())], [Some(Strings())];
    StringsOnly(e);
    AgainEmpty(os);
    assert os[..1][..0] == [] && AgainAll(os[..1]) == AgainAll([]) == [];
    assert AgainAll(os) == AgainAll(os[..1]) + [AgainOpt(os[1])] == rest;
    hide Again, Satisfies, Strings, AgainAll;
    AnyOfMeans(e, os, JInt(5));
    AnyOfMeans(e, rest, JInt(5));
    NullAccepts(e, os, JInt(5));
    NoneAccepts(e, rest, JInt(5));
  }

  lemma NoneAccepts(e: Env, os: seq<Option<Schema>>, v: Value)
    requires |os| == 1 && os[0].Some? && !Satisfies(e, os[0].value, v)
    ensures Passing(e, os, v) == {}
  {
    hide Satisfies;
    assert !SatisfiesOpt(e, os[0], v);
  }
}
