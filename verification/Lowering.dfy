/** The structured program of a schema means what the schema means. */
module Lowering {
  import opened Json
  import opened Schemas
  import opened Instructions
  import opened Trees
  import opened Meanings
  import opened Compiler
  import opened Sets

  lemma AcceptsConcat(e: Env, a: seq<Tree>, b: seq<Tree>, v: Value)
    ensures Accepts(e, a + b, v) <==> Accepts(e, a, v) && Accepts(e, b, v)
  {
    hide AcceptsTree;
    var c := a + b;
    assert forall i | 0 <= i < |a| :: c[i] == a[i];
    assert forall i | 0 <= i < |b| :: c[|a| + i] == b[i];
    if Accepts(e, a, v) && Accepts(e, b, v) {
      forall i | 0 <= i < |c| ensures AcceptsTree(e, c[i], v) {
        if i >= |a| { assert c[i] == b[i - |a|]; }
      }
    }
  }

  lemma AcceptsOne(e: Env, t: Tree, v: Value)
    ensures Accepts(e, [t], v) <==> AcceptsTree(e, t, v)
    ensures Accepts(e, [], v)
  {
    hide AcceptsTree;
    assert [t][0] == t;
  }

  lemma AcceptsWhen(e: Env, condition: bool, k: Check, v: Value)
    ensures Accepts(e, When(condition, k), v) <==> (condition ==> CheckOk(e, k, v))
  {
    hide CheckOk;
    AcceptsOne(e, Leaf(k), v);
  }

  // ----- keywords without sub-schemas -----

  lemma PatternLeafMeans(e: Env, o: Option<string>, v: Value)
    ensures Accepts(e, PatternLeaf(e.config, o), v)
       <==> (v.JStr? && o.Some? && e.config.hasRegex ==> e.matches(o.value, v.s))
  {
    AcceptsWhen(e, e.config.hasRegex, CheckPattern(if o.Some? then o.value else ""), v);
    AcceptsOne(e, Leaf(CheckUnique), v);
    hide Accepts, When;
  }

  lemma FormatLeafMeans(e: Env, o: Option<string>, v: Value)
    ensures Accepts(e, FormatLeaf(e.config, o), v)
       <==> (v.JStr? && o.Some? && ChecksFormat(e.config, o.value) ==> e.formatOk(o.value, v.s))
  {
    if o.Some? { AcceptsWhen(e, ChecksFormat(e.config, o.value), CheckFormat(o.value), v); }
    AcceptsOne(e, Leaf(CheckUnique), v);
    hide Accepts, When;
  }

  lemma StringMeans(e: Env, r: StringRules, v: Value)
    ensures Accepts(e, LowerString(e.config, r), v) <==> StringOk(e, r, v)
  {
    hide Accepts, When, PatternLeaf, FormatLeaf, CharStarts;
    AcceptsWhen(e, r.minLength >= 0, CheckMinLen(r.minLength), v);
    AcceptsWhen(e, r.maxLength >= 0, CheckMaxLen(r.maxLength), v);
    PatternLeafMeans(e, r.pattern, v);
    FormatLeafMeans(e, r.format, v);
    AcceptsOne(e, Leaf(CheckUnique), v);
    AcceptsFive(e, When(r.minLength >= 0, CheckMinLen(r.minLength)), When(r.maxLength >= 0, CheckMaxLen(r.maxLength)),
                PatternLeaf(e.config, r.pattern), FormatLeaf(e.config, r.format), [], v);
    assert LowerString(e.config, r) + [] == LowerString(e.config, r);
  }

  lemma AcceptsSome(e: Env, o: Option<real>, make: real -> Check, v: Value)
    ensures Accepts(e, WhenSome(o, make), v) <==> (o.Some? ==> CheckOk(e, make(o.value), v))
  {
    hide CheckOk;
    AcceptsOne(e, if o.Some? then Leaf(make(o.value)) else Leaf(CheckUnique), v);
  }

  lemma AcceptsFive(e: Env, a: seq<Tree>, b: seq<Tree>, c: seq<Tree>, d: seq<Tree>, f: seq<Tree>, v: Value)
    ensures Accepts(e, a + b + c + d + f, v) <==>
      && Accepts(e, a, v) && Accepts(e, b, v) && Accepts(e, c, v) && Accepts(e, d, v) && Accepts(e, f, v)
  {
    hide Accepts;
    AcceptsConcat(e, a, b, v);
    AcceptsConcat(e, a + b, c, v);
    AcceptsConcat(e, a + b + c, d, v);
    AcceptsConcat(e, a + b + c + d, f, v);
  }

  lemma NumberMeans(e: Env, r: NumberRules, v: Value)
    ensures Accepts(e, LowerNumber(r), v) <==> NumberOk(e, r, v)
  {
    hide Accepts, WhenSome;
    var k1, k2, k3, k4, k5 :=
      (x: real) => CheckMinimum(x), (x: real) => CheckMaximum(x), (x: real) => CheckExMinimum(x),
      (x: real) => CheckExMaximum(x), (x: real) => CheckMultipleOf(x);
    AcceptsSome(e, r.minimum, k1, v);
    AcceptsSome(e, r.maximum, k2, v);
    AcceptsSome(e, r.exclusiveMinimum, k3, v);
    AcceptsSome(e, r.exclusiveMaximum, k4, v);
    AcceptsSome(e, r.multipleOf, k5, v);
    AcceptsFive(e, WhenSome(r.minimum, k1), WhenSome(r.maximum, k2), WhenSome(r.exclusiveMinimum, k3),
                WhenSome(r.exclusiveMaximum, k4), WhenSome(r.multipleOf, k5), v);
  }

  ghost predicate AnnotationsOk(e: Env, s: Schema, v: Value) {
    && (s.enumValues.Some? ==> CheckOk(e, CheckEnum(s.enumValues.value), v))
    && (s.constValue.Some? ==> CheckOk(e, CheckConst(s.constValue.value), v))
    && (s.readOnly ==> CheckOk(e, CheckReadOnly, v))
    && (s.writeOnly ==> CheckOk(e, CheckWriteOnly, v))
  }

  lemma AnnotationsMean(e: Env, s: Schema, v: Value)
    ensures Accepts(e, LowerAnnotations(s), v) <==> AnnotationsOk(e, s, v)
  {
    hide Accepts, CheckOk, AcceptsTree, When;
    var a := if s.enumValues.Some? then [Leaf(CheckEnum(s.enumValues.value))] else [];
    var b := if s.constValue.Some? then [Leaf(CheckConst(s.constValue.value))] else [];
    var c, d := When(s.readOnly, CheckReadOnly), When(s.writeOnly, CheckWriteOnly);
    AcceptsNothing(e, v);
    if s.enumValues.Some? { AcceptsCheck(e, CheckEnum(s.enumValues.value), v); }
    if s.constValue.Some? { AcceptsCheck(e, CheckConst(s.constValue.value), v); }
    AcceptsWhen(e, s.readOnly, CheckReadOnly, v);
    AcceptsWhen(e, s.writeOnly, CheckWriteOnly, v);
    AcceptsConcat(e, a, b, v);
    AcceptsConcat(e, a + b, c, v);
    AcceptsConcat(e, a + b + c, d, v);
  }

  lemma AcceptsNothing(e: Env, v: Value)
    ensures Accepts(e, [], v)
  {
  }

  lemma AcceptsCheck(e: Env, k: Check, v: Value)
    ensures Accepts(e, [Leaf(k)], v) <==> CheckOk(e, k, v)
  {
    hide CheckOk;
    AcceptsOne(e, Leaf(k), v);
  }

  // ----- the whole schema -----

  /** A compiled schema accepts exactly the values that satisfy it. */
  lemma SatisfiesNine(e: Env, s: Schema, v: Value)
    requires s.refResolved.None?
    ensures Satisfies(e, s, v) <==>
      && (EffectiveMask(s) != 0 ==> CheckOk(e, CheckType(EffectiveMask(s)), v))
      && StringOk(e, s.str, v) && NumberOk(e, s.num, v) && ArrayOk(e, s.arr, v) && ObjectOk(e, s.obj, v)
      && CompositionOk(e, s.comp, s.disc, v) && ConditionalOk(e, s.cond, v) && AnnotationsOk(e, s, v)
  {
    hide StringOk, NumberOk, ArrayOk, ObjectOk, CompositionOk, ConditionalOk, TypeOk, EffectiveMask;
  }

  lemma LowerNine(cfg: Config, s: Schema)
    requires s.refResolved.None?
    ensures Lower(cfg, s) ==
      When(EffectiveMask(s) != 0, CheckType(EffectiveMask(s))) + LowerString(cfg, s.str) + LowerNumber(s.num)
      + LowerArray(cfg, s.arr) + LowerObject(cfg, s.obj) + LowerContains(cfg, s.arr)
      + LowerComposition(cfg, s.comp, s.disc) + LowerConditional(cfg, s.cond) + LowerAnnotations(s)
  {
    hide When, EffectiveMask, LowerString, LowerNumber, LowerArray, LowerObject, LowerContains, LowerComposition,
      LowerConditional, LowerAnnotations;
  }

  lemma LinkMeans(e: Env, s: Schema, v: Value)
    requires s.refResolved.Some?
    ensures Lower(e.config, s) == Lower(e.config, s.refResolved.value)
    ensures Satisfies(e, s, v) <==> Satisfies(e, s.refResolved.value, v)
  {
  }

  lemma {:induction false} LowerMeans(e: Env, s: Schema, v: Value)
    ensures Accepts(e, Lower(e.config, s), v) <==> Satisfies(e, s, v)
    decreases s
  {
    hide *;
    if s.refResolved.Some? {
      LinkMeans(e, s, v);
      LowerMeans(e, s.refResolved.value, v);
    } else {
      var cfg, mask := e.config, EffectiveMask(s);
      LowerNine(cfg, s);
      SatisfiesNine(e, s, v);
      AcceptsWhen(e, mask != 0, CheckType(mask), v);
      StringMeans(e, s.str, v);
      NumberMeans(e, s.num, v);
      ArrayMeans(e, s.arr, v);
      ObjectMeans(e, s.obj, v);
      CompositionMeans(e, s.comp, s.disc, v);
      ConditionalMeans(e, s.cond, v);
      AnnotationsMean(e, s, v);
      AcceptsNine(e, When(mask != 0, CheckType(mask)), LowerString(cfg, s.str), LowerNumber(s.num),
                  LowerArray(cfg, s.arr), LowerObject(cfg, s.obj), LowerContains(cfg, s.arr),
                  LowerComposition(cfg, s.comp, s.disc), LowerConditional(cfg, s.cond), LowerAnnotations(s), v);
    }
  }

  lemma AcceptsNine(e: Env, a: seq<Tree>, b: seq<Tree>, c: seq<Tree>, d: seq<Tree>, f: seq<Tree>,
                    g: seq<Tree>, h: seq<Tree>, i: seq<Tree>, j: seq<Tree>, v: Value)
    ensures Accepts(e, a + b + c + d + f + g + h + i + j, v) <==>
      && Accepts(e, a, v) && Accepts(e, b, v) && Accepts(e, c, v) && Accepts(e, d, v) && Accepts(e, f, v)
      && Accepts(e, g, v) && Accepts(e, h, v) && Accepts(e, i, v) && Accepts(e, j, v)
  {
    hide Accepts;
    AcceptsConcat(e, a, b, v);
    AcceptsConcat(e, a + b, c, v);
    AcceptsConcat(e, a + b + c, d, v);
    AcceptsConcat(e, a + b + c + d, f, v);
    AcceptsConcat(e, a + b + c + d + f, g, v);
    AcceptsConcat(e, a + b + c + d + f + g, h, v);
    AcceptsConcat(e, a + b + c + d + f + g + h, i, v);
    AcceptsConcat(e, a + b + c + d + f + g + h + i, j, v);
  }

  lemma {:induction false} OptMeans(e: Env, o: Option<Schema>, v: Value)
    ensures Accepts(e, LowerOpt(e.config, o).trees, v) <==> SatisfiesOpt(e, o, v)
    decreases o, 0
  {
    hide Lower, Satisfies;
    if o.Some? { LowerMeans(e, o.value, v); }
  }

  lemma {:induction false} NestedMeans(e: Env, opener: Opener, o: Option<Schema>, v: Value)
    ensures Accepts(e, LowerNested(e.config, opener, o), v)
       <==> (o.Some? ==> AcceptsTree(e, Nest(opener, LowerOpt(e.config, o)), v))
  {
    AcceptsOne(e, Nest(opener, LowerOpt(e.config, o)), v);
    hide Accepts, AcceptsTree;
  }

  // ----- arrays -----

  lemma {:induction false} ArrayMeans(e: Env, r: ArrayRules, v: Value)
    ensures Accepts(e, LowerArray(e.config, r), v) && Accepts(e, LowerContains(e.config, r), v) <==> ArrayOk(e, r, v)
    decreases r
  {
    hide Accepts, When, LowerPrefix, LowerNested, LowerContains, PrefixOk, ItemsOk, ContainsOk;
    AcceptsWhen(e, r.minItems >= 0, CheckMinItems(r.minItems), v);
    AcceptsWhen(e, r.maxItems >= 0, CheckMaxItems(r.maxItems), v);
    AcceptsWhen(e, r.uniqueItems, CheckUnique, v);
    PrefixMeans(e, r.prefixItems, v);
    ItemsMean(e, r.items, v);
    ContainsMeans(e, r, v);
    AcceptsFive(e, When(r.minItems >= 0, CheckMinItems(r.minItems)), When(r.maxItems >= 0, CheckMaxItems(r.maxItems)),
                When(r.uniqueItems, CheckUnique), LowerPrefix(e.config, r.prefixItems),
                LowerNested(e.config, EnterItems, r.items), v);
  }

  lemma {:induction false} PrefixMeans(e: Env, os: seq<Option<Schema>>, v: Value)
    ensures Accepts(e, LowerPrefix(e.config, os), v) <==> PrefixOk(e, os, v)
    decreases os
  {
    hide SatisfiesOpt, LowerOpt, LowerPrefix;
    var ts := LowerPrefix(e.config, os);
    if v.JArr? {
      forall i | 0 <= i < |os|
        ensures AcceptsTree(e, ts[i], v)
           <==> (i % 0x1_0000 < |v.items| ==> SatisfiesOpt(e, os[i], v.items[i % 0x1_0000]))
      {
        if i % 0x1_0000 < |v.items| { OptMeans(e, os[i], v.items[i % 0x1_0000]); }
      }
    }
  }

  lemma {:induction false} ItemsMean(e: Env, o: Option<Schema>, v: Value)
    ensures Accepts(e, LowerNested(e.config, EnterItems, o), v) <==> ItemsOk(e, o, v)
    decreases o, 1
  {
    NestedMeans(e, EnterItems, o, v);
    if v.JArr? {
      forall i | 0 <= i < |v.items|
        ensures Accepts(e, LowerOpt(e.config, o).trees, v.items[i]) <==> SatisfiesOpt(e, o, v.items[i])
      {
        OptMeans(e, o, v.items[i]);
      }
    }
    hide Accepts, LowerOpt, Satisfies;
  }

  lemma {:induction false} ContainsMeans(e: Env, r: ArrayRules, v: Value)
    ensures Accepts(e, LowerContains(e.config, r), v) <==> ContainsOk(e, r, v)
    decreases r, 0
  {
    hide LowerOpt, Satisfies;
    if r.contains.Some? {
      var b := LowerOpt(e.config, r.contains);
      AcceptsOne(e, Quota(if r.minContains >= 0 then r.minContains else 1, r.maxContains, b), v);
      if v.JArr? {
        ContainedMeans(e, r.contains, v.items);
      }
      hide Accepts, Accepting, Matched;
    } else {
      AcceptsOne(e, Leaf(CheckUnique), v);
    }
  }

  lemma {:induction false} ContainedMeans(e: Env, o: Option<Schema>, vs: seq<Value>)
    requires o.Some?
    ensures Accepting(e, LowerOpt(e.config, o).trees, vs) == Matched(e, o.value, vs)
    decreases o, 1
  {
    var b := LowerOpt(e.config, o);
    forall i | 0 <= i < |vs| ensures Accepts(e, b.trees, vs[i]) <==> Satisfies(e, o.value, vs[i]) {
      OptMeans(e, o, vs[i]);
    }
    hide Accepts, LowerOpt, Satisfies;
  }

  // ----- objects -----

  lemma {:induction false} ObjectMeans(e: Env, r: ObjectRules, v: Value)
    ensures Accepts(e, LowerObject(e.config, r), v) <==> ObjectOk(e, r, v)
    decreases r
  {
    hide Accepts, When, LowerNested, LowerRequired, LowerProperties, LowerPatterns, LowerDependentRequired,
         LowerDependentSchemas, RequiredOk, PropertiesOk, PropertyNamesOk, PatternsOk, DependentRequiredOk,
         DependentSchemasOk;
    var cfg := e.config;
    RequiredMeans(e, r.required, v);
    PropertiesMean(e, r.properties, v);
    AdditionalMeans(e, r.additional, v);
    AcceptsWhen(e, r.minProperties >= 0, CheckMinProps(r.minProperties), v);
    AcceptsWhen(e, r.maxProperties >= 0, CheckMaxProps(r.maxProperties), v);
    NamesMean(e, r.propertyNames, v);
    PatternsMean(e, r.patternProperties, v);
    DependentRequiredMeans(e, r.dependentRequired, v);
    DependentSchemasMean(e, r.dependentSchemas, v);
    AcceptsNine(e, LowerRequired(r.required), LowerProperties(cfg, r.properties),
                LowerNested(cfg, EnterAdditional, r.additional),
                When(r.minProperties >= 0, CheckMinProps(r.minProperties)),
                When(r.maxProperties >= 0, CheckMaxProps(r.maxProperties)),
                LowerNested(cfg, CheckPropNames, r.propertyNames), LowerPatterns(cfg, r.patternProperties),
                LowerDependentRequired(r.dependentRequired), LowerDependentSchemas(cfg, r.dependentSchemas), v);
  }

  /** `additionalProperties` is compiled and then demands nothing. */
  lemma AdditionalMeans(e: Env, o: Option<Schema>, v: Value)
    ensures Accepts(e, LowerNested(e.config, EnterAdditional, o), v)
  {
    NestedMeans(e, EnterAdditional, o, v);
  }

  lemma RequiredMeans(e: Env, names: seq<string>, v: Value)
    ensures Accepts(e, LowerRequired(names), v) <==> RequiredOk(names, v)
  {
    hide Get, LowerRequired;
    var ts := LowerRequired(names);
    assert forall i | 0 <= i < |names| :: AcceptsTree(e, ts[i], v) <==> (v.JObj? ==> Get(v, names[i]).Some?);
  }

  lemma {:induction false} PropertiesMean(e: Env, ps: seq<Property>, v: Value)
    ensures Accepts(e, LowerProperties(e.config, ps), v) <==> PropertiesOk(e, ps, v)
    decreases ps
  {
    hide Satisfies, Lower, LowerProperties, Get;
    var ts := LowerProperties(e.config, ps);
    forall i | 0 <= i < |ps|
      ensures AcceptsTree(e, ts[i], v) <==>
        (Get(v, ps[i].name).Some? ==> Satisfies(e, ps[i].schema, Get(v, ps[i].name).value))
    {
      if Get(v, ps[i].name).Some? { LowerMeans(e, ps[i].schema, Get(v, ps[i].name).value); }
    }
    hide AcceptsTree;
  }

  lemma {:induction false} NamesMean(e: Env, o: Option<Schema>, v: Value)
    ensures Accepts(e, LowerNested(e.config, CheckPropNames, o), v) <==> PropertyNamesOk(e, o, v)
    decreases o, 1
  {
    hide CStr;
    NestedMeans(e, CheckPropNames, o, v);
    if v.JObj? {
      forall i | 0 <= i < |v.members|
        ensures Accepts(e, LowerOpt(e.config, o).trees, JStr(CStr(v.members[i].key)))
           <==> SatisfiesOpt(e, o, JStr(CStr(v.members[i].key)))
      {
        OptMeans(e, o, JStr(CStr(v.members[i].key)));
      }
    }
    hide Accepts, LowerOpt, Satisfies;
  }

  lemma {:induction false} PatternMeans(e: Env, p: PatternProperty, v: Value)
    ensures Accepts(e, LowerPattern(e.config, p), v) <==> PatternsOk(e, [p], v)
    decreases p
  {
    hide Accepts, LowerOpt, SatisfiesOpt, LowerNested;
    NestedMeans(e, CheckPatternProps(p.pattern), p.schema, v);
    AcceptsNothing(e, v);
    if v.JObj? {
      forall j | 0 <= j < |v.members|
        ensures Accepts(e, LowerOpt(e.config, p.schema).trees, v.members[j].value)
           <==> SatisfiesOpt(e, p.schema, v.members[j].value)
      {
        OptMeans(e, p.schema, v.members[j].value);
      }
    }
    assert [p][0] == p;
    NoPatternSchema(e, p, v);
  }

  lemma NoPatternSchema(e: Env, p: PatternProperty, v: Value)
    ensures p.schema.None? ==> PatternsOk(e, [p], v)
    ensures p.schema.None? ==> LowerNested(e.config, CheckPatternProps(p.pattern), p.schema) == []
  {
  }

  lemma {:induction false} PatternsMean(e: Env, ps: seq<PatternProperty>, v: Value)
    ensures Accepts(e, LowerPatterns(e.config, ps), v) <==> PatternsOk(e, ps, v)
    decreases ps
  {
    hide SatisfiesOpt, LowerPattern;
    if ps == [] {
      AcceptsOne(e, Leaf(CheckUnique), v);
    } else {
      PatternMeans(e, ps[0], v);
      PatternsMean(e, ps[1..], v);
      AcceptsConcat(e, LowerPattern(e.config, ps[0]), LowerPatterns(e.config, ps[1..]), v);
      hide Accepts;
      assert forall i | 0 <= i < |ps| - 1 :: ps[1..][i] == ps[i + 1];
      assert forall i | 1 <= i < |ps| :: ps[i] == ps[1..][i - 1];
      assert [ps[0]][0] == ps[0];
    }
  }

  lemma DependentRequiredMeans(e: Env, ds: seq<DependentRequired>, v: Value)
    ensures Accepts(e, LowerDependentRequired(ds), v) <==> DependentRequiredOk(ds, v)
  {
    hide LowerDependentRequired, Get, GetNamed;
    var ts := LowerDependentRequired(ds);
    assert forall i | 0 <= i < |ds| ::
      AcceptsTree(e, ts[i], v) <==>
        forall j | 0 <= j < |ds[i].required| ::
          Get(v, ds[i].property).Some? ==> GetNamed(v, ds[i].required[j]).Some?;
  }

  ghost predicate DependentOk(e: Env, d: DependentSchema, v: Value) {
    Get(v, d.property).Some? ==> SatisfiesOpt(e, d.schema, v)
  }

  lemma DependentsHead(e: Env, ds: seq<DependentSchema>, v: Value)
    requires ds != []
    ensures DependentSchemasOk(e, ds, v) <==> DependentOk(e, ds[0], v) && DependentSchemasOk(e, ds[1..], v)
  {
    hide SatisfiesOpt, Get;
    assert forall i | 0 <= i < |ds| - 1 :: ds[1..][i] == ds[i + 1];
    if DependentOk(e, ds[0], v) && DependentSchemasOk(e, ds[1..], v) {
      forall i | 0 <= i < |ds| ensures DependentOk(e, ds[i], v) {
        if i > 0 { assert DependentOk(e, ds[1..][i - 1], v); }
      }
      assert forall i | 0 <= i < |ds| :: DependentOk(e, ds[i], v);
    }
  }

  lemma LowerDependentsHead(cfg: Config, ds: seq<DependentSchema>)
    ensures ds == [] ==> LowerDependentSchemas(cfg, ds) == []
    ensures ds != [] ==>
      LowerDependentSchemas(cfg, ds) ==
        LowerNested(cfg, CheckDepSchema(ds[0].property), ds[0].schema) + LowerDependentSchemas(cfg, ds[1..])
  {
    hide LowerNested;
  }

  lemma NoDependents(e: Env, v: Value)
    ensures DependentSchemasOk(e, [], v)
  {
  }

  lemma {:induction false} DependentSchemasMean(e: Env, ds: seq<DependentSchema>, v: Value)
    ensures Accepts(e, LowerDependentSchemas(e.config, ds), v) <==> DependentSchemasOk(e, ds, v)
    decreases ds
  {
    hide *;
    LowerDependentsHead(e.config, ds);
    if ds == [] {
      AcceptsNothing(e, v);
      NoDependents(e, v);
    } else {
      var d := ds[0];
      DependentSchemasMean(e, ds[1..], v);
      DependentsHead(e, ds, v);
      OptMeans(e, d.schema, v);
      DependentMeans(e, d, v);
      AcceptsConcat(e, LowerNested(e.config, CheckDepSchema(d.property), d.schema),
                    LowerDependentSchemas(e.config, ds[1..]), v);
    }
  }

  lemma DependentMeans(e: Env, d: DependentSchema, v: Value)
    requires Accepts(e, LowerOpt(e.config, d.schema).trees, v) <==> SatisfiesOpt(e, d.schema, v)
    ensures Accepts(e, LowerNested(e.config, CheckDepSchema(d.property), d.schema), v)
       <==> DependentOk(e, d, v)
  {
    NestedMeans(e, CheckDepSchema(d.property), d.schema, v);
    hide LowerOpt, Satisfies, Accepts, LowerNested, Get;
  }

  // ----- composition -----

  lemma {:induction false} BranchesMean(e: Env, os: seq<Option<Schema>>, v: Value)
    ensures forall i | 0 <= i < |os| ::
      Accepts(e, LowerBranches(e.config, os)[i].trees, v) <==> SatisfiesOpt(e, os[i], v)
    decreases os, 0
  {
    hide LowerOpt, SatisfiesOpt, LowerBranches, Accepts;
    forall i | 0 <= i < |os|
      ensures Accepts(e, LowerBranches(e.config, os)[i].trees, v) <==> SatisfiesOpt(e, os[i], v)
    {
      OptMeans(e, os[i], v);
    }
  }

  lemma {:induction false} ForkMeans(e: Env, kind: BranchKind, os: seq<Option<Schema>>, v: Value)
    ensures Accepts(e, LowerFork(e.config, kind, os), v) <==> (os != [] ==>
      match kind
      case AllOf => forall i | 0 <= i < |os| :: SatisfiesOpt(e, os[i], v)
      case AnyOf => Passing(e, os, v) != {}
      case OneOf => |Passing(e, os, v)| == 1)
    decreases os, 1
  {
    hide LowerBranches, SatisfiesOpt;
    var bs := LowerBranches(e.config, os);
    BranchesMean(e, os, v);
    AcceptsOne(e, Fork(kind, bs), v);
    hide Accepts;
    assert Admitting(e, bs, v) == Passing(e, os, v);
    if kind.AnyOf? && os != [] {
      if i :| 0 <= i < |bs| && Accepts(e, bs[i].trees, v) { assert i in Passing(e, os, v); }
      if Passing(e, os, v) != {} { var _ := Witness(Passing(e, os, v)); }
    }
  }

  lemma PicksSame(d: Discriminator, v: Value, i: int)
    requires d.property.Some?
    ensures PicksAt(d.property.value, Keys(d.mapping), v, i) <==> DiscriminatorPicks(d, v, i)
  {
    hide Get, SameCStr;
    assert forall j | 0 <= j < |d.mapping| :: Keys(d.mapping)[j] == Some(d.mapping[j].key);
  }

  lemma {:induction false} PickMeans(e: Env, os: seq<Option<Schema>>, d: Discriminator, v: Value)
    requires d.property.Some? && |os| == |d.mapping|
    ensures Accepts(e, LowerPick(e.config, os, d), v) <==> DiscriminatorOk(e, os, d, v)
    decreases os, 1
  {
    hide LowerBranches, SatisfiesOpt, PicksAt, DiscriminatorPicks, Accepts, Keys;
    var bs, keys := LowerBranches(e.config, os), Keys(d.mapping);
    BranchesMean(e, os, v);
    AcceptsOne(e, Pick(d.property.value, keys, bs), v);
    if AcceptsTree(e, Pick(d.property.value, keys, bs), v) {
      var i :| 0 <= i < |bs| && PicksAt(d.property.value, keys, v, i) && Accepts(e, bs[i].trees, v);
      PicksSame(d, v, i);
      assert DiscriminatorPicks(d, v, i) && SatisfiesOpt(e, os[i], v);
    }
    forall i | DiscriminatorPicks(d, v, i) ensures 0 <= i < |d.mapping| {
      PickInRange(d, v, i);
    }
    if DiscriminatorOk(e, os, d, v) {
      var i :| DiscriminatorPicks(d, v, i) && SatisfiesOpt(e, os[i], v);
      PicksSame(d, v, i);
      assert PicksAt(d.property.value, keys, v, i) && Accepts(e, bs[i].trees, v);
    }
  }

  lemma PickInRange(d: Discriminator, v: Value, i: int)
    requires d.property.Some? && DiscriminatorPicks(d, v, i)
    ensures 0 <= i < |d.mapping|
  {
  }

  lemma {:induction false} CompositionMeans(e: Env, c: Composition, d: Discriminator, v: Value)
    ensures Accepts(e, LowerComposition(e.config, c, d), v) <==> CompositionOk(e, c, d, v)
    decreases c
  {
    hide Satisfies, SatisfiesOpt, DiscriminatorOk, Passing, LowerFork, LowerPick, LowerNested, Accepts;
    ForkMeans(e, AllOf, c.allOf, v);
    OptMeans(e, c.notSchema, v);
    NotMeans(e, c.notSchema, v);
    if HasDiscriminator(d) {
      DispatchMeans(e, c, d, v);
    } else {
      ForkMeans(e, AnyOf, c.anyOf, v);
      ForkMeans(e, OneOf, c.oneOf, v);
      AcceptsConcat(e, LowerFork(e.config, AnyOf, c.anyOf), LowerFork(e.config, OneOf, c.oneOf), v);
    }
    AcceptsConcat(e, LowerFork(e.config, AllOf, c.allOf), LowerAlternatives(e.config, c, d), v);
    AcceptsConcat(e, LowerFork(e.config, AllOf, c.allOf) + LowerAlternatives(e.config, c, d),
                  LowerNested(e.config, Negate, c.notSchema), v);
  }

  lemma {:induction false} DispatchMeans(e: Env, c: Composition, d: Discriminator, v: Value)
    requires HasDiscriminator(d)
    ensures Accepts(e, LowerAlternatives(e.config, c, d), v) <==>
      if c.oneOf != [] then |c.oneOf| == |d.mapping| ==> DiscriminatorOk(e, c.oneOf, d, v)
      else c.anyOf != [] && |c.anyOf| == |d.mapping| ==> DiscriminatorOk(e, c.anyOf, d, v)
    decreases c, 0
  {
    hide DiscriminatorOk, LowerPick, Accepts;
    var os := if c.oneOf != [] then c.oneOf else c.anyOf;
    if |os| == |d.mapping| {
      PickMeans(e, os, d, v);
    } else {
      PickDropped(e, os, d, v);
      AcceptsOne(e, Leaf(CheckUnique), v);
    }
  }

  /** A mapping of another length than the branch list checks nothing. */
  lemma PickDropped(e: Env, os: seq<Option<Schema>>, d: Discriminator, v: Value)
    requires d.property.Some? && |os| != |d.mapping|
    ensures Accepts(e, LowerPick(e.config, os, d), v)
  {
  }

  lemma NotMeans(e: Env, o: Option<Schema>, v: Value)
    requires Accepts(e, LowerOpt(e.config, o).trees, v) <==> SatisfiesOpt(e, o, v)
    ensures Accepts(e, LowerNested(e.config, Negate, o), v) <==> (o.Some? ==> !Satisfies(e, o.value, v))
  {
    NestedMeans(e, Negate, o, v);
    hide LowerOpt, Satisfies, Accepts, LowerNested;
  }

  lemma {:induction false} ConditionalMeans(e: Env, c: Conditional, v: Value)
    ensures Accepts(e, LowerConditional(e.config, c), v) <==> ConditionalOk(e, c, v)
    decreases c
  {
    hide Satisfies, LowerOpt;
    var cfg := e.config;
    OptMeans(e, c.ifSchema, v);
    OptMeans(e, c.thenSchema, v);
    OptMeans(e, c.elseSchema, v);
    if c.ifSchema.Some? {
      var t := Cond(LowerOpt(cfg, c.ifSchema),
                    if c.thenSchema.Some? then Some(LowerOpt(cfg, c.thenSchema)) else None,
                    if c.elseSchema.Some? then Some(LowerOpt(cfg, c.elseSchema)) else None);
      AcceptsOne(e, t, v);
      hide Accepts;
    } else {
      AcceptsOne(e, Leaf(CheckUnique), v);
    }
  }
}
