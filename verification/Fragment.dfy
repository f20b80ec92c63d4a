/** Which schemas compile to code whose skips are exact. */
module Fragment {
  import opened Json
  import opened Schemas
  import opened Instructions
  import opened Trees
  import opened Meanings
  import opened Landing
  import opened Compiler

  // ----- schemas without composition -----

  /** No allOf, anyOf, oneOf or discriminator is compiled for `s` or for anything in it. */
  predicate CompositionFree(cfg: Config, s: Schema)
    decreases s
  {
    if s.refResolved.Some? then CompositionFree(cfg, s.refResolved.value)
    else
      && ArrayFree(cfg, s.arr)
      && ObjectFree(cfg, s.obj)
      && s.comp.allOf == [] && !HasAlternatives(s.comp, s.disc)
      && CompositionFreeOpt(cfg, s.comp.notSchema)
      && (s.cond.ifSchema.Some? ==>
            && CompositionFreeOpt(cfg, s.cond.ifSchema)
            && CompositionFreeOpt(cfg, s.cond.thenSchema)
            && CompositionFreeOpt(cfg, s.cond.elseSchema))
  }

  predicate CompositionFreeOpt(cfg: Config, o: Option<Schema>)
    decreases o
  {
    o.Some? ==> CompositionFree(cfg, o.value)
  }

  predicate ArrayFree(cfg: Config, r: ArrayRules)
    decreases r
  {
    && (forall i | 0 <= i < |r.prefixItems| :: CompositionFreeOpt(cfg, r.prefixItems[i]))
    && CompositionFreeOpt(cfg, r.items) && CompositionFreeOpt(cfg, r.contains)
  }

  predicate ObjectFree(cfg: Config, r: ObjectRules)
    decreases r
  {
    && PropertiesFree(cfg, r.properties)
    && CompositionFreeOpt(cfg, r.additional)
    && CompositionFreeOpt(cfg, r.propertyNames)
    && PatternsFree(cfg, r.patternProperties)
    && DependentsFree(cfg, r.dependentSchemas)
  }

  predicate PropertiesFree(cfg: Config, ps: seq<Property>)
    decreases ps
  {
    forall i | 0 <= i < |ps| :: CompositionFree(cfg, ps[i].schema)
  }

  predicate PatternsFree(cfg: Config, ps: seq<PatternProperty>)
    decreases ps
  {
    forall i | 0 <= i < |ps| :: PatternFree(cfg, ps[i])
  }

  predicate DependentsFree(cfg: Config, ds: seq<DependentSchema>)
    decreases ds
  {
    forall i | 0 <= i < |ds| :: CompositionFreeOpt(cfg, ds[i].schema)
  }

  predicate PatternFree(cfg: Config, p: PatternProperty)
    decreases p
  {
    cfg.hasRegex ==> CompositionFreeOpt(cfg, p.schema)
  }

  /** Some anyOf, oneOf or discriminator opcode is emitted. */
  predicate HasAlternatives(c: Composition, d: Discriminator) {
    if HasDiscriminator(d) then
      if c.oneOf != [] then |c.oneOf| == |d.mapping| else c.anyOf != [] && |c.anyOf| == |d.mapping|
    else c.anyOf != [] || c.oneOf != []
  }

  // ----- the fragment -----

  /** Composition appears only where the machine runs a body in place: at the top, under allOf,
      anyOf, oneOf, a discriminator, not or if; and no branch list is longer than 65535. */
  predicate InFragment(cfg: Config, s: Schema)
    decreases s
  {
    if s.refResolved.Some? then InFragment(cfg, s.refResolved.value)
    else
      && ArrayFree(cfg, s.arr)
      && ObjectFree(cfg, s.obj)
      && BranchesInFragment(cfg, s.comp.allOf)
      && (if HasDiscriminator(s.disc) then
            if s.comp.oneOf != [] then |s.comp.oneOf| == |s.disc.mapping| ==> AllInFragment(cfg, s.comp.oneOf)
            else |s.comp.anyOf| == |s.disc.mapping| ==> AllInFragment(cfg, s.comp.anyOf)
          else BranchesInFragment(cfg, s.comp.anyOf) && BranchesInFragment(cfg, s.comp.oneOf))
      && InFragmentOpt(cfg, s.comp.notSchema)
      && (s.cond.ifSchema.Some? ==>
            && InFragmentOpt(cfg, s.cond.ifSchema)
            && CompositionFreeOpt(cfg, s.cond.thenSchema)
            && CompositionFreeOpt(cfg, s.cond.elseSchema))
  }

  predicate InFragmentOpt(cfg: Config, o: Option<Schema>)
    decreases o
  {
    o.Some? ==> InFragment(cfg, o.value)
  }

  predicate AllInFragment(cfg: Config, os: seq<Option<Schema>>)
    decreases os, 0
  {
    forall i | 0 <= i < |os| :: InFragmentOpt(cfg, os[i])
  }

  predicate BranchesInFragment(cfg: Config, os: seq<Option<Schema>>)
    decreases os, 1
  {
    |os| < 0x1_0000 && AllInFragment(cfg, os)
  }

  // ----- shape of the compiled trees -----

  /** Properly shaped, and free of composition exactly when `free`. */
  predicate Shaped(ts: seq<Tree>, free: bool) {
    Proper(ts) && (ForkFree(ts) <==> free)
  }

  lemma ShapedConcat(a: seq<Tree>, b: seq<Tree>, x: bool, y: bool)
    requires Shaped(a, x) && Shaped(b, y)
    ensures Shaped(a + b, x && y)
  {
    ForkFreeConcat(a, b);
    var c := a + b;
    assert forall i | 0 <= i < |a| :: c[i] == a[i];
    forall i | 0 <= i < |c| ensures ProperTree(c[i]) {
      if i >= |a| { assert c[i] == b[i - |a|]; }
    }
  }

  lemma ShapedOne(t: Tree)
    requires ProperTree(t)
    ensures Shaped([t], ForkFreeTree(t))
    ensures Shaped([], true)
  {
    assert [t][0] == t;
  }

  predicate Plain(ts: seq<Tree>) {
    forall i | 0 <= i < |ts| :: ts[i].Leaf? || ts[i].Names?
  }

  lemma PlainShaped(ts: seq<Tree>)
    requires Plain(ts)
    ensures Shaped(ts, true)
  {
  }

  lemma PlainParts(cfg: Config, s: Schema)
    ensures Plain(When(EffectiveMask(s) != 0, CheckType(EffectiveMask(s))))
    ensures Plain(LowerString(cfg, s.str)) && Plain(LowerNumber(s.num)) && Plain(LowerAnnotations(s))
  {
    PlainString(cfg, s.str);
    PlainNumber(s.num);
    PlainAnnotations(s);
  }

  lemma PlainConcat(a: seq<Tree>, b: seq<Tree>)
    requires Plain(a) && Plain(b)
    ensures Plain(a + b)
  {
  }

  lemma PlainString(cfg: Config, r: StringRules)
    ensures Plain(LowerString(cfg, r))
  {
    var a, b := When(r.minLength >= 0, CheckMinLen(r.minLength)), When(r.maxLength >= 0, CheckMaxLen(r.maxLength));
    assert Plain(a) && Plain(b) && Plain(PatternLeaf(cfg, r.pattern)) && Plain(FormatLeaf(cfg, r.format));
    hide Plain, When, PatternLeaf, FormatLeaf;
    PlainConcat(a, b);
    PlainConcat(a + b, PatternLeaf(cfg, r.pattern));
    PlainConcat(a + b + PatternLeaf(cfg, r.pattern), FormatLeaf(cfg, r.format));
  }

  lemma PlainNumber(r: NumberRules)
    ensures Plain(LowerNumber(r))
  {
    var a, b := WhenSome(r.minimum, x => CheckMinimum(x)), WhenSome(r.maximum, x => CheckMaximum(x));
    var c, d := WhenSome(r.exclusiveMinimum, x => CheckExMinimum(x)),
        WhenSome(r.exclusiveMaximum, x => CheckExMaximum(x));
    var m := WhenSome(r.multipleOf, x => CheckMultipleOf(x));
    assert Plain(a) && Plain(b) && Plain(c) && Plain(d) && Plain(m);
    hide Plain, WhenSome;
    PlainConcat(a, b);
    PlainConcat(a + b, c);
    PlainConcat(a + b + c, d);
    PlainConcat(a + b + c + d, m);
  }

  lemma PlainAnnotations(s: Schema)
    ensures Plain(LowerAnnotations(s))
  {
    var a := if s.enumValues.Some? then [Leaf(CheckEnum(s.enumValues.value))] else [];
    var b := if s.constValue.Some? then [Leaf(CheckConst(s.constValue.value))] else [];
    var c, d := When(s.readOnly, CheckReadOnly), When(s.writeOnly, CheckWriteOnly);
    assert Plain(a) && Plain(b) && Plain(c) && Plain(d);
    hide Plain, When;
    PlainConcat(a, b);
    PlainConcat(a + b, c);
    PlainConcat(a + b + c, d);
  }

  lemma ShapedNine(a: seq<Tree>, b: seq<Tree>, c: seq<Tree>, d: seq<Tree>, f: seq<Tree>,
                   g: seq<Tree>, h: seq<Tree>, i: seq<Tree>, j: seq<Tree>,
                   x1: bool, x2: bool, x3: bool, x4: bool, x5: bool, x6: bool, x7: bool, x8: bool, x9: bool)
    requires Shaped(a, x1) && Shaped(b, x2) && Shaped(c, x3) && Shaped(d, x4) && Shaped(f, x5)
    requires Shaped(g, x6) && Shaped(h, x7) && Shaped(i, x8) && Shaped(j, x9)
    ensures Shaped(a + b + c + d + f + g + h + i + j, x1 && x2 && x3 && x4 && x5 && x6 && x7 && x8 && x9)
  {
    hide Shaped;
    ShapedConcat(a, b, x1, x2);
    ShapedConcat(a + b, c, x1 && x2, x3);
    ShapedConcat(a + b + c, d, x1 && x2 && x3, x4);
    ShapedConcat(a + b + c + d, f, x1 && x2 && x3 && x4, x5);
    ShapedConcat(a + b + c + d + f, g, x1 && x2 && x3 && x4 && x5, x6);
    ShapedConcat(a + b + c + d + f + g, h, x1 && x2 && x3 && x4 && x5 && x6, x7);
    ShapedConcat(a + b + c + d + f + g + h, i, x1 && x2 && x3 && x4 && x5 && x6 && x7, x8);
    ShapedConcat(a + b + c + d + f + g + h + i, j, x1 && x2 && x3 && x4 && x5 && x6 && x7 && x8, x9);
  }

  lemma {:induction false} LowerShape(cfg: Config, s: Schema)
    ensures Shaped(Lower(cfg, s), CompositionFree(cfg, s))
    decreases s
  {
    hide Shaped, LowerString, LowerNumber, LowerArray, LowerObject, LowerContains, LowerComposition, LowerConditional,
         LowerAnnotations, When, ArrayFree, ObjectFree, HasAlternatives;
    if s.refResolved.Some? {
      LowerShape(cfg, s.refResolved.value);
    } else {
      var t := When(EffectiveMask(s) != 0, CheckType(EffectiveMask(s)));
      PlainParts(cfg, s);
      PlainShaped(t);
      PlainShaped(LowerString(cfg, s.str));
      PlainShaped(LowerNumber(s.num));
      PlainShaped(LowerAnnotations(s));
      ArrayShape(cfg, s.arr);
      ObjectShape(cfg, s.obj);
      CompositionShape(cfg, s.comp, s.disc);
      ConditionalShape(cfg, s.cond);
      hide Plain, EffectiveMask, ArrayPartFree, CompositionPartFree, ConditionalFree;
      ShapedNine(t, LowerString(cfg, s.str), LowerNumber(s.num), LowerArray(cfg, s.arr), LowerObject(cfg, s.obj),
                 LowerContains(cfg, s.arr), LowerComposition(cfg, s.comp, s.disc), LowerConditional(cfg, s.cond),
                 LowerAnnotations(s),
                 true, true, true, ArrayPartFree(cfg, s.arr), ObjectFree(cfg, s.obj),
                 CompositionFreeOpt(cfg, s.arr.contains), CompositionPartFree(cfg, s.comp, s.disc),
                 ConditionalFree(cfg, s.cond), true);
      FreeParts(cfg, s);
      ArrayFreeParts(cfg, s.arr);
    }
  }

  lemma FreeParts(cfg: Config, s: Schema)
    requires s.refResolved.None?
    ensures CompositionFree(cfg, s) <==>
      && ArrayFree(cfg, s.arr) && ObjectFree(cfg, s.obj)
      && CompositionPartFree(cfg, s.comp, s.disc) && ConditionalFree(cfg, s.cond)
  {
  }

  predicate ArrayPartFree(cfg: Config, r: ArrayRules) {
    && (forall i | 0 <= i < |r.prefixItems| :: CompositionFreeOpt(cfg, r.prefixItems[i]))
    && CompositionFreeOpt(cfg, r.items)
  }

  lemma ArrayFreeParts(cfg: Config, r: ArrayRules)
    ensures ArrayFree(cfg, r) <==> ArrayPartFree(cfg, r) && CompositionFreeOpt(cfg, r.contains)
  {
  }

  predicate CompositionPartFree(cfg: Config, c: Composition, d: Discriminator) {
    c.allOf == [] && !HasAlternatives(c, d) && CompositionFreeOpt(cfg, c.notSchema)
  }

  predicate ConditionalFree(cfg: Config, c: Conditional) {
    c.ifSchema.Some? ==>
      && CompositionFreeOpt(cfg, c.ifSchema) && CompositionFreeOpt(cfg, c.thenSchema)
      && CompositionFreeOpt(cfg, c.elseSchema)
  }

  lemma {:induction false} OptShape(cfg: Config, o: Option<Schema>)
    ensures Shaped(LowerOpt(cfg, o).trees, CompositionFreeOpt(cfg, o))
    decreases o, 0
  {
    hide Lower, CompositionFree;
    if o.Some? { LowerShape(cfg, o.value); }
  }

  lemma {:induction false} NestedShape(cfg: Config, opener: Opener, o: Option<Schema>)
    requires !opener.CondIf? && !opener.CondThen? && !opener.CondElse?
    ensures Shaped(LowerNested(cfg, opener, o), CompositionFreeOpt(cfg, o))
    decreases o, 1
  {
    OptShape(cfg, o);
    hide LowerOpt, CompositionFree, Lower;
    var t := Nest(opener, LowerOpt(cfg, o));
    ShapedOne(t);
  }

  lemma {:induction false} ArrayShape(cfg: Config, r: ArrayRules)
    ensures Shaped(LowerArray(cfg, r), ArrayPartFree(cfg, r))
    ensures Shaped(LowerContains(cfg, r), CompositionFreeOpt(cfg, r.contains))
    decreases r
  {
    var a := When(r.minItems >= 0, CheckMinItems(r.minItems)) + When(r.maxItems >= 0, CheckMaxItems(r.maxItems))
             + When(r.uniqueItems, CheckUnique);
    PlainShaped(a);
    PrefixShape(cfg, r.prefixItems);
    NestedShape(cfg, EnterItems, r.items);
    OptShape(cfg, r.contains);
    QuotaShape(cfg, r);
    hide Shaped, LowerPrefix, LowerNested, When, LowerContains, CompositionFreeOpt;
    var f := forall i | 0 <= i < |r.prefixItems| :: CompositionFreeOpt(cfg, r.prefixItems[i]);
    ShapedConcat(a, LowerPrefix(cfg, r.prefixItems), true, f);
    ShapedConcat(a + LowerPrefix(cfg, r.prefixItems), LowerNested(cfg, EnterItems, r.items), f,
        CompositionFreeOpt(cfg, r.items));
  }

  lemma QuotaShape(cfg: Config, r: ArrayRules)
    requires Shaped(LowerOpt(cfg, r.contains).trees, CompositionFreeOpt(cfg, r.contains))
    ensures Shaped(LowerContains(cfg, r), CompositionFreeOpt(cfg, r.contains))
  {
    hide LowerOpt, CompositionFree;
    var t := Quota(if r.minContains >= 0 then r.minContains else 1, r.maxContains, LowerOpt(cfg, r.contains));
    ShapedOne(t);
  }

  lemma {:induction false} PrefixShape(cfg: Config, os: seq<Option<Schema>>)
    ensures Shaped(LowerPrefix(cfg, os), forall i | 0 <= i < |os| :: CompositionFreeOpt(cfg, os[i]))
    decreases os
  {
    hide LowerOpt, LowerPrefix, CompositionFreeOpt;
    var ts := LowerPrefix(cfg, os);
    forall i | 0 <= i < |os| ensures ProperTree(ts[i]) && (ForkFreeTree(ts[i]) <==> CompositionFreeOpt(cfg, os[i])) {
      OptShape(cfg, os[i]);
    }
  }

  lemma {:induction false} PropertiesShape(cfg: Config, ps: seq<Property>)
    ensures Shaped(LowerProperties(cfg, ps), PropertiesFree(cfg, ps))
    decreases ps
  {
    hide Lower, LowerProperties, CompositionFree;
    var ts := LowerProperties(cfg, ps);
    forall i | 0 <= i < |ps|
      ensures ProperTree(ts[i]) && (ForkFreeTree(ts[i]) <==> CompositionFree(cfg, ps[i].schema))
    {
      LowerShape(cfg, ps[i].schema);
    }
  }

  lemma {:induction false} PatternShape(cfg: Config, p: PatternProperty)
    ensures Shaped(LowerPattern(cfg, p), PatternFree(cfg, p))
    decreases p
  {
    NestedShape(cfg, CheckPatternProps(p.pattern), p.schema);
    ShapedOne(Leaf(CheckUnique));
    hide Shaped, LowerNested;
  }

  lemma {:induction false} PatternsShape(cfg: Config, ps: seq<PatternProperty>)
    ensures Shaped(LowerPatterns(cfg, ps), PatternsFree(cfg, ps))
    decreases ps
  {
    ShapedOne(Leaf(CheckUnique));
    hide Shaped, PatternFree, LowerPattern;
    if ps != [] {
      PatternShape(cfg, ps[0]);
      PatternsShape(cfg, ps[1..]);
      ShapedConcat(LowerPattern(cfg, ps[0]), LowerPatterns(cfg, ps[1..]), PatternFree(cfg, ps[0]),
          PatternsFree(cfg, ps[1..]));
      assert forall i | 1 <= i < |ps| :: ps[i] == ps[1..][i - 1];
    }
  }

  lemma {:induction false} DependentsShape(cfg: Config, ds: seq<DependentSchema>)
    ensures Shaped(LowerDependentSchemas(cfg, ds), DependentsFree(cfg, ds))
    decreases ds
  {
    ShapedOne(Leaf(CheckUnique));
    hide Shaped, CompositionFreeOpt, LowerNested;
    if ds != [] {
      NestedShape(cfg, CheckDepSchema(ds[0].property), ds[0].schema);
      DependentsShape(cfg, ds[1..]);
      ShapedConcat(LowerNested(cfg, CheckDepSchema(ds[0].property), ds[0].schema), LowerDependentSchemas(cfg, ds[1..]),
                   CompositionFreeOpt(cfg, ds[0].schema), DependentsFree(cfg, ds[1..]));
      assert forall i | 1 <= i < |ds| :: ds[i] == ds[1..][i - 1];
    }
  }

  lemma ObjectPlain(r: ObjectRules)
    ensures Shaped(LowerRequired(r.required), true)
    ensures Shaped(When(r.minProperties >= 0, CheckMinProps(r.minProperties)), true)
    ensures Shaped(When(r.maxProperties >= 0, CheckMaxProps(r.maxProperties)), true)
    ensures Shaped(LowerDependentRequired(r.dependentRequired), true)
  {
    hide Shaped;
    PlainShaped(LowerRequired(r.required));
    PlainShaped(When(r.minProperties >= 0, CheckMinProps(r.minProperties)));
    PlainShaped(When(r.maxProperties >= 0, CheckMaxProps(r.maxProperties)));
    PlainShaped(LowerDependentRequired(r.dependentRequired));
  }

  lemma {:induction false} ObjectShape(cfg: Config, r: ObjectRules)
    ensures Shaped(LowerObject(cfg, r), ObjectFree(cfg, r))
    decreases r
  {
    var q, c := LowerRequired(r.required), When(r.minProperties >= 0, CheckMinProps(r.minProperties));
    var d, n := When(r.maxProperties >= 0, CheckMaxProps(r.maxProperties)), LowerDependentRequired(r.dependentRequired);
    ObjectPlain(r);
    PropertiesShape(cfg, r.properties);
    NestedShape(cfg, EnterAdditional, r.additional);
    NestedShape(cfg, CheckPropNames, r.propertyNames);
    PatternsShape(cfg, r.patternProperties);
    DependentsShape(cfg, r.dependentSchemas);
    hide Shaped, LowerRequired, LowerProperties, LowerNested, When, LowerPatterns, LowerDependentRequired,
         LowerDependentSchemas, CompositionFreeOpt, PropertiesFree, PatternsFree, DependentsFree;
    ShapedNine(q, LowerProperties(cfg, r.properties), LowerNested(cfg, EnterAdditional, r.additional), c, d,
               LowerNested(cfg, CheckPropNames, r.propertyNames), LowerPatterns(cfg, r.patternProperties), n,
               LowerDependentSchemas(cfg, r.dependentSchemas),
               true, PropertiesFree(cfg, r.properties), CompositionFreeOpt(cfg, r.additional), true, true,
               CompositionFreeOpt(cfg, r.propertyNames), PatternsFree(cfg, r.patternProperties), true,
               DependentsFree(cfg, r.dependentSchemas));
  }

  lemma {:induction false} BranchesShape(cfg: Config, os: seq<Option<Schema>>)
    ensures forall i | 0 <= i < |os| :: Proper(LowerBranches(cfg, os)[i].trees)
    decreases os, 0
  {
    hide LowerOpt, LowerBranches;
    forall i | 0 <= i < |os| ensures Proper(LowerBranches(cfg, os)[i].trees) {
      OptShape(cfg, os[i]);
    }
  }

  lemma {:induction false} ForkShape(cfg: Config, kind: BranchKind, os: seq<Option<Schema>>)
    ensures Shaped(LowerFork(cfg, kind, os), os == [])
    decreases os, 1
  {
    BranchesShape(cfg, os);
    hide LowerBranches, Proper;
    ShapedOne(Fork(kind, LowerBranches(cfg, os)));
  }

  lemma {:induction false} PickShape(cfg: Config, os: seq<Option<Schema>>, d: Discriminator)
    requires HasDiscriminator(d)
    ensures Shaped(LowerPick(cfg, os, d), |os| != |d.mapping|)
    decreases os, 1
  {
    BranchesShape(cfg, os);
    hide LowerBranches, Proper;
    ShapedOne(Leaf(CheckUnique));
    if |os| == |d.mapping| {
      ShapedOne(Pick(d.property.value, Keys(d.mapping), LowerBranches(cfg, os)));
    }
  }

  lemma {:induction false} CompositionShape(cfg: Config, c: Composition, d: Discriminator)
    ensures Shaped(LowerComposition(cfg, c, d), CompositionPartFree(cfg, c, d))
    decreases c
  {
    ShapedOne(Leaf(CheckUnique));
    ForkShape(cfg, AllOf, c.allOf);
    NestedShape(cfg, Negate, c.notSchema);
    AlternativesShape(cfg, c, d);
    hide Shaped, LowerFork, LowerAlternatives, LowerNested, CompositionFreeOpt, HasAlternatives;
    ShapedConcat(LowerFork(cfg, AllOf, c.allOf), LowerAlternatives(cfg, c, d), c.allOf == [], !HasAlternatives(c, d));
    ShapedConcat(LowerFork(cfg, AllOf, c.allOf) + LowerAlternatives(cfg, c, d), LowerNested(cfg, Negate, c.notSchema),
                 c.allOf == [] && !HasAlternatives(c, d), CompositionFreeOpt(cfg, c.notSchema));
  }

  lemma {:induction false} AlternativesShape(cfg: Config, c: Composition, d: Discriminator)
    ensures Shaped(LowerAlternatives(cfg, c, d), !HasAlternatives(c, d))
    decreases c, 0
  {
    ShapedOne(Leaf(CheckUnique));
    hide Shaped, LowerFork, LowerPick;
    if HasDiscriminator(d) {
      if c.oneOf != [] { PickShape(cfg, c.oneOf, d); } else { PickShape(cfg, c.anyOf, d); }
    } else {
      ForkShape(cfg, AnyOf, c.anyOf);
      ForkShape(cfg, OneOf, c.oneOf);
      ShapedConcat(LowerFork(cfg, AnyOf, c.anyOf), LowerFork(cfg, OneOf, c.oneOf), c.anyOf == [], c.oneOf == []);
    }
  }

  lemma {:induction false} ConditionalShape(cfg: Config, c: Conditional)
    ensures Shaped(LowerConditional(cfg, c), ConditionalFree(cfg, c))
    decreases c
  {
    OptShape(cfg, c.ifSchema);
    OptShape(cfg, c.thenSchema);
    OptShape(cfg, c.elseSchema);
    hide LowerOpt, CompositionFree;
    ShapedOne(Leaf(CheckUnique));
    if c.ifSchema.Some? {
      var t := Cond(LowerOpt(cfg, c.ifSchema),
                    if c.thenSchema.Some? then Some(LowerOpt(cfg, c.thenSchema)) else None,
                    if c.elseSchema.Some? then Some(LowerOpt(cfg, c.elseSchema)) else None);
      ShapedOne(t);
    }
  }

  // ----- inside the fragment every run is clean -----

  ghost predicate AlwaysClean(e: Env, ts: seq<Tree>) {
    forall v, ok :: Clean(e, ts, v, ok)
  }

  lemma {:induction false} CleanConcat(e: Env, a: seq<Tree>, b: seq<Tree>, v: Value, ok: bool)
    ensures Clean(e, a + b, v, ok) <==> Clean(e, a, v, ok) && Clean(e, b, v, ok && Accepts(e, a, v))
  {
    hide AcceptsTree, CleanTree;
    if a == [] {
      assert a + b == b;
    } else {
      assert (a + b)[0] == a[0] && (a + b)[1..] == a[1..] + b;
      CleanConcat(e, a[1..], b, v, ok && AcceptsTree(e, a[0], v));
      AcceptsStep(e, a, v);
    }
  }

  lemma AlwaysConcat(e: Env, a: seq<Tree>, b: seq<Tree>)
    requires AlwaysClean(e, a) && AlwaysClean(e, b)
    ensures AlwaysClean(e, a + b)
  {
    hide Clean;
    forall v, ok ensures Clean(e, a + b, v, ok) {
      CleanConcat(e, a, b, v, ok);
    }
  }

  lemma AlwaysOne(e: Env, t: Tree)
    requires forall v, ok :: CleanTree(e, t, v, ok)
    ensures AlwaysClean(e, [t]) && AlwaysClean(e, [])
  {
    hide CleanTree, AcceptsTree;
    forall v, ok ensures Clean(e, [t], v, ok) {
      assert [t][1..] == [];
      assert Clean(e, [], v, ok && AcceptsTree(e, t, v));
    }
  }

  lemma FreeIsClean(e: Env, ts: seq<Tree>)
    requires Shaped(ts, true)
    ensures AlwaysClean(e, ts)
  {
    forall v, ok ensures Clean(e, ts, v, ok) {
      ForkFreeIsClean(e, ts, v, ok);
    }
  }

  lemma {:induction false} FragmentIsClean(e: Env, s: Schema)
    requires InFragment(e.config, s)
    ensures AlwaysClean(e, Lower(e.config, s))
    decreases s
  {
    hide AlwaysClean, Shaped, LowerString, LowerNumber, LowerArray, LowerObject, LowerContains, LowerComposition,
         LowerConditional, LowerAnnotations, When, ArrayFree, ObjectFree, CompositionFreeOpt;
    var cfg := e.config;
    if s.refResolved.Some? {
      FragmentIsClean(e, s.refResolved.value);
    } else {
      var t := When(EffectiveMask(s) != 0, CheckType(EffectiveMask(s)));
      PlainParts(cfg, s);
      PlainShaped(t);
      PlainShaped(LowerString(cfg, s.str));
      PlainShaped(LowerNumber(s.num));
      PlainShaped(LowerAnnotations(s));
      ArrayFreeParts(cfg, s.arr);
      ArrayShape(cfg, s.arr);
      ObjectShape(cfg, s.obj);
      FreeIsClean(e, t);
      FreeIsClean(e, LowerString(cfg, s.str));
      FreeIsClean(e, LowerNumber(s.num));
      FreeIsClean(e, LowerAnnotations(s));
      FreeIsClean(e, LowerArray(cfg, s.arr));
      FreeIsClean(e, LowerObject(cfg, s.obj));
      FreeIsClean(e, LowerContains(cfg, s.arr));
      CompositionIsClean(e, s.comp, s.disc);
      ConditionalIsClean(e, s.cond);
      AlwaysNine(e, t, LowerString(cfg, s.str), LowerNumber(s.num), LowerArray(cfg, s.arr), LowerObject(cfg, s.obj),
                 LowerContains(cfg, s.arr), LowerComposition(cfg, s.comp, s.disc), LowerConditional(cfg, s.cond),
                 LowerAnnotations(s));
    }
  }

  lemma AlwaysNine(e: Env, a: seq<Tree>, b: seq<Tree>, c: seq<Tree>, d: seq<Tree>, f: seq<Tree>,
                   g: seq<Tree>, h: seq<Tree>, i: seq<Tree>, j: seq<Tree>)
    requires AlwaysClean(e, a) && AlwaysClean(e, b) && AlwaysClean(e, c) && AlwaysClean(e, d) && AlwaysClean(e, f)
    requires AlwaysClean(e, g) && AlwaysClean(e, h) && AlwaysClean(e, i) && AlwaysClean(e, j)
    ensures AlwaysClean(e, a + b + c + d + f + g + h + i + j)
  {
    hide AlwaysClean;
    AlwaysConcat(e, a, b);
    AlwaysConcat(e, a + b, c);
    AlwaysConcat(e, a + b + c, d);
    AlwaysConcat(e, a + b + c + d, f);
    AlwaysConcat(e, a + b + c + d + f, g);
    AlwaysConcat(e, a + b + c + d + f + g, h);
    AlwaysConcat(e, a + b + c + d + f + g + h, i);
    AlwaysConcat(e, a + b + c + d + f + g + h + i, j);
  }

  lemma {:induction false} OptIsClean(e: Env, o: Option<Schema>)
    requires InFragmentOpt(e.config, o)
    ensures AlwaysClean(e, LowerOpt(e.config, o).trees)
    decreases o, 0
  {
    hide Lower, InFragment;
    if o.Some? { FragmentIsClean(e, o.value); }
  }

  lemma {:induction false} BranchesAreClean(e: Env, os: seq<Option<Schema>>)
    requires AllInFragment(e.config, os)
    ensures forall i | 0 <= i < |os| :: AlwaysClean(e, LowerBranches(e.config, os)[i].trees)
    decreases os, 0
  {
    hide LowerOpt, LowerBranches, AlwaysClean;
    forall i | 0 <= i < |os| ensures AlwaysClean(e, LowerBranches(e.config, os)[i].trees) {
      OptIsClean(e, os[i]);
    }
  }

  lemma {:induction false} ForkIsClean(e: Env, kind: BranchKind, os: seq<Option<Schema>>)
    requires BranchesInFragment(e.config, os)
    ensures AlwaysClean(e, LowerFork(e.config, kind, os))
    decreases os, 1
  {
    var bs := LowerBranches(e.config, os);
    BranchesAreClean(e, os);
    hide LowerBranches, Clean, AdmitBefore;
    var t := Fork(kind, bs);
    forall v, ok ensures CleanTree(e, t, v, ok) {
    }
    hide CleanTree;
    AlwaysOne(e, t);
  }

  lemma {:induction false} PickIsClean(e: Env, os: seq<Option<Schema>>, d: Discriminator)
    requires d.property.Some? && (|os| == |d.mapping| ==> AllInFragment(e.config, os))
    ensures AlwaysClean(e, LowerPick(e.config, os, d))
    decreases os, 1
  {
    AlwaysOne(e, Leaf(CheckUnique));
    if |os| == |d.mapping| {
      var bs := LowerBranches(e.config, os);
      BranchesAreClean(e, os);
      hide LowerBranches, Clean, PickBefore;
      var t := Pick(d.property.value, Keys(d.mapping), bs);
      forall v, ok ensures CleanTree(e, t, v, ok) {
      }
      hide CleanTree;
      AlwaysOne(e, t);
    }
  }

  lemma {:induction false} CompositionIsClean(e: Env, c: Composition, d: Discriminator)
    requires BranchesInFragment(e.config, c.allOf) && InFragmentOpt(e.config, c.notSchema)
    requires if HasDiscriminator(d) then
               if c.oneOf != [] then |c.oneOf| == |d.mapping| ==> AllInFragment(e.config, c.oneOf)
               else |c.anyOf| == |d.mapping| ==> AllInFragment(e.config, c.anyOf)
             else BranchesInFragment(e.config, c.anyOf) && BranchesInFragment(e.config, c.oneOf)
    ensures AlwaysClean(e, LowerComposition(e.config, c, d))
    decreases c
  {
    var cfg := e.config;
    ForkIsClean(e, AllOf, c.allOf);
    AlternativesAreClean(e, c, d);
    OptIsClean(e, c.notSchema);
    NotIsClean(e, c.notSchema);
    hide AlwaysClean, LowerFork, LowerAlternatives, LowerNested;
    AlwaysConcat(e, LowerFork(cfg, AllOf, c.allOf), LowerAlternatives(cfg, c, d));
    AlwaysConcat(e, LowerFork(cfg, AllOf, c.allOf) + LowerAlternatives(cfg, c, d),
        LowerNested(cfg, Negate, c.notSchema));
  }

  lemma {:induction false} AlternativesAreClean(e: Env, c: Composition, d: Discriminator)
    requires if HasDiscriminator(d) then
               if c.oneOf != [] then |c.oneOf| == |d.mapping| ==> AllInFragment(e.config, c.oneOf)
               else |c.anyOf| == |d.mapping| ==> AllInFragment(e.config, c.anyOf)
             else BranchesInFragment(e.config, c.anyOf) && BranchesInFragment(e.config, c.oneOf)
    ensures AlwaysClean(e, LowerAlternatives(e.config, c, d))
    decreases c, 0
  {
    hide AlwaysClean, LowerFork, LowerPick;
    AlwaysOne(e, Leaf(CheckUnique));
    if HasDiscriminator(d) {
      if c.oneOf != [] { PickIsClean(e, c.oneOf, d); } else { PickIsClean(e, c.anyOf, d); }
    } else {
      ForkIsClean(e, AnyOf, c.anyOf);
      ForkIsClean(e, OneOf, c.oneOf);
      AlwaysConcat(e, LowerFork(e.config, AnyOf, c.anyOf), LowerFork(e.config, OneOf, c.oneOf));
    }
  }

  lemma NotIsClean(e: Env, o: Option<Schema>)
    requires AlwaysClean(e, LowerOpt(e.config, o).trees)
    ensures AlwaysClean(e, LowerNested(e.config, Negate, o))
  {
    hide LowerOpt, Clean;
    var t := Nest(Negate, LowerOpt(e.config, o));
    forall v, ok ensures CleanTree(e, t, v, ok) {
    }
    AlwaysOne(e, t);
  }

  lemma {:induction false} ConditionalIsClean(e: Env, c: Conditional)
    requires c.ifSchema.Some? ==>
               && InFragmentOpt(e.config, c.ifSchema)
               && CompositionFreeOpt(e.config, c.thenSchema) && CompositionFreeOpt(e.config, c.elseSchema)
    ensures AlwaysClean(e, LowerConditional(e.config, c))
    decreases c
  {
    var cfg := e.config;
    AlwaysOne(e, Leaf(CheckUnique));
    if c.ifSchema.Some? {
      OptIsClean(e, c.ifSchema);
      OptShape(cfg, c.thenSchema);
      OptShape(cfg, c.elseSchema);
      var i, th, el := LowerOpt(cfg, c.ifSchema), LowerOpt(cfg, c.thenSchema), LowerOpt(cfg, c.elseSchema);
      FreeIsClean(e, th.trees);
      FreeIsClean(e, el.trees);
      hide LowerOpt, Clean, Proper, ForkFree, Accepts, CompositionFreeOpt, InFragmentOpt;
      var t := Cond(i, if c.thenSchema.Some? then Some(th) else None, if c.elseSchema.Some? then Some(el) else None);
      forall v, ok ensures CleanTree(e, t, v, ok) {
      }
      hide CleanTree;
      AlwaysOne(e, t);
    }
  }

  // ----- how large the fragment is -----

  /** Schemas without composition are in the fragment. */
  lemma {:induction false} FreeInFragment(cfg: Config, s: Schema)
    requires CompositionFree(cfg, s)
    ensures InFragment(cfg, s)
    decreases s
  {
    hide ArrayFree, ObjectFree;
    if s.refResolved.Some? {
      FreeInFragment(cfg, s.refResolved.value);
    } else {
      assert AllInFragment(cfg, []) && BranchesInFragment(cfg, []);
      assert HasDiscriminator(s.disc) ==> |s.disc.mapping| > 0;
      if s.comp.notSchema.Some? { FreeInFragment(cfg, s.comp.notSchema.value); }
      if s.cond.ifSchema.Some? { FreeInFragment(cfg, s.cond.ifSchema.value); }
    }
  }

  lemma ListInFragment(cfg: Config, os: seq<Option<Schema>>)
    requires |os| < 65536 && forall o | o in os :: o.None? || InFragment(cfg, o.value)
    ensures BranchesInFragment(cfg, os)
  {
    hide InFragment;
    forall i | 0 <= i < |os| ensures InFragmentOpt(cfg, os[i]) { assert os[i] in os; }
    assert AllInFragment(cfg, os);
  }

  /** So are fewer than 65536 of its schemas under allOf, anyOf or oneOf, and under not, beside anything else that is
      free of composition. */
  lemma ComposedInFragment(cfg: Config, s: Schema, c: Composition)
    requires CompositionFree(cfg, s) && s.refResolved.None? && !HasDiscriminator(s.disc)
    requires |c.allOf| < 65536 && |c.anyOf| < 65536 && |c.oneOf| < 65536
    requires forall o | o in c.allOf || o in c.anyOf || o in c.oneOf || o == c.notSchema ::
      o.None? || InFragment(cfg, o.value)
    ensures InFragment(cfg, s.(comp := c))
  {
    hide ArrayFree, ObjectFree;
    FreeInFragment(cfg, s);
    ListInFragment(cfg, c.allOf);
    ListInFragment(cfg, c.anyOf);
    ListInFragment(cfg, c.oneOf);
    assert InFragmentOpt(cfg, c.notSchema);
  }
}
