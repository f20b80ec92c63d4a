/** What a schema means, said once more without any function that the compiler or the machine is built from: one
    condition for each keyword, on the value itself. */
module KeywordMeanings {
  import opened Json
  import opened Schemas
  import opened Instructions
  import opened Trees
  import opened Meanings
  import opened Compiler

  // ----- numbers -----

  /** A number has the property; any other value need not. */
  predicate Numeric(v: Value, p: real -> bool) {
    match v
    case JInt(i) => p(i as real)
    case JReal(r) => p(r)
    case _ => true
  }

  lemma NumberChecks(e: Env, x: real, v: Value)
    ensures CheckOk(e, CheckMinimum(x), v) <==> Numeric(v, r => x <= r)
    ensures CheckOk(e, CheckMaximum(x), v) <==> Numeric(v, r => r <= x)
    ensures CheckOk(e, CheckExMinimum(x), v) <==> Numeric(v, r => x < r)
    ensures CheckOk(e, CheckExMaximum(x), v) <==> Numeric(v, r => r < x)
    ensures CheckOk(e, CheckMultipleOf(x), v) <==> Numeric(v, r => e.multipleOf(r, x))
  {
  }

  /** The five numeric opcodes compare an integer as the real number it is. */
  lemma IntegerChecks(e: Env, x: real, i: int)
    ensures CheckOk(e, CheckMinimum(x), JInt(i)) <==> x <= i as real
    ensures CheckOk(e, CheckMaximum(x), JInt(i)) <==> i as real <= x
    ensures CheckOk(e, CheckExMinimum(x), JInt(i)) <==> x < i as real
    ensures CheckOk(e, CheckExMaximum(x), JInt(i)) <==> i as real < x
    ensures CheckOk(e, CheckMultipleOf(x), JInt(i)) <==> e.multipleOf(i as real, x)
  {
    NumberChecks(e, x, JInt(i));
  }

  ghost predicate NumbersOk(e: Env, r: NumberRules, v: Value) {
    && (r.minimum.Some? ==> Numeric(v, y => r.minimum.value <= y))
    && (r.maximum.Some? ==> Numeric(v, y => y <= r.maximum.value))
    && (r.exclusiveMinimum.Some? ==> Numeric(v, y => r.exclusiveMinimum.value < y))
    && (r.exclusiveMaximum.Some? ==> Numeric(v, y => y < r.exclusiveMaximum.value))
    && (r.multipleOf.Some? ==> Numeric(v, y => e.multipleOf(y, r.multipleOf.value)))
  }

  lemma NumberRulesMean(e: Env, r: NumberRules, v: Value)
    ensures NumberOk(e, r, v) <==> NumbersOk(e, r, v)
  {
  }

  // ----- strings -----

  /** How many bytes of a text do not continue a character. */
  ghost function Characters(s: string): nat {
    |set i | 0 <= i < |s| && !(0x80 <= s[i] as int < 0xC0)|
  }

  lemma CharactersAre(s: string)
    ensures Characters(s) == |CharStarts(s)|
  {
    assert CharStarts(s) == set i | 0 <= i < |s| && !(0x80 <= s[i] as int < 0xC0);
  }

  ghost predicate StringsOk(e: Env, r: StringRules, v: Value) {
    v.JStr? ==>
      && (r.minLength >= 0 ==> Characters(v.s) >= r.minLength)
      && (r.maxLength >= 0 ==> Characters(v.s) <= r.maxLength)
      && (r.pattern.Some? && e.config.hasRegex ==> e.matches(r.pattern.value, v.s))
      && (r.format.Some? && e.config.checkFormats && e.config.knownFormat(r.format.value) ==>
            e.formatOk(r.format.value, v.s))
  }

  lemma StringRulesMean(e: Env, r: StringRules, v: Value)
    ensures StringOk(e, r, v) <==> StringsOk(e, r, v)
  {
    hide Characters, CharStarts;
    if v.JStr? { CharactersAre(v.s); }
  }

  /** Which format check is compiled: the one for a format that has a checker, if formats are checked at all. */
  lemma FormatCompiled(cfg: Config, r: StringRules, f: string)
    ensures Leaf(CheckFormat(f)) in LowerString(cfg, r) <==>
      r.format == Some(f) && cfg.checkFormats && cfg.knownFormat(f)
  {
  }

  function FormatOnly(f: string): Schema {
    EmptySchema().(str := StringRules(-1, -1, None, Some(f)))
  }

  lemma FormatOnlyCode(cfg: Config, f: string)
    ensures Lower(cfg, FormatOnly(f)) ==
      if cfg.checkFormats && cfg.knownFormat(f) then [Leaf(CheckFormat(f))] else []
  {
    var s := FormatOnly(f);
    assert LowerArray(cfg, s.arr) == [] && LowerNumber(s.num) == [];
    assert LowerObject(cfg, s.obj) == [] && LowerComposition(cfg, s.comp, s.disc) == [];
  }

  // ----- types -----

  /** The bits of a type mask that let the value through. */
  predicate HasBit(mask: bv8, v: Value) {
    match v
    case JNull => mask & 0x01 != 0
    case JBool(_) => mask & 0x02 != 0
    case JInt(_) => mask & 0x04 != 0 || mask & 0x08 != 0
    case JReal(r) => mask & 0x08 != 0 || (mask & 0x04 != 0 && r.Floor as real == r)
    case JStr(_) => mask & 0x10 != 0
    case JArr(_) => mask & 0x20 != 0
    case JObj(_) => mask & 0x40 != 0
  }

  lemma MaskMeans(mask: bv8, v: Value)
    ensures TypeOk(mask, v) <==> HasBit(mask, v)
  {
    assert TypeOk(mask, v) <==>
      || (HasType(v, TNull) && TypeIn(TNull, mask)) || (HasType(v, TBoolean) && TypeIn(TBoolean, mask))
      || (HasType(v, TInteger) && TypeIn(TInteger, mask)) || (HasType(v, TNumber) && TypeIn(TNumber, mask))
      || (HasType(v, TString) && TypeIn(TString, mask)) || (HasType(v, TArray) && TypeIn(TArray, mask))
      || (HasType(v, TObject) && TypeIn(TObject, mask));
  }

  /** `nullable` adds null to types that are given. */
  predicate TypesOk(mask: bv8, nullable: bool, v: Value) {
    mask == 0 || HasBit(mask, v) || (nullable && v.JNull?)
  }

  lemma NullBit(mask: bv8, v: Value)
    ensures HasBit(mask | 0x01, v) <==> HasBit(mask, v) || v.JNull?
    ensures mask | 0x01 != 0
  {
    KeptBits(mask);
  }

  lemma KeptBits(mask: bv8)
    ensures var m := mask | 0x01;
      && m & 0x01 != 0 && m & 0x02 == mask & 0x02 && m & 0x04 == mask & 0x04 && m & 0x08 == mask & 0x08
      && m & 0x10 == mask & 0x10 && m & 0x20 == mask & 0x20 && m & 0x40 == mask & 0x40
  {
  }

  lemma TypeRulesMean(s: Schema, v: Value)
    ensures EffectiveMask(s) == 0 || TypeOk(EffectiveMask(s), v) <==> TypesOk(s.typeMask, s.nullable, v)
  {
    hide TypeOk, HasBit;
    MaskMeans(s.typeMask, v);
    MaskMeans(s.typeMask | 0x01, v);
    NullBit(s.typeMask, v);
  }

  // ----- arrays -----

  /** Which elements satisfy a schema. */
  ghost function Hits(e: Env, s: Schema, vs: seq<Value>): set<int> {
    set i | 0 <= i < |vs| && Satisfies(e, s, vs[i])
  }

  ghost predicate ArraysOk(e: Env, r: ArrayRules, vs: seq<Value>) {
    && (r.minItems >= 0 ==> r.minItems <= |vs|) && (r.maxItems >= 0 ==> |vs| <= r.maxItems)
    && (r.uniqueItems ==> forall i, j | 0 <= i < j < |vs| :: !e.equal(vs[i], vs[j]))
    && (forall i | 0 <= i < |r.prefixItems| && i % 65536 < |vs| :: SatisfiesOpt(e, r.prefixItems[i], vs[i % 65536]))
    && (forall i | 0 <= i < |vs| :: SatisfiesOpt(e, r.items, vs[i]))
    && (r.contains.Some? ==>
          && |Hits(e, r.contains.value, vs)| >= (if r.minContains < 0 then 1 else r.minContains)
          && (r.maxContains >= 0 ==> |Hits(e, r.contains.value, vs)| <= r.maxContains))
  }

  lemma ArrayRulesMean(e: Env, r: ArrayRules, v: Value)
    ensures ArrayOk(e, r, v) <==> v.JArr? ==> ArraysOk(e, r, v.items)
  {
    hide Satisfies;
    if v.JArr? && r.contains.Some? {
      assert Matched(e, r.contains.value, v.items) == Hits(e, r.contains.value, v.items);
    }
  }

  // ----- objects -----

  /** The first member of an object that is called by the text in front of the name's first NUL. */
  ghost predicate Holds(v: Value, name: string, w: Value) {
    v.JObj? && exists c :: IsCText(c, name) && FirstMember(v.members, c, w)
  }

  ghost predicate Has(v: Value, name: string) {
    v.JObj? && exists c :: IsCText(c, name) && !NoMember(v.members, c)
  }

  lemma GetMeans(v: Value, name: string)
    ensures forall w :: Get(v, name) == Some(w) <==> Holds(v, name, w)
    ensures Get(v, name).Some? <==> Has(v, name)
  {
    hide Find, CStr, FirstMember, NoMember, IsCText, Get;
    CTextIs(CStr(name), name);
    forall c | IsCText(c, name) ensures c == CStr(name) { CTextIs(c, name); }
    forall w ensures Get(v, name) == Some(w) <==> Holds(v, name, w) { GetIsFirst(v, name, CStr(name), w); }
    GetIsFirst(v, name, CStr(name), JNull);
  }

  ghost predicate MembersOk(e: Env, r: ObjectRules, v: Value) {
    && (v.JObj? ==> forall i | 0 <= i < |r.required| :: Has(v, r.required[i]))
    && (forall i, w | 0 <= i < |r.properties| && Holds(v, r.properties[i].name, w) ::
          Satisfies(e, r.properties[i].schema, w))
    && (v.JObj? ==> r.minProperties >= 0 ==> r.minProperties <= |v.members|)
    && (v.JObj? ==> r.maxProperties >= 0 ==> |v.members| <= r.maxProperties)
  }

  lemma MemberRulesMean(e: Env, r: ObjectRules, v: Value)
    ensures MembersOk(e, r, v) <==>
      RequiredOk(r.required, v) && PropertiesOk(e, r.properties, v) && PropertyCountOk(r, v)
  {
    hide Get, Has, Holds, Satisfies, RequiredOk, PropertiesOk;
    RequiredMeans(r.required, v);
    PropertiesMean(e, r.properties, v);
  }

  lemma RequiredMeans(names: seq<string>, v: Value)
    ensures RequiredOk(names, v) <==> v.JObj? ==> forall i | 0 <= i < |names| :: Has(v, names[i])
  {
    hide Get, Has;
    forall i | 0 <= i < |names| ensures Get(v, names[i]).Some? <==> Has(v, names[i]) { GetMeans(v, names[i]); }
  }

  lemma PropertiesMean(e: Env, ps: seq<Property>, v: Value)
    ensures PropertiesOk(e, ps, v) <==>
      forall i, w | 0 <= i < |ps| && Holds(v, ps[i].name, w) :: Satisfies(e, ps[i].schema, w)
  {
    hide Get, Has, Holds, Satisfies;
    forall i | 0 <= i < |ps| ensures forall w :: Get(v, ps[i].name) == Some(w) <==> Holds(v, ps[i].name, w) {
      GetMeans(v, ps[i].name);
    }
    if forall i, w | 0 <= i < |ps| && Holds(v, ps[i].name, w) :: Satisfies(e, ps[i].schema, w) {
      forall i | 0 <= i < |ps| && Get(v, ps[i].name).Some?
        ensures Satisfies(e, ps[i].schema, Get(v, ps[i].name).value)
      {
        assert Holds(v, ps[i].name, Get(v, ps[i].name).value);
      }
    }
  }

  /** Names, patterns and dependencies. A null name is in no object. */
  ghost predicate DependenciesOk(e: Env, r: ObjectRules, v: Value) {
    && (v.JObj? ==> forall i, c | 0 <= i < |v.members| && IsCText(c, v.members[i].key) ::
          SatisfiesOpt(e, r.propertyNames, JStr(c)))
    && (v.JObj? && e.config.hasRegex ==>
          forall i, j | 0 <= i < |r.patternProperties| && 0 <= j < |v.members| ::
            e.matches(r.patternProperties[i].pattern, v.members[j].key) ==>
              SatisfiesOpt(e, r.patternProperties[i].schema, v.members[j].value))
    && (forall i, j | 0 <= i < |r.dependentRequired| && 0 <= j < |r.dependentRequired[i].required| ::
          Has(v, r.dependentRequired[i].property) ==>
            var name := r.dependentRequired[i].required[j]; name.Some? && Has(v, name.value))
    && (forall i | 0 <= i < |r.dependentSchemas| ::
          Has(v, r.dependentSchemas[i].property) ==> SatisfiesOpt(e, r.dependentSchemas[i].schema, v))
  }

  lemma NamesMean(e: Env, o: Option<Schema>, v: Value)
    ensures PropertyNamesOk(e, o, v) <==>
      v.JObj? ==> forall i, c | 0 <= i < |v.members| && IsCText(c, v.members[i].key) :: SatisfiesOpt(e, o, JStr(c))
  {
    hide CStr, IsCText, SatisfiesOpt;
    if v.JObj? {
      forall i, c | 0 <= i < |v.members| ensures IsCText(c, v.members[i].key) <==> c == CStr(v.members[i].key) {
        CTextIs(c, v.members[i].key);
      }
    }
  }

  lemma TriggersMean(e: Env, r: ObjectRules, v: Value)
    ensures DependentRequiredOk(r.dependentRequired, v) <==>
      forall i, j | 0 <= i < |r.dependentRequired| && 0 <= j < |r.dependentRequired[i].required| ::
        Has(v, r.dependentRequired[i].property) ==>
          var name := r.dependentRequired[i].required[j]; name.Some? && Has(v, name.value)
    ensures DependentSchemasOk(e, r.dependentSchemas, v) <==>
      forall i | 0 <= i < |r.dependentSchemas| ::
        Has(v, r.dependentSchemas[i].property) ==> SatisfiesOpt(e, r.dependentSchemas[i].schema, v)
  {
    hide Get, Has, SatisfiesOpt;
    forall name: string ensures Get(v, name).Some? <==> Has(v, name) { GetMeans(v, name); }
  }

  lemma ObjectRulesMean(e: Env, r: ObjectRules, v: Value)
    ensures ObjectOk(e, r, v) <==> MembersOk(e, r, v) && DependenciesOk(e, r, v)
  {
    hide Has, Holds, Satisfies, SatisfiesOpt, MembersOk, RequiredOk, PropertiesOk, PropertyCountOk, PropertyNamesOk,
      DependentRequiredOk, DependentSchemasOk, IsCText;
    MemberRulesMean(e, r, v);
    NamesMean(e, r.propertyNames, v);
    TriggersMean(e, r, v);
  }

  // ----- composition -----

  /** Both are the same text up to the first NUL. */
  ghost predicate SameText(a: string, b: string) {
    exists c :: IsCText(c, a) && IsCText(c, b)
  }

  lemma SameMeans(a: string, b: string)
    ensures SameCStr(a, b) <==> SameText(a, b)
  {
    hide CStr, IsCText;
    CTextIs(CStr(a), a);
    CTextIs(CStr(b), b);
    forall c | IsCText(c, a) ensures c == CStr(a) { CTextIs(c, a); }
    forall c | IsCText(c, b) ensures c == CStr(b) { CTextIs(c, b); }
  }

  /** The string in the discriminator property names key number `i` of the mapping, and none in front of it. */
  ghost predicate Picks(d: Discriminator, v: Value, i: nat, tag: string) {
    && d.property.Some? && Holds(v, d.property.value, JStr(tag))
    && i < |d.mapping| && SameText(d.mapping[i].key, tag)
    && forall j | 0 <= j < i :: !SameText(d.mapping[j].key, tag)
  }

  ghost predicate Picked(e: Env, os: seq<Option<Schema>>, d: Discriminator, v: Value) {
    exists i: nat, tag :: Picks(d, v, i, tag) && i < |os| && SatisfiesOpt(e, os[i], v)
  }

  ghost function Branches(e: Env, os: seq<Option<Schema>>, v: Value): set<int> {
    set i | 0 <= i < |os| && SatisfiesOpt(e, os[i], v)
  }

  /** With a property name and a mapping the discriminator takes the place of oneOf, or of anyOf where there is no
      oneOf; it is in force where the mapping is as long as that list. */
  ghost predicate AlternativesOk(e: Env, c: Composition, d: Discriminator, v: Value) {
    if d.property.None? || d.mapping == [] then
      && (c.anyOf == [] || exists i :: 0 <= i < |c.anyOf| && SatisfiesOpt(e, c.anyOf[i], v))
      && (c.oneOf == [] || |Branches(e, c.oneOf, v)| == 1)
    else
      var os := if c.oneOf != [] then c.oneOf else c.anyOf;
      |os| == |d.mapping| ==> Picked(e, os, d, v)
  }

  lemma PickMeans(d: Discriminator, v: Value, i: nat)
    requires d.property.Some?
    ensures DiscriminatorPicks(d, v, i) <==> exists tag :: Picks(d, v, i, tag)
  {
    hide Get, Holds, SameCStr, SameText;
    GetMeans(v, d.property.value);
    forall tag, j | 0 <= j < |d.mapping|
      ensures SameCStr(d.mapping[j].key, tag) <==> SameText(d.mapping[j].key, tag)
    {
      SameMeans(d.mapping[j].key, tag);
    }
    if DiscriminatorPicks(d, v, i) {
      assert Picks(d, v, i, Get(v, d.property.value).value.s);
    }
  }

  lemma DiscriminatorMeans(e: Env, os: seq<Option<Schema>>, d: Discriminator, v: Value)
    requires d.property.Some? && |os| == |d.mapping|
    ensures DiscriminatorOk(e, os, d, v) <==> Picked(e, os, d, v)
  {
    hide Picks, DiscriminatorPicks, SatisfiesOpt;
    NoNegativePick(d, v);
    forall i: nat ensures DiscriminatorPicks(d, v, i) <==> exists tag :: Picks(d, v, i, tag) { PickMeans(d, v, i); }
    PicksInside(d, v);
  }

  lemma NoNegativePick(d: Discriminator, v: Value)
    requires d.property.Some?
    ensures forall i | DiscriminatorPicks(d, v, i) :: 0 <= i < |d.mapping|
  {
    hide Get, SameCStr;
  }

  lemma PicksInside(d: Discriminator, v: Value)
    ensures forall i: nat, tag | Picks(d, v, i, tag) :: i < |d.mapping|
  {
    hide Holds, SameText;
  }

  lemma AlternativesMean(e: Env, c: Composition, d: Discriminator, v: Value)
    ensures CompositionOk(e, c, d, v) <==>
      && (forall i | 0 <= i < |c.allOf| :: SatisfiesOpt(e, c.allOf[i], v))
      && AlternativesOk(e, c, d, v)
      && (c.notSchema.Some? ==> !Satisfies(e, c.notSchema.value, v))
  {
    hide DiscriminatorOk, Picked, Satisfies, SatisfiesOpt;
    if d.property.Some? {
      if |c.oneOf| == |d.mapping| { DiscriminatorMeans(e, c.oneOf, d, v); }
      if |c.anyOf| == |d.mapping| { DiscriminatorMeans(e, c.anyOf, d, v); }
    }
    assert Passing(e, c.oneOf, v) == Branches(e, c.oneOf, v);
    assert Passing(e, c.anyOf, v) != {} <==> exists i :: 0 <= i < |c.anyOf| && SatisfiesOpt(e, c.anyOf[i], v) by {
      if i :| 0 <= i < |c.anyOf| && SatisfiesOpt(e, c.anyOf[i], v) { assert i in Passing(e, c.anyOf, v); }
      if Passing(e, c.anyOf, v) != {} { var i :| i in Passing(e, c.anyOf, v); }
    }
  }

  // ----- schemas -----

  ghost predicate ConditionsOk(e: Env, c: Conditional, v: Value) {
    && (c.ifSchema.Some? && Satisfies(e, c.ifSchema.value, v) ==> SatisfiesOpt(e, c.thenSchema, v))
    && (c.ifSchema.Some? && !Satisfies(e, c.ifSchema.value, v) ==> SatisfiesOpt(e, c.elseSchema, v))
  }

  lemma ConditionsMean(e: Env, c: Conditional, v: Value)
    ensures ConditionalOk(e, c, v) <==> ConditionsOk(e, c, v)
  {
    hide Satisfies, SatisfiesOpt;
  }

  ghost predicate AnnotationsOk(e: Env, s: Schema, v: Value) {
    && (s.enumValues.Some? && s.enumValues.value.JArr? ==>
          exists i :: 0 <= i < |s.enumValues.value.items| && e.equal(v, s.enumValues.value.items[i]))
    && (s.constValue.Some? ==> e.equal(v, s.constValue.value))
    && (s.readOnly ==> e.direction != Request) && (s.writeOnly ==> e.direction != Response)
  }

  ghost predicate CompositionsOk(e: Env, s: Schema, v: Value) {
    && (forall i | 0 <= i < |s.comp.allOf| :: SatisfiesOpt(e, s.comp.allOf[i], v))
    && AlternativesOk(e, s.comp, s.disc, v)
    && (s.comp.notSchema.Some? ==> !Satisfies(e, s.comp.notSchema.value, v))
  }

  lemma PartsMean(e: Env, s: Schema, v: Value)
    requires s.refResolved.None?
    ensures Satisfies(e, s, v) <==>
      && (EffectiveMask(s) == 0 || TypeOk(EffectiveMask(s), v)) && StringOk(e, s.str, v) && NumberOk(e, s.num, v)
      && ArrayOk(e, s.arr, v) && ObjectOk(e, s.obj, v) && CompositionOk(e, s.comp, s.disc, v)
      && ConditionalOk(e, s.cond, v) && AnnotationsOk(e, s, v)
  {
    hide EffectiveMask, TypeOk, StringOk, NumberOk, ArrayOk, ObjectOk, CompositionOk, ConditionalOk;
  }

  /** A value satisfies a schema if and only if it meets the conditions of all its keywords; a resolved reference
      hides everything beside it. */
  lemma MeaningIs(e: Env, s: Schema, v: Value)
    ensures s.refResolved.Some? ==> (Satisfies(e, s, v) <==> Satisfies(e, s.refResolved.value, v))
    ensures s.refResolved.None? ==>
      (Satisfies(e, s, v) <==>
         && TypesOk(s.typeMask, s.nullable, v) && StringsOk(e, s.str, v) && NumbersOk(e, s.num, v)
         && (v.JArr? ==> ArraysOk(e, s.arr, v.items))
         && MembersOk(e, s.obj, v) && DependenciesOk(e, s.obj, v)
         && CompositionsOk(e, s, v) && ConditionsOk(e, s.cond, v) && AnnotationsOk(e, s, v))
    ensures SatisfiesOpt(e, None, v) && (SatisfiesOpt(e, Some(s), v) <==> Satisfies(e, s, v))
  {
    if s.refResolved.None? { MeaningOfRules(e, s, v); }
  }

  lemma MeaningOfRules(e: Env, s: Schema, v: Value)
    requires s.refResolved.None?
    ensures Satisfies(e, s, v) <==>
      && TypesOk(s.typeMask, s.nullable, v) && StringsOk(e, s.str, v) && NumbersOk(e, s.num, v)
      && (v.JArr? ==> ArraysOk(e, s.arr, v.items))
      && MembersOk(e, s.obj, v) && DependenciesOk(e, s.obj, v)
      && CompositionsOk(e, s, v) && ConditionsOk(e, s.cond, v) && AnnotationsOk(e, s, v)
  {
    hide *;
    PartsMean(e, s, v);
    TypeRulesMean(s, v);
    StringRulesMean(e, s.str, v);
    NumberRulesMean(e, s.num, v);
    ArrayRulesMean(e, s.arr, v);
    ObjectRulesMean(e, s.obj, v);
    CompositionsMean(e, s, v);
    ConditionsMean(e, s.cond, v);
  }

  lemma CompositionsMean(e: Env, s: Schema, v: Value)
    ensures CompositionOk(e, s.comp, s.disc, v) <==> CompositionsOk(e, s, v)
  {
    hide CompositionOk, AlternativesOk, Satisfies, SatisfiesOpt;
    AlternativesMean(e, s.comp, s.disc, v);
  }

  // ----- single keywords -----

  /** A schema without keywords accepts everything. */
  lemma NothingAsked(e: Env, v: Value)
    ensures Satisfies(e, EmptySchema(), v)
  {
    hide Satisfies, Get, CStr;
    MeaningIs(e, EmptySchema(), v);
  }

  /** With rules for numbers only, a schema asks for nothing else. */
  lemma NumbersOnly(e: Env, r: NumberRules, v: Value)
    ensures Satisfies(e, EmptySchema().(num := r), v) <==> NumbersOk(e, r, v)
  {
    hide Satisfies, NumbersOk, Holds, Has;
    MeaningIs(e, EmptySchema().(num := r), v);
  }

  lemma StringsOnly(e: Env, r: StringRules, v: Value)
    ensures Satisfies(e, EmptySchema().(str := r), v) <==> StringsOk(e, r, v)
  {
    hide Satisfies, StringsOk, Holds, Has;
    MeaningIs(e, EmptySchema().(str := r), v);
  }

  /** A schema with nothing but a bound. */
  lemma MinimumOnly(e: Env, x: real, i: int, r: real)
    ensures var s := EmptySchema().(num := NumberRules(Some(x), None, None, None, None));
      (Satisfies(e, s, JInt(i)) <==> x <= i as real) && (Satisfies(e, s, JReal(r)) <==> x <= r)
  {
    hide Satisfies;
    NumbersOnly(e, NumberRules(Some(x), None, None, None, None), JInt(i));
    NumbersOnly(e, NumberRules(Some(x), None, None, None, None), JReal(r));
  }

  /** A schema with nothing but a format: checked if formats are checked and this one has a checker. */
  lemma FormatOnlyMeans(e: Env, f: string, text: string)
    ensures Satisfies(e, FormatOnly(f), JStr(text)) <==>
      e.config.checkFormats && e.config.knownFormat(f) ==> e.formatOk(f, text)
  {
    hide Satisfies, Characters;
    StringsOnly(e, FormatOnly(f).str, JStr(text));
  }
}
