/** Documents in which a required name or a mapping target is no string: the parser stores a null pointer,
    the printer prints nothing for it, and the schema that is read back accepts more. */
module NullNames {
  import opened Json
  import opened Schemas
  import opened Keywords
  import opened SchemaParser
  import opened RoundTrip
  import opened RoundTripMeanings
  import opened ParsedForms
  import P = Printer

  lemma LookOne(j: Keyword, v: Value, k: Keyword)
    ensures Look(JObj([Member(Spell(j), v)]), k) == if k == j then Some(v) else None
  {
    hide Spell;
    SpellInjective(j, k);
    var ms := [Member(Spell(j), v)];
    assert ms[1..] == [];
  }

  lemma LookTwo(i: Keyword, u: Value, j: Keyword, v: Value, k: Keyword)
    ensures Look(JObj([Member(Spell(i), u), Member(Spell(j), v)]), k) ==
      if k == i then Some(u) else if k == j then Some(v) else None
  {
    hide Spell;
    SpellInjective(i, k);
    LookOne(j, v, k);
    var ms := [Member(Spell(i), u), Member(Spell(j), v)];
    assert ms[1..] == [Member(Spell(j), v)];
  }

  /** Nothing but these three keywords is given. */
  ghost predicate FewKeys(v: Value) {
    v.JObj? && forall k | k != Obj(ObjectKey.DependentRequired) && k != Comp(OneOf)
        && k != Misc(MiscKey.Discriminator) ::
      Look(v, k).None?
  }

  lemma BareParts(v: Value)
    requires FewKeys(v)
    ensures var s := EmptySchema();
      && ParseText(v) == s.str && ParseNumbers(v) == s.num && ParseMeta(v) == s.meta && ParseMask(v) == s.typeMask
  {
    hide Look;
  }

  lemma BareSchemas(v: Value)
    requires FewKeys(v)
    ensures var s := EmptySchema();
      ParseConditional(v) == s.cond && ParseUnevaluated(v) == s.uneval
  {
    hide Look, Parse;
  }

  lemma BareArray(v: Value)
    requires FewKeys(v)
    ensures ParseArray(v) == EmptySchema().arr
  {
    hide Look, Parse, ParseAll;
  }

  lemma BareObject(v: Value)
    requires FewKeys(v)
    ensures ParseObject(v) == EmptySchema().obj.(
      dependentRequired := ParseRequirements(MembersOf(Look(v, Obj(ObjectKey.DependentRequired)))))
  {
    hide Look, Parse, ParseRequirements, ParseProperties, ParsePatterns, ParseDependents;
    assert AdditionalAt(v) == (None, false);
    assert forall k: ObjectKey | !k.DependentRequired? :: Look(v, Obj(k)).None?;
  }

  lemma BareComposition(v: Value)
    requires FewKeys(v)
    ensures ParseComposition(v) == Composition([], [], ListAt(v, Comp(OneOf)), None)
  {
    hide Look, Parse, ParseAll;
  }

  /** Everything else is as in a fresh schema. */
  lemma FewParts(v: Value)
    requires FewKeys(v)
    ensures Parse(v) == Some(EmptySchema().(
      obj := EmptySchema().obj.(
        dependentRequired := ParseRequirements(MembersOf(Look(v, Obj(ObjectKey.DependentRequired))))),
      comp := Composition([], [], ListAt(v, Comp(OneOf)), None),
      disc := ParseDiscriminator(Look(v, Misc(MiscKey.Discriminator)))))
  {
    hide Look, Parse, ListAt, ParseDiscriminator, ParseRequirements, ParseText, ParseNumbers, ParseMeta, ParseMask,
      ParseConditional, ParseUnevaluated, ParseArray, ParseObject, ParseComposition;
    ParseIs(v);
    BareParts(v);
    BareSchemas(v);
    BareArray(v);
    BareObject(v);
    BareComposition(v);
  }

  lemma NothingGiven(v: Value)
    requires FewKeys(v)
    ensures ParseRequirements(MembersOf(None)) == [] && ParseDiscriminator(None) == EmptySchema().disc
    ensures Look(v, Comp(OneOf)).None? ==> ListAt(v, Comp(OneOf)) == []
  {
    hide Look;
  }

  /** {"dependentRequired": {"a": [5]}} */
  function NumberRequired(): Value {
    JObj([Member("dependentRequired", JObj([Member("a", JArr([JInt(5)]))]))])
  }

  function NullRequired(names: seq<Option<string>>): Schema {
    EmptySchema().(obj := EmptySchema().obj.(dependentRequired := [DependentRequired.DependentRequired("a", names)]))
  }

  lemma NumberRequiredKeys()
    ensures NumberRequired().JObj? && FewKeys(NumberRequired())
    ensures var v := NumberRequired();
      && Look(v, Obj(ObjectKey.DependentRequired)) == Some(JObj([Member("a", JArr([JInt(5)]))]))
      && Look(v, Comp(OneOf)).None? && Look(v, Misc(MiscKey.Discriminator)).None?
  {
    hide Look;
    var v, k := NumberRequired(), Obj(ObjectKey.DependentRequired);
    var ms := [Member("a", JArr([JInt(5)]))];
    forall j ensures Look(v, j) == if j == k then Some(JObj(ms)) else None {
      assert Spell(k) == "dependentRequired";
      LookOne(k, JObj(ms), j);
    }
  }

  lemma ParseFives(ms: seq<Member>)
    requires ms == [Member("a", JArr([JInt(5)]))]
    ensures ParseRequirements(ms) == [DependentRequired.DependentRequired("a", [None])] && !AllNamesGiven(ms)
  {
    CStrOfClean("a");
    hide CStr;
    assert MaybeNames(ms[0].value) == [None];
    assert !ms[0].value.items[0].JStr? && !AllStrings(ms[0].value.items);
  }

  lemma ParseNumberRequired()
    ensures Parse(NumberRequired()) == Some(NullRequired([None]))
    ensures !NamedRequirements(NumberRequired())
  {
    hide NumberRequired, Look, ParseRequirements, ParseDiscriminator, ListAt, Parse, AllNamesGiven, FewKeys;
    NumberRequiredKeys();
    FewParts(NumberRequired());
    NothingGiven(NumberRequired());
    ParseFives([Member("a", JArr([JInt(5)]))]);
  }

  lemma NullRequiredAgain()
    ensures Storable(NullRequired([None])) && Again(NullRequired([None])) == NullRequired([])
  {
    var none: seq<Option<string>> := [None];
    assert none[..0] == [] && Present(none) == [];
    var s := NullRequired(none);
    assert AgainRequirements(s.obj.dependentRequired) == NullRequired([]).obj.dependentRequired;
  }

  lemma RequiredNames(names: seq<Option<string>>, v: Value)
    requires v == JObj([Member("a", JInt(1))]) && (names == [None] || names == [])
    ensures DependentRequiredOk([DependentRequired.DependentRequired("a", names)], v) <==> names == []
  {
    hide CStr;
    CStrOfClean("a");
    assert v.members[0] == Member("a", JInt(1)) && Get(v, "a") == Some(JInt(1));
    var ds := [DependentRequired.DependentRequired("a", names)];
    if names == [None] {
      assert Get(v, ds[0].property).Some? && GetNamed(v, ds[0].required[0]).None?;
    }
  }

  lemma RequirementMeans(e: Env, names: seq<Option<string>>, v: Value)
    requires v == JObj([Member("a", JInt(1))]) && (names == [None] || names == [])
    ensures Satisfies(e, NullRequired(names), v) <==> names == []
  {
    hide ArrayOk, CompositionOk, ConditionalOk, StringOk, NumberOk, DependentRequiredOk;
    NoRules(e, v);
    NoAlternatives(e, v);
    RequiredNames(names, v);
  }

  lemma NoAlternatives(e: Env, v: Value)
    ensures CompositionOk(e, EmptySchema().comp, EmptySchema().disc, v)
  {
  }

  lemma NeedNames(v: Value)
    requires v.JObj? && (Plain(v) || Solid(v))
    ensures NamedRequirements(v)
  {
    hide Look, NamedRequirements, PlainDiscriminator, PlainAt, PlainList, PlainProperties, PlainMembers,
        PlainAdditional,
      SolidAt, SolidList, SolidMembers, SolidAlternatives, CountKept, ObjectsFirst;
  }

  lemma FewSubKeys(v: Value)
    requires FewKeys(v)
    ensures forall k | k in SUB_KEYS || k in MEMBER_KEYS :: Look(v, k).None?
    ensures forall k | k in LIST_KEYS && k != Comp(OneOf) :: Look(v, k).None?
    ensures Look(v, Obj(Required)).None?
  {
    hide Look;
  }

  lemma FewGiven(v: Value)
    requires v.JObj? && FewKeys(v)
    requires forall i | 0 <= i < |ItemsAt(v, Comp(OneOf))| :: RequiredGiven(ItemsAt(v, Comp(OneOf))[i])
    ensures RequiredGiven(v)
  {
    hide Look, FewKeys, SUB_KEYS, LIST_KEYS, MEMBER_KEYS;
    FewSubKeys(v);
    assert ItemsAt(v, Obj(Required)) == [];
    assert forall k | k in LIST_KEYS && k != Comp(OneOf) :: ItemsAt(v, k) == [];
    assert forall k | k in MEMBER_KEYS :: MembersOf(Look(v, k)) == [];
  }

  lemma NumberRequiredGiven()
    ensures IntsFit(NumberRequired()) && RequiredGiven(NumberRequired())
  {
    hide Look, NumberRequired, RequiredGiven, FewKeys;
    NumberRequiredKeys();
    FewGiven(NumberRequired());
    NumberRequiredFits();
  }

  lemma NumberRequiredFits()
    ensures IntsFit(NumberRequired())
  {
  }

  /** A required name that is a number is missing from every object; a round trip loses it. */
  lemma NumberRequiredLost(e: Env)
    ensures IntsFit(NumberRequired()) && RequiredGiven(NumberRequired())
    ensures !Plain(NumberRequired()) && !Solid(NumberRequired())
    ensures Parse(NumberRequired()).Some? && Parse(P.Emit(Parse(NumberRequired()).value)).Some?
    ensures var s, v := Parse(NumberRequired()).value, JObj([Member("a", JInt(1))]);
      !Satisfies(e, s, v) && Satisfies(e, Parse(P.Emit(s)).value, v)
  {
    hide *;
    var doc, v := NumberRequired(), JObj([Member("a", JInt(1))]);
    NumberRequiredGiven();
    ParseNumberRequired();
    NullRequiredAgain();
    RoundTrip.RoundTrip(NullRequired([None]));
    RequirementMeans(e, [None], v);
    RequirementMeans(e, [], v);
    ObjectsParse(doc);
    if Plain(doc) || Solid(doc) { NeedNames(doc); }
  }

  /** {"oneOf": [{}], "discriminator": {"propertyName": "t", "mapping": {"a": 5}}} */
  function NumberTarget(): Value {
    JObj([Member("oneOf", JArr([JObj([])])),
          Member("discriminator", JObj([Member("propertyName", JStr("t")),
                                        Member("mapping", JObj([Member("a", JInt(5))]))]))])
  }

  /** One branch that accepts everything, behind a discriminator with this mapping. */
  function OneBranch(mapping: seq<Mapping>): Schema {
    EmptySchema().(comp := Composition([], [], [Some(EmptySchema())], None),
                   disc := Discriminator.Discriminator(Some("t"), mapping))
  }

  lemma ParseEmpty()
    ensures Parse(JObj([])) == Some(EmptySchema())
  {
    hide Parse, ParseRequirements, ParseDiscriminator, ListAt;
    var v := JObj([]);
    assert forall k :: Look(v, k).None?;
    FewParts(v);
    NothingGiven(v);
  }

  function TargetMembers(): seq<Member> {
    [Member("propertyName", JStr("t")), Member("mapping", JObj([Member("a", JInt(5))]))]
  }

  lemma NumberTargetKeys()
    ensures NumberTarget().JObj? && FewKeys(NumberTarget())
    ensures var v := NumberTarget();
      && Look(v, Comp(OneOf)) == Some(JArr([JObj([])]))
      && Look(v, Misc(MiscKey.Discriminator)) == Some(JObj(TargetMembers()))
      && Look(v, Obj(ObjectKey.DependentRequired)).None?
  {
    hide Look;
    var v, i, j := NumberTarget(), Comp(OneOf), Misc(MiscKey.Discriminator);
    var one, d := JArr([JObj([])]), JObj(TargetMembers());
    forall k ensures Look(v, k) == if k == i then Some(one) else if k == j then Some(d) else None {
      assert Spell(i) == "oneOf" && Spell(j) == "discriminator";
      LookTwo(i, one, j, d, k);
    }
  }

  lemma ParseTargets()
    ensures var ms := TargetMembers();
      && TextOf(Find(ms, "propertyName")) == Some("t")
      && MembersOf(Find(ms, "mapping")) == [Member("a", JInt(5))]
  {
    CStrOfClean("t");
    hide CStr;
    var ms := TargetMembers();
    assert |"propertyName"| != |"mapping"| && ms[1..] == [ms[1]];
  }

  lemma ParseFive(ms: seq<Member>)
    requires ms == [Member("a", JInt(5))]
    ensures ParseMapping(ms) == [Mapping("a", None)] && !TargetedMapping(ms)
  {
    CStrOfClean("a");
    hide CStr;
    assert !ms[0].value.JStr?;
  }

  lemma ParseOne(vs: seq<Value>)
    requires vs == [JObj([])]
    ensures ParseAll(vs) == [Some(EmptySchema())]
  {
    hide Parse;
    ParseEmpty();
    ParseAllAt(vs);
  }

  lemma ParseNumberTarget()
    ensures Parse(NumberTarget()) == Some(OneBranch([Mapping("a", None)]))
    ensures !TargetedMapping(MappingOf(NumberTarget())) && PropertyNameOf(NumberTarget()).Some?
    ensures ItemsAt(NumberTarget(), Comp(OneOf)) == [JObj([])] && |MappingOf(NumberTarget())| == 1
  {
    hide NumberTarget, Look, Find, ParseRequirements, TextOf, MembersOf, ParseMapping, ParseAll, Parse, TargetedMapping,
      TargetMembers, FewKeys;
    var v := NumberTarget();
    NumberTargetKeys();
    FewParts(v);
    NothingGiven(v);
    ParseTargets();
    ParseFive([Member("a", JInt(5))]);
    ParseOne([JObj([])]);
    TargetsFound();
  }

  lemma TargetsFound()
    ensures MembersOf(Some(JObj(TargetMembers()))) == TargetMembers()
  {
  }

  lemma EmptyAgain()
    ensures Storable(EmptySchema()) && Again(EmptySchema()) == EmptySchema()
  {
  }

  lemma OneBranchAgain()
    ensures Storable(OneBranch([Mapping("a", None)]))
    ensures Again(OneBranch([Mapping("a", None)])) == OneBranch([])
  {
    hide Storable, Again;
    EmptyAgain();
    BranchStored();
    BranchAgain();
  }

  lemma BranchStored()
    requires Storable(EmptySchema())
    ensures Storable(OneBranch([Mapping("a", None)]))
  {
  }

  lemma BranchAgain()
    requires Again(EmptySchema()) == EmptySchema()
    ensures Again(OneBranch([Mapping("a", None)])) == OneBranch([])
  {
    var ms, os := [Mapping("a", None)], [Some(EmptySchema())];
    assert ms[..0] == [] && Targeted(ms) == [];
    assert os[..0] == [] && AgainAll(os) == os;
  }

  lemma OneBranchMeans(e: Env, mapping: seq<Mapping>, v: Value)
    requires v == JInt(7) && (mapping == [] || |mapping| == 1)
    ensures Satisfies(e, OneBranch(mapping), v) <==> mapping == []
  {
    hide ArrayOk, ObjectOk, ConditionalOk, StringOk, NumberOk;
    NoRules(e, v);
    assert Satisfies(e, EmptySchema(), v);
    var os := [Some(EmptySchema())];
    assert SatisfiesOpt(e, os[0], v) && Passing(e, os, v) == {0};
  }

  lemma NeedTargets(v: Value)
    requires v.JObj? && (Plain(v) || Solid(v)) && ItemsAt(v, Comp(OneOf)) != []
    requires PropertyNameOf(v).Some? && MappingOf(v) != []
    ensures TargetedMapping(MappingOf(v))
  {
    hide Look, NamedRequirements, PropertyNameOf, MappingOf, ItemsAt, TargetedMapping, PlainAt, PlainList,
      PlainProperties, PlainMembers, PlainAdditional, SolidAt, SolidList, SolidMembers, CountKept, ObjectsFirst;
  }

  lemma NumberTargetGiven()
    ensures IntsFit(NumberTarget()) && RequiredGiven(NumberTarget())
  {
    hide Look, NumberTarget, RequiredGiven, FewKeys;
    NumberTargetKeys();
    NumberTargetFits();
    EmptyGiven();
    FewGiven(NumberTarget());
  }

  lemma EmptyGiven()
    ensures RequiredGiven(JObj([]))
  {
    hide RequiredGiven, SUB_KEYS, LIST_KEYS, MEMBER_KEYS;
    assert forall k :: Look(JObj([]), k).None?;
    FewGiven(JObj([]));
  }

  lemma NumberTargetFits()
    ensures IntsFit(NumberTarget())
  {
  }

  /** A mapping target that is a number counts as an entry while the discriminator is compiled; a round
      trip loses it, and with it the discriminator. */
  lemma NumberTargetLost(e: Env)
    ensures IntsFit(NumberTarget()) && RequiredGiven(NumberTarget())
    ensures !Plain(NumberTarget()) && !Solid(NumberTarget())
    ensures Parse(NumberTarget()).Some? && Parse(P.Emit(Parse(NumberTarget()).value)).Some?
    ensures var s := Parse(NumberTarget()).value;
      !Satisfies(e, s, JInt(7)) && Satisfies(e, Parse(P.Emit(s)).value, JInt(7))
  {
    hide *;
    var doc := NumberTarget();
    NumberTargetGiven();
    ParseNumberTarget();
    OneBranchAgain();
    RoundTrip.RoundTrip(OneBranch([Mapping("a", None)]));
    OneBranchMeans(e, [Mapping("a", None)], JInt(7));
    OneBranchMeans(e, [], JInt(7));
    ObjectsParse(doc);
    if Plain(doc) || Solid(doc) { NeedTargets(doc); }
  }
}
