/** What the parser makes of any JSON object, read off the object itself. */
module ParsedForms {
  import opened Json
  import opened Schemas
  import opened TypeNames
  import opened Keywords
  import opened SchemaParser
  import opened RoundTrip
  import opened Reversal
  import opened RoundTripMeanings
  import P = Printer

  /** Integers as the JSON reader delivers them: signed or unsigned, in 64 bits. */
  predicate IntsFit(v: Value)
    decreases v
  {
    match v
    case JInt(i) => -INT64_MAX - 1 <= i <= 2 * INT64_MAX + 1
    case JArr(items) => forall i | 0 <= i < |items| :: IntsFit(items[i])
    case JObj(members) => forall i | 0 <= i < |members| :: IntsFit(members[i].value)
    case _ => true
  }

  lemma FitFound(members: seq<Member>, name: string)
    requires forall i | 0 <= i < |members| :: IntsFit(members[i].value)
    ensures Find(members, name).Some? ==> IntsFit(Find(members, name).value)
  {
    hide IntsFit, Find;
  }

  const SUB_KEYS: seq<Keyword> :=
    [Arr(Items), Arr(Contains), Obj(AdditionalProperties), Obj(PropertyNames), Comp(Not), Cond(If), Cond(Then),
     Cond(Else), Misc(UnevaluatedProperties), Misc(UnevaluatedItems)]

  const LIST_KEYS: seq<Keyword> := [Arr(PrefixItems), Comp(AllOf), Comp(AnyOf), Comp(OneOf)]

  const MEMBER_KEYS: seq<Keyword> := [Obj(Properties), Obj(PatternProperties), Obj(DependentSchemas)]

  /** Wherever a schema is read, `required` lists strings only. For any other entry the code leaves a cell
      unwritten, and what it does then is not determined. */
  predicate RequiredGiven(v: Value)
    decreases v
  {
    v.JObj? ==>
      && AllStrings(ItemsAt(v, Obj(Required)))
      && (forall k | k in SUB_KEYS && Look(v, k).Some? :: RequiredGiven(Look(v, k).value))
      && (forall k, i | k in LIST_KEYS && 0 <= i < |ItemsAt(v, k)| :: RequiredGiven(ItemsAt(v, k)[i]))
      && (forall k, i | k in MEMBER_KEYS && 0 <= i < |MembersOf(Look(v, k))| ::
            RequiredGiven(MembersOf(Look(v, k))[i].value))
  }

  // ----- documents that come back reversed -----

  /** The keyword is no integer below -1, nor a number above 2^63 - 1 that wraps to one. */
  predicate CountKept(v: Value, k: Keyword)
    requires v.JObj?
  {
    var r := Look(v, k);
    r.Some? && r.value.JInt? ==> -1 <= r.value.i <= INT64_MAX || r.value.i == 2 * INT64_MAX + 1
  }

  predicate CountsKept(v: Value)
    requires v.JObj?
  {
    && CountKept(v, Text(MinLength)) && CountKept(v, Text(MaxLength))
    && CountKept(v, Arr(MinItems)) && CountKept(v, Arr(MaxItems))
    && CountKept(v, Arr(MinContains)) && CountKept(v, Arr(MaxContains))
    && CountKept(v, Obj(MinProperties)) && CountKept(v, Obj(MaxProperties))
  }

  /** A round trip reverses the properties and keeps everything else: all counts are kept, no boolean
      additionalProperties, no unevaluated keyword, a propertyName for every mapping, nothing but objects
      where sub-schemas are listed, and nothing but strings as names in dependentRequired and as targets
      in a mapping; and so at every level the parser reads. */
  predicate Plain(v: Value)
    decreases v, 2
  {
    v.JObj? ==>
      && CountsKept(v)
      && PlainAt(v, Arr(Items)) && PlainList(v, Arr(PrefixItems)) && PlainAt(v, Arr(Contains))
      && PlainProperties(v, Obj(Properties)) && PlainAdditional(v) && PlainAt(v, Obj(PropertyNames))
      && PlainMembers(v, Obj(PatternProperties)) && PlainMembers(v, Obj(DependentSchemas)) && NamedRequirements(v)
      && PlainList(v, Comp(AllOf)) && PlainList(v, Comp(AnyOf)) && PlainList(v, Comp(OneOf)) && PlainAt(v, Comp(Not))
      && PlainAt(v, Cond(If)) && PlainAt(v, Cond(Then)) && PlainAt(v, Cond(Else))
      && PlainDiscriminator(v)
      && Look(v, Misc(UnevaluatedProperties)).None? && Look(v, Misc(UnevaluatedItems)).None?
  }

  predicate PlainAt(v: Value, k: Keyword)
    requires v.JObj?
    decreases v, 0
  {
    Look(v, k).Some? ==> Plain(Look(v, k).value)
  }

  predicate PlainList(v: Value, k: Keyword)
    requires v.JObj?
    decreases v, 0
  {
    Look(v, k).Some? && Look(v, k).value.JArr? ==> PlainItems(Look(v, k).value.items)
  }

  predicate PlainItems(vs: seq<Value>)
    decreases vs
  {
    forall i | 0 <= i < |vs| :: vs[i].JObj? && Plain(vs[i])
  }

  /** A property that is no object is left out, which a round trip does not change. */
  predicate PlainProperties(v: Value, k: Keyword)
    requires v.JObj?
    decreases v, 0
  {
    Look(v, k).Some? && Look(v, k).value.JObj? ==> PlainValues(Look(v, k).value.members)
  }

  predicate PlainValues(ms: seq<Member>)
    decreases ms
  {
    forall i | 0 <= i < |ms| :: Plain(ms[i].value)
  }

  predicate PlainMembers(v: Value, k: Keyword)
    requires v.JObj?
    decreases v, 0
  {
    Look(v, k).Some? && Look(v, k).value.JObj? ==> PlainSchemas(Look(v, k).value.members)
  }

  predicate PlainSchemas(ms: seq<Member>)
    decreases ms
  {
    forall i | 0 <= i < |ms| :: ms[i].value.JObj? && Plain(ms[i].value)
  }

  predicate PlainAdditional(v: Value)
    requires v.JObj?
    decreases v, 1
  {
    var r := Look(v, Obj(AdditionalProperties));
    !(r.Some? && r.value.JBool?) && PlainAt(v, Obj(AdditionalProperties))
  }

  /** Every list in dependentRequired holds strings only. */
  predicate NamedRequirements(v: Value)
    requires v.JObj?
  {
    AllNamesGiven(MembersOf(Look(v, Obj(ObjectKey.DependentRequired))))
  }

  predicate AllNamesGiven(ms: seq<Member>) {
    forall i | 0 <= i < |ms| && ms[i].value.JArr? :: AllStrings(ms[i].value.items)
  }

  predicate AllStrings(vs: seq<Value>) {
    forall i | 0 <= i < |vs| :: vs[i].JStr?
  }

  function PropertyNameOf(v: Value): Option<string>
    requires v.JObj?
  {
    TextOf(Find(MembersOf(Look(v, Misc(MiscKey.Discriminator))), "propertyName"))
  }

  function MappingOf(v: Value): seq<Member>
    requires v.JObj?
  {
    MembersOf(Find(MembersOf(Look(v, Misc(MiscKey.Discriminator))), "mapping"))
  }

  /** Every mapping target is a string. */
  predicate TargetedMapping(ms: seq<Member>) {
    forall i | 0 <= i < |ms| :: ms[i].value.JStr?
  }

  predicate PlainDiscriminator(v: Value)
    requires v.JObj?
  {
    (MappingOf(v) != [] ==> PropertyNameOf(v).Some?) && TargetedMapping(MappingOf(v))
  }

  // ----- documents that keep their meaning -----

  /** The elements listed under a keyword. */
  function ItemsAt(v: Value, k: Keyword): seq<Value>
    requires v.JObj?
  {
    if Look(v, k).Some? && Look(v, k).value.JArr? then Look(v, k).value.items else []
  }

  predicate OnlyObjects(vs: seq<Value>) {
    forall i | 0 <= i < |vs| :: vs[i].JObj?
  }

  predicate NoObjects(vs: seq<Value>) {
    forall i | 0 <= i < |vs| :: !vs[i].JObj?
  }

  /** Nothing else in front of an object. */
  predicate ObjectsFirst(vs: seq<Value>) {
    forall i, j | 0 <= i < j < |vs| && vs[j].JObj? :: vs[i].JObj?
  }

  /** Where a discriminator is in use, its branches are objects and its targets strings; otherwise anyOf
      lists only objects or none, and oneOf only objects or one value. */
  predicate SolidAlternatives(v: Value)
    requires v.JObj?
  {
    var any, one := ItemsAt(v, Comp(AnyOf)), ItemsAt(v, Comp(OneOf));
    if PropertyNameOf(v).Some? && MappingOf(v) != [] then
      && OnlyObjects(one) && (one == [] ==> OnlyObjects(any))
      && (one != [] || any != [] ==> TargetedMapping(MappingOf(v)))
    else (OnlyObjects(any) || NoObjects(any)) && (OnlyObjects(one) || |one| == 1)
  }

  /** What a round trip loses counts for nothing, at every level that has a meaning. */
  predicate Solid(v: Value)
    decreases v, 2
  {
    v.JObj? ==>
      && SolidAt(v, Arr(Items)) && SolidList(v, Arr(PrefixItems)) && SolidAt(v, Arr(Contains))
      && ObjectsFirst(ItemsAt(v, Arr(PrefixItems)))
      && SolidMembers(v, Obj(Properties)) && SolidAt(v, Obj(PropertyNames))
      && SolidMembers(v, Obj(PatternProperties)) && NamedRequirements(v) && SolidMembers(v, Obj(DependentSchemas))
      && SolidList(v, Comp(AllOf)) && SolidList(v, Comp(AnyOf)) && SolidList(v, Comp(OneOf)) && SolidAt(v, Comp(Not))
      && SolidAlternatives(v)
      && SolidAt(v, Cond(If)) && SolidAt(v, Cond(Then)) && SolidAt(v, Cond(Else))
  }

  predicate SolidAt(v: Value, k: Keyword)
    requires v.JObj?
    decreases v, 0
  {
    Look(v, k).Some? ==> Solid(Look(v, k).value)
  }

  predicate SolidList(v: Value, k: Keyword)
    requires v.JObj?
    decreases v, 0
  {
    Look(v, k).Some? && Look(v, k).value.JArr? ==> SolidItems(Look(v, k).value.items)
  }

  predicate SolidItems(vs: seq<Value>)
    decreases vs
  {
    forall i | 0 <= i < |vs| :: Solid(vs[i])
  }

  predicate SolidMembers(v: Value, k: Keyword)
    requires v.JObj?
    decreases v, 0
  {
    Look(v, k).Some? && Look(v, k).value.JObj? ==> SolidValues(Look(v, k).value.members)
  }

  predicate SolidValues(ms: seq<Member>)
    decreases ms
  {
    forall i | 0 <= i < |ms| :: Solid(ms[i].value)
  }

  // ----- sub-schemas -----

  /** What is claimed of the schema read from `v`. */
  ghost predicate ReadAs(v: Value, o: Option<Schema>) {
    && (o.Some? <==> v.JObj?)
    && UnlinkedOpt(o) && (IntsFit(v) ==> StorableOpt(o))
    && (IntsFit(v) ==> (NormalOpt(o) <==> Plain(v)))
    && (SteadyOpt(o) <==> Solid(v))
  }

  lemma ReadAt(v: Value, k: Keyword)
    requires v.JObj?
    ensures var o := SchemaAt(v, k);
      && UnlinkedOpt(o) && (IntsFit(v) ==> StorableOpt(o))
      && (IntsFit(v) ==> (NormalOpt(o) <==> PlainAt(v, k)))
      && (SteadyOpt(o) <==> SolidAt(v, k))
    decreases v, 0
  {
    hide Parse, Storable, Unlinked, Normal, Steady, Plain, Solid, Find, Spell;
    if Look(v, k).Some? {
      ParseReads(Look(v, k).value);
      if IntsFit(v) { FitFound(v.members, Spell(k)); }
    }
  }

  /** Every element gives one cell. */
  lemma {:induction false} ParseAllAt(vs: seq<Value>)
    ensures |ParseAll(vs)| == |vs| && forall i | 0 <= i < |vs| :: ParseAll(vs)[i] == Parse(vs[i])
    decreases |vs|
  {
    hide Parse;
    if vs != [] { ParseAllAt(vs[..|vs| - 1]); }
  }

  lemma ReadAll(vs: seq<Value>)
    ensures var os := ParseAll(vs);
      && UnlinkedAll(os)
      && (IntsFit(JArr(vs)) ==> StorableAll(os) && (NormalAll(os) <==> PlainItems(vs)))
      && (SteadyAll(os) <==> SolidItems(vs))
    decreases vs
  {
    hide Parse, ParseAll, UnlinkedOpt, StorableOpt, NormalOpt, SteadyOpt, Plain, Solid;
    ParseAllAt(vs);
    forall i | 0 <= i < |vs| ensures ReadAs(vs[i], ParseAll(vs)[i]) {
      ParseReads(vs[i]);
    }
    var os := ParseAll(vs);
    assert NormalAll(os) && IntsFit(JArr(vs)) ==> forall i | 0 <= i < |vs| :: NormalOpt(os[i]);
    assert SteadyAll(os) ==> forall i | 0 <= i < |vs| :: SteadyOpt(os[i]);
  }

  lemma ReadList(v: Value, k: Keyword)
    requires v.JObj?
    ensures var os := ListAt(v, k);
      && UnlinkedAll(os)
      && (IntsFit(v) ==> StorableAll(os) && (NormalAll(os) <==> PlainList(v, k)))
      && (SteadyAll(os) <==> SolidList(v, k))
    decreases v, 0
  {
    hide ParseAll, UnlinkedOpt, StorableOpt, NormalOpt, SteadyOpt, PlainItems, SolidItems, Find, Spell;
    if Look(v, k).Some? && Look(v, k).value.JArr? {
      ReadAll(Look(v, k).value.items);
      if IntsFit(v) { FitFound(v.members, Spell(k)); }
    }
  }

  /** A list has null cells where it holds no object. */
  lemma NullsRead(v: Value, k: Keyword)
    requires v.JObj?
    ensures var os, vs := ListAt(v, k), ItemsAt(v, k);
      && |os| == |vs|
      && (NoNull(os) <==> OnlyObjects(vs)) && (OnlyNull(os) <==> NoObjects(vs))
      && (NullsLast(os) <==> ObjectsFirst(vs))
  {
    hide Parse, ParseAll, Look;
    var os, vs := ListAt(v, k), ItemsAt(v, k);
    ParseAllAt(vs);
    EmptyList();
    forall i | 0 <= i < |vs| ensures os[i].Some? <==> vs[i].JObj? {
      ObjectsParse(vs[i]);
    }
    assert os == ParseAll(vs);
  }

  lemma EmptyList()
    ensures ParseAll([]) == []
  {
  }

  /** The members that hold objects, in order. */
  function Objects(ms: seq<Member>): seq<Member> {
    if ms == [] then []
    else Objects(ms[..|ms| - 1]) + if ms[|ms| - 1].value.JObj? then [ms[|ms| - 1]] else []
  }

  lemma {:induction false} ObjectsWithin(ms: seq<Member>)
    ensures forall m | m in Objects(ms) :: m in ms && m.value.JObj?
    ensures forall m | m in ms && m.value.JObj? :: m in Objects(ms)
    decreases |ms|
  {
    if ms != [] { ObjectsWithin(ms[..|ms| - 1]); }
  }

  lemma PropertiesStep(ms: seq<Member>, n: nat)
    requires |ms| == n + 1
    ensures Objects(ms) == if ms[n].value.JObj? then Objects(ms[..n]) + [ms[n]] else Objects(ms[..n])
    ensures Parse(ms[n].value).None? ==> ParseProperties(ms) == ParseProperties(ms[..n])
    ensures Parse(ms[n].value).Some? ==>
      ParseProperties(ms) == [Property(CStr(ms[n].key), Parse(ms[n].value).value)] + ParseProperties(ms[..n])
  {
    hide Parse, CStr;
  }

  /** The properties are the members that hold objects, the last one first, each read as a schema. */
  lemma {:induction false} ParsePropertiesAt(ms: seq<Member>)
    ensures var kept, ps := Objects(ms), ParseProperties(ms);
      && |ps| == |kept|
      && forall i | 0 <= i < |kept| ::
           var m := kept[|kept| - 1 - i];
           ps[i].name == CStr(m.key) && Parse(m.value) == Some(ps[i].schema)
    decreases |ms|
  {
    hide *;
    if ms == [] {
      NoMembers(ms);
    } else {
      var n := |ms| - 1;
      ParsePropertiesAt(ms[..n]);
      ObjectsParse(ms[n].value);
      PropertiesStep(ms, n);
      if ms[n].value.JObj? {
        var kept, front, before := Objects(ms), Objects(ms[..n]), ParseProperties(ms[..n]);
        var ps := ParseProperties(ms);
        forall i | 0 <= i < |kept|
          ensures var m := kept[|kept| - 1 - i]; ps[i].name == CStr(m.key) && Parse(m.value) == Some(ps[i].schema)
        {
          if i > 0 {
            assert kept[|kept| - 1 - i] == front[|front| - 1 - (i - 1)] && ps[i] == before[i - 1];
          }
        }
      }
    }
  }

  lemma NoMembers(ms: seq<Member>)
    requires ms == []
    ensures Objects(ms) == [] && ParseProperties(ms) == []
  {
  }

  lemma ObjectsParse(v: Value)
    ensures Parse(v).Some? <==> v.JObj?
  {
    ParseIs(v);
  }

  /** The properties read from `kept`, last one first. */
  ghost predicate Reversed(kept: seq<Member>, ps: seq<Property>) {
    && |ps| == |kept|
    && forall i | 0 <= i < |kept| ::
         var m := kept[|kept| - 1 - i];
         ps[i].name == CStr(m.key) && Parse(m.value) == Some(ps[i].schema)
  }

  /** `kept` are the members that hold objects. */
  ghost predicate KeptOf(ms: seq<Member>, kept: seq<Member>) {
    && (forall m | m in kept :: m in ms && m.value.JObj?)
    && (forall m | m in ms && m.value.JObj? :: m in kept)
  }

  ghost predicate AllRead(ms: seq<Member>) {
    forall i | 0 <= i < |ms| :: ReadAs(ms[i].value, Parse(ms[i].value))
  }

  lemma KeptReversed(ms: seq<Member>)
    ensures Reversed(Objects(ms), ParseProperties(ms)) && KeptOf(ms, Objects(ms))
  {
    hide Objects, ParseProperties, Parse, CStr;
    ObjectsWithin(ms);
    ParsePropertiesAt(ms);
  }

  lemma ReadValues(ms: seq<Member>)
    ensures var ps := ParseProperties(ms);
      && UnlinkedProperties(ps)
      && (IntsFit(JObj(ms)) ==> StorableProperties(ps) && (NormalProperties(ps) <==> PlainValues(ms)))
      && (SteadyProperties(ps) <==> SolidValues(ms))
    decreases ms
  {
    hide *;
    var kept, ps := Objects(ms), ParseProperties(ms);
    KeptReversed(ms);
    forall i | 0 <= i < |ms| ensures ReadAs(ms[i].value, Parse(ms[i].value)) {
      ParseReads(ms[i].value);
    }
    ReadsAll(ms);
    ReadStored(ms, kept, ps);
    ReadNormals(ms, kept, ps);
    ReadSteady(ms, kept, ps);
  }

  lemma ReadsAll(ms: seq<Member>)
    requires forall i | 0 <= i < |ms| :: ReadAs(ms[i].value, Parse(ms[i].value))
    ensures AllRead(ms)
  {
    hide ReadAs, Parse;
  }

  lemma ReadStored(ms: seq<Member>, kept: seq<Member>, ps: seq<Property>)
    requires AllRead(ms) && Reversed(kept, ps) && KeptOf(ms, kept)
    ensures UnlinkedProperties(ps) && (IntsFit(JObj(ms)) ==> StorableProperties(ps))
  {
    hide Parse, Unlinked, Storable, Normal, Steady, Plain, Solid;
    forall i | 0 <= i < |ps|
      ensures Unlinked(ps[i].schema) && NUL !in ps[i].name
      ensures IntsFit(JObj(ms)) ==> Storable(ps[i].schema)
    {
      assert kept[|kept| - 1 - i] in ms;
    }
  }

  lemma ReadNormals(ms: seq<Member>, kept: seq<Member>, ps: seq<Property>)
    requires AllRead(ms) && Reversed(kept, ps) && KeptOf(ms, kept)
    ensures IntsFit(JObj(ms)) ==> (NormalProperties(ps) <==> PlainValues(ms))
  {
    hide Parse, Unlinked, Storable, Normal, Steady, Plain, Solid;
    if IntsFit(JObj(ms)) {
      if NormalProperties(ps) {
        forall i | 0 <= i < |ms| ensures Plain(ms[i].value) {
          if ms[i].value.JObj? {
            var j :| 0 <= j < |kept| && kept[j] == ms[i];
            assert kept[|kept| - 1 - (|kept| - 1 - j)] == ms[i] && Normal(ps[|kept| - 1 - j].schema);
          } else {
            NothingPlain(ms[i].value);
          }
        }
      }
      if PlainValues(ms) {
        forall i | 0 <= i < |ps| ensures Normal(ps[i].schema) {
          assert kept[|kept| - 1 - i] in ms;
        }
      }
    }
  }

  lemma ReadSteady(ms: seq<Member>, kept: seq<Member>, ps: seq<Property>)
    requires AllRead(ms) && Reversed(kept, ps) && KeptOf(ms, kept)
    ensures SteadyProperties(ps) <==> SolidValues(ms)
  {
    hide Parse, Unlinked, Storable, Normal, Steady, Plain, Solid;
    if SteadyProperties(ps) {
      forall i | 0 <= i < |ms| ensures Solid(ms[i].value) {
        if ms[i].value.JObj? {
          var j :| 0 <= j < |kept| && kept[j] == ms[i];
          assert kept[|kept| - 1 - (|kept| - 1 - j)] == ms[i] && Steady(ps[|kept| - 1 - j].schema);
        } else {
          NothingPlain(ms[i].value);
        }
      }
    }
    if SolidValues(ms) {
      forall i | 0 <= i < |ps| ensures Steady(ps[i].schema) {
        assert kept[|kept| - 1 - i] in ms;
      }
    }
  }

  lemma NothingPlain(v: Value)
    requires !v.JObj?
    ensures Plain(v) && Solid(v)
  {
  }

  lemma {:induction false} ParsePatternsAt(ms: seq<Member>)
    ensures |ParsePatterns(ms)| == |ms|
    ensures forall i | 0 <= i < |ms| :: ParsePatterns(ms)[i] == PatternProperty(CStr(ms[i].key), Parse(ms[i].value))
    decreases |ms|
  {
    hide Parse, CStr;
    if ms != [] { ParsePatternsAt(ms[..|ms| - 1]); }
  }

  lemma {:induction false} ParseDependentsAt(ms: seq<Member>)
    ensures |ParseDependents(ms)| == |ms|
    ensures forall i | 0 <= i < |ms| :: ParseDependents(ms)[i] == DependentSchema(CStr(ms[i].key), Parse(ms[i].value))
    decreases |ms|
  {
    hide Parse, CStr;
    if ms != [] { ParseDependentsAt(ms[..|ms| - 1]); }
  }

  lemma ReadPatterns(ms: seq<Member>)
    ensures var ps := ParsePatterns(ms);
      && UnlinkedPatterns(ps)
      && (IntsFit(JObj(ms)) ==> StorablePatterns(ps) && (NormalPatterns(ps) <==> PlainSchemas(ms)))
      && (SteadyPatterns(ps) <==> SolidValues(ms))
    decreases ms
  {
    hide Parse, ParsePatterns, UnlinkedOpt, StorableOpt, NormalOpt, SteadyOpt, Plain, Solid;
    ParsePatternsAt(ms);
    var ps := ParsePatterns(ms);
    forall i | 0 <= i < |ms| ensures ReadAs(ms[i].value, ps[i].schema) {
      ParseReads(ms[i].value);
    }
  }

  lemma ReadDependents(ms: seq<Member>)
    ensures var ds := ParseDependents(ms);
      && UnlinkedDependents(ds)
      && (IntsFit(JObj(ms)) ==> StorableDependents(ds) && (NormalDependents(ds) <==> PlainSchemas(ms)))
      && (SteadyDependents(ds) <==> SolidValues(ms))
    decreases ms
  {
    hide Parse, ParseDependents, UnlinkedOpt, StorableOpt, NormalOpt, SteadyOpt, Plain, Solid;
    ParseDependentsAt(ms);
    var ds := ParseDependents(ms);
    forall i | 0 <= i < |ms| ensures ReadAs(ms[i].value, ds[i].schema) {
      ParseReads(ms[i].value);
    }
  }

  // ----- values -----

  lemma CountReads(v: Value, k: Keyword)
    requires v.JObj?
    ensures IntsFit(v) ==> CountOf(Look(v, k)) <= INT64_MAX
    ensures IntsFit(v) ==> (NormalCount(CountOf(Look(v, k))) <==> CountKept(v, k))
  {
    hide Find, Spell;
    if IntsFit(v) { FitFound(v.members, Spell(k)); }
  }

  lemma {:induction false} KnownBits(vs: seq<Value>)
    ensures MaskOfAll(vs) & KNOWN == MaskOfAll(vs)
    decreases |vs|
  {
    hide CStr;
    if vs != [] {
      var last := vs[|vs| - 1];
      KnownBits(vs[..|vs| - 1]);
      OrKnown(MaskOfAll(vs[..|vs| - 1]), if last.JStr? then BitNamed(CStr(last.s)) else 0);
    }
  }

  lemma OrKnown(a: bv8, b: bv8)
    requires a & KNOWN == a && b & KNOWN == b
    ensures (a | b) & KNOWN == a | b
  {
  }

  lemma MaskReads(v: Value)
    requires v.JObj?
    ensures ParseMask(v) & KNOWN == ParseMask(v)
    ensures FlagOf(Look(v, Misc(Nullable))) ==> ParseMask(v) & 0x01 != 0
  {
    hide Look, CStr, MaskOfAll;
    var r := Look(v, Head(Type));
    if r.Some? && r.value.JArr? { KnownBits(r.value.items); }
    var mask := if r.Some? then MaskOf(r.value) else 0;
    OrKnown(mask, 0x01);
    LowBit(mask);
  }

  lemma LowBit(a: bv8)
    ensures (a | 0x01) & 0x01 != 0
  {
  }

  lemma NamesClean(r: Option<Value>)
    ensures CNames(NamesIn(r))
  {
  }

  lemma MappingClean(ms: seq<Member>)
    ensures CMapping(ParseMapping(ms)) && |ParseMapping(ms)| == |ms|
    ensures AllTargeted(ParseMapping(ms)) <==> TargetedMapping(ms)
  {
    var r := ParseMapping(ms);
    assert forall i | 0 <= i < |ms| :: r[i].ref == MaybeName(ms[i].value);
  }

  lemma MaybeNamesRead(v: Value)
    ensures CMaybeNames(MaybeNames(v))
    ensures AllNamed(MaybeNames(v)) <==> v.JArr? ==> AllStrings(v.items)
  {
    if v.JArr? {
      assert forall i | 0 <= i < |v.items| :: MaybeNames(v)[i] == MaybeName(v.items[i]);
    }
  }

  // ----- the parts of a schema -----

  lemma ArrayReads(v: Value)
    requires v.JObj?
    ensures var r := ParseArray(v);
      && UnlinkedArray(r) && (IntsFit(v) ==> StorableArray(r))
      && (IntsFit(v) ==>
            (NormalArray(r) <==>
               && CountKept(v, Arr(MinItems)) && CountKept(v, Arr(MaxItems))
               && CountKept(v, Arr(MinContains)) && CountKept(v, Arr(MaxContains))
               && PlainAt(v, Arr(Items)) && PlainList(v, Arr(PrefixItems)) && PlainAt(v, Arr(Contains))))
      && (SteadyArray(r) <==>
            && SolidAt(v, Arr(Items)) && SolidList(v, Arr(PrefixItems)) && SolidAt(v, Arr(Contains))
            && ObjectsFirst(ItemsAt(v, Arr(PrefixItems))))
    decreases v, 1
  {
    hide SchemaAt, ListAt, Look, CountOf, UnlinkedOpt, UnlinkedAll, StorableOpt, StorableAll, NormalOpt, NormalAll,
      SteadyOpt, SteadyAll, NullsLast, PlainAt, PlainList, SolidAt, SolidList, ObjectsFirst, ItemsAt, CountKept,
      NormalCount, IntsFit;
    ReadAt(v, Arr(Items));
    ReadList(v, Arr(PrefixItems));
    NullsRead(v, Arr(PrefixItems));
    ReadAt(v, Arr(Contains));
    CountReads(v, Arr(MinItems));
    CountReads(v, Arr(MaxItems));
    CountReads(v, Arr(MinContains));
    CountReads(v, Arr(MaxContains));
  }

  lemma PropertiesRead(v: Value, k: Keyword)
    requires v.JObj?
    ensures var ps := PropertiesAt(v, k);
      && UnlinkedProperties(ps)
      && (IntsFit(v) ==> StorableProperties(ps) && (NormalProperties(ps) <==> PlainProperties(v, k)))
      && (SteadyProperties(ps) <==> SolidMembers(v, k))
    decreases v, 0
  {
    hide Find, Spell, Unlinked, Storable, Normal, Steady, PlainValues, SolidValues, ParseProperties;
    if Look(v, k).Some? && Look(v, k).value.JObj? {
      ReadValues(Look(v, k).value.members);
      if IntsFit(v) { FitFound(v.members, Spell(k)); }
    }
  }

  lemma PatternsRead(v: Value, k: Keyword)
    requires v.JObj?
    ensures var ps := PatternsAt(v, k);
      && UnlinkedPatterns(ps)
      && (IntsFit(v) ==> StorablePatterns(ps) && (NormalPatterns(ps) <==> PlainMembers(v, k)))
      && (SteadyPatterns(ps) <==> SolidMembers(v, k))
    decreases v, 0
  {
    hide Find, Spell, UnlinkedOpt, StorableOpt, NormalOpt, SteadyOpt, PlainSchemas, SolidValues, ParsePatterns;
    if Look(v, k).Some? && Look(v, k).value.JObj? {
      ReadPatterns(Look(v, k).value.members);
      if IntsFit(v) { FitFound(v.members, Spell(k)); }
    }
  }

  lemma DependentsRead(v: Value, k: Keyword)
    requires v.JObj?
    ensures var ds := DependentsAt(v, k);
      && UnlinkedDependents(ds)
      && (IntsFit(v) ==> StorableDependents(ds) && (NormalDependents(ds) <==> PlainMembers(v, k)))
      && (SteadyDependents(ds) <==> SolidMembers(v, k))
    decreases v, 0
  {
    hide Find, Spell, UnlinkedOpt, StorableOpt, NormalOpt, SteadyOpt, PlainSchemas, SolidValues, ParseDependents;
    if Look(v, k).Some? && Look(v, k).value.JObj? {
      ReadDependents(Look(v, k).value.members);
      if IntsFit(v) { FitFound(v.members, Spell(k)); }
    }
  }

  lemma AdditionalReads(v: Value)
    requires v.JObj?
    ensures var o := AdditionalAt(v).0;
      && UnlinkedOpt(o) && (IntsFit(v) ==> StorableOpt(o))
      && (IntsFit(v) ==> (!AdditionalAt(v).1 && NormalOpt(o) <==> PlainAdditional(v)))
    decreases v, 1
  {
    hide SchemaAt, Look, Unlinked, Storable, Normal, PlainAt, IntsFit;
    ReadAt(v, Obj(AdditionalProperties));
    EmptyReads();
  }

  lemma EmptyReads()
    ensures Unlinked(EmptySchema()) && Storable(EmptySchema())
  {
  }

  lemma RequirementsRead(ms: seq<Member>)
    ensures StorableRequirements(ParseRequirements(ms))
    ensures NormalRequirements(ParseRequirements(ms)) <==> AllNamesGiven(ms)
  {
    hide MaybeNames, CMaybeNames, AllNamed, AllStrings;
    var ds := ParseRequirements(ms);
    forall i | 0 <= i < |ms|
      ensures CMaybeNames(ds[i].required) && (AllNamed(ds[i].required) <==> ms[i].value.JArr? ==>
        AllStrings(ms[i].value.items))
    {
      MaybeNamesRead(ms[i].value);
    }
  }

  lemma ObjectReads(v: Value)
    requires v.JObj?
    ensures var r := ParseObject(v);
      && UnlinkedObject(r) && (IntsFit(v) ==> StorableObject(r))
      && (IntsFit(v) ==>
            (NormalObject(r) <==>
               && CountKept(v, Obj(MinProperties)) && CountKept(v, Obj(MaxProperties))
               && PlainProperties(v, Obj(Properties)) && PlainAdditional(v) && PlainAt(v, Obj(PropertyNames))
               && PlainMembers(v, Obj(PatternProperties)) && PlainMembers(v, Obj(DependentSchemas))
               && NamedRequirements(v)))
      && (SteadyObject(r) <==>
            && SolidMembers(v, Obj(Properties)) && SolidAt(v, Obj(PropertyNames))
            && SolidMembers(v, Obj(PatternProperties)) && NamedRequirements(v)
            && SolidMembers(v, Obj(DependentSchemas)))
    decreases v, 2
  {
    hide SchemaAt, Look, CountOf, NamesIn, ParseRequirements, AdditionalAt, PropertiesAt, PatternsAt, DependentsAt,
      UnlinkedOpt, UnlinkedProperties, UnlinkedPatterns, UnlinkedDependents, StorableOpt, StorableProperties,
      StorablePatterns, StorableDependents, StorableRequirements, NormalOpt, NormalProperties, NormalPatterns,
      NormalRequirements, AllNamesGiven, NormalDependents, SteadyOpt, SteadyProperties, SteadyPatterns,
          SteadyDependents, PlainAt, PlainProperties,
      PlainMembers, PlainAdditional, SolidAt, SolidMembers, CountKept, NormalCount, CNames, IntsFit;
    PropertiesRead(v, Obj(Properties));
    PatternsRead(v, Obj(PatternProperties));
    DependentsRead(v, Obj(DependentSchemas));
    AdditionalReads(v);
    ReadAt(v, Obj(PropertyNames));
    CountReads(v, Obj(MinProperties));
    CountReads(v, Obj(MaxProperties));
    NamesClean(Look(v, Obj(Required)));
    RequirementsRead(MembersOf(Look(v, Obj(ObjectKey.DependentRequired))));
  }

  lemma CompositionReads(v: Value)
    requires v.JObj?
    ensures var c := ParseComposition(v);
      && UnlinkedComposition(c) && (IntsFit(v) ==> StorableComposition(c))
      && (IntsFit(v) ==>
            (NormalComposition(c) <==>
               && PlainList(v, Comp(AllOf)) && PlainList(v, Comp(AnyOf)) && PlainList(v, Comp(OneOf))
               && PlainAt(v, Comp(Not))))
      && (SteadyComposition(c) <==>
            SolidList(v, Comp(AllOf)) && SolidList(v, Comp(AnyOf)) && SolidList(v, Comp(OneOf))
                && SolidAt(v, Comp(Not)))
    decreases v, 1
  {
    hide SchemaAt, ListAt, Look, UnlinkedOpt, UnlinkedAll, StorableOpt, StorableAll, NormalOpt, NormalAll, SteadyOpt,
      SteadyAll, PlainAt, PlainList, SolidAt, SolidList, IntsFit;
    ReadList(v, Comp(AllOf));
    ReadList(v, Comp(AnyOf));
    ReadList(v, Comp(OneOf));
    ReadAt(v, Comp(Not));
  }

  lemma ConditionalReads(v: Value)
    requires v.JObj?
    ensures var c := ParseConditional(v);
      && UnlinkedConditional(c) && (IntsFit(v) ==> StorableConditional(c))
      && (IntsFit(v) ==>
            (NormalConditional(c) <==> PlainAt(v, Cond(If)) && PlainAt(v, Cond(Then)) && PlainAt(v, Cond(Else))))
      && (SteadyConditional(c) <==> SolidAt(v, Cond(If)) && SolidAt(v, Cond(Then)) && SolidAt(v, Cond(Else)))
    decreases v, 1
  {
    hide SchemaAt, Look, UnlinkedOpt, StorableOpt, NormalOpt, SteadyOpt, PlainAt, SolidAt, IntsFit;
    ReadAt(v, Cond(If));
    ReadAt(v, Cond(Then));
    ReadAt(v, Cond(Else));
  }

  lemma DiscriminatorReads(v: Value)
    requires v.JObj?
    ensures var d := ParseDiscriminator(Look(v, Misc(MiscKey.Discriminator)));
      && CText(d.property) && CMapping(d.mapping)
      && (NormalDiscriminator(d) <==> PlainDiscriminator(v))
      && (SteadyAlternatives(ParseComposition(v), d) <==> SolidAlternatives(v))
  {
    hide Look, Find, ParseMapping, CMapping, AllTargeted, TargetedMapping, ListAt, SchemaAt, ItemsAt, NoNull, OnlyNull,
      OnlyObjects, NoObjects;
    MappingClean(MappingOf(v));
    NullsRead(v, Comp(AnyOf));
    NullsRead(v, Comp(OneOf));
    var d := ParseDiscriminator(Look(v, Misc(MiscKey.Discriminator)));
    assert d.property == PropertyNameOf(v) && d.mapping == ParseMapping(MappingOf(v));
  }

  // ----- schemas -----

  /** What the parser makes of any value: nothing unless it is an object. Of an object with 64-bit
      integers it makes a schema that can be stored and has no resolved reference; the schema is in the
      normal form exactly if the object is `Plain`, and keeps its meaning in a round trip if the object
      is `Solid`. */
  lemma {:induction false} ParseReads(v: Value)
    ensures ReadAs(v, Parse(v))
    decreases v, 3
  {
    hide Look, CountOf, TextOf, FlagOf, ParseMask, ParseArray, ParseObject, ParseComposition, ParseConditional,
      ParseDiscriminator, UnlinkedArray, UnlinkedObject, UnlinkedComposition, UnlinkedConditional, StorableArray,
      StorableObject, StorableComposition, StorableConditional, NormalArray, NormalObject, NormalComposition,
      NormalConditional, SteadyArray, SteadyObject, SteadyComposition, SteadyConditional, PlainAt, PlainList,
      PlainProperties, PlainMembers, PlainAdditional, PlainDiscriminator, NamedRequirements, SolidAt, SolidList,
      SolidMembers, SolidAlternatives, ObjectsFirst, ItemsAt, SteadyAlternatives, NormalDiscriminator, CMapping,
          CountKept,
      NormalCount, IntsFit, CText;
    ParseIs(v);
    if v.JObj? {
      TextReads(v);
      MaskReads(v);
      ArrayReads(v);
      ObjectReads(v);
      CompositionReads(v);
      ConditionalReads(v);
      DiscriminatorReads(v);
      var s := Parse(v).value;
      assert Unlinked(s);
      assert IntsFit(v) ==> Storable(s);
      assert Steady(s) <==> Solid(v);
      assert IntsFit(v) && Normal(s) ==> Plain(v);
      assert IntsFit(v) && Plain(v) ==> Normal(s);
    }
  }

  lemma TextReads(v: Value)
    requires v.JObj?
    ensures forall k :: CText(TextOf(Look(v, k)))
    ensures var r := ParseText(v);
      && (IntsFit(v) ==> r.minLength <= INT64_MAX && r.maxLength <= INT64_MAX)
      && (IntsFit(v) ==>
            (NormalCount(r.minLength) && NormalCount(r.maxLength) <==>
             CountKept(v, Text(MinLength)) && CountKept(v, Text(MaxLength))))
  {
    hide Look, CountOf, CountKept, NormalCount, IntsFit;
    CountReads(v, Text(MinLength));
    CountReads(v, Text(MaxLength));
  }

  // ----- documents -----

  /** A document comes back reversed exactly if it is plain. */
  lemma DocumentRoundTrip(v: Value)
    requires v.JObj? && IntsFit(v) && RequiredGiven(v)
    ensures Parse(v).Some?
    ensures var s := Parse(v).value;
      Parse(P.Emit(s)) == Some(Flip(s)) <==> Plain(v)
    ensures var s := Parse(v).value;
      Plain(v) ==> Parse(P.Emit(Flip(s))) == Some(s)
  {
    hide Parse, P.Emit, Storable, Unlinked, Normal, Steady, Plain, Solid, Flip, RequiredGiven;
    ParseReads(v);
    var s := Parse(v).value;
    NormalRoundTrip(s);
    FlipKeeps(s);
    NormalRoundTrip(Flip(s));
  }

  lemma PlainNeeds(v: Value)
    requires v.JObj? && Plain(v)
    ensures CountKept(v, Text(MinLength)) && PlainDiscriminator(v)
  {
    hide Look, CountKept, PlainDiscriminator, PlainAt, PlainList, PlainProperties, PlainMembers, PlainAdditional,
      NamedRequirements;
  }

  /** Two documents without any of the excluded keywords that do not come back: one with a count below
      -1, and one with a mapping but no property name. */
  lemma NegativeCount()
    ensures !Plain(JObj([Member("minLength", JInt(-5))]))
  {
    hide Plain;
    var v := JObj([Member("minLength", JInt(-5))]);
    assert Look(v, Text(MinLength)) == Some(JInt(-5));
    if Plain(v) { PlainNeeds(v); }
  }

  lemma NamelessMapping()
    ensures !Plain(JObj([Member("discriminator", JObj([Member("mapping", JObj([Member("a", JStr("b"))]))]))]))
  {
    hide Plain;
    var mapping := JObj([Member("a", JStr("b"))]);
    var inner := [Member("mapping", mapping)];
    var v := JObj([Member("discriminator", JObj(inner))]);
    assert Look(v, Misc(MiscKey.Discriminator)) == Some(JObj(inner));
    assert |"mapping"| != |"propertyName"| && inner[1..] == [];
    assert Find(inner, "mapping") == Some(mapping) && Find(inner, "propertyName").None?;
    if Plain(v) { PlainNeeds(v); }
  }

  /** The schema of a solid document accepts the same values after a round trip. */
  lemma DocumentMeaning(e: Env, v: Value, w: Value)
    requires v.JObj? && IntsFit(v) && RequiredGiven(v) && Solid(v)
    ensures Parse(v).Some?
    ensures var again := Parse(P.Emit(Parse(v).value));
      again.Some? && (Satisfies(e, again.value, w) <==> Satisfies(e, Parse(v).value, w))
  {
    hide Parse, P.Emit, Storable, Unlinked, Normal, Steady, Plain, Solid, Satisfies, RequiredGiven;
    ParseReads(v);
    RoundTripMeanings.RoundTripMeans(e, Parse(v).value, w);
  }
}
