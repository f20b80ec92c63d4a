/** Reading a schema from a JSON object. */
module SchemaParser {
  import opened Json
  import opened Schemas
  import opened TypeNames
  import opened Keywords

  const INT64_MAX: int := 0x7FFF_FFFF_FFFF_FFFF

  /** Stands for a cell of `required` that the code never writes, where the list holds no string. */
  const UNSET: string := ""

  // ----- what is read for each keyword -----

  function Look(v: Value, k: Keyword): (r: Option<Value>)
    requires v.JObj?
    ensures r.Some? ==> r.value < v
  {
    Find(v.members, Spell(k))
  }

  /** `yyjson_get_sint`: larger numbers wrap. */
  function ToInt64(i: int): int {
    if i > INT64_MAX then i - 0x1_0000_0000_0000_0000 else i
  }

  function TextOf(r: Option<Value>): Option<string> {
    if r.Some? && r.value.JStr? then Some(CStr(r.value.s)) else None
  }

  function CountOf(r: Option<Value>): int {
    if r.Some? && r.value.JInt? then ToInt64(r.value.i) else -1
  }

  function RealOf(r: Option<Value>): Option<real> {
    if r.Some? && r.value.JReal? then Some(r.value.r)
    else if r.Some? && r.value.JInt? then Some(ToInt64(r.value.i) as real)
    else None
  }

  function FlagOf(r: Option<Value>): bool {
    r.Some? && r.value.JBool? && r.value.b
  }

  function ArrayOf(r: Option<Value>): Option<Value> {
    if r.Some? && r.value.JArr? then r else None
  }

  function NameOf(v: Value): string {
    if v.JStr? then CStr(v.s) else UNSET
  }

  function NamesOf(vs: seq<Value>): seq<string> {
    seq(|vs|, i requires 0 <= i < |vs| => NameOf(vs[i]))
  }

  /** What is no string is a null pointer in `dependentRequired` and in a mapping. */
  function MaybeName(v: Value): Option<string> {
    if v.JStr? then Some(CStr(v.s)) else None
  }

  function MaybeNames(v: Value): seq<Option<string>> {
    if v.JArr? then seq(|v.items|, i requires 0 <= i < |v.items| => MaybeName(v.items[i])) else []
  }

  function NamesIn(r: Option<Value>): seq<string> {
    if r.Some? && r.value.JArr? then NamesOf(r.value.items) else []
  }

  function SchemaAt(v: Value, k: Keyword): Option<Schema>
    requires v.JObj?
    decreases v, 0
  {
    if Look(v, k).Some? then Parse(Look(v, k).value) else None
  }

  function ParseAll(vs: seq<Value>): (os: seq<Option<Schema>>)
    decreases vs
  {
    if vs == [] then []
    else
      var n := |vs| - 1;
      ParseAll(vs[..n]) + [Parse(vs[n])]
  }

  function ListAt(v: Value, k: Keyword): seq<Option<Schema>>
    requires v.JObj?
    decreases v, 0
  {
    if Look(v, k).Some? && Look(v, k).value.JArr? then ParseAll(Look(v, k).value.items) else []
  }

  /** Each property is put in front of the earlier ones. */
  function ParseProperties(ms: seq<Member>): seq<Property>
    decreases ms
  {
    if ms == [] then []
    else
      var n := |ms| - 1;
      var s := Parse(ms[n].value);
      (if s.Some? then [Property(CStr(ms[n].key), s.value)] else []) + ParseProperties(ms[..n])
  }

  function ParsePatterns(ms: seq<Member>): seq<PatternProperty>
    decreases ms
  {
    if ms == [] then []
    else
      var n := |ms| - 1;
      ParsePatterns(ms[..n]) + [PatternProperty(CStr(ms[n].key), Parse(ms[n].value))]
  }

  function ParseRequirements(ms: seq<Member>): seq<DependentRequired> {
    seq(|ms|, i requires 0 <= i < |ms| =>
          DependentRequired.DependentRequired(CStr(ms[i].key), MaybeNames(ms[i].value)))
  }

  function ParseDependents(ms: seq<Member>): seq<DependentSchema>
    decreases ms
  {
    if ms == [] then []
    else
      var n := |ms| - 1;
      ParseDependents(ms[..n]) + [DependentSchema(CStr(ms[n].key), Parse(ms[n].value))]
  }

  function PropertiesAt(v: Value, k: Keyword): seq<Property>
    requires v.JObj?
    decreases v, 0
  {
    if Look(v, k).Some? && Look(v, k).value.JObj? then ParseProperties(Look(v, k).value.members) else []
  }

  function PatternsAt(v: Value, k: Keyword): seq<PatternProperty>
    requires v.JObj?
    decreases v, 0
  {
    if Look(v, k).Some? && Look(v, k).value.JObj? then ParsePatterns(Look(v, k).value.members) else []
  }

  function DependentsAt(v: Value, k: Keyword): seq<DependentSchema>
    requires v.JObj?
    decreases v, 0
  {
    if Look(v, k).Some? && Look(v, k).value.JObj? then ParseDependents(Look(v, k).value.members) else []
  }

  function ParseMapping(ms: seq<Member>): seq<Mapping> {
    seq(|ms|, i requires 0 <= i < |ms| => Mapping(CStr(ms[i].key), MaybeName(ms[i].value)))
  }

  function MembersOf(r: Option<Value>): seq<Member> {
    if r.Some? && r.value.JObj? then r.value.members else []
  }

  function ParseDiscriminator(r: Option<Value>): Discriminator {
    Discriminator.Discriminator(TextOf(Find(MembersOf(r), "propertyName")),
                                ParseMapping(MembersOf(Find(MembersOf(r), "mapping"))))
  }

  function ParseText(v: Value): StringRules
    requires v.JObj?
  {
    StringRules(CountOf(Look(v, Text(MinLength))), CountOf(Look(v, Text(MaxLength))),
                TextOf(Look(v, Text(Pattern))), TextOf(Look(v, Head(Format))))
  }

  function ParseNumbers(v: Value): NumberRules
    requires v.JObj?
  {
    NumberRules(RealOf(Look(v, Num(Minimum))), RealOf(Look(v, Num(Maximum))),
                RealOf(Look(v, Num(ExclusiveMinimum))), RealOf(Look(v, Num(ExclusiveMaximum))),
                RealOf(Look(v, Num(MultipleOf))))
  }

  function ParseArray(v: Value): ArrayRules
    requires v.JObj?
    decreases v, 1
  {
    ArrayRules(SchemaAt(v, Arr(Items)), ListAt(v, Arr(PrefixItems)),
               CountOf(Look(v, Arr(MinItems))), CountOf(Look(v, Arr(MaxItems))), FlagOf(Look(v, Arr(UniqueItems))),
               SchemaAt(v, Arr(Contains)), CountOf(Look(v, Arr(MinContains))), CountOf(Look(v, Arr(MaxContains))))
  }

  /** The boolean `false` is turned into a schema that nothing refers to. */
  function AdditionalAt(v: Value): (Option<Schema>, bool)
    requires v.JObj?
    decreases v, 1
  {
    var r := Look(v, Obj(AdditionalProperties));
    if r.Some? && r.value.JBool? then (if r.value.b then None else Some(EmptySchema()), true)
    else (SchemaAt(v, Obj(AdditionalProperties)), false)
  }

  function ParseObject(v: Value): ObjectRules
    requires v.JObj?
    decreases v, 2
  {
    ObjectRules(PropertiesAt(v, Obj(Properties)), NamesIn(Look(v, Obj(Required))),
                AdditionalAt(v).0, AdditionalAt(v).1,
                CountOf(Look(v, Obj(MinProperties))), CountOf(Look(v, Obj(MaxProperties))),
                SchemaAt(v, Obj(PropertyNames)),
                PatternsAt(v, Obj(PatternProperties)),
                ParseRequirements(MembersOf(Look(v, Obj(ObjectKey.DependentRequired)))),
                DependentsAt(v, Obj(DependentSchemas)))
  }

  function ParseComposition(v: Value): Composition
    requires v.JObj?
    decreases v, 1
  {
    Composition(ListAt(v, Comp(AllOf)), ListAt(v, Comp(AnyOf)), ListAt(v, Comp(OneOf)), SchemaAt(v, Comp(Not)))
  }

  function ParseConditional(v: Value): Conditional
    requires v.JObj?
    decreases v, 1
  {
    Conditional(SchemaAt(v, Cond(If)), SchemaAt(v, Cond(Then)), SchemaAt(v, Cond(Else)))
  }

  function ParseUnevaluated(v: Value): Unevaluated
    requires v.JObj?
    decreases v, 1
  {
    Unevaluated(Look(v, Misc(UnevaluatedProperties)).Some?, SchemaAt(v, Misc(UnevaluatedProperties)),
                Look(v, Misc(UnevaluatedItems)).Some?, SchemaAt(v, Misc(UnevaluatedItems)))
  }

  function ParseMask(v: Value): bv8
    requires v.JObj?
  {
    var r := Look(v, Head(Type));
    var mask := if r.Some? then MaskOf(r.value) else 0;
    if FlagOf(Look(v, Misc(Nullable))) then mask | 0x01 else mask
  }

  function ParseMeta(v: Value): Meta
    requires v.JObj?
  {
    Meta(TextOf(Look(v, Head(Title))), TextOf(Look(v, Head(Description))), Look(v, Misc(Default)),
         FlagOf(Look(v, Misc(Deprecated))))
  }

  /** Only objects are schemas. */
  function Parse(v: Value): Option<Schema>
    decreases v, 3
  {
    if !v.JObj? then None
    else
      Some(Schema(
             TextOf(Look(v, Head(Ref))), None, ParseMask(v), FlagOf(Look(v, Misc(Nullable))), ParseMeta(v),
             ParseText(v), ParseNumbers(v), ParseArray(v), ParseObject(v), ParseComposition(v), ParseConditional(v),
             Look(v, Misc(Const)), ArrayOf(Look(v, Misc(Enum))),
             FlagOf(Look(v, Misc(ReadOnly))), FlagOf(Look(v, Misc(WriteOnly))),
             ParseDiscriminator(Look(v, Misc(MiscKey.Discriminator))), ParseUnevaluated(v)))
  }

  // ----- the parser -----

  lemma AllEnds(vs: seq<Value>)
    ensures ParseAll(vs[..0]) == [] && vs[..|vs|] == vs
  {
  }

  lemma AllStep(vs: seq<Value>, i: nat)
    requires i < |vs|
    ensures ParseAll(vs[..i + 1]) == ParseAll(vs[..i]) + [Parse(vs[i])]
  {
    hide Parse;
    assert vs[..i + 1][..i] == vs[..i];
  }

  lemma PatternEnds(ms: seq<Member>)
    ensures ParsePatterns(ms[..0]) == [] && ms[..|ms|] == ms
  {
  }

  lemma PatternStep(ms: seq<Member>, i: nat)
    requires i < |ms|
    ensures ParsePatterns(ms[..i + 1]) ==
      ParsePatterns(ms[..i]) + [PatternProperty(CStr(ms[i].key), Parse(ms[i].value))]
  {
    hide Parse, CStr;
    assert ms[..i + 1][..i] == ms[..i];
  }

  lemma DependentEnds(ms: seq<Member>)
    ensures ParseDependents(ms[..0]) == [] && ms[..|ms|] == ms
  {
  }

  lemma DependentStep(ms: seq<Member>, i: nat)
    requires i < |ms|
    ensures ParseDependents(ms[..i + 1]) ==
      ParseDependents(ms[..i]) + [DependentSchema(CStr(ms[i].key), Parse(ms[i].value))]
  {
    hide Parse, CStr;
    assert ms[..i + 1][..i] == ms[..i];
  }

  /** `parse_schema_array`: one cell for each element, null where it is not an object. */
  method ParseSchemaArray(vs: seq<Value>) returns (os: seq<Option<Schema>>)
    ensures os == ParseAll(vs)
    decreases vs
  {
    hide *;
    AllEnds(vs);
    var cells := new Option<Schema>[|vs|];
    for i := 0 to |vs|
      invariant cells[..i] == ParseAll(vs[..i])
    {
      AllStep(vs, i);
      ghost var before := cells[..i];
      var s := ParseSchema(vs[i]);
      cells[i] := s;
      assert cells[..i + 1] == before + [s];
    }
    os := cells[..];
    assert cells[..|vs|] == cells[..];
  }

  method ParsePropertyList(ms: seq<Member>) returns (ps: seq<Property>)
    ensures ps == ParseProperties(ms)
    decreases ms
  {
    ps := [];
    for i := 0 to |ms|
      invariant ps == ParseProperties(ms[..i])
    {
      assert ms[..i + 1][..i] == ms[..i];
      var s := ParseSchema(ms[i].value);
      if s.Some? {
        ps := [Property(CStr(ms[i].key), s.value)] + ps;
      }
    }
    assert ms[..|ms|] == ms;
  }

  method ParsePatternList(ms: seq<Member>) returns (ps: seq<PatternProperty>)
    ensures ps == ParsePatterns(ms)
    decreases ms
  {
    hide *;
    PatternEnds(ms);
    var cells := new PatternProperty[|ms|];
    for i := 0 to |ms|
      invariant cells[..i] == ParsePatterns(ms[..i])
    {
      PatternStep(ms, i);
      ghost var before := cells[..i];
      var s := ParseSchema(ms[i].value);
      cells[i] := PatternProperty(CStr(ms[i].key), s);
      assert cells[..i + 1] == before + [cells[i]];
    }
    ps := cells[..];
    assert cells[..|ms|] == cells[..];
  }

  method ParseDependentList(ms: seq<Member>) returns (ds: seq<DependentSchema>)
    ensures ds == ParseDependents(ms)
    decreases ms
  {
    hide *;
    DependentEnds(ms);
    var cells := new DependentSchema[|ms|];
    for i := 0 to |ms|
      invariant cells[..i] == ParseDependents(ms[..i])
    {
      DependentStep(ms, i);
      ghost var before := cells[..i];
      var s := ParseSchema(ms[i].value);
      cells[i] := DependentSchema(CStr(ms[i].key), s);
      assert cells[..i + 1] == before + [cells[i]];
    }
    ds := cells[..];
    assert cells[..|ms|] == cells[..];
  }

  method ParseNameList(r: Option<Value>) returns (names: seq<string>)
    ensures names == NamesIn(r)
  {
    if r.None? || !r.value.JArr? {
      return [];
    }
    var vs := r.value.items;
    var cells := new string[|vs|];
    for i := 0 to |vs|
      invariant forall k | 0 <= k < i :: cells[k] == NameOf(vs[k])
    {
      cells[i] := if vs[i].JStr? then CStr(vs[i].s) else UNSET;
    }
    names := cells[..];
  }

  method ParseMaybeNames(v: Value) returns (names: seq<Option<string>>)
    ensures names == MaybeNames(v)
  {
    if !v.JArr? {
      return [];
    }
    var cells := new Option<string>[|v.items|];
    for i := 0 to |v.items|
      invariant forall k | 0 <= k < i :: cells[k] == MaybeName(v.items[k])
    {
      cells[i] := if v.items[i].JStr? then Some(CStr(v.items[i].s)) else None;
    }
    names := cells[..];
  }

  method ParseRequirementList(ms: seq<Member>) returns (ds: seq<DependentRequired>)
    ensures ds == ParseRequirements(ms)
  {
    var cells := new DependentRequired[|ms|];
    for i := 0 to |ms|
      invariant forall k | 0 <= k < i :: cells[k] == ParseRequirements(ms)[k]
    {
      var names := ParseMaybeNames(ms[i].value);
      cells[i] := DependentRequired.DependentRequired(CStr(ms[i].key), names);
    }
    ds := cells[..];
  }

  method ParseArrayConstraints(v: Value) returns (r: ArrayRules)
    requires v.JObj?
    ensures r == ParseArray(v)
    decreases v, 1
  {
    hide Look, ParseAll, Parse;
    var items := ParseSub(v, Arr(Items));
    var prefix := ParseList(v, Arr(PrefixItems));
    var contains := ParseSub(v, Arr(Contains));
    r := ArrayRules(items, prefix, CountOf(Look(v, Arr(MinItems))), CountOf(Look(v, Arr(MaxItems))),
                    FlagOf(Look(v, Arr(UniqueItems))), contains,
                    CountOf(Look(v, Arr(MinContains))), CountOf(Look(v, Arr(MaxContains))));
  }

  method ParseSub(v: Value, k: Keyword) returns (s: Option<Schema>)
    requires v.JObj?
    ensures s == SchemaAt(v, k)
    decreases v, 0
  {
    var r := Look(v, k);
    if r.None? {
      return None;
    }
    s := ParseSchema(r.value);
  }

  method ParseList(v: Value, k: Keyword) returns (os: seq<Option<Schema>>)
    requires v.JObj?
    ensures os == ListAt(v, k)
    decreases v, 0
  {
    var r := Look(v, k);
    if r.None? || !r.value.JArr? {
      return [];
    }
    os := ParseSchemaArray(r.value.items);
  }

  method ParseObjectConstraints(v: Value) returns (r: ObjectRules)
    requires v.JObj?
    ensures r == ParseObject(v)
    decreases v, 1
  {
    hide Look, Parse, ParseProperties, ParsePatterns, ParseRequirements, ParseDependents, ParseAll, NamesIn, SchemaAt;
    var properties, patterns, dependents := [], [], [];
    var found := Look(v, Obj(Properties));
    if found.Some? && found.value.JObj? {
      properties := ParsePropertyList(found.value.members);
    }
    var required := ParseNameList(Look(v, Obj(Required)));
    var isBool, additional := false, None;
    found := Look(v, Obj(AdditionalProperties));
    if found.Some? && found.value.JBool? {
      isBool := true;
      if !found.value.b {
        additional := Some(EmptySchema());
      }
    } else {
      additional := ParseSub(v, Obj(AdditionalProperties));
    }
    var names := ParseSub(v, Obj(PropertyNames));
    found := Look(v, Obj(PatternProperties));
    if found.Some? && found.value.JObj? {
      patterns := ParsePatternList(found.value.members);
    }
    var requirements := ParseRequirementList(MembersOf(Look(v, Obj(ObjectKey.DependentRequired))));
    found := Look(v, Obj(DependentSchemas));
    if found.Some? && found.value.JObj? {
      dependents := ParseDependentList(found.value.members);
    }
    r := ObjectRules(properties, required, additional, isBool,
                     CountOf(Look(v, Obj(MinProperties))), CountOf(Look(v, Obj(MaxProperties))),
                     names, patterns, requirements, dependents);
  }

  method ParseMappingList(r: Option<Value>) returns (d: Discriminator)
    ensures d == ParseDiscriminator(r)
  {
    var property := TextOf(Find(MembersOf(r), "propertyName"));
    var ms := MembersOf(Find(MembersOf(r), "mapping"));
    var cells := new Mapping[|ms|];
    for i := 0 to |ms|
      invariant forall k | 0 <= k < i :: cells[k] == ParseMapping(ms)[k]
    {
      cells[i] := Mapping(CStr(ms[i].key), MaybeName(ms[i].value));
    }
    assert cells[..] == ParseMapping(ms);
    d := Discriminator.Discriminator(property, cells[..]);
  }

  method ParseCompositionRules(v: Value) returns (c: Composition)
    requires v.JObj?
    ensures c == ParseComposition(v)
    decreases v, 1
  {
    hide Look, ListAt, SchemaAt;
    var allOf := ParseList(v, Comp(AllOf));
    var anyOf := ParseList(v, Comp(AnyOf));
    var oneOf := ParseList(v, Comp(OneOf));
    var notSchema := ParseSub(v, Comp(Not));
    c := Composition(allOf, anyOf, oneOf, notSchema);
  }

  method ParseConditionalRules(v: Value) returns (c: Conditional)
    requires v.JObj?
    ensures c == ParseConditional(v)
    decreases v, 1
  {
    hide Look, SchemaAt;
    var ifSchema := ParseSub(v, Cond(If));
    var thenSchema := ParseSub(v, Cond(Then));
    var elseSchema := ParseSub(v, Cond(Else));
    c := Conditional(ifSchema, thenSchema, elseSchema);
  }

  method ParseUnevaluatedRules(v: Value) returns (u: Unevaluated)
    requires v.JObj?
    ensures u == ParseUnevaluated(v)
    decreases v, 1
  {
    hide Look, SchemaAt;
    var properties := ParseSub(v, Misc(UnevaluatedProperties));
    var items := ParseSub(v, Misc(UnevaluatedItems));
    u := Unevaluated(Look(v, Misc(UnevaluatedProperties)).Some?, properties,
                     Look(v, Misc(UnevaluatedItems)).Some?, items);
  }

  /** The type mask; `nullable` adds null to it afterwards. */
  method ParseTypeMask(v: Value) returns (mask: bv8)
    requires v.JObj?
    ensures mask == ParseMask(v)
  {
    hide Look, MaskOf;
    mask := 0;
    var t := Look(v, Head(Type));
    if t.Some? {
      mask := ParseType(t.value);
    }
    if FlagOf(Look(v, Misc(Nullable))) {
      mask := mask | 0x01;
    }
  }

  lemma ParseIs(v: Value)
    ensures v.JObj? ==>
      Parse(v) == Some(Schema(
        TextOf(Look(v, Head(Ref))), None, ParseMask(v), FlagOf(Look(v, Misc(Nullable))), ParseMeta(v),
        ParseText(v), ParseNumbers(v), ParseArray(v), ParseObject(v), ParseComposition(v), ParseConditional(v),
        Look(v, Misc(Const)), ArrayOf(Look(v, Misc(Enum))),
        FlagOf(Look(v, Misc(ReadOnly))), FlagOf(Look(v, Misc(WriteOnly))),
        ParseDiscriminator(Look(v, Misc(MiscKey.Discriminator))), ParseUnevaluated(v)))
    ensures !v.JObj? ==> Parse(v).None?
  {
    hide Look, FlagOf, ParseMask, ParseMeta, ParseText, ParseNumbers, ParseArray, ParseObject, ParseComposition,
      ParseConditional, ParseDiscriminator, ArrayOf, TextOf, ParseUnevaluated;
  }

  /** `oas_schema_parse`. */
  method ParseSchema(v: Value) returns (r: Option<Schema>)
    ensures r == Parse(v)
    decreases v, 2
  {
    hide *;
    ParseIs(v);
    if !v.JObj? {
      return None;
    }
    var mask := ParseTypeMask(v);
    var arr := ParseArrayConstraints(v);
    var obj := ParseObjectConstraints(v);
    var comp := ParseCompositionRules(v);
    var cond := ParseConditionalRules(v);
    var disc := ParseMappingList(Look(v, Misc(MiscKey.Discriminator)));
    var uneval := ParseUnevaluatedRules(v);
    r := Some(Schema(
      TextOf(Look(v, Head(Ref))), None, mask, FlagOf(Look(v, Misc(Nullable))), ParseMeta(v),
      ParseText(v), ParseNumbers(v), arr, obj, comp, cond,
      Look(v, Misc(Const)), ArrayOf(Look(v, Misc(Enum))),
      FlagOf(Look(v, Misc(ReadOnly))), FlagOf(Look(v, Misc(WriteOnly))), disc, uneval));
  }
}
