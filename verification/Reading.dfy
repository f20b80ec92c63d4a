/** What the parser reads for each keyword, under the name it has in a document: the first member of that name
    decides, by the kind of its value. */
module Readings {
  import opened Json
  import opened Schemas
  import opened TypeNames
  import opened Keywords
  import opened SchemaParser
  import opened ParsedForms

  // ----- what a value gives -----

  /** An integer above 2^63 - 1 wraps. */
  function Signed(i: int): int {
    if i <= 9223372036854775807 then i else i - 18446744073709551616
  }

  predicate GivesReal(w: Value, o: Option<real>) {
    match w
    case JInt(i) => o == Some(Signed(i) as real)
    case JReal(r) => o == Some(r)
    case _ => o.None?
  }

  predicate GivesCount(w: Value, n: int) {
    n == if w.JInt? then Signed(w.i) else -1
  }

  predicate GivesFlag(w: Value, f: bool) {
    f <==> w == JBool(true)
  }

  predicate GivesText(w: Value, o: Option<string>) {
    if w.JStr? then o.Some? && IsCText(o.value, w.s) else o.None?
  }

  predicate GivesList(w: Value, os: seq<Option<Schema>>) {
    if w.JArr? then |os| == |w.items| && forall i | 0 <= i < |os| :: os[i] == Parse(w.items[i]) else os == []
  }

  /** What is no string has a cell that is not determined. */
  predicate GivesNames(w: Value, names: seq<string>) {
    if w.JArr? then |names| == |w.items| && forall i | 0 <= i < |names|
        && w.items[i].JStr? :: IsCText(names[i], w.items[i].s)
    else names == []
  }

  /** What is no string is null. */
  predicate GivesMaybeNames(w: Value, names: seq<Option<string>>) {
    if w.JArr? then |names| == |w.items| && forall i | 0 <= i < |names| :: GivesText(w.items[i], names[i])
    else names == []
  }

  /** The members that hold objects, the last one first. */
  ghost predicate GivesProperties(w: Value, ps: seq<Property>) {
    if w.JObj? then Reversed(Objects(w.members), ps) else ps == []
  }

  predicate GivesPatterns(w: Value, ps: seq<PatternProperty>) {
    if w.JObj? then
      |ps| == |w.members| && forall i | 0 <= i < |ps| ::
        IsCText(ps[i].pattern, w.members[i].key) && ps[i].schema == Parse(w.members[i].value)
    else ps == []
  }

  predicate GivesDependents(w: Value, ds: seq<DependentSchema>) {
    if w.JObj? then
      |ds| == |w.members| && forall i | 0 <= i < |ds| ::
        IsCText(ds[i].property, w.members[i].key) && ds[i].schema == Parse(w.members[i].value)
    else ds == []
  }

  predicate GivesRequirements(w: Value, ds: seq<DependentRequired>) {
    if w.JObj? then
      |ds| == |w.members| && forall i | 0 <= i < |ds| ::
        IsCText(ds[i].property, w.members[i].key) && GivesMaybeNames(w.members[i].value, ds[i].required)
    else ds == []
  }

  predicate GivesMapping(w: Value, ms: seq<Mapping>) {
    if w.JObj? then
      |ms| == |w.members| && forall i | 0 <= i < |ms| ::
        IsCText(ms[i].key, w.members[i].key) && GivesText(w.members[i].value, ms[i].ref)
    else ms == []
  }

  // ----- what the first member of a name gives -----

  ghost predicate RealRead(ms: seq<Member>, key: string, o: Option<real>) {
    (forall w | FirstMember(ms, key, w) :: GivesReal(w, o)) && (NoMember(ms, key) ==> o.None?)
  }

  ghost predicate CountRead(ms: seq<Member>, key: string, n: int) {
    (forall w | FirstMember(ms, key, w) :: GivesCount(w, n)) && (NoMember(ms, key) ==> n == -1)
  }

  ghost predicate FlagRead(ms: seq<Member>, key: string, f: bool) {
    (forall w | FirstMember(ms, key, w) :: GivesFlag(w, f)) && (NoMember(ms, key) ==> !f)
  }

  ghost predicate TextRead(ms: seq<Member>, key: string, o: Option<string>) {
    (forall w | FirstMember(ms, key, w) :: GivesText(w, o)) && (NoMember(ms, key) ==> o.None?)
  }

  ghost predicate ValueRead(ms: seq<Member>, key: string, o: Option<Value>) {
    (forall w | FirstMember(ms, key, w) :: o == Some(w)) && (NoMember(ms, key) ==> o.None?)
  }

  ghost predicate ListValueRead(ms: seq<Member>, key: string, o: Option<Value>) {
    (forall w | FirstMember(ms, key, w) :: o == if w.JArr? then Some(w) else None) && (NoMember(ms, key) ==> o.None?)
  }

  /** A sub-schema; what is no object is none. */
  ghost predicate SchemaRead(ms: seq<Member>, key: string, o: Option<Schema>) {
    (forall w | FirstMember(ms, key, w) :: o == Parse(w) && (o.Some? <==> w.JObj?)) && (NoMember(ms, key) ==> o.None?)
  }

  ghost predicate ListRead(ms: seq<Member>, key: string, os: seq<Option<Schema>>) {
    (forall w | FirstMember(ms, key, w) :: GivesList(w, os)) && (NoMember(ms, key) ==> os == [])
  }

  ghost predicate PatternsListed(ms: seq<Member>, key: string, ps: seq<PatternProperty>) {
    (forall w | FirstMember(ms, key, w) :: GivesPatterns(w, ps)) && (NoMember(ms, key) ==> ps == [])
  }

  ghost predicate DependentsListed(ms: seq<Member>, key: string, ds: seq<DependentSchema>) {
    (forall w | FirstMember(ms, key, w) :: GivesDependents(w, ds)) && (NoMember(ms, key) ==> ds == [])
  }

  ghost predicate PropertiesListed(ms: seq<Member>, key: string, ps: seq<Property>) {
    (forall w | FirstMember(ms, key, w) :: GivesProperties(w, ps)) && (NoMember(ms, key) ==> ps == [])
  }

  ghost predicate RequirementsListed(ms: seq<Member>, key: string, ds: seq<DependentRequired>) {
    (forall w | FirstMember(ms, key, w) :: GivesRequirements(w, ds)) && (NoMember(ms, key) ==> ds == [])
  }

  ghost predicate NamesListed(ms: seq<Member>, key: string, names: seq<string>) {
    (forall w | FirstMember(ms, key, w) :: GivesNames(w, names)) && (NoMember(ms, key) ==> names == [])
  }

  /** true asks for nothing, false leaves a schema without keywords, an object is a sub-schema. */
  ghost predicate AdditionalRead(ms: seq<Member>, key: string, o: Option<Schema>, isBool: bool) {
    && (forall w | FirstMember(ms, key, w) ::
          && (isBool <==> w.JBool?)
          && o == if w == JBool(true) then None else if w == JBool(false) then Some(EmptySchema()) else Parse(w))
    && (NoMember(ms, key) ==> o.None? && !isBool)
  }

  ghost predicate DiscriminatorRead(ms: seq<Member>, key: string, d: Discriminator) {
    && (forall w | FirstMember(ms, key, w) ::
          if w.JObj? then
            && TextRead(w.members, "propertyName", d.property)
            && (forall m | FirstMember(w.members, "mapping", m) :: GivesMapping(m, d.mapping))
            && (NoMember(w.members, "mapping") ==> d.mapping == [])
          else d == Discriminator.Discriminator(None, []))
    && (NoMember(ms, key) ==> d == Discriminator.Discriminator(None, []))
  }

  /** The name is given alone or in a list. */
  ghost predicate NamesType(w: Value, name: string) {
    || (w.JStr? && IsCText(name, w.s))
    || (w.JArr? && exists i :: 0 <= i < |w.items| && w.items[i].JStr? && IsCText(name, w.items[i].s))
  }

  /** Each bit of the type mask is set where its type is named; `nullable` adds null. */
  ghost predicate GivesTypes(w: Value, nullable: bool, mask: bv8) {
    && (mask & 0x01 != 0 <==> nullable || NamesType(w, "null")) && (mask & 0x02 != 0 <==> NamesType(w, "boolean"))
    && (mask & 0x04 != 0 <==> NamesType(w, "integer")) && (mask & 0x08 != 0 <==> NamesType(w, "number"))
    && (mask & 0x10 != 0 <==> NamesType(w, "string")) && (mask & 0x20 != 0 <==> NamesType(w, "array"))
    && (mask & 0x40 != 0 <==> NamesType(w, "object")) && mask & 0x80 == 0
  }

  ghost predicate TypesRead(ms: seq<Member>, mask: bv8, nullable: bool) {
    && (forall w | FirstMember(ms, "type", w) :: GivesTypes(w, nullable, mask))
    && (NoMember(ms, "type") ==> mask == if nullable then 0x01 else 0)
  }

  // ----- the values read -----

  lemma LookIs(ms: seq<Member>, k: Keyword)
    ensures var r := Look(JObj(ms), k);
      && (forall w :: FirstMember(ms, Spell(k), w) <==> r == Some(w))
      && (NoMember(ms, Spell(k)) <==> r.None?)
  {
    hide Find, Spell, FirstMember, NoMember;
    forall w ensures FirstMember(ms, Spell(k), w) <==> Look(JObj(ms), k) == Some(w) { FindIsFirst(ms, Spell(k), w); }
    FindIsFirst(ms, Spell(k), JNull);
  }

  lemma ScalarsRead(ms: seq<Member>, k: Keyword)
    ensures var r := Look(JObj(ms), k);
      && RealRead(ms, Spell(k), RealOf(r)) && CountRead(ms, Spell(k), CountOf(r)) && FlagRead(ms, Spell(k), FlagOf(r))
      && TextRead(ms, Spell(k), TextOf(r)) && ValueRead(ms, Spell(k), r) && ListValueRead(ms, Spell(k), ArrayOf(r))
  {
    hide Look, Spell, CStr, IsCText, FirstMember, NoMember;
    LookIs(ms, k);
    var r := Look(JObj(ms), k);
    if r.Some? && r.value.JStr? { CTextIs(CStr(r.value.s), r.value.s); }
  }

  lemma SubsRead(ms: seq<Member>, k: Keyword)
    ensures SchemaRead(ms, Spell(k), SchemaAt(JObj(ms), k)) && ListRead(ms, Spell(k), ListAt(JObj(ms), k))
  {
    hide Look, Spell, Parse, ParseAll, FirstMember, NoMember;
    LookIs(ms, k);
    var r := Look(JObj(ms), k);
    if r.Some? {
      ObjectsParse(r.value);
      if r.value.JArr? { ParseAllAt(r.value.items); }
    }
  }

  lemma MembersRead(ms: seq<Member>, k: Keyword)
    ensures PropertiesListed(ms, Spell(k), PropertiesAt(JObj(ms), k))
    ensures PatternsListed(ms, Spell(k), PatternsAt(JObj(ms), k))
    ensures DependentsListed(ms, Spell(k), DependentsAt(JObj(ms), k))
  {
    hide Look, Spell, Parse, ParseProperties, ParsePatterns, ParseDependents, Objects, Reversed, CStr, IsCText,
        FirstMember,
      NoMember;
    LookIs(ms, k);
    var r := Look(JObj(ms), k);
    if r.Some? && r.value.JObj? {
      KeptReversed(r.value.members);
      ParsePatternsAt(r.value.members);
      ParseDependentsAt(r.value.members);
      KeysAreText(r.value.members);
    }
  }

  lemma KeysAreText(ms: seq<Member>)
    ensures forall i | 0 <= i < |ms| :: IsCText(CStr(ms[i].key), ms[i].key)
  {
    hide CStr, IsCText;
    forall i | 0 <= i < |ms| ensures IsCText(CStr(ms[i].key), ms[i].key) { CTextIs(CStr(ms[i].key), ms[i].key); }
  }

  lemma NameGives(w: Value)
    ensures GivesText(w, MaybeName(w)) && (w.JStr? ==> IsCText(SchemaParser.NameOf(w), w.s))
  {
    hide CStr, IsCText;
    if w.JStr? { CTextIs(CStr(w.s), w.s); }
  }

  lemma MaybeNamesGive(w: Value)
    ensures GivesMaybeNames(w, MaybeNames(w))
  {
    hide GivesText, MaybeName;
    if w.JArr? {
      forall i | 0 <= i < |w.items| ensures GivesText(w.items[i], MaybeNames(w)[i]) { NameGives(w.items[i]); }
    }
  }

  lemma NamesRead(ms: seq<Member>, k: Keyword)
    ensures NamesListed(ms, Spell(k), NamesIn(Look(JObj(ms), k)))
    ensures RequirementsListed(ms, Spell(k), ParseRequirements(MembersOf(Look(JObj(ms), k))))
  {
    hide Look, Spell, CStr, IsCText, FirstMember, NoMember, MaybeNames, GivesMaybeNames, SchemaParser.NameOf;
    LookIs(ms, k);
    var r := Look(JObj(ms), k);
    if r.Some? && r.value.JObj? {
      KeysAreText(r.value.members);
      forall i | 0 <= i < |r.value.members|
        ensures GivesMaybeNames(r.value.members[i].value, MaybeNames(r.value.members[i].value))
      {
        MaybeNamesGive(r.value.members[i].value);
      }
    }
    if r.Some? && r.value.JArr? {
      forall i | 0 <= i < |r.value.items| && r.value.items[i].JStr?
        ensures IsCText(SchemaParser.NameOf(r.value.items[i]), r.value.items[i].s)
      {
        NameGives(r.value.items[i]);
      }
    }
  }

  lemma AdditionalReads(ms: seq<Member>)
    ensures AdditionalRead(ms, "additionalProperties", AdditionalAt(JObj(ms)).0, AdditionalAt(JObj(ms)).1)
  {
    hide Look, Parse, FirstMember, NoMember;
    LookIs(ms, Obj(AdditionalProperties));
  }

  lemma MappingGives(m: Value)
    requires m.JObj?
    ensures GivesMapping(m, ParseMapping(m.members))
  {
    hide CStr, IsCText, GivesText, MaybeName;
    KeysAreText(m.members);
    forall i | 0 <= i < |m.members| ensures GivesText(m.members[i].value, ParseMapping(m.members)[i].ref) {
      NameGives(m.members[i].value);
    }
  }

  lemma DiscriminatorReads(ms: seq<Member>)
    ensures DiscriminatorRead(ms, "discriminator", ParseDiscriminator(Look(JObj(ms), Misc(MiscKey.Discriminator))))
  {
    hide Look, Find, FirstMember, NoMember, ParseMapping, GivesMapping;
    LookIs(ms, Misc(MiscKey.Discriminator));
    var r := Look(JObj(ms), Misc(MiscKey.Discriminator));
    NoMapping();
    if r.Some? && r.value.JObj? {
      var inner := r.value.members;
      forall w ensures FirstMember(inner, "propertyName", w) <==> Find(inner, "propertyName") == Some(w) {
        FindIsFirst(inner, "propertyName", w);
      }
      forall w ensures FirstMember(inner, "mapping", w) <==> Find(inner, "mapping") == Some(w) {
        FindIsFirst(inner, "mapping", w);
      }
      FindIsFirst(inner, "propertyName", JNull);
      FindIsFirst(inner, "mapping", JNull);
      TextGives(Find(inner, "propertyName"));
      var m := Find(inner, "mapping");
      if m.Some? {
        if m.value.JObj? { MappingGives(m.value); } else { NoMappingGiven(m.value); }
      }
    }
  }

  lemma TextGives(r: Option<Value>)
    ensures r.Some? ==> GivesText(r.value, TextOf(r))
    ensures r.None? ==> TextOf(r).None?
  {
    hide CStr, IsCText;
    if r.Some? && r.value.JStr? { CTextIs(CStr(r.value.s), r.value.s); }
  }

  lemma NoMapping()
    ensures ParseMapping([]) == [] && Find([], "propertyName").None? && Find([], "mapping").None?
  {
  }

  lemma NoMappingGiven(m: Value)
    requires !m.JObj?
    ensures GivesMapping(m, [])
  {
  }

  // ----- type names -----

  lemma NamedBits(name: string)
    ensures var b := BitNamed(name);
      && (b & 0x01 != 0 <==> name == "null") && (b & 0x02 != 0 <==> name == "boolean")
      && (b & 0x04 != 0 <==> name == "integer") && (b & 0x08 != 0 <==> name == "number")
      && (b & 0x10 != 0 <==> name == "string") && (b & 0x20 != 0 <==> name == "array")
      && (b & 0x40 != 0 <==> name == "object") && b & 0x80 == 0
  {
  }

  lemma StringTypes(s: string)
    ensures GivesTypes(JStr(s), false, BitNamed(CStr(s)))
  {
    hide CStr, IsCText, BitNamed;
    NamedBits(CStr(s));
    forall n: string ensures IsCText(n, s) <==> n == CStr(s) { CTextIs(n, s); }
  }

  lemma OrBits(a: bv8, b: bv8)
    ensures (a | b) & 0x01 != 0 <==> a & 0x01 != 0 || b & 0x01 != 0
    ensures (a | b) & 0x02 != 0 <==> a & 0x02 != 0 || b & 0x02 != 0
    ensures (a | b) & 0x04 != 0 <==> a & 0x04 != 0 || b & 0x04 != 0
    ensures (a | b) & 0x08 != 0 <==> a & 0x08 != 0 || b & 0x08 != 0
    ensures (a | b) & 0x10 != 0 <==> a & 0x10 != 0 || b & 0x10 != 0
    ensures (a | b) & 0x20 != 0 <==> a & 0x20 != 0 || b & 0x20 != 0
    ensures (a | b) & 0x40 != 0 <==> a & 0x40 != 0 || b & 0x40 != 0
    ensures (a | b) & 0x80 != 0 <==> a & 0x80 != 0 || b & 0x80 != 0
  {
  }

  lemma NamesMore(vs: seq<Value>, n: nat, name: string)
    requires |vs| == n + 1
    ensures NamesType(JArr(vs), name) <==>
      NamesType(JArr(vs[..n]), name) || (vs[n].JStr? && NamesType(vs[n], name))
  {
    hide IsCText;
    if i :| 0 <= i < |vs| && vs[i].JStr? && IsCText(name, vs[i].s) {
      if i < n { assert vs[..n][i] == vs[i]; }
    }
    if i :| 0 <= i < n && vs[..n][i].JStr? && IsCText(name, vs[..n][i].s) {
      assert vs[i] == vs[..n][i];
    }
  }

  lemma MaskMore(vs: seq<Value>, n: nat)
    requires |vs| == n + 1
    ensures MaskOfAll(vs) == MaskOfAll(vs[..n]) | if vs[n].JStr? then BitNamed(CStr(vs[n].s)) else 0
    ensures MaskOfAll([]) == 0
  {
    hide BitNamed, CStr;
  }

  lemma {:induction false} ListTypes(vs: seq<Value>)
    ensures GivesTypes(JArr(vs), false, MaskOfAll(vs))
    decreases |vs|
  {
    hide MaskOfAll, BitNamed, CStr, IsCText, NamesType;
    if vs == [] {
      NoTypes();
    } else {
      var n := |vs| - 1;
      ListTypes(vs[..n]);
      forall name: string
        ensures NamesType(JArr(vs), name) <==>
          NamesType(JArr(vs[..n]), name) || (vs[n].JStr? && NamesType(vs[n], name))
      {
        NamesMore(vs, n, name);
      }
      MaskMore(vs, n);
      if vs[n].JStr? { StringTypes(vs[n].s); }
      OrBits(MaskOfAll(vs[..n]), if vs[n].JStr? then BitNamed(CStr(vs[n].s)) else 0);
    }
  }

  lemma NoTypes()
    ensures GivesTypes(JArr([]), false, MaskOfAll([]))
  {
  }

  lemma TypesGiven(w: Value)
    ensures GivesTypes(w, false, MaskOf(w))
  {
    hide GivesTypes, MaskOfAll, BitNamed, CStr;
    match w
    case JStr(s) => StringTypes(s);
    case JArr(items) => ListTypes(items);
    case _ => NoTypesGiven(w);
  }

  lemma NoTypesGiven(w: Value)
    requires !w.JStr? && !w.JArr?
    ensures GivesTypes(w, false, 0)
  {
  }

  lemma NullableAdds(w: Value, mask: bv8)
    requires GivesTypes(w, false, mask)
    ensures GivesTypes(w, true, mask | 0x01)
  {
    hide NamesType;
    OrBits(mask, 0x01);
  }

  lemma TypesReads(ms: seq<Member>)
    ensures TypesRead(ms, ParseMask(JObj(ms)), FlagOf(Look(JObj(ms), Misc(Nullable))))
  {
    hide Look, FirstMember, NoMember, GivesTypes, MaskOf;
    LookIs(ms, Head(Type));
    var r := Look(JObj(ms), Head(Type));
    if r.Some? {
      TypesGiven(r.value);
      NullableAdds(r.value, MaskOf(r.value));
    }
  }

  // ----- the keywords -----

  ghost predicate HeadRead(ms: seq<Member>, s: Schema) {
    && TextRead(ms, "$ref", s.ref) && s.refResolved.None?
    && TypesRead(ms, s.typeMask, s.nullable) && FlagRead(ms, "nullable", s.nullable)
    && TextRead(ms, "title", s.meta.title) && TextRead(ms, "description", s.meta.description)
    && ValueRead(ms, "default", s.meta.defaultValue) && FlagRead(ms, "deprecated", s.meta.deprecated)
    && ValueRead(ms, "const", s.constValue) && ListValueRead(ms, "enum", s.enumValues)
    && FlagRead(ms, "readOnly", s.readOnly) && FlagRead(ms, "writeOnly", s.writeOnly)
    && DiscriminatorRead(ms, "discriminator", s.disc)
  }

  ghost predicate ScalarRead(ms: seq<Member>, r: StringRules, n: NumberRules) {
    && CountRead(ms, "minLength", r.minLength) && CountRead(ms, "maxLength", r.maxLength)
    && TextRead(ms, "pattern", r.pattern) && TextRead(ms, "format", r.format)
    && RealRead(ms, "minimum", n.minimum) && RealRead(ms, "maximum", n.maximum)
    && RealRead(ms, "exclusiveMinimum", n.exclusiveMinimum) && RealRead(ms, "exclusiveMaximum", n.exclusiveMaximum)
    && RealRead(ms, "multipleOf", n.multipleOf)
  }

  ghost predicate ArrayRead(ms: seq<Member>, r: ArrayRules) {
    && SchemaRead(ms, "items", r.items) && ListRead(ms, "prefixItems", r.prefixItems)
    && CountRead(ms, "minItems", r.minItems) && CountRead(ms, "maxItems", r.maxItems)
    && FlagRead(ms, "uniqueItems", r.uniqueItems) && SchemaRead(ms, "contains", r.contains)
    && CountRead(ms, "minContains", r.minContains) && CountRead(ms, "maxContains", r.maxContains)
  }

  ghost predicate ObjectRead(ms: seq<Member>, r: ObjectRules) {
    && PropertiesListed(ms, "properties", r.properties) && NamesListed(ms, "required", r.required)
    && AdditionalRead(ms, "additionalProperties", r.additional, r.additionalIsBool)
    && CountRead(ms, "minProperties", r.minProperties) && CountRead(ms, "maxProperties", r.maxProperties)
    && SchemaRead(ms, "propertyNames", r.propertyNames)
    && PatternsListed(ms, "patternProperties", r.patternProperties)
    && RequirementsListed(ms, "dependentRequired", r.dependentRequired)
    && DependentsListed(ms, "dependentSchemas", r.dependentSchemas)
  }

  ghost predicate CompositionRead(ms: seq<Member>, c: Composition, d: Conditional) {
    && ListRead(ms, "allOf", c.allOf) && ListRead(ms, "anyOf", c.anyOf) && ListRead(ms, "oneOf", c.oneOf)
    && SchemaRead(ms, "not", c.notSchema)
    && SchemaRead(ms, "if", d.ifSchema) && SchemaRead(ms, "then", d.thenSchema) && SchemaRead(ms, "else", d.elseSchema)
  }

  ghost predicate UnevaluatedRead(ms: seq<Member>, u: Unevaluated) {
    && SchemaRead(ms, "unevaluatedProperties", u.properties) && SchemaRead(ms, "unevaluatedItems", u.items)
    && (u.hasProperties <==> !NoMember(ms, "unevaluatedProperties"))
    && (u.hasItems <==> !NoMember(ms, "unevaluatedItems"))
  }

  lemma HeadReads(ms: seq<Member>, s: Schema)
    requires Parse(JObj(ms)) == Some(s)
    ensures HeadRead(ms, s)
  {
    hide Look, Parse, ParseMask, ParseMeta, ParseText, ParseNumbers, ParseArray, ParseObject, ParseComposition,
      ParseConditional, ParseDiscriminator, ParseUnevaluated, TextOf, FlagOf, ArrayOf, TextRead, FlagRead, ValueRead,
      ListValueRead, TypesRead, DiscriminatorRead;
    ParseIs(JObj(ms));
    MetaReads(ms);
    ScalarsRead(ms, Head(Ref));
    ScalarsRead(ms, Misc(Nullable));
    ScalarsRead(ms, Misc(Const));
    ScalarsRead(ms, Misc(Enum));
    ScalarsRead(ms, Misc(ReadOnly));
    ScalarsRead(ms, Misc(WriteOnly));
    TypesReads(ms);
    DiscriminatorReads(ms);
  }

  lemma MetaReads(ms: seq<Member>)
    ensures var m := ParseMeta(JObj(ms));
      && TextRead(ms, "title", m.title) && TextRead(ms, "description", m.description)
      && ValueRead(ms, "default", m.defaultValue) && FlagRead(ms, "deprecated", m.deprecated)
  {
    hide Look, TextOf, FlagOf, TextRead, FlagRead, ValueRead;
    ScalarsRead(ms, Head(Title));
    ScalarsRead(ms, Head(Description));
    ScalarsRead(ms, Misc(Default));
    ScalarsRead(ms, Misc(Deprecated));
  }

  lemma ScalarReads(ms: seq<Member>)
    ensures ScalarRead(ms, ParseText(JObj(ms)), ParseNumbers(JObj(ms)))
  {
    hide Look, TextOf, CountOf, RealOf, TextRead, CountRead, RealRead;
    ScalarsRead(ms, Text(MinLength));
    ScalarsRead(ms, Text(MaxLength));
    ScalarsRead(ms, Text(Pattern));
    ScalarsRead(ms, Head(Format));
    ScalarsRead(ms, Num(Minimum));
    ScalarsRead(ms, Num(Maximum));
    ScalarsRead(ms, Num(ExclusiveMinimum));
    ScalarsRead(ms, Num(ExclusiveMaximum));
    ScalarsRead(ms, Num(MultipleOf));
  }

  lemma ArrayReads(ms: seq<Member>)
    ensures ArrayRead(ms, ParseArray(JObj(ms)))
  {
    hide Look, CountOf, FlagOf, SchemaAt, ListAt, CountRead, FlagRead, SchemaRead, ListRead;
    SubsRead(ms, Arr(Items));
    SubsRead(ms, Arr(PrefixItems));
    SubsRead(ms, Arr(Contains));
    ScalarsRead(ms, Arr(MinItems));
    ScalarsRead(ms, Arr(MaxItems));
    ScalarsRead(ms, Arr(UniqueItems));
    ScalarsRead(ms, Arr(MinContains));
    ScalarsRead(ms, Arr(MaxContains));
  }

  lemma ObjectReads(ms: seq<Member>)
    ensures ObjectRead(ms, ParseObject(JObj(ms)))
  {
    hide Look, CountOf, SchemaAt, PropertiesAt, PatternsAt, DependentsAt, NamesIn, ParseRequirements, MembersOf,
        AdditionalAt,
      CountRead, SchemaRead, PropertiesListed, PatternsListed, DependentsListed, NamesListed, RequirementsListed,
      AdditionalRead;
    MembersRead(ms, Obj(Properties));
    MembersRead(ms, Obj(PatternProperties));
    MembersRead(ms, Obj(DependentSchemas));
    NamesRead(ms, Obj(Required));
    NamesRead(ms, Obj(ObjectKey.DependentRequired));
    AdditionalReads(ms);
    SubsRead(ms, Obj(PropertyNames));
    ScalarsRead(ms, Obj(MinProperties));
    ScalarsRead(ms, Obj(MaxProperties));
  }

  lemma CompositionReads(ms: seq<Member>)
    ensures CompositionRead(ms, ParseComposition(JObj(ms)), ParseConditional(JObj(ms)))
  {
    hide Look, SchemaAt, ListAt, SchemaRead, ListRead;
    SubsRead(ms, Comp(AllOf));
    SubsRead(ms, Comp(AnyOf));
    SubsRead(ms, Comp(OneOf));
    SubsRead(ms, Comp(Not));
    SubsRead(ms, Cond(If));
    SubsRead(ms, Cond(Then));
    SubsRead(ms, Cond(Else));
  }

  lemma UnevaluatedReads(ms: seq<Member>)
    ensures UnevaluatedRead(ms, ParseUnevaluated(JObj(ms)))
  {
    hide Look, SchemaAt, SchemaRead, NoMember, FirstMember;
    SubsRead(ms, Misc(UnevaluatedProperties));
    SubsRead(ms, Misc(UnevaluatedItems));
    LookIs(ms, Misc(UnevaluatedProperties));
    LookIs(ms, Misc(UnevaluatedItems));
  }

  /** Every field of the schema read from an object is what the keyword of that name gives. */
  lemma KeywordsRead(ms: seq<Member>)
    ensures Parse(JObj(ms)).Some?
    ensures var s := Parse(JObj(ms)).value;
      && HeadRead(ms, s) && ScalarRead(ms, s.str, s.num) && ArrayRead(ms, s.arr) && ObjectRead(ms, s.obj)
      && CompositionRead(ms, s.comp, s.cond) && UnevaluatedRead(ms, s.uneval)
  {
    hide *;
    ParseIs(JObj(ms));
    HeadReads(ms, Parse(JObj(ms)).value);
    ScalarReads(ms);
    ArrayReads(ms);
    ObjectReads(ms);
    CompositionReads(ms);
    UnevaluatedReads(ms);
  }

  /** The document {"minimum": i}. */
  lemma IntegerMinimum(i: int)
    requires -9223372036854775808 <= i <= 9223372036854775807
    ensures var s := Parse(JObj([Member("minimum", JInt(i))])); s.Some? && s.value.num.minimum == Some(i as real)
  {
    hide Parse, HeadRead, ArrayRead, ObjectRead, CompositionRead, UnevaluatedRead, NoMember;
    var ms := [Member("minimum", JInt(i))];
    KeywordsRead(ms);
    assert ms[0] == Member("minimum", JInt(i)) && FirstMember(ms, "minimum", JInt(i));
  }
}
