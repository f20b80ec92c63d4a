/** Printing a schema as a JSON object. */
module Printer {
  import opened Json
  import opened Schemas
  import opened TypeNames
  import opened Keywords

  // ----- what is printed for each keyword -----

  function TextOf(o: Option<string>): Option<Value> {
    if o.Some? then Some(JStr(o.value)) else None
  }

  function CountOf(n: int): Option<Value> {
    if n >= 0 then Some(JInt(n)) else None
  }

  function RealOf(o: Option<real>): Option<Value> {
    if o.Some? then Some(JReal(o.value)) else None
  }

  function FlagOf(b: bool): Option<Value> {
    if b then Some(JBool(true)) else None
  }

  function SchemaOf(o: Option<Schema>): Option<Value>
    decreases o
  {
    if o.Some? then Some(Emit(o.value)) else None
  }

  /** Null entries of a list are skipped. */
  function EmitAll(os: seq<Option<Schema>>): seq<Value>
    decreases os, 0
  {
    if os == [] then []
    else
      var n := |os| - 1;
      EmitAll(os[..n]) + if SchemaOf(os[n]).Some? then [SchemaOf(os[n]).value] else []
  }

  function ListOf(os: seq<Option<Schema>>): Option<Value>
    decreases os, 1
  {
    if os == [] then None else Some(JArr(EmitAll(os)))
  }

  function Strings(names: seq<string>): (vs: seq<Value>)
    ensures |vs| == |names|
    ensures forall i | 0 <= i < |vs| :: vs[i] == JStr(names[i])
  {
    seq(|names|, i requires 0 <= i < |names| => JStr(names[i]))
  }

  function EmitProperties(ps: seq<Property>): seq<Member>
    decreases ps, 0
  {
    if ps == [] then []
    else
      var n := |ps| - 1;
      EmitProperties(ps[..n]) + [Member(ps[n].name, Emit(ps[n].schema))]
  }

  function EmitPatterns(ps: seq<PatternProperty>): seq<Member>
    decreases ps, 0
  {
    if ps == [] then []
    else
      var n := |ps| - 1;
      EmitPatterns(ps[..n]) +
      if SchemaOf(ps[n].schema).Some? then [Member(ps[n].pattern, SchemaOf(ps[n].schema).value)] else []
  }

  /** A null name is no JSON string, and nothing is appended for it. */
  function EmitMaybeNames(names: seq<Option<string>>): seq<Value> {
    if names == [] then []
    else
      var n := |names| - 1;
      EmitMaybeNames(names[..n]) + if names[n].Some? then [JStr(names[n].value)] else []
  }

  function EmitRequirements(ds: seq<DependentRequired>): (ms: seq<Member>)
    ensures |ms| == |ds|
    ensures forall i | 0 <= i < |ms| :: ms[i] == Member(ds[i].property, JArr(EmitMaybeNames(ds[i].required)))
  {
    seq(|ds|, i requires 0 <= i < |ds| => Member(ds[i].property, JArr(EmitMaybeNames(ds[i].required))))
  }

  function EmitDependents(ds: seq<DependentSchema>): seq<Member>
    decreases ds, 0
  {
    if ds == [] then []
    else
      var n := |ds| - 1;
      EmitDependents(ds[..n]) +
      if SchemaOf(ds[n].schema).Some? then [Member(ds[n].property, SchemaOf(ds[n].schema).value)] else []
  }

  /** No member is added for a null target. */
  function EmitMapping(ms: seq<Mapping>): seq<Member> {
    if ms == [] then []
    else
      var n := |ms| - 1;
      EmitMapping(ms[..n]) + if ms[n].ref.Some? then [Member(ms[n].key, JStr(ms[n].ref.value))] else []
  }

  function DiscriminatorOf(d: Discriminator): Option<Value> {
    if d.property.None? then None
    else Some(JObj([Member("propertyName", JStr(d.property.value))] +
                   if d.mapping == [] then [] else [Member("mapping", JObj(EmitMapping(d.mapping)))]))
  }

  function PropertiesOf(ps: seq<Property>): Option<Value>
    decreases ps, 1
  {
    if ps == [] then None else Some(JObj(EmitProperties(ps)))
  }

  function NamesOf(names: seq<string>): Option<Value>
  {
    if names == [] then None else Some(JArr(Strings(names)))
  }

  function PatternsOf(ps: seq<PatternProperty>): Option<Value>
    decreases ps, 1
  {
    if ps == [] then None else Some(JObj(EmitPatterns(ps)))
  }

  function RequirementsOf(ds: seq<DependentRequired>): Option<Value>
  {
    if ds == [] then None else Some(JObj(EmitRequirements(ds)))
  }

  function DependentsOf(ds: seq<DependentSchema>): Option<Value>
    decreases ds, 1
  {
    if ds == [] then None else Some(JObj(EmitDependents(ds)))
  }

  function HeadField(s: Schema, k: HeadKey): Option<Value> {
    match k
    case Ref => TextOf(s.ref)
    case Type => PrintType(s.typeMask)
    case Title => TextOf(s.meta.title)
    case Description => TextOf(s.meta.description)
    case Format => TextOf(s.str.format)
  }

  function TextField(r: StringRules, k: TextKey): Option<Value> {
    match k
    case MinLength => CountOf(r.minLength)
    case MaxLength => CountOf(r.maxLength)
    case Pattern => TextOf(r.pattern)
  }

  function NumField(r: NumberRules, k: NumberKey): Option<Value> {
    match k
    case Minimum => RealOf(r.minimum)
    case Maximum => RealOf(r.maximum)
    case ExclusiveMinimum => RealOf(r.exclusiveMinimum)
    case ExclusiveMaximum => RealOf(r.exclusiveMaximum)
    case MultipleOf => RealOf(r.multipleOf)
  }

  function ArrField(r: ArrayRules, k: ArrayKey): Option<Value>
    decreases r
  {
    match k
    case Items => SchemaOf(r.items)
    case PrefixItems => ListOf(r.prefixItems)
    case MinItems => CountOf(r.minItems)
    case MaxItems => CountOf(r.maxItems)
    case UniqueItems => FlagOf(r.uniqueItems)
    case Contains => SchemaOf(r.contains)
    case MinContains => CountOf(r.minContains)
    case MaxContains => CountOf(r.maxContains)
  }

  /** The boolean form prints whether a schema is there, although a schema was put there for `false`. */
  function AdditionalOf(r: ObjectRules): Option<Value>
    decreases r, 0
  {
    if r.additionalIsBool then Some(JBool(r.additional.Some?)) else SchemaOf(r.additional)
  }

  function ObjField(r: ObjectRules, k: ObjectKey): Option<Value>
    decreases r, 1
  {
    match k
    case Properties => PropertiesOf(r.properties)
    case Required => NamesOf(r.required)
    case AdditionalProperties => AdditionalOf(r)
    case MinProperties => CountOf(r.minProperties)
    case MaxProperties => CountOf(r.maxProperties)
    case PropertyNames => SchemaOf(r.propertyNames)
    case PatternProperties => PatternsOf(r.patternProperties)
    case DependentRequired => RequirementsOf(r.dependentRequired)
    case DependentSchemas => DependentsOf(r.dependentSchemas)
  }

  function CompField(c: Composition, k: CompositionKey): Option<Value>
    decreases c
  {
    match k
    case AllOf => ListOf(c.allOf)
    case AnyOf => ListOf(c.anyOf)
    case OneOf => ListOf(c.oneOf)
    case Not => SchemaOf(c.notSchema)
  }

  function CondField(c: Conditional, k: ConditionalKey): Option<Value>
    decreases c
  {
    match k
    case If => SchemaOf(c.ifSchema)
    case Then => SchemaOf(c.thenSchema)
    case Else => SchemaOf(c.elseSchema)
  }

  function MiscField(s: Schema, k: MiscKey): Option<Value> {
    match k
    case Enum => s.enumValues
    case Const => s.constValue
    case Default => s.meta.defaultValue
    case Nullable => FlagOf(s.nullable)
    case ReadOnly => FlagOf(s.readOnly)
    case WriteOnly => FlagOf(s.writeOnly)
    case Deprecated => FlagOf(s.meta.deprecated)
    case Discriminator => DiscriminatorOf(s.disc)
    case UnevaluatedProperties => None
    case UnevaluatedItems => None
  }

  function Field(s: Schema, k: Keyword): Option<Value>
    decreases s, 0
  {
    match k
    case Head(h) => HeadField(s, h)
    case Text(t) => TextField(s.str, t)
    case Num(n) => NumField(s.num, n)
    case Arr(a) => ArrField(s.arr, a)
    case Obj(o) => ObjField(s.obj, o)
    case Comp(c) => CompField(s.comp, c)
    case Cond(c) => CondField(s.cond, c)
    case Misc(m) => MiscField(s, m)
  }

  /** The members for some keywords, in that order. */
  function Collect(s: Schema, ks: seq<Keyword>): seq<Member>
    decreases s, 1, |ks|
  {
    if ks == [] then []
    else
      var n := |ks| - 1;
      Collect(s, ks[..n]) + if Field(s, ks[n]).Some? then [Member(Spell(ks[n]), Field(s, ks[n]).value)] else []
  }

  function Emit(s: Schema): Value
    decreases s, 2
  {
    JObj(Collect(s, Order()))
  }

  // ----- looking members up again -----

  function One(k: Keyword, v: Option<Value>): seq<Member> {
    if v.Some? then [Member(Spell(k), v.value)] else []
  }

  lemma {:induction false} FindAppend(a: seq<Member>, b: seq<Member>, key: string)
    ensures Find(a + b, key) == if Find(a, key).Some? then Find(a, key) else Find(b, key)
  {
    if a == [] {
      assert a + b == b;
    } else {
      assert (a + b)[1..] == a[1..] + b;
      FindAppend(a[1..], b, key);
    }
  }

  lemma FindOne(j: Keyword, k: Keyword, v: Option<Value>)
    ensures Find(One(j, v), Spell(k)) == if j == k then v else None
  {
    SpellInjective(j, k);
  }

  /** Each keyword of a printed object leads to its own value. */
  lemma {:induction false} FindField(s: Schema, ks: seq<Keyword>, k: Keyword)
    ensures Find(Collect(s, ks), Spell(k)) == if k in ks then Field(s, k) else None
    decreases |ks|
  {
    hide Find, Spell, One, Field;
    if ks != [] {
      var n := |ks| - 1;
      FindField(s, ks[..n], k);
      CollectNext(s, ks, n);
      assert ks == ks[..n] + [ks[n]];
      FindAppend(Collect(s, ks[..n]), One(ks[n], Field(s, ks[n])), Spell(k));
      FindOne(ks[n], k, Field(s, ks[n]));
    } else {
      FindNothing(Spell(k));
    }
  }

  lemma FindNothing(key: string)
    ensures Find([], key) == None
  {
  }

  lemma CollectNext(s: Schema, ks: seq<Keyword>, i: nat)
    requires i < |ks|
    ensures Collect(s, ks[..i + 1]) == Collect(s, ks[..i]) + One(ks[i], Field(s, ks[i]))
    ensures ks[..|ks|] == ks
  {
    hide Field, Spell;
    assert ks[..i + 1][..i] == ks[..i];
  }

  lemma {:induction false} CollectAppend(s: Schema, a: seq<Keyword>, b: seq<Keyword>)
    ensures Collect(s, a + b) == Collect(s, a) + Collect(s, b)
    decreases |b|
  {
    hide Field, Spell;
    if b == [] {
      assert a + b == a;
    } else {
      var n := |b| - 1;
      CollectAppend(s, a, b[..n]);
      assert (a + b)[..|a| + n] == a + b[..n] && (a + b)[|a| + n] == b[n];
    }
  }

  /** Looking a keyword up in what was printed finds what was printed for it. */
  lemma FindPrinted(s: Schema, k: Keyword)
    ensures Find(Emit(s).members, Spell(k)) == Field(s, k)
  {
    hide Find, Spell;
    FindField(s, Order(), k);
  }

  // ----- the printer -----

  /** One more keyword printed behind `ms`. */
  lemma Grow(s: Schema, ms: seq<Member>, ks: seq<Keyword>, i: nat, out: seq<Member>)
    requires i < |ks| && out == ms + Collect(s, ks[..i])
    ensures out + One(ks[i], Field(s, ks[i])) == ms + Collect(s, ks[..i + 1])
  {
    CollectNext(s, ks, i);
  }

  lemma Whole(s: Schema, ks: seq<Keyword>)
    ensures ks[..0] == [] && ks[..|ks|] == ks && Collect(s, []) == []
  {
  }

  method AddText(ms: seq<Member>, k: Keyword, o: Option<string>) returns (out: seq<Member>)
    ensures out == ms + One(k, TextOf(o))
  {
    out := ms;
    if o.Some? {
      out := out + [Member(Spell(k), JStr(o.value))];
    }
  }

  method AddCount(ms: seq<Member>, k: Keyword, n: int) returns (out: seq<Member>)
    ensures out == ms + One(k, CountOf(n))
  {
    out := ms;
    if n >= 0 {
      out := out + [Member(Spell(k), JInt(n))];
    }
  }

  method AddReal(ms: seq<Member>, k: Keyword, o: Option<real>) returns (out: seq<Member>)
    ensures out == ms + One(k, RealOf(o))
  {
    out := ms;
    if o.Some? {
      out := out + [Member(Spell(k), JReal(o.value))];
    }
  }

  method AddFlag(ms: seq<Member>, k: Keyword, b: bool) returns (out: seq<Member>)
    ensures out == ms + One(k, FlagOf(b))
  {
    out := ms;
    if b {
      out := out + [Member(Spell(k), JBool(true))];
    }
  }

  method AddValue(ms: seq<Member>, k: Keyword, v: Option<Value>) returns (out: seq<Member>)
    ensures out == ms + One(k, v)
  {
    out := ms;
    if v.Some? {
      out := out + [Member(Spell(k), v.value)];
    }
  }

  method EmitHead(s: Schema, ms: seq<Member>) returns (out: seq<Member>)
    ensures out == ms + Collect(s, HEAD)
  {
    hide *;
    Whole(s, HEAD);
    HeadFields(s);
    out := ms;
    Grow(s, ms, HEAD, 0, out);
    out := AddText(out, Head(Ref), s.ref);
    Grow(s, ms, HEAD, 1, out);
    if s.typeMask != 0 {
      var t := EmitType(s.typeMask);
      out := AddValue(out, Head(Type), t);
    }
    Grow(s, ms, HEAD, 2, out);
    out := AddText(out, Head(Title), s.meta.title);
    Grow(s, ms, HEAD, 3, out);
    out := AddText(out, Head(Description), s.meta.description);
    Grow(s, ms, HEAD, 4, out);
    out := AddText(out, Head(Format), s.str.format);
  }

  lemma HeadFields(s: Schema)
    ensures Field(s, Head(Ref)) == TextOf(s.ref) && Field(s, Head(Type)) == PrintType(s.typeMask)
    ensures s.typeMask == 0 ==> One(Head(Type), PrintType(s.typeMask)) == []
    ensures Field(s, Head(Title)) == TextOf(s.meta.title)
    ensures Field(s, Head(Description)) == TextOf(s.meta.description)
    ensures Field(s, Head(Format)) == TextOf(s.str.format)
    ensures HEAD == [Head(Ref), Head(Type), Head(Title), Head(Description), Head(Format)]
  {
  }

  lemma TextFields(s: Schema)
    ensures Field(s, Text(MinLength)) == CountOf(s.str.minLength)
    ensures Field(s, Text(MaxLength)) == CountOf(s.str.maxLength)
    ensures Field(s, Text(Pattern)) == TextOf(s.str.pattern)
    ensures TEXT == [Text(MinLength), Text(MaxLength), Text(Pattern)]
  {
  }

  method EmitText(s: Schema, ms: seq<Member>) returns (out: seq<Member>)
    ensures out == ms + Collect(s, TEXT)
  {
    hide *;
    Whole(s, TEXT);
    TextFields(s);
    out := ms;
    Grow(s, ms, TEXT, 0, out);
    out := AddCount(out, Text(MinLength), s.str.minLength);
    Grow(s, ms, TEXT, 1, out);
    out := AddCount(out, Text(MaxLength), s.str.maxLength);
    Grow(s, ms, TEXT, 2, out);
    out := AddText(out, Text(Pattern), s.str.pattern);
  }

  lemma NumFields(s: Schema)
    ensures Field(s, Num(Minimum)) == RealOf(s.num.minimum)
    ensures Field(s, Num(Maximum)) == RealOf(s.num.maximum)
    ensures Field(s, Num(ExclusiveMinimum)) == RealOf(s.num.exclusiveMinimum)
    ensures Field(s, Num(ExclusiveMaximum)) == RealOf(s.num.exclusiveMaximum)
    ensures Field(s, Num(MultipleOf)) == RealOf(s.num.multipleOf)
    ensures NUM == [Num(Minimum), Num(Maximum), Num(ExclusiveMinimum), Num(ExclusiveMaximum), Num(MultipleOf)]
  {
  }

  method EmitNum(s: Schema, ms: seq<Member>) returns (out: seq<Member>)
    ensures out == ms + Collect(s, NUM)
  {
    hide *;
    Whole(s, NUM);
    NumFields(s);
    out := ms;
    Grow(s, ms, NUM, 0, out);
    out := AddReal(out, Num(Minimum), s.num.minimum);
    Grow(s, ms, NUM, 1, out);
    out := AddReal(out, Num(Maximum), s.num.maximum);
    Grow(s, ms, NUM, 2, out);
    out := AddReal(out, Num(ExclusiveMinimum), s.num.exclusiveMinimum);
    Grow(s, ms, NUM, 3, out);
    out := AddReal(out, Num(ExclusiveMaximum), s.num.exclusiveMaximum);
    Grow(s, ms, NUM, 4, out);
    out := AddReal(out, Num(MultipleOf), s.num.multipleOf);
  }

  lemma ArrFields(s: Schema)
    ensures Field(s, Arr(Items)) == SchemaOf(s.arr.items)
    ensures Field(s, Arr(PrefixItems)) == ListOf(s.arr.prefixItems)
    ensures Field(s, Arr(MinItems)) == CountOf(s.arr.minItems)
    ensures Field(s, Arr(MaxItems)) == CountOf(s.arr.maxItems)
    ensures Field(s, Arr(UniqueItems)) == FlagOf(s.arr.uniqueItems)
    ensures Field(s, Arr(Contains)) == SchemaOf(s.arr.contains)
    ensures Field(s, Arr(MinContains)) == CountOf(s.arr.minContains)
    ensures Field(s, Arr(MaxContains)) == CountOf(s.arr.maxContains)
    ensures ARR == [Arr(Items), Arr(PrefixItems), Arr(MinItems), Arr(MaxItems), Arr(UniqueItems), Arr(Contains),
      Arr(MinContains), Arr(MaxContains)]
  {
  }

  method EmitArr(s: Schema, ms: seq<Member>) returns (out: seq<Member>)
    ensures out == ms + Collect(s, ARR)
    decreases s, 0
  {
    hide *;
    Whole(s, ARR);
    ArrFields(s);
    out := ms;
    Grow(s, ms, ARR, 0, out);
    var items := EmitSub(s.arr.items);
    out := AddValue(out, Arr(Items), items);
    Grow(s, ms, ARR, 1, out);
    var prefixItems := EmitList(s.arr.prefixItems);
    out := AddValue(out, Arr(PrefixItems), prefixItems);
    Grow(s, ms, ARR, 2, out);
    out := AddCount(out, Arr(MinItems), s.arr.minItems);
    Grow(s, ms, ARR, 3, out);
    out := AddCount(out, Arr(MaxItems), s.arr.maxItems);
    Grow(s, ms, ARR, 4, out);
    out := AddFlag(out, Arr(UniqueItems), s.arr.uniqueItems);
    Grow(s, ms, ARR, 5, out);
    var contains := EmitSub(s.arr.contains);
    out := AddValue(out, Arr(Contains), contains);
    Grow(s, ms, ARR, 6, out);
    out := AddCount(out, Arr(MinContains), s.arr.minContains);
    Grow(s, ms, ARR, 7, out);
    out := AddCount(out, Arr(MaxContains), s.arr.maxContains);
  }

  lemma ObjFields(s: Schema)
    ensures Field(s, Obj(Properties)) == PropertiesOf(s.obj.properties)
    ensures Field(s, Obj(Required)) == NamesOf(s.obj.required)
    ensures Field(s, Obj(AdditionalProperties)) == AdditionalOf(s.obj)
    ensures Field(s, Obj(MinProperties)) == CountOf(s.obj.minProperties)
    ensures Field(s, Obj(MaxProperties)) == CountOf(s.obj.maxProperties)
    ensures Field(s, Obj(PropertyNames)) == SchemaOf(s.obj.propertyNames)
    ensures Field(s, Obj(PatternProperties)) == PatternsOf(s.obj.patternProperties)
    ensures Field(s, Obj(ObjectKey.DependentRequired)) == RequirementsOf(s.obj.dependentRequired)
    ensures Field(s, Obj(DependentSchemas)) == DependentsOf(s.obj.dependentSchemas)
    ensures OBJ == [Obj(Properties), Obj(Required), Obj(AdditionalProperties), Obj(MinProperties), Obj(MaxProperties),
      Obj(PropertyNames), Obj(PatternProperties), Obj(ObjectKey.DependentRequired), Obj(DependentSchemas)]
  {
  }

  method EmitMembers(s: Schema, ms: seq<Member>) returns (out: seq<Member>)
    ensures out == ms + Collect(s, OBJ[..5])
    decreases s, 0, 0
  {
    hide *;
    Whole(s, OBJ);
    ObjFields(s);
    out := ms;
    Grow(s, ms, OBJ, 0, out);
    var properties := EmitPropertyList(s.obj.properties);
    out := AddValue(out, Obj(Properties), properties);
    Grow(s, ms, OBJ, 1, out);
    var required := EmitNameList(s.obj.required);
    out := AddValue(out, Obj(Required), required);
    Grow(s, ms, OBJ, 2, out);
    var additional := EmitAdditional(s.obj);
    out := AddValue(out, Obj(AdditionalProperties), additional);
    Grow(s, ms, OBJ, 3, out);
    out := AddCount(out, Obj(MinProperties), s.obj.minProperties);
    Grow(s, ms, OBJ, 4, out);
    out := AddCount(out, Obj(MaxProperties), s.obj.maxProperties);
  }

  method EmitObj(s: Schema, ms: seq<Member>) returns (out: seq<Member>)
    ensures out == ms + Collect(s, OBJ)
    decreases s, 0, 1
  {
    hide *;
    Whole(s, OBJ);
    ObjFields(s);
    out := EmitMembers(s, ms);
    Grow(s, ms, OBJ, 5, out);
    var propertyNames := EmitSub(s.obj.propertyNames);
    out := AddValue(out, Obj(PropertyNames), propertyNames);
    Grow(s, ms, OBJ, 6, out);
    var patternProperties := EmitPatternList(s.obj.patternProperties);
    out := AddValue(out, Obj(PatternProperties), patternProperties);
    Grow(s, ms, OBJ, 7, out);
    var dependentRequired := EmitRequirementList(s.obj.dependentRequired);
    out := AddValue(out, Obj(ObjectKey.DependentRequired), dependentRequired);
    Grow(s, ms, OBJ, 8, out);
    var dependentSchemas := EmitDependentList(s.obj.dependentSchemas);
    out := AddValue(out, Obj(DependentSchemas), dependentSchemas);
  }

  lemma CompFields(s: Schema)
    ensures Field(s, Comp(AllOf)) == ListOf(s.comp.allOf)
    ensures Field(s, Comp(AnyOf)) == ListOf(s.comp.anyOf)
    ensures Field(s, Comp(OneOf)) == ListOf(s.comp.oneOf)
    ensures Field(s, Comp(Not)) == SchemaOf(s.comp.notSchema)
    ensures COMP == [Comp(AllOf), Comp(AnyOf), Comp(OneOf), Comp(Not)]
  {
  }

  method EmitComp(s: Schema, ms: seq<Member>) returns (out: seq<Member>)
    ensures out == ms + Collect(s, COMP)
    decreases s, 0
  {
    hide *;
    Whole(s, COMP);
    CompFields(s);
    out := ms;
    Grow(s, ms, COMP, 0, out);
    var allOf := EmitList(s.comp.allOf);
    out := AddValue(out, Comp(AllOf), allOf);
    Grow(s, ms, COMP, 1, out);
    var anyOf := EmitList(s.comp.anyOf);
    out := AddValue(out, Comp(AnyOf), anyOf);
    Grow(s, ms, COMP, 2, out);
    var oneOf := EmitList(s.comp.oneOf);
    out := AddValue(out, Comp(OneOf), oneOf);
    Grow(s, ms, COMP, 3, out);
    var notSchema := EmitSub(s.comp.notSchema);
    out := AddValue(out, Comp(Not), notSchema);
  }

  lemma CondFields(s: Schema)
    ensures Field(s, Cond(If)) == SchemaOf(s.cond.ifSchema)
    ensures Field(s, Cond(Then)) == SchemaOf(s.cond.thenSchema)
    ensures Field(s, Cond(Else)) == SchemaOf(s.cond.elseSchema)
    ensures COND == [Cond(If), Cond(Then), Cond(Else)]
  {
  }

  method EmitCond(s: Schema, ms: seq<Member>) returns (out: seq<Member>)
    ensures out == ms + Collect(s, COND)
    decreases s, 0
  {
    hide *;
    Whole(s, COND);
    CondFields(s);
    out := ms;
    Grow(s, ms, COND, 0, out);
    var ifSchema := EmitSub(s.cond.ifSchema);
    out := AddValue(out, Cond(If), ifSchema);
    Grow(s, ms, COND, 1, out);
    var thenSchema := EmitSub(s.cond.thenSchema);
    out := AddValue(out, Cond(Then), thenSchema);
    Grow(s, ms, COND, 2, out);
    var elseSchema := EmitSub(s.cond.elseSchema);
    out := AddValue(out, Cond(Else), elseSchema);
  }

  lemma MiscFields(s: Schema)
    ensures Field(s, Misc(Enum)) == s.enumValues
    ensures Field(s, Misc(Const)) == s.constValue
    ensures Field(s, Misc(Default)) == s.meta.defaultValue
    ensures Field(s, Misc(Nullable)) == FlagOf(s.nullable)
    ensures Field(s, Misc(ReadOnly)) == FlagOf(s.readOnly)
    ensures Field(s, Misc(WriteOnly)) == FlagOf(s.writeOnly)
    ensures Field(s, Misc(Deprecated)) == FlagOf(s.meta.deprecated)
    ensures Field(s, Misc(MiscKey.Discriminator)) == DiscriminatorOf(s.disc)
    ensures MISC == [Misc(Enum), Misc(Const), Misc(Default), Misc(Nullable), Misc(ReadOnly), Misc(WriteOnly),
      Misc(Deprecated), Misc(MiscKey.Discriminator)]
  {
  }

  method EmitMisc(s: Schema, ms: seq<Member>) returns (out: seq<Member>)
    ensures out == ms + Collect(s, MISC)
  {
    hide *;
    Whole(s, MISC);
    MiscFields(s);
    out := ms;
    Grow(s, ms, MISC, 0, out);
    out := AddValue(out, Misc(Enum), s.enumValues);
    Grow(s, ms, MISC, 1, out);
    out := AddValue(out, Misc(Const), s.constValue);
    Grow(s, ms, MISC, 2, out);
    out := AddValue(out, Misc(Default), s.meta.defaultValue);
    Grow(s, ms, MISC, 3, out);
    out := AddFlag(out, Misc(Nullable), s.nullable);
    Grow(s, ms, MISC, 4, out);
    out := AddFlag(out, Misc(ReadOnly), s.readOnly);
    Grow(s, ms, MISC, 5, out);
    out := AddFlag(out, Misc(WriteOnly), s.writeOnly);
    Grow(s, ms, MISC, 6, out);
    out := AddFlag(out, Misc(Deprecated), s.meta.deprecated);
    Grow(s, ms, MISC, 7, out);
    var disc := EmitDiscriminator(s.disc);
    out := AddValue(out, Misc(MiscKey.Discriminator), disc);
  }

  method EmitSub(o: Option<Schema>) returns (r: Option<Value>)
    ensures r == SchemaOf(o)
    decreases o
  {
    if o.None? {
      return None;
    }
    var v := EmitSchema(o.value);
    r := Some(v);
  }

  method EmitList(os: seq<Option<Schema>>) returns (r: Option<Value>)
    ensures r == ListOf(os)
    decreases os
  {
    if |os| == 0 {
      return None;
    }
    var vs := [];
    for i := 0 to |os|
      invariant vs == EmitAll(os[..i])
    {
      assert os[..i + 1][..i] == os[..i];
      var v := EmitSub(os[i]);
      if v.Some? {
        vs := vs + [v.value];
      }
    }
    assert os[..|os|] == os;
    r := Some(JArr(vs));
  }

  method EmitAdditional(r: ObjectRules) returns (v: Option<Value>)
    ensures v == AdditionalOf(r)
    decreases r
  {
    if r.additionalIsBool {
      v := Some(JBool(r.additional.Some?));
    } else {
      v := EmitSub(r.additional);
    }
  }

  method EmitPropertyList(ps: seq<Property>) returns (r: Option<Value>)
    ensures r == PropertiesOf(ps)
    decreases ps
  {
    if |ps| == 0 {
      return None;
    }
    var ms := [];
    for i := 0 to |ps|
      invariant ms == EmitProperties(ps[..i])
    {
      assert ps[..i + 1][..i] == ps[..i];
      var v := EmitSchema(ps[i].schema);
      ms := ms + [Member(ps[i].name, v)];
    }
    assert ps[..|ps|] == ps;
    r := Some(JObj(ms));
  }

  method EmitPatternList(ps: seq<PatternProperty>) returns (r: Option<Value>)
    ensures r == PatternsOf(ps)
    decreases ps
  {
    if |ps| == 0 {
      return None;
    }
    var ms := [];
    for i := 0 to |ps|
      invariant ms == EmitPatterns(ps[..i])
    {
      assert ps[..i + 1][..i] == ps[..i];
      var v := EmitSub(ps[i].schema);
      if v.Some? {
        ms := ms + [Member(ps[i].pattern, v.value)];
      }
    }
    assert ps[..|ps|] == ps;
    r := Some(JObj(ms));
  }

  method EmitDependentList(ds: seq<DependentSchema>) returns (r: Option<Value>)
    ensures r == DependentsOf(ds)
    decreases ds
  {
    if |ds| == 0 {
      return None;
    }
    var ms := [];
    for i := 0 to |ds|
      invariant ms == EmitDependents(ds[..i])
    {
      assert ds[..i + 1][..i] == ds[..i];
      var v := EmitSub(ds[i].schema);
      if v.Some? {
        ms := ms + [Member(ds[i].property, v.value)];
      }
    }
    assert ds[..|ds|] == ds;
    r := Some(JObj(ms));
  }

  method EmitNameList(names: seq<string>) returns (r: Option<Value>)
    ensures r == NamesOf(names)
  {
    if |names| == 0 {
      return None;
    }
    var v := EmitNames(names);
    r := Some(v);
  }

  method EmitNames(names: seq<string>) returns (r: Value)
    ensures r == JArr(Strings(names))
  {
    var vs := [];
    for i := 0 to |names|
      invariant vs == Strings(names)[..i]
    {
      vs := vs + [JStr(names[i])];
    }
    assert vs == Strings(names);
    r := JArr(vs);
  }

  method EmitMaybeNameArray(names: seq<Option<string>>) returns (r: Value)
    ensures r == JArr(EmitMaybeNames(names))
  {
    var vs := [];
    for i := 0 to |names|
      invariant vs == EmitMaybeNames(names[..i])
    {
      assert names[..i + 1][..i] == names[..i];
      if names[i].Some? {
        vs := vs + [JStr(names[i].value)];
      }
    }
    assert names[..|names|] == names;
    r := JArr(vs);
  }

  method EmitRequirementList(ds: seq<DependentRequired>) returns (r: Option<Value>)
    ensures r == RequirementsOf(ds)
  {
    if |ds| == 0 {
      return None;
    }
    var ms := [];
    for i := 0 to |ds|
      invariant ms == EmitRequirements(ds)[..i]
    {
      var names := EmitMaybeNameArray(ds[i].required);
      ms := ms + [Member(ds[i].property, names)];
    }
    assert ms == EmitRequirements(ds);
    r := Some(JObj(ms));
  }

  method EmitDiscriminator(d: Discriminator) returns (r: Option<Value>)
    ensures r == DiscriminatorOf(d)
  {
    if d.property.None? {
      return None;
    }
    var ms := [Member("propertyName", JStr(d.property.value))];
    assert ms + [] == ms;
    if |d.mapping| > 0 {
      var entries := [];
      for i := 0 to |d.mapping|
        invariant entries == EmitMapping(d.mapping[..i])
      {
        assert d.mapping[..i + 1][..i] == d.mapping[..i];
        if d.mapping[i].ref.Some? {
          entries := entries + [Member(d.mapping[i].key, JStr(d.mapping[i].ref.value))];
        }
      }
      assert d.mapping[..|d.mapping|] == d.mapping;
      ms := ms + [Member("mapping", JObj(entries))];
    }
    r := Some(JObj(ms));
  }

  /** `oas_emit_build_schema`. */
  method EmitSchema(s: Schema) returns (obj: Value)
    ensures obj == Emit(s)
    decreases s, 1
  {
    hide *;
    var ms := EmitHead(s, []);
    ms := EmitText(s, ms);
    ms := EmitNum(s, ms);
    ms := EmitArr(s, ms);
    ms := EmitObj(s, ms);
    ms := EmitComp(s, ms);
    ms := EmitCond(s, ms);
    ms := EmitMisc(s, ms);
    EmitIs(s);
    assert [] + Collect(s, HEAD) == Collect(s, HEAD);
    obj := JObj(ms);
  }

  lemma EmitIs(s: Schema)
    ensures Emit(s) ==
      JObj(Collect(s, HEAD) + Collect(s, TEXT) + Collect(s, NUM) + Collect(s, ARR) + Collect(s, OBJ)
           + Collect(s, COMP) + Collect(s, COND) + Collect(s, MISC))
  {
    hide Collect;
    CollectAppend(s, HEAD, TEXT);
    CollectAppend(s, HEAD + TEXT, NUM);
    CollectAppend(s, HEAD + TEXT + NUM, ARR);
    CollectAppend(s, HEAD + TEXT + NUM + ARR, OBJ);
    CollectAppend(s, HEAD + TEXT + NUM + ARR + OBJ, COMP);
    CollectAppend(s, HEAD + TEXT + NUM + ARR + OBJ + COMP, COND);
    CollectAppend(s, HEAD + TEXT + NUM + ARR + OBJ + COMP + COND, MISC);
    assert Collect(s, Order()) ==
      Collect(s, HEAD) + Collect(s, TEXT) + Collect(s, NUM) + Collect(s, ARR) + Collect(s, OBJ)
      + Collect(s, COMP) + Collect(s, COND) + Collect(s, MISC);
    assert Emit(s) == JObj(Collect(s, Order()));
  }
}
