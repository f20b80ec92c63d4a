/** The keywords of a schema object, in groups as the parser reads them. */
module Keywords {
  import opened Json

  datatype Keyword =
    | Head(head: HeadKey)
    | Text(text: TextKey)
    | Num(num: NumberKey)
    | Arr(arr: ArrayKey)
    | Obj(obj: ObjectKey)
    | Comp(comp: CompositionKey)
    | Cond(cond: ConditionalKey)
    | Misc(misc: MiscKey)

  datatype HeadKey =
    Ref | Type | Title | Description | Format

  datatype TextKey =
    MinLength | MaxLength | Pattern

  datatype NumberKey =
    Minimum | Maximum | ExclusiveMinimum | ExclusiveMaximum | MultipleOf

  datatype ArrayKey =
    Items | PrefixItems | MinItems | MaxItems | UniqueItems | Contains | MinContains | MaxContains

  datatype ObjectKey =
    Properties | Required | AdditionalProperties | MinProperties | MaxProperties | PropertyNames |
    PatternProperties | DependentRequired | DependentSchemas

  datatype CompositionKey =
    AllOf | AnyOf | OneOf | Not

  datatype ConditionalKey =
    If | Then | Else

  datatype MiscKey =
    Enum | Const | Default | Nullable | ReadOnly | WriteOnly | Deprecated | Discriminator |
    UnevaluatedProperties | UnevaluatedItems

  function SpellHead(k: HeadKey): (s: string)
    ensures |s| >= 2
  {
    match k
    case Ref => "$ref"
    case Type => "type"
    case Title => "title"
    case Description => "description"
    case Format => "format"
  }

  function SpellText(k: TextKey): (s: string)
    ensures |s| >= 2
  {
    match k
    case MinLength => "minLength"
    case MaxLength => "maxLength"
    case Pattern => "pattern"
  }

  function SpellNum(k: NumberKey): (s: string)
    ensures |s| >= 2
  {
    match k
    case Minimum => "minimum"
    case Maximum => "maximum"
    case ExclusiveMinimum => "exclusiveMinimum"
    case ExclusiveMaximum => "exclusiveMaximum"
    case MultipleOf => "multipleOf"
  }

  function SpellArr(k: ArrayKey): (s: string)
    ensures |s| >= 2
  {
    match k
    case Items => "items"
    case PrefixItems => "prefixItems"
    case MinItems => "minItems"
    case MaxItems => "maxItems"
    case UniqueItems => "uniqueItems"
    case Contains => "contains"
    case MinContains => "minContains"
    case MaxContains => "maxContains"
  }

  function SpellObj(k: ObjectKey): (s: string)
    ensures |s| >= 2
  {
    match k
    case Properties => "properties"
    case Required => "required"
    case AdditionalProperties => "additionalProperties"
    case MinProperties => "minProperties"
    case MaxProperties => "maxProperties"
    case PropertyNames => "propertyNames"
    case PatternProperties => "patternProperties"
    case DependentRequired => "dependentRequired"
    case DependentSchemas => "dependentSchemas"
  }

  function SpellComp(k: CompositionKey): (s: string)
    ensures |s| >= 2
  {
    match k
    case AllOf => "allOf"
    case AnyOf => "anyOf"
    case OneOf => "oneOf"
    case Not => "not"
  }

  function SpellCond(k: ConditionalKey): (s: string)
    ensures |s| >= 2
  {
    match k
    case If => "if"
    case Then => "then"
    case Else => "else"
  }

  function SpellMisc(k: MiscKey): (s: string)
    ensures |s| >= 2
  {
    match k
    case Enum => "enum"
    case Const => "const"
    case Default => "default"
    case Nullable => "nullable"
    case ReadOnly => "readOnly"
    case WriteOnly => "writeOnly"
    case Deprecated => "deprecated"
    case Discriminator => "discriminator"
    case UnevaluatedProperties => "unevaluatedProperties"
    case UnevaluatedItems => "unevaluatedItems"
  }

  function Spell(k: Keyword): (s: string)
    ensures |s| >= 2
  {
    match k
    case Head(x) => SpellHead(x)
    case Text(x) => SpellText(x)
    case Num(x) => SpellNum(x)
    case Arr(x) => SpellArr(x)
    case Obj(x) => SpellObj(x)
    case Comp(x) => SpellComp(x)
    case Cond(x) => SpellCond(x)
    case Misc(x) => SpellMisc(x)
  }

  /** The length and two of the characters tell all the keywords apart. */
  function Code(s: string): int
    requires |s| >= 2
  {
    var i := if |s| > 2 then 2 else 1;
    var j := if |s| / 2 + 2 < |s| then |s| / 2 + 2 else |s| - 1;
    |s| * 0x1_0000 + s[i] as int * 0x100 + s[j] as int
  }

  /** The keyword of a code. */
  function Back(n: int): Keyword {
    if n == 288102 then Head(Ref) else
    if n == 290917 then Head(Type) else
    if n == 357477 then Head(Title) else
    if n == 750452 then Head(Description) else
    if n == 422516 then Head(Format) else
    if n == 618087 then Text(MinLength) else
    if n == 620647 then Text(MaxLength) else
    if n == 488562 then Text(Pattern) else
    if n == 487029 then Num(Minimum) else
    if n == 489589 then Num(Maximum) else
    if n == 1074025 then Num(ExclusiveMinimum) else
    if n == 1074017 then Num(ExclusiveMaximum) else
    if n == 683109 then Num(MultipleOf) else
    if n == 353651 then Arr(Items) else
    if n == 746868 then Arr(PrefixItems) else
    if n == 552557 then Arr(MinItems) else
    if n == 555117 then Arr(MaxItems) else
    if n == 747892 then Arr(UniqueItems) else
    if n == 552558 then Arr(Contains) else
    if n == 749153 then Arr(MinContains) else
    if n == 751713 then Arr(MaxContains) else
    if n == 683881 then Obj(Properties) else
    if n == 553317 then Obj(Required) else
    if n == 1336431 then Obj(AdditionalProperties) else
    if n == 880242 then Obj(MinProperties) else
    if n == 882802 then Obj(MaxProperties) else
    if n == 880462 then Obj(PropertyNames) else
    if n == 1143920 then Obj(PatternProperties) else
    if n == 1142885 then Obj(DependentRequired) else
    if n == 1077347 then Obj(DependentSchemas) else
    if n == 355430 then Comp(AllOf) else
    if n == 358758 then Comp(AnyOf) else
    if n == 353638 then Comp(OneOf) else
    if n == 226420 then Comp(Not) else
    if n == 157286 then Cond(If) else
    if n == 288110 then Cond(Then) else
    if n == 291685 then Cond(Else) else
    if n == 292205 then Misc(Enum) else
    if n == 355956 then Misc(Const) else
    if n == 484972 then Misc(Default) else
    if n == 552044 then Misc(Nullable) else
    if n == 549228 then Misc(ReadOnly) else
    if n == 616814 then Misc(WriteOnly) else
    if n == 684148 then Misc(Deprecated) else
    if n == 881518 then Misc(Discriminator) else
    if n == 1402226 then Misc(UnevaluatedProperties) else
    Misc(UnevaluatedItems)
  }

  lemma HeadBack(k: HeadKey)
    ensures Back(Code(SpellHead(k))) == Head(k)
  {
  }

  lemma TextBack(k: TextKey)
    ensures Back(Code(SpellText(k))) == Text(k)
  {
  }

  lemma NumBack(k: NumberKey)
    ensures Back(Code(SpellNum(k))) == Num(k)
  {
  }

  lemma ArrBack(k: ArrayKey)
    ensures Back(Code(SpellArr(k))) == Arr(k)
  {
  }

  predicate NamesMembers(k: ObjectKey) {
    k.Properties? || k.Required? || k.AdditionalProperties? || k.PropertyNames? || k.PatternProperties?
  }

  lemma ObjBack(k: ObjectKey)
    ensures Back(Code(SpellObj(k))) == Obj(k)
  {
    hide Back, Code, SpellObj;
    if NamesMembers(k) { MembersBack(k); } else { OtherBack(k); }
  }

  lemma MembersBack(k: ObjectKey)
    requires NamesMembers(k)
    ensures Back(Code(SpellObj(k))) == Obj(k)
  {
  }

  lemma OtherBack(k: ObjectKey)
    requires !NamesMembers(k)
    ensures Back(Code(SpellObj(k))) == Obj(k)
  {
  }

  lemma CompBack(k: CompositionKey)
    ensures Back(Code(SpellComp(k))) == Comp(k)
  {
  }

  lemma CondBack(k: ConditionalKey)
    ensures Back(Code(SpellCond(k))) == Cond(k)
  {
  }

  predicate IsFlag(k: MiscKey) {
    k.Nullable? || k.ReadOnly? || k.WriteOnly? || k.Deprecated? || k.Default?
  }

  lemma MiscBack(k: MiscKey)
    ensures Back(Code(SpellMisc(k))) == Misc(k)
  {
    hide Back, Code, SpellMisc;
    if IsFlag(k) { FlagBack(k); } else { NoFlagBack(k); }
  }

  lemma FlagBack(k: MiscKey)
    requires IsFlag(k)
    ensures Back(Code(SpellMisc(k))) == Misc(k)
  {
  }

  lemma NoFlagBack(k: MiscKey)
    requires !IsFlag(k)
    ensures Back(Code(SpellMisc(k))) == Misc(k)
  {
  }

  lemma SpellInjective(j: Keyword, k: Keyword)
    ensures Spell(j) == Spell(k) <==> j == k
  {
    hide Code, Back;
    SpellBack(j);
    SpellBack(k);
  }

  lemma SpellBack(k: Keyword)
    ensures Back(Code(Spell(k))) == k
  {
    hide Code, Back;
    match k
    case Head(x) => HeadBack(x);
    case Text(x) => TextBack(x);
    case Num(x) => NumBack(x);
    case Arr(x) => ArrBack(x);
    case Obj(x) => ObjBack(x);
    case Comp(x) => CompBack(x);
    case Cond(x) => CondBack(x);
    case Misc(x) => MiscBack(x);
  }

  // ----- the order in which a schema is printed -----

  const HEAD: seq<Keyword> :=
    [Head(Ref), Head(Type), Head(Title), Head(Description), Head(Format)]
  const TEXT: seq<Keyword> :=
    [Text(MinLength), Text(MaxLength), Text(Pattern)]
  const NUM: seq<Keyword> :=
    [Num(Minimum), Num(Maximum), Num(ExclusiveMinimum), Num(ExclusiveMaximum), Num(MultipleOf)]
  const ARR: seq<Keyword> :=
    [Arr(Items), Arr(PrefixItems), Arr(MinItems), Arr(MaxItems), Arr(UniqueItems), Arr(Contains),
     Arr(MinContains), Arr(MaxContains)]
  const OBJ: seq<Keyword> :=
    [Obj(Properties), Obj(Required), Obj(AdditionalProperties), Obj(MinProperties), Obj(MaxProperties),
     Obj(PropertyNames), Obj(PatternProperties), Obj(DependentRequired), Obj(DependentSchemas)]
  const COMP: seq<Keyword> :=
    [Comp(AllOf), Comp(AnyOf), Comp(OneOf), Comp(Not)]
  const COND: seq<Keyword> :=
    [Cond(If), Cond(Then), Cond(Else)]
  const MISC: seq<Keyword> :=
    [Misc(Enum), Misc(Const), Misc(Default), Misc(Nullable), Misc(ReadOnly), Misc(WriteOnly),
     Misc(Deprecated), Misc(Discriminator)]

  function Order(): seq<Keyword> {
    HEAD + TEXT + NUM + ARR + OBJ + COMP + COND + MISC
  }
}
