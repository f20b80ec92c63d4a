/** The "type" keyword: type masks and their names. */
module TypeNames {
  import opened Json
  import opened Schemas

  const KNOWN: bv8 := 0x7F

  function NameOf(t: JsonType): string {
    match t
    case TNull => "null"
    case TBoolean => "boolean"
    case TInteger => "integer"
    case TNumber => "number"
    case TString => "string"
    case TArray => "array"
    case TObject => "object"
  }

  /** The type whose bit this is; the eighth bit names none. */
  function TypeOfBit(bit: bv8): Option<JsonType> {
    if bit == 0x01 then Some(TNull)
    else if bit == 0x02 then Some(TBoolean)
    else if bit == 0x04 then Some(TInteger)
    else if bit == 0x08 then Some(TNumber)
    else if bit == 0x10 then Some(TString)
    else if bit == 0x20 then Some(TArray)
    else if bit == 0x40 then Some(TObject)
    else None
  }

  /** `oas_type_from_string`. */
  function BitNamed(name: string): bv8 {
    if name == "null" then 0x01
    else if name == "boolean" then 0x02
    else if name == "integer" then 0x04
    else if name == "number" then 0x08
    else if name == "string" then 0x10
    else if name == "array" then 0x20
    else if name == "object" then 0x40
    else 0
  }

  lemma NamesBack(t: JsonType)
    ensures BitNamed(NameOf(t)) == TypeBit(t)
    ensures NUL !in NameOf(t)
  {
    var s := NameOf(t);
    assert |s| == |"null"| ==> s[0] == 'n';
    assert "boolean"[0] == 'b' && "integer"[0] == 'i' && "number"[0] == 'n' && "string"[0] == 's'
           && "array"[0] == 'a' && "object"[0] == 'o';
  }

  // ----- printing -----

  function Bit(v: bv8, b: bv8): nat {
    if v & b != 0 then 1 else 0
  }

  /** How many bits are set. */
  function Ones(v: bv8): nat {
    Bit(v, 0x01) + Bit(v, 0x02) + Bit(v, 0x04) + Bit(v, 0x08) +
    Bit(v, 0x10) + Bit(v, 0x20) + Bit(v, 0x40) + Bit(v, 0x80)
  }

  lemma OneBit(v: bv8)
    ensures Ones(v) == 1 <==> v == 0x01 || v == 0x02 || v == 0x04 || v == 0x08 || v == 0x10 || v == 0x20
                              || v == 0x40 || v == 0x80
  {
  }

  lemma ShiftOnes(v: bv8)
    ensures Ones(v) == (v & 1) as nat + Ones(v >> 1)
  {
  }

  /** `popcount8`. */
  method Popcount8(v: bv8) returns (c: nat)
    ensures c == Ones(v)
  {
    c := 0;
    var w := v;
    while w != 0
      invariant c + Ones(w) == Ones(v)
      decreases w
    {
      ShiftOnes(w);
      c := c + (w & 1) as nat;
      w := w >> 1;
    }
  }

  /** The types in the order of their bits. */
  function TypeAt(i: nat): JsonType
    requires i < 7
  {
    if i == 0 then TNull else if i == 1 then TBoolean else if i == 2 then TInteger else if i == 3 then TNumber
    else if i == 4 then TString else if i == 5 then TArray else TObject
  }

  /** The names of those of the first `n` types that are in the mask. */
  function Names(mask: bv8, n: nat): seq<Value>
    requires n <= 7
  {
    if n == 0 then []
    else Names(mask, n - 1) + if TypeIn(TypeAt(n - 1), mask) then [JStr(NameOf(TypeAt(n - 1)))] else []
  }

  /** One name for a single bit, a list for several; nothing when there is no name to print. */
  function PrintType(mask: bv8): Option<Value> {
    if mask == 0 then None
    else if Ones(mask) == 1 then
      if TypeOfBit(mask).Some? then Some(JStr(NameOf(TypeOfBit(mask).value))) else None
    else Some(JArr(Names(mask, 7)))
  }

  /** `emit_type`. */
  method EmitType(mask: bv8) returns (r: Option<Value>)
    ensures r == PrintType(mask)
  {
    if mask == 0 {
      return None;
    }
    var ones := Popcount8(mask);
    if ones == 1 {
      var t := TypeOfBit(mask);
      if t.Some? {
        return Some(JStr(NameOf(t.value)));
      }
      return None;
    }
    var names := EmitNames(mask);
    r := Some(JArr(names));
  }

  /** Its loop, with the bit moving up one place in each turn. */
  method EmitNames(mask: bv8) returns (names: seq<Value>)
    ensures names == Names(mask, 7)
  {
    hide *;
    NoPlace(mask);
    names := [];
    var bit: bv8 := 0x01;
    ghost var i := 0;
    while bit <= 0x40
      invariant i <= 7 && bit == PlaceBit(i) && names == Names(mask, i)
      decreases 7 - i
    {
      PlaceStep(i);
      OnePlace(mask, i + 1);
      PlaceHas(mask, i);
      if mask & bit != 0 {
        var t := TypeOfBit(bit);
        if t.Some? {
          names := names + [JStr(NameOf(t.value))];
        }
      }
      bit := bit << 1;
      i := i + 1;
    }
    PlaceStep(i);
  }

  function PlaceBit(i: nat): bv8
    requires i <= 7
  {
    if i == 7 then 0x80 else TypeBit(TypeAt(i))
  }

  lemma NoPlace(mask: bv8)
    ensures PlaceBit(0) == 0x01 && Names(mask, 0) == []
  {
  }

  lemma PlaceHas(mask: bv8, i: nat)
    requires i < 7
    ensures TypeIn(TypeAt(i), mask) <==> mask & PlaceBit(i) != 0
  {
    hide TypeBit, TypeAt;
  }

  lemma PlaceStep(i: nat)
    requires i <= 7
    ensures PlaceBit(i) <= 0x40 <==> i < 7
    ensures i < 7 ==> TypeOfBit(PlaceBit(i)) == Some(TypeAt(i)) && PlaceBit(i) << 1 == PlaceBit(i + 1)
  {
  }

  // ----- parsing -----

  /** All the bits named in a list. */
  function MaskOfAll(vs: seq<Value>): bv8 {
    if vs == [] then 0
    else
      var last := vs[|vs| - 1];
      MaskOfAll(vs[..|vs| - 1]) | if last.JStr? then BitNamed(CStr(last.s)) else 0
  }

  function MaskOf(v: Value): bv8 {
    if v.JStr? then BitNamed(CStr(v.s)) else if v.JArr? then MaskOfAll(v.items) else 0
  }

  /** `parse_type`. */
  method ParseType(v: Value) returns (mask: bv8)
    ensures mask == MaskOf(v)
  {
    mask := 0;
    if v.JStr? {
      mask := BitNamed(CStr(v.s));
    } else if v.JArr? {
      for i := 0 to |v.items|
        invariant mask == MaskOfAll(v.items[..i])
      {
        assert v.items[..i + 1][..i] == v.items[..i];
        if v.items[i].JStr? {
          mask := mask | BitNamed(CStr(v.items[i].s));
        }
      }
      assert v.items[..|v.items|] == v.items;
    }
  }

  function Low(n: nat): bv8
    requires n <= 7
  {
    if n == 0 then 0 else Low(n - 1) | TypeBit(TypeAt(n - 1))
  }

  lemma JoinBit(mask: bv8, low: bv8, t: JsonType)
    ensures TypeIn(t, mask) ==> (mask & low) | TypeBit(t) == mask & (low | TypeBit(t))
    ensures !TypeIn(t, mask) ==> mask & low == mask & (low | TypeBit(t))
  {
  }

  lemma MaskOfMore(vs: seq<Value>, t: JsonType)
    ensures MaskOfAll(vs + [JStr(NameOf(t))]) == MaskOfAll(vs) | TypeBit(t)
  {
    hide NameOf, BitNamed, TypeBit;
    NamesBack(t);
    CStrOfClean(NameOf(t));
    assert (vs + [JStr(NameOf(t))])[..|vs|] == vs;
  }

  /** The names of the first `n` types in the mask give back its first `n` bits. */
  predicate GivesBack(mask: bv8, n: nat)
    requires n <= 7
  {
    MaskOfAll(Names(mask, n)) == mask & Low(n)
  }

  lemma OnePlace(mask: bv8, n: nat)
    requires 0 < n <= 7
    ensures Low(n) == Low(n - 1) | TypeBit(TypeAt(n - 1))
    ensures TypeIn(TypeAt(n - 1), mask) ==> Names(mask, n) == Names(mask, n - 1) + [JStr(NameOf(TypeAt(n - 1)))]
    ensures !TypeIn(TypeAt(n - 1), mask) ==> Names(mask, n) == Names(mask, n - 1)
  {
    hide TypeBit, TypeIn, NameOf, TypeAt;
  }

  lemma BitThere(mask: bv8, n: nat)
    requires 0 < n <= 7 && TypeIn(TypeAt(n - 1), mask) && GivesBack(mask, n - 1)
    ensures GivesBack(mask, n)
  {
    hide Names, Low, TypeBit, TypeAt, TypeIn, NameOf, MaskOfAll;
    OnePlace(mask, n);
    MaskOfMore(Names(mask, n - 1), TypeAt(n - 1));
    JoinBit(mask, Low(n - 1), TypeAt(n - 1));
  }

  lemma BitMissing(mask: bv8, n: nat)
    requires 0 < n <= 7 && !TypeIn(TypeAt(n - 1), mask) && GivesBack(mask, n - 1)
    ensures GivesBack(mask, n)
  {
    hide Names, Low, TypeBit, TypeAt, TypeIn, NameOf, MaskOfAll;
    OnePlace(mask, n);
    JoinBit(mask, Low(n - 1), TypeAt(n - 1));
  }

  lemma {:induction false} NamesGiveMask(mask: bv8, n: nat)
    requires n <= 7
    ensures GivesBack(mask, n)
  {
    hide *;
    if n == 0 {
      NoMask(mask);
    } else {
      NamesGiveMask(mask, n - 1);
      if TypeIn(TypeAt(n - 1), mask) { BitThere(mask, n); } else { BitMissing(mask, n); }
    }
  }

  lemma NoMask(mask: bv8)
    ensures GivesBack(mask, 0)
  {
  }

  lemma LowAll()
    ensures Low(7) == KNOWN
  {
  }

  lemma BitBack(mask: bv8)
    requires TypeOfBit(mask).Some?
    ensures TypeBit(TypeOfBit(mask).value) == mask == mask & KNOWN
  {
  }

  lemma BitLost(mask: bv8)
    requires Ones(mask) == 1 && TypeOfBit(mask).None?
    ensures mask & KNOWN == 0
  {
    OneBit(mask);
  }

  /** Printing and parsing a mask keeps its seven type bits. */
  lemma TypeRoundTrip(mask: bv8)
    ensures (if PrintType(mask).Some? then MaskOf(PrintType(mask).value) else 0) == mask & KNOWN
  {
    hide Ones, TypeBit, TypeOfBit, NameOf, BitNamed, Low;
    if mask != 0 && Ones(mask) == 1 {
      if TypeOfBit(mask).Some? {
        BitBack(mask);
        NamesBack(TypeOfBit(mask).value);
        CStrOfClean(NameOf(TypeOfBit(mask).value));
      } else {
        BitLost(mask);
      }
    } else {
      NamesGiveMask(mask, 7);
      LowAll();
    }
  }
}
