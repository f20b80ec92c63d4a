/** UTF-8 text and its length in characters. */
module Utf8 {
  import opened Json
  import opened Schemas
  import opened Instructions
  import opened Meanings
  import opened Sets

  /** The Unicode scalar values: code points without the surrogates. */
  predicate IsScalar(u: int) {
    0 <= u < 0xD800 || 0xE000 <= u < 0x11_0000
  }

  /** Text: Unicode scalar values. */
  predicate IsText(us: seq<int>) {
    forall i | 0 <= i < |us| :: IsScalar(us[i])
  }

  /** Section 3 of RFC 3629: 0 to 10FFFF, without D800 to DFFF. */
  lemma TextMeans(us: seq<int>)
    ensures IsText(us) <==> forall u | u in us :: 0 <= u <= 0x10FFFF && !(0xD800 <= u <= 0xDFFF)
  {
    assert forall i | 0 <= i < |us| :: us[i] in us;
  }

  function Lead(tag: int, high: int): char
    requires 0 <= high && 0 <= tag && tag + high < 0x100
  {
    (tag + high) as char
  }

  function Trail(low: int): char
    requires 0 <= low
  {
    (0x80 + low % 0x40) as char
  }

  /** The encoding of one character, section 3 of RFC 3629. */
  function Encode(u: int): (s: string)
    requires IsScalar(u)
    ensures 1 <= |s| <= 4
  {
    if u < 0x80 then [u as char]
    else if u < 0x800 then [Lead(0xC0, u / 0x40), Trail(u)]
    else if u < 0x1_0000 then [Lead(0xE0, u / 0x1000), Trail(u / 0x40), Trail(u)]
    else [Lead(0xF0, u / 0x4_0000), Trail(u / 0x1000), Trail(u / 0x40), Trail(u)]
  }

  function EncodeAll(us: seq<int>): string
    requires IsText(us)
  {
    if us == [] then [] else Encode(us[0]) + EncodeAll(us[1..])
  }

  function Bits(c: char): int {
    c as int % 0x40
  }

  /** Reads one character off the front; its value and how many bytes it took. */
  function Decode(s: string): (int, nat)
    requires s != []
  {
    var b := s[0] as int;
    if b < 0x80 || |s| < 2 then (b, 1)
    else if b < 0xE0 || |s| < 3 then ((b - 0xC0) * 0x40 + Bits(s[1]), 2)
    else if b < 0xF0 || |s| < 4 then ((b - 0xE0) * 0x1000 + Bits(s[1]) * 0x40 + Bits(s[2]), 3)
    else ((b - 0xF0) * 0x4_0000 + Bits(s[1]) * 0x1000 + Bits(s[2]) * 0x40 + Bits(s[3]), 4)
  }

  lemma TrailBits(low: int)
    requires 0 <= low
    ensures Bits(Trail(low)) == low % 0x40 && IsContinuation(Trail(low))
  {
  }

  lemma DecodeShort(u: int, rest: string)
    requires 0 <= u < 0x800
    ensures Decode(Encode(u) + rest) == (u, |Encode(u)|)
  {
    TrailBits(u);
  }

  lemma LeadByte(tag: int, high: int)
    requires 0 <= high && 0 <= tag && tag + high < 0x100
    ensures Lead(tag, high) as int == tag + high
  {
  }

  lemma ThreeDigits(u: int)
    requires 0 <= u
    ensures u == u / 0x1000 * 0x1000 + u / 0x40 % 0x40 * 0x40 + u % 0x40
  {
  }

  lemma FourDigits(u: int)
    requires 0 <= u
    ensures u == u / 0x4_0000 * 0x4_0000 + u / 0x1000 % 0x40 * 0x1000 + u / 0x40 % 0x40 * 0x40 + u % 0x40
  {
    var q := u / 0x40;
    ThreeDigits(q);
    NestedDivision(u, 0x40);
    NestedDivision(u, 0x1000);
  }

  lemma NestedDivision(u: int, n: int)
    requires 0 <= u && (n == 0x40 || n == 0x1000)
    ensures u / 0x40 / n == u / (0x40 * n)
  {
  }

  lemma DecodeThree(u: int, rest: string)
    requires 0x800 <= u < 0x1_0000 && IsScalar(u)
    ensures Decode(Encode(u) + rest) == (u, |Encode(u)|)
  {
    hide Lead, Trail, Bits, IsContinuation;
    LeadByte(0xE0, u / 0x1000);
    TrailBits(u);
    TrailBits(u / 0x40);
    ThreeDigits(u);
  }

  lemma DecodeFour(u: int, rest: string)
    requires 0x1_0000 <= u < 0x11_0000
    ensures Decode(Encode(u) + rest) == (u, |Encode(u)|)
  {
    hide Lead, Trail, Bits, IsContinuation;
    LeadByte(0xF0, u / 0x4_0000);
    TrailBits(u);
    TrailBits(u / 0x40);
    TrailBits(u / 0x1000);
    FourDigits(u);
  }

  /** The encoding is a prefix code: whatever follows, the first character is read back. */
  lemma DecodeEncode(u: int, rest: string)
    requires IsScalar(u)
    ensures Decode(Encode(u) + rest) == (u, |Encode(u)|)
  {
    hide Encode, Decode;
    if u < 0x800 {
      DecodeShort(u, rest);
    } else if u < 0x1_0000 {
      DecodeThree(u, rest);
    } else {
      DecodeFour(u, rest);
    }
  }

  // ----- counting -----

  function Starts(s: string): nat {
    if s == [] then 0 else (if IsContinuation(s[0]) then 0 else 1) + Starts(s[1..])
  }

  lemma {:induction false} StartsCount(s: string)
    ensures |CharStarts(s)| == Starts(s)
  {
    if s == [] {
      assert CharStarts(s) == {};
    } else {
      StartsCount(s[1..]);
      var b := seq(|s|, i requires 0 <= i < |s| => !IsContinuation(s[i]));
      TruesHead(b);
      assert CharStarts(s) == Trues(b);
      assert CharStarts(s[1..]) == Trues(b[1..]);
    }
  }

  lemma {:induction false} StartsConcat(a: string, b: string)
    ensures Starts(a + b) == Starts(a) + Starts(b)
  {
    if a == [] {
      assert a + b == b;
    } else {
      assert (a + b)[1..] == a[1..] + b;
      StartsConcat(a[1..], b);
    }
  }

  lemma StartsOne(u: int)
    requires IsScalar(u)
    ensures Starts(Encode(u)) == 1
  {
    var s := Encode(u);
    TrailBits(u);
    TrailBits(u / 0x40);
    TrailBits(u / 0x1000);
    assert !IsContinuation(s[0]);
    assert forall i | 1 <= i < |s| :: IsContinuation(s[i]);
    NoStarts(s[1..]);
  }

  lemma {:induction false} NoStarts(s: string)
    requires forall i | 0 <= i < |s| :: IsContinuation(s[i])
    ensures Starts(s) == 0
  {
    if s != [] { NoStarts(s[1..]); }
  }

  /** Counting the bytes that start a character counts the characters. */
  lemma {:induction false} CodepointsOfEncoding(us: seq<int>)
    requires IsText(us)
    ensures |CharStarts(EncodeAll(us))| == |us|
  {
    StartsCount(EncodeAll(us));
    if us != [] {
      CodepointsOfEncoding(us[1..]);
      StartsCount(EncodeAll(us[1..]));
      StartsConcat(Encode(us[0]), EncodeAll(us[1..]));
      StartsOne(us[0]);
    }
  }

  /** So the length opcodes limit the number of characters: sections 6.3.1 and 6.3.2 of
      draft-bhutton-json-schema-validation. */
  lemma LengthOpcodes(e: Env, us: seq<int>, n: int)
    requires IsText(us)
    ensures CheckOk(e, CheckMinLen(n), JStr(EncodeAll(us))) <==> |us| >= n
    ensures CheckOk(e, CheckMaxLen(n), JStr(EncodeAll(us))) <==> |us| <= n
  {
    CodepointsOfEncoding(us);
  }
}
