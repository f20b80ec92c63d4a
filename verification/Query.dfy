/** Query strings: percent-decoding and splitting into pairs. */
module Query {
  import opened Json
  import opened Text

  datatype Pair = Pair(key: string, value: string)

  // ----- percent-encoding -----

  /** The value of a hexadecimal digit, or -1. */
  function HexDigit(c: char): (d: int)
    ensures -1 <= d < 16
  {
    if '0' <= c <= '9' then c as int - '0' as int
    else if 'a' <= c <= 'f' then c as int - 'a' as int + 10
    else if 'A' <= c <= 'F' then c as int - 'A' as int + 10
    else -1
  }

  /** How many bytes are read at the front of `s`. */
  function Width(s: string): nat
    requires s != []
  {
    if |s| > 2 && s[0] == '%' && HexDigit(s[1]) >= 0 && HexDigit(s[2]) >= 0 then 3 else 1
  }

  /** The byte they stand for: a percent sign without two digits stands for itself. */
  function Output(s: string): char
    requires s != []
  {
    if Width(s) == 3 then (HexDigit(s[1]) * 16 + HexDigit(s[2])) as char
    else if s[0] == '+' then ' '
    else s[0]
  }

  function Decode(s: string): (r: string)
    ensures |r| <= |s|
    decreases |s|
  {
    if s == [] then [] else [Output(s)] + Decode(s[Width(s)..])
  }

  function HexChar(d: int): char
    requires 0 <= d < 16
  {
    if d < 10 then ('0' as int + d) as char else ('A' as int + d - 10) as char
  }

  predicate IsByte(c: char) {
    c as int < 0x100
  }

  /** The unreserved characters of section 2.3 of RFC 3986. */
  predicate Unreserved(c: char) {
    '0' <= c <= '9' || 'a' <= c <= 'z' || 'A' <= c <= 'Z' || c == '-' || c == '.' || c == '_' || c == '~'
  }

  /** Percent-encoding (section 2.1 of RFC 3986) of everything that is not unreserved. */
  function Encode(s: string): (e: string)
    requires forall c | c in s :: IsByte(c)
    ensures '&' !in e && '=' !in e
    decreases |s|
  {
    if s == [] then []
    else EncodeChar(s[0]) + Encode(s[1..])
  }

  function EncodeChar(c: char): (e: string)
    requires IsByte(c)
    ensures e != [] && '&' !in e && '=' !in e
  {
    if Unreserved(c) then [c] else ['%', HexChar(c as int / 16), HexChar(c as int % 16)]
  }

  lemma HexBack(d: int)
    requires 0 <= d < 16
    ensures HexDigit(HexChar(d)) == d
  {
  }

  lemma EncodedChar(c: char, later: string)
    requires IsByte(c)
    ensures var s := EncodeChar(c) + later;
      Width(s) == |EncodeChar(c)| && Output(s) == c && s[Width(s)..] == later
  {
    HexBack(c as int / 16);
    HexBack(c as int % 16);
  }

  lemma {:induction false} DecodeEncode(s: string)
    requires forall c | c in s :: IsByte(c)
    ensures Decode(Encode(s)) == s
    decreases |s|
  {
    if s != [] {
      hide EncodeChar, Width, Output;
      DecodeEncode(s[1..]);
      EncodedChar(s[0], Encode(s[1..]));
    }
  }

  // ----- what decoding does, character by character -----

  /** The digits of section 2.1 of RFC 3986, in either case. */
  lemma HexDigits(d: int, c: char)
    requires 0 <= d < 16
    ensures HexDigit(c) == d <==> c == "0123456789abcdef"[d] || c == "0123456789ABCDEF"[d]
  {
  }

  /** A digit with this value, in either case. */
  predicate Hex(c: char, d: int) {
    0 <= d < 16 && (c == "0123456789abcdef"[d] || c == "0123456789ABCDEF"[d])
  }

  /** A percent sign and two digits are one byte, '+' is a space, and anything else stands for itself. */
  lemma DecodeMeans(s: string)
    requires s != ""
    ensures forall a, b | s[0] == '%' && |s| > 2 && Hex(s[1], a) && Hex(s[2], b) ::
      Decode(s) == [(16 * a + b) as char] + Decode(s[3..])
    ensures (s[0] != '%' || |s| <= 2 || !(exists a, b :: Hex(s[1], a) && Hex(s[2], b))) ==>
      Decode(s) == [if s[0] == '+' then ' ' else s[0]] + Decode(s[1..])
  {
    hide HexDigit, Hex, Decode, Output, Width;
    DecodeStep(s);
    if |s| > 2 {
      forall a, b ensures Hex(s[1], a) && Hex(s[2], b) <==> 0 <= a == HexDigit(s[1]) && 0 <= b == HexDigit(s[2]) {
        HexIs(s[1], a);
        HexIs(s[2], b);
      }
      HexIs(s[1], HexDigit(s[1]));
      HexIs(s[2], HexDigit(s[2]));
    }
  }

  lemma HexIs(c: char, d: int)
    ensures Hex(c, d) <==> 0 <= d && HexDigit(c) == d
  {
    if 0 <= d < 16 { HexDigits(d, c); }
  }

  /** A part without '=' is a key without value; otherwise the first '=' ends the key. */
  lemma PairMeans(part: string, key: string, value: string)
    ensures '=' !in part ==> PairOf(part) == Pair(CStr(Decode(part)), "")
    ensures '=' !in key ==> PairOf(key + "=" + value) == Pair(CStr(Decode(key)), CStr(Decode(value)))
  {
    hide Decode, CStr;
    if '=' !in part {
      assert part[..|part|] == part;
      EndsOnce(part, End(part, '='), |part|, '=');
    }
    if '=' !in key {
      var s := key + "=" + value;
      assert s[..|key|] == key && s[|key| + 1..] == value;
      EndsOnce(s, End(s, '='), |key|, '=');
    }
  }

  // ----- pairs -----

  /** Key and value around the first '=', each cut at its first NUL; without one there is no value. */
  function PairOf(part: string): Pair {
    var n := End(part, '=');
    if n < |part| then Pair(CStr(Decode(part[..n])), CStr(Decode(part[n + 1..])))
    else Pair(CStr(Decode(part)), "")
  }

  function PairsOf(parts: seq<string>): (r: seq<Pair>)
    ensures |r| == |parts|
    ensures forall i | 0 <= i < |r| :: r[i] == PairOf(parts[i])
  {
    seq(|parts|, i requires 0 <= i < |parts| => PairOf(parts[i]))
  }

  /** The pairs of a query string; an empty part at the end makes none. */
  function Pairs(q: string): seq<Pair> {
    PairsOf(Pieces(q, '&'))
  }

  predicate Printable(s: string) {
    forall c | c in s :: IsByte(c) && c != NUL
  }

  /** Every byte can be printed but NUL. */
  lemma PrintableMeans(s: string)
    ensures Printable(s) <==> forall i | 0 <= i < |s| :: 1 <= s[i] as int <= 255
  {
    assert forall i | 0 <= i < |s| :: s[i] in s;
    if forall i | 0 <= i < |s| :: 1 <= s[i] as int <= 255 {
      forall c | c in s ensures IsByte(c) && c != NUL {
        var i :| 0 <= i < |s| && s[i] == c;
      }
    }
  }

  function PrintPair(p: Pair): (s: string)
    requires Printable(p.key) && Printable(p.value)
    ensures s != [] && '&' !in s
  {
    Encode(p.key) + "=" + Encode(p.value)
  }

  function PrintAll(pairs: seq<Pair>): (r: seq<string>)
    requires forall p | p in pairs :: Printable(p.key) && Printable(p.value)
    ensures |r| == |pairs|
    ensures forall i | 0 <= i < |r| :: r[i] == PrintPair(pairs[i])
  {
    seq(|pairs|, i requires 0 <= i < |pairs| => PrintPair(pairs[i]))
  }

  function Print(pairs: seq<Pair>): string
    requires forall p | p in pairs :: Printable(p.key) && Printable(p.value)
  {
    if pairs == [] then [] else Join(PrintAll(pairs), '&')
  }

  lemma PairRoundTrip(p: Pair)
    requires Printable(p.key) && Printable(p.value)
    ensures PairOf(PrintPair(p)) == p
  {
    hide Encode, Decode;
    var s, k := PrintPair(p), Encode(p.key);
    assert s[..|k|] == k && s[|k|] == '=' && s[|k| + 1..] == Encode(p.value);
    EndsOnce(s, End(s, '='), |k|, '=');
    DecodeEncode(p.key);
    DecodeEncode(p.value);
    CStrOfClean(p.key);
    CStrOfClean(p.value);
  }

  /** Parsing a printed list of pairs returns the list, in order. */
  lemma QueryRoundTrip(pairs: seq<Pair>)
    requires forall p | p in pairs :: Printable(p.key) && Printable(p.value)
    ensures Pairs(Print(pairs)) == pairs
  {
    hide PrintPair, PairOf;
    if pairs != [] {
      var parts := PrintAll(pairs);
      SplitJoin(parts, '&');
      assert parts[|parts| - 1] != [];
      forall i | 0 <= i < |pairs| ensures PairOf(parts[i]) == pairs[i] {
        PairRoundTrip(pairs[i]);
      }
    }
  }

  /** The pairs written never exceed the pre-counted array. */
  lemma PairsFit(q: string)
    ensures |Pairs(q)| <= Count(q, '&') + 1
    ensures |Pairs(q)| == Count(q, '&') + (if q != [] && q[|q| - 1] != '&' then 1 else 0)
  {
    hide Split, PairOf;
    SplitCount(q, '&');
    LastPart(q, '&');
  }

  // ----- the parser -----

  /** `url_decode`: writes the decoded bytes and a NUL into a buffer of the same length and one more. */
  method UrlDecode(src: string) returns (buf: array<char>, j: nat)
    ensures buf.Length == |src| + 1 && j == |Decode(src)| && buf[..j] == Decode(src) && buf[j] == NUL
  {
    hide Decode, Width, Output;
    buf := new char[|src| + 1];
    j := 0;
    var i := 0;
    assert src[0..] == src;
    while i < |src|
      invariant j <= i <= |src|
      invariant buf[..j] + Decode(src[i..]) == Decode(src)
      decreases |src| - i
    {
      ghost var before, rest := buf[..j], src[i..];
      DecodeStep(rest);
      if src[i] == '%' && i + 2 < |src| && HexDigit(src[i + 1]) >= 0 && HexDigit(src[i + 2]) >= 0 {
        buf[j] := (HexDigit(src[i + 1]) * 16 + HexDigit(src[i + 2])) as char;
        i := i + 2;
      } else if src[i] == '+' {
        buf[j] := ' ';
      } else {
        buf[j] := src[i];
      }
      j := j + 1;
      i := i + 1;
      assert buf[..j] == before + [buf[j - 1]];
      assert src[i..] == rest[Width(rest)..];
    }
    assert src[i..] == "";
    DecodeEmpty();
    buf[j] := NUL;
  }

  lemma DecodeEmpty()
    ensures Decode("") == ""
  {
  }

  lemma DecodeStep(s: string)
    requires s != []
    ensures Width(s) <= |s| && Decode(s) == [Output(s)] + Decode(s[Width(s)..])
    ensures if s[0] == '%' && 2 < |s| && HexDigit(s[1]) >= 0 && HexDigit(s[2]) >= 0
            then Width(s) == 3 && Output(s) == (HexDigit(s[1]) * 16 + HexDigit(s[2])) as char
            else Width(s) == 1 && Output(s) == if s[0] == '+' then ' ' else s[0]
  {
  }

  /** `memchr` and `strchr`: the first `sep` from `from` on, or `end`. */
  method Find(q: string, from: nat, end: nat, sep: char) returns (n: nat)
    requires from <= end <= |q|
    ensures from <= n <= end && n - from == End(q[from..end], sep)
  {
    n := from;
    while n < end && q[n] != sep
      invariant from <= n <= end && sep !in q[from..n]
    {
      n := n + 1;
    }
    assert q[from..end][..n - from] == q[from..n];
    EndsOnce(q[from..end], n - from, End(q[from..end], sep), sep);
  }

  /** The C string in a decoded buffer. */
  lemma BufferIsCStr(buf: seq<char>, s: string)
    requires |s| < |buf| && buf[..|s|] == s && buf[|s|] == NUL
    ensures CStr(buf) == CStr(s)
    decreases |s|
  {
    if s != [] && s[0] != NUL {
      assert buf[0] == buf[..|s|][0] && buf[1..][..|s| - 1] == buf[..|s|][1..];
      BufferIsCStr(buf[1..], s[1..]);
    }
  }

  method DecodeText(src: string) returns (s: string)
    ensures s == CStr(Decode(src))
  {
    var buf, j := UrlDecode(src);
    BufferIsCStr(buf[..], Decode(src));
    s := CStr(buf[..]);
  }

  method ParsePair(q: string, p: nat, end: nat) returns (pair: Pair)
    requires p <= end <= |q|
    ensures pair == PairOf(q[p..end])
  {
    hide Decode;
    var eq := Find(q, p, end, '=');
    ghost var part := q[p..end];
    assert part[..eq - p] == q[p..eq];
    if eq < end {
      assert part[eq - p + 1..] == q[eq + 1..end];
      var key := DecodeText(q[p..eq]);
      var value := DecodeText(q[eq + 1..end]);
      pair := Pair(key, value);
    } else {
      var key := DecodeText(q[p..end]);
      pair := Pair(key, "");
    }
  }

  /** `oas_query_parse`: the array holds one cell for each '&' and one more. */
  method Parse(q: string) returns (pairs: array<Pair>, idx: nat)
    ensures idx == |Pairs(q)| <= pairs.Length && pairs[..idx] == Pairs(q)
  {
    PairsFit(q);
    hide Pairs;
    if |q| == 0 {
      PairsEnd(q);
      pairs := new Pair[0];
      return pairs, 0;
    }
    var count := 1;
    for i := 0 to |q|
      invariant count == Count(q[..i], '&') + 1
    {
      CountSplit(q[..i + 1], i, '&');
      assert q[..i + 1][..i] == q[..i] && q[..i + 1][i..] == [q[i]];
      if q[i] == '&' {
        count := count + 1;
      }
    }
    assert q[..|q|] == q;
    pairs := new Pair[count];
    idx := Fill(q, pairs);
  }

  lemma PairsEnd(q: string)
    requires q == []
    ensures Pairs(q) == []
  {
  }

  lemma PairsStep(q: string, n: nat)
    requires q != [] && Ends(q, n, '&')
    ensures Pairs(q) == [PairOf(q[..n])] + Pairs(Behind(q, n))
  {
    hide PairOf, Pieces, Split;
    PiecesStep(q, n, '&');
    assert Pairs(q) == PairsOf([q[..n]] + Pieces(Behind(q, n), '&'));
  }

  method Fill(q: string, pairs: array<Pair>) returns (idx: nat)
    requires |Pairs(q)| <= pairs.Length
    modifies pairs
    ensures idx == |Pairs(q)| && pairs[..idx] == Pairs(q)
  {
    hide *;
    idx := 0;
    var p := 0;
    assert q[0..] == q;
    while p < |q| && idx < pairs.Length
      invariant p <= |q| && idx <= pairs.Length
      invariant pairs[..idx] + Pairs(q[p..]) == Pairs(q)
      decreases |q| - p
    {
      ghost var rest, before := q[p..], pairs[..idx];
      var amp := Find(q, p, |q|, '&');
      assert q[p..|q|] == rest;
      var pair := ParsePair(q, p, amp);
      EndIs(rest, '&');
      PairsStep(rest, amp - p);
      assert rest[..amp - p] == q[p..amp];
      pairs[idx] := pair;
      idx := idx + 1;
      assert pairs[..idx] == before + [pair];
      BehindIs(q, p, amp);
      p := if amp < |q| then amp + 1 else |q|;
    }
    if p == |q| {
      assert q[p..] == "";
      PairsEnd(q[p..]);
    }
    PairsLeft(q, p, pairs[..idx]);
  }

  lemma EndIs(s: string, sep: char)
    ensures Ends(s, End(s, sep), sep)
  {
  }

  lemma BehindIs(q: string, p: nat, amp: nat)
    requires p <= amp <= |q|
    ensures Behind(q[p..], amp - p) == if amp < |q| then q[amp + 1..] else q[|q|..]
  {
  }

  /** With as many pairs written as there are, none is left. */
  lemma PairsLeft(q: string, p: nat, done: seq<Pair>)
    requires p <= |q| && done + Pairs(q[p..]) == Pairs(q)
    requires |done| == |Pairs(q)| || Pairs(q[p..]) == []
    ensures done == Pairs(q)
  {
    hide Pairs;
    assert |Pairs(q)| == |done| + |Pairs(q[p..])|;
  }
}
