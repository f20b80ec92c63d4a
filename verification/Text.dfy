/** Cutting strings at a separator and joining them again. */
module Text {

  function Split(s: string, sep: char): (parts: seq<string>)
    ensures |parts| > 0
    ensures forall p | p in parts :: sep !in p
  {
    if s == [] then [[]]
    else
      var later := Split(s[1..], sep);
      assert later[0] in later;
      assert forall p | p in later[1..] :: p in later;
      if s[0] == sep then [[]] + later else [[s[0]] + later[0]] + later[1..]
  }

  function Join(parts: seq<string>, sep: char): string
    requires parts != []
  {
    if |parts| == 1 then parts[0] else parts[0] + [sep] + Join(parts[1..], sep)
  }

  /** How often `c` occurs. */
  function Count(s: string, c: char): nat {
    if s == [] then 0 else (if s[0] == c then 1 else 0) + Count(s[1..], c)
  }

  lemma {:induction false} JoinSplit(s: string, sep: char)
    ensures Join(Split(s, sep), sep) == s
  {
    if s != [] {
      JoinSplit(s[1..], sep);
      var later := Split(s[1..], sep);
      if s[0] == sep {
        assert ([[]] + later)[1..] == later;
      } else {
        assert ([[s[0]] + later[0]] + later[1..])[1..] == later[1..];
      }
    }
  }

  lemma {:induction false} SplitCount(s: string, sep: char)
    ensures |Split(s, sep)| == Count(s, sep) + 1
  {
    if s != [] { SplitCount(s[1..], sep); }
  }

  /** The first part ends at the first separator. */
  lemma {:induction false} SplitAt(s: string, sep: char, i: nat)
    requires i < |s| && s[i] == sep && sep !in s[..i]
    ensures Split(s, sep) == [s[..i]] + Split(s[i + 1..], sep)
    decreases i
  {
    if i > 0 {
      assert s[0] == s[..i][0] && s[1..][..i - 1] == s[..i][1..];
      SplitAt(s[1..], sep, i - 1);
      assert s[1..][i..] == s[i + 1..];
      assert [s[0]] + s[1..][..i - 1] == s[..i];
    }
  }

  lemma {:induction false} SplitNone(s: string, sep: char)
    requires sep !in s
    ensures Split(s, sep) == [s]
  {
    if s != [] {
      assert s[0] in s && forall c | c in s[1..] :: c in s;
      SplitNone(s[1..], sep);
      assert [s[0]] + s[1..] == s;
    }
  }

  lemma {:induction false} SplitJoin(parts: seq<string>, sep: char)
    requires parts != [] && forall p | p in parts :: sep !in p
    ensures Split(Join(parts, sep), sep) == parts
  {
    var first := parts[0];
    if |parts| == 1 {
      SplitNone(first, sep);
    } else {
      SplitJoin(parts[1..], sep);
      var s := Join(parts, sep);
      assert s[..|first|] == first && s[|first| + 1..] == Join(parts[1..], sep);
      SplitAt(s, sep, |first|);
    }
  }

  lemma {:induction false} CountSplit(s: string, i: nat, c: char)
    requires i <= |s|
    ensures Count(s, c) == Count(s[..i], c) + Count(s[i..], c)
  {
    if i == 0 {
      assert s[0..] == s;
    } else {
      CountSplit(s[1..], i - 1, c);
      assert s[..i][1..] == s[1..][..i - 1] && s[1..][i - 1..] == s[i..];
    }
  }

  lemma {:induction false} JoinLast(parts: seq<string>, sep: char)
    requires |parts| > 1
    ensures Join(parts, sep) == Join(parts[..|parts| - 1], sep) + [sep] + parts[|parts| - 1]
  {
    if |parts| > 2 {
      JoinLast(parts[1..], sep);
      assert parts[1..][..|parts| - 2] == parts[..|parts| - 1][1..];
    }
  }

  lemma {:induction false} SplitEnd(s: string, sep: char)
    ensures Split(s + [sep], sep) == Split(s, sep) + [[]]
  {
    if s == [] {
      assert [sep][1..] == [];
    } else {
      assert (s + [sep])[1..] == s[1..] + [sep];
      SplitEnd(s[1..], sep);
    }
  }

  /** The parts without an empty last one. */
  function Trimmed(parts: seq<string>): seq<string>
    requires parts != []
  {
    if parts[|parts| - 1] == [] then parts[..|parts| - 1] else parts
  }

  /** What a scan from separator to separator meets: the parts, without an empty last one. */
  function Pieces(s: string, sep: char): seq<string> {
    Trimmed(Split(s, sep))
  }

  /** `n` is where the first part of `s` ends. */
  predicate Ends(s: string, n: nat, sep: char) {
    n <= |s| && sep !in s[..n] && (n < |s| ==> s[n] == sep)
  }

  function End(s: string, sep: char): (n: nat)
    ensures Ends(s, n, sep)
  {
    if s == [] || s[0] == sep then 0
    else
      var n := End(s[1..], sep) + 1;
      assert s[..n] == [s[0]] + s[1..][..n - 1];
      n
  }

  lemma EndsOnce(s: string, m: nat, n: nat, sep: char)
    requires Ends(s, m, sep) && Ends(s, n, sep)
    ensures m == n
  {
    NoneBefore(s, m, sep);
    NoneBefore(s, n, sep);
  }

  lemma NoneBefore(s: string, n: nat, sep: char)
    requires n <= |s| && sep !in s[..n]
    ensures forall k | 0 <= k < n :: s[k] != sep
  {
    forall k | 0 <= k < n ensures s[k] != sep {
      assert s[..n][k] == s[k];
    }
  }

  /** What is left behind the first part and its separator. */
  function Behind(s: string, n: nat): string {
    if n < |s| then s[n + 1..] else []
  }

  lemma SplitFirst(s: string, n: nat, sep: char)
    requires Ends(s, n, sep)
    ensures Split(s, sep) == [s[..n]] + if n < |s| then Split(Behind(s, n), sep) else []
  {
    if n < |s| {
      SplitAt(s, sep, n);
    } else {
      assert s[..n] == s;
      SplitNone(s, sep);
    }
  }

  lemma TrimmedMore(first: string, parts: seq<string>)
    requires parts != []
    ensures Trimmed([first] + parts) == [first] + Trimmed(parts)
  {
  }

  lemma PiecesStep(s: string, n: nat, sep: char)
    requires s != [] && Ends(s, n, sep)
    ensures Pieces(s, sep) == [s[..n]] + Pieces(Behind(s, n), sep)
  {
    hide Split, Trimmed;
    SplitFirst(s, n, sep);
    if n < |s| {
      TrimmedMore(s[..n], Split(Behind(s, n), sep));
    } else {
      NoPieces(sep);
      OnePiece(s, sep);
      assert s[..n] == s;
    }
  }

  lemma NoPieces(sep: char)
    ensures Pieces("", sep) == []
  {
  }

  lemma OnePiece(s: string, sep: char)
    requires s != [] && sep !in s
    ensures Pieces(s, sep) == [s]
  {
    SplitNone(s, sep);
  }

  /** The last part is empty exactly at a separator, or where there is nothing. */
  lemma LastPart(s: string, sep: char)
    ensures var parts := Split(s, sep);
      if parts[|parts| - 1] != [] then s != [] && s[|s| - 1] != sep
      else if |parts| == 1 then s == []
      else s == Join(parts[..|parts| - 1], sep) + [sep]
  {
    var parts := Split(s, sep);
    JoinSplit(s, sep);
    var last := parts[|parts| - 1];
    assert last in parts;
    if |parts| > 1 { JoinLast(parts, sep); }
    assert last != [] ==> last[|last| - 1] in last;
  }

  lemma OneMore<T>(done: seq<T>, part: T, tail: seq<T>)
    ensures done + ([part] + tail) == done + [part] + tail
  {
  }
}
