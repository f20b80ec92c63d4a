/** Splitting and unescaping a JSON Pointer in a mutable buffer (RFC 6901, sections 3 and 4). */
module JsonPointer {
  import opened Json
  import opened Text

  // ----- escaping -----

  /** One left-to-right pass: `~1` becomes `/`, `~0` becomes `~`, everything else stays. */
  function Unescape(s: string): string {
    if s == [] then []
    else if |s| >= 2 && s[0] == '~' && s[1] == '1' then ['/'] + Unescape(s[2..])
    else if |s| >= 2 && s[0] == '~' && s[1] == '0' then ['~'] + Unescape(s[2..])
    else [s[0]] + Unescape(s[1..])
  }

  /** All occurrences of the two characters `a`, `b` replaced by `c`, from the left. */
  function Replace(s: string, a: char, b: char, c: char): string {
    if |s| < 2 then s
    else if s[0] == a && s[1] == b then [c] + Replace(s[2..], a, b, c)
    else [s[0]] + Replace(s[1..], a, b, c)
  }

  /** The replacement prescribed by section 4 of RFC 6901: first every `~1`, then every `~0`. */
  function TwoPass(s: string): string {
    Replace(Replace(s, '~', '1', '/'), '~', '0', '~')
  }

  function Escape(s: string): (e: string)
    ensures '/' !in e
    ensures NUL !in s ==> NUL !in e
  {
    if s == [] then []
    else if s[0] == '~' then "~0" + Escape(s[1..])
    else if s[0] == '/' then "~1" + Escape(s[1..])
    else [s[0]] + Escape(s[1..])
  }

  /** The first pass never produces a `~0` that was not there. */
  lemma FirstPassHead(s: string)
    requires s != []
    ensures Replace(s, '~', '1', '/') != []
    ensures s[0] != '~' ==> Replace(s, '~', '1', '/')[0] == s[0]
    ensures Replace(s, '~', '1', '/')[0] == '0' ==> s[0] == '0'
  {
  }

  /** The single pass agrees with the two passes on every string, malformed escapes included. */
  lemma {:induction false} OnePassIsTwoPass(s: string)
    ensures Unescape(s) == TwoPass(s)
    decreases |s|
  {
    if |s| < 2 {
    } else if s[0] == '~' && (s[1] == '1' || s[1] == '0') {
      OnePassIsTwoPass(s[2..]);
      if s[1] == '0' {
        var later := Replace(s[2..], '~', '1', '/');
        assert s[1..][1..] == s[2..];
        assert Replace(s[1..], '~', '1', '/') == ['0'] + later;
        var first := Replace(s, '~', '1', '/');
        assert first == ['~'] + (['0'] + later);
        assert first[2..] == later;
      } else {
        var later := Replace(s[2..], '~', '1', '/');
        SlashFirst(later);
      }
    } else {
      OnePassIsTwoPass(s[1..]);
      var later := Replace(s[1..], '~', '1', '/');
      FirstPassHead(s[1..]);
      assert ([s[0]] + later)[1..] == later;
    }
  }

  lemma SlashFirst(later: string)
    ensures Replace(['/'] + later, '~', '0', '~') == ['/'] + Replace(later, '~', '0', '~')
  {
    assert (['/'] + later)[1..] == later;
    assert later == [] ==> Replace(later, '~', '0', '~') == [];
  }

  lemma {:induction false} UnescapeEscape(s: string)
    ensures Unescape(Escape(s)) == s
  {
    if s != [] {
      UnescapeEscape(s[1..]);
      var later := Escape(s[1..]);
      assert ("~0" + later)[2..] == later && ("~1" + later)[2..] == later && ([s[0]] + later)[1..] == later;
    }
  }

  /** Every `~` starts one of the two escapes. */
  ghost predicate WellEscaped(s: string) {
    forall i | 0 <= i < |s| && s[i] == '~' :: i + 1 < |s| && (s[i + 1] == '0' || s[i + 1] == '1')
  }

  /** Exactly the well-escaped segments come back from unescaping and escaping. */
  lemma {:induction false} EscapeUnescape(s: string)
    requires '/' !in s
    ensures Escape(Unescape(s)) == s <==> WellEscaped(s)
    decreases |s|
  {
    if s == [] {
    } else if |s| >= 2 && s[0] == '~' && (s[1] == '1' || s[1] == '0') {
      EscapeUnescape(s[2..]);
      WellEscapedTail(s, 2);
      assert s == s[..2] + s[2..];
      assert Unescape(s)[1..] == Unescape(s[2..]);
    } else {
      EscapeUnescape(s[1..]);
      WellEscapedTail(s, 1);
      assert s == s[..1] + s[1..];
      assert Unescape(s)[1..] == Unescape(s[1..]);
      assert s[0] == '~' ==> |Escape(Unescape(s))| >= 2 && Escape(Unescape(s))[1] == '0';
    }
  }

  lemma WellEscapedTail(s: string, n: nat)
    requires n <= |s| && (n == 1 || (n == 2 && s[0] == '~' && (s[1] == '0' || s[1] == '1')))
    ensures WellEscaped(s) <==> WellEscaped(s[n..]) && (n == 1 && s[0] == '~' ==> |s| > 1 && s[1] in "01")
  {
    if WellEscaped(s[n..]) {
      forall i | n <= i < |s| && s[i] == '~' ensures i + 1 < |s| && (s[i + 1] == '0' || s[i + 1] == '1') {
        assert s[n..][i - n] == '~';
      }
    }
    if WellEscaped(s) {
      forall i | 0 <= i < |s[n..]| && s[n..][i] == '~'
        ensures i + 1 < |s[n..]| && (s[n..][i + 1] == '0' || s[n..][i + 1] == '1')
      {
        assert s[n + i] == '~';
      }
    }
  }

  // ----- whole pointers -----

  /** The segments a pointer names, or nothing when it is not a pointer (section 3 of RFC 6901). */
  function Segments(pointer: string): Option<seq<string>> {
    if pointer == [] then Some([])
    else if pointer[0] != '/' then None
    else Some(UnescapeAll(Split(pointer[1..], '/')))
  }

  function UnescapeAll(parts: seq<string>): (r: seq<string>)
    ensures |r| == |parts|
    ensures forall i | 0 <= i < |r| :: r[i] == Unescape(parts[i])
  {
    if parts == [] then [] else [Unescape(parts[0])] + UnescapeAll(parts[1..])
  }

  function EscapeAll(segments: seq<string>): (r: seq<string>)
    ensures |r| == |segments|
    ensures forall i | 0 <= i < |r| :: r[i] == Escape(segments[i])
  {
    if segments == [] then [] else [Escape(segments[0])] + EscapeAll(segments[1..])
  }

  function Print(segments: seq<string>): string {
    if segments == [] then [] else "/" + Join(EscapeAll(segments), '/')
  }

  /** Parsing what was printed returns the segments. */
  lemma ParsePrint(segments: seq<string>)
    ensures Segments(Print(segments)) == Some(segments)
  {
    if segments != [] {
      var parts := EscapeAll(segments);
      SplitJoin(parts, '/');
      assert Print(segments)[1..] == Join(parts, '/');
      forall i | 0 <= i < |segments| ensures Unescape(parts[i]) == segments[i] {
        UnescapeEscape(segments[i]);
      }
      assert UnescapeAll(parts) == segments;
    }
  }

  /** A pointer is its own canonical printing exactly if each `~` in it starts an escape. */
  lemma PrintParse(pointer: string)
    requires Segments(pointer).Some?
    ensures Print(Segments(pointer).value) == pointer <==>
      pointer == [] || forall part | part in Split(pointer[1..], '/') :: WellEscaped(part)
  {
    if pointer != [] {
      var parts := Split(pointer[1..], '/');
      var again := EscapeAll(UnescapeAll(parts));
      JoinSplit(pointer[1..], '/');
      forall i | 0 <= i < |parts| ensures again[i] == parts[i] <==> WellEscaped(parts[i]) {
        EscapeUnescape(parts[i]);
      }
      SplitJoin(again, '/');
      assert Print(Segments(pointer).value) == pointer <==> Join(again, '/') == pointer[1..];
      assert again == parts <==> forall i | 0 <= i < |parts| :: again[i] == parts[i];
    }
  }

  // ----- the buffer -----

  /** A NUL-terminated string starts at `at`. */
  ghost predicate Holds(buf: seq<char>, at: nat, s: string) {
    at + |s| < |buf| && buf[at..at + |s|] == s && buf[at + |s|] == NUL && NUL !in s
  }

  lemma HoldsChars(buf: seq<char>, at: nat, s: string)
    ensures Holds(buf, at, s) <==>
      && NUL !in s && at + |s| < |buf| && buf[at + |s|] == NUL
      && forall k | 0 <= k < |s| :: buf[at + k] == s[k]
  {
    if at + |s| < |buf| && forall k | 0 <= k < |s| :: buf[at + k] == s[k] {
      assert buf[at..at + |s|] == s;
    }
    if Holds(buf, at, s) {
      forall k | 0 <= k < |s| ensures buf[at + k] == s[k] {
        assert buf[at + k] == buf[at..at + |s|][k];
      }
    }
  }

  lemma HoldsIsCStr(buf: seq<char>, at: nat, s: string)
    requires Holds(buf, at, s)
    ensures CStr(buf[at..]) == s
  {
    CStrStops(buf[at..], |s|);
  }

  lemma {:induction false} CStrStops(s: string, n: nat)
    requires n < |s| && s[n] == NUL && NUL !in s[..n]
    ensures CStr(s) == s[..n]
    decreases n
  {
    if n > 0 {
      assert s[0] == s[..n][0] && s[1..][..n - 1] == s[..n][1..];
      CStrStops(s[1..], n - 1);
    }
  }

  lemma {:induction false} UnescapeBounds(s: string)
    requires NUL !in s
    ensures |Unescape(s)| <= |s| && NUL !in Unescape(s)
    decreases |s|
  {
    if s != [] {
      UnescapeBounds(s[1..]);
      if |s| >= 2 { UnescapeBounds(s[2..]); }
    }
  }

  /** How many characters the pass consumes at position `i`, and the one it writes. */
  function Width(s: string, i: nat): (w: nat)
    ensures w == 1 || w == 2
  {
    if i + 1 < |s| && s[i] == '~' && (s[i + 1] == '1' || s[i + 1] == '0') then 2 else 1
  }

  function Output(s: string, i: nat): char
    requires i < |s|
  {
    if Width(s, i) == 2 then (if s[i + 1] == '1' then '/' else '~') else s[i]
  }

  lemma UnescapeStep(s: string, i: nat)
    requires i < |s|
    ensures i + Width(s, i) <= |s|
    ensures Unescape(s[i..]) == [Output(s, i)] + Unescape(s[i + Width(s, i)..])
  {
  }

  /** The pass has written `done` from `tok` on and still has to read `s[i..]`. */
  ghost predicate Underway(buf: seq<char>, tok: nat, s: string, done: string, i: nat) {
    && NUL !in s && |done| <= i <= |s| && tok + |s| < |buf| && buf[tok + |s|] == NUL
    && (forall k | i <= k < |s| :: buf[tok + k] == s[k])
    && (forall k | 0 <= k < |done| :: buf[tok + k] == done[k])
    && done + Unescape(s[i..]) == Unescape(s)
  }

  lemma UnderwayHead(buf: seq<char>, tok: nat, s: string, done: string, i: nat)
    requires Underway(buf, tok, s, done, i)
    ensures |done| <= i <= |s| && tok + |s| < |buf|
    ensures if i < |s| then buf[tok + i] == s[i] != NUL else buf[tok + i] == NUL && done == Unescape(s)
    ensures i < |s| ==> buf[tok + i + 1] == if i + 1 < |s| then s[i + 1] else NUL
  {
    assert i == |s| ==> s[i..] == "";
  }

  lemma UnderwayStart(buf: seq<char>, tok: nat, s: string)
    requires Holds(buf, tok, s)
    ensures Underway(buf, tok, s, "", 0)
  {
    HoldsChars(buf, tok, s);
    assert s[0..] == s;
  }

  lemma UnderwayEnd(buf: seq<char>, tok: nat, s: string, done: string)
    requires Underway(buf, tok, s, done, |s|)
    ensures Holds(buf[tok + |done| := NUL], tok, Unescape(s))
  {
    UnderwayHead(buf, tok, s, done, |s|);
    UnescapeBounds(s);
    HoldsChars(buf[tok + |done| := NUL], tok, done);
  }

  lemma UnderwayStep(buf: seq<char>, tok: nat, s: string, done: string, i: nat)
    requires Underway(buf, tok, s, done, i) && i < |s|
    ensures Underway(buf[tok + |done| := Output(s, i)], tok, s, done + [Output(s, i)], i + Width(s, i))
  {
    UnescapeStep(s, i);
  }

  /** `unescape_segment`: the write position never overtakes the read position. */
  method UnescapeSegment(buf: array<char>, tok: nat, ghost s: string)
    requires Holds(buf[..], tok, s)
    modifies buf
    ensures Holds(buf[..], tok, Unescape(s))
    ensures Around(old(buf[..]), buf[..], tok, |s|)
  {
    var dst, src := tok, tok;
    ghost var done := "";
    UnderwayStart(buf[..], tok, s);
    hide Unescape, Output, Width, Holds, Underway;
    UnderwayHead(buf[..], tok, s, done, 0);
    while buf[src] != NUL
      invariant dst == tok + |done| && tok <= src <= tok + |s| < buf.Length
      invariant Underway(buf[..], tok, s, done, src - tok)
      invariant dst <= src && (buf[src] == NUL <==> src == tok + |s|)
      invariant Around(old(buf[..]), buf[..], tok, |s|)
      decreases tok + |s| - src
    {
      src, done := Advance(buf, src, dst, tok, s, done);
      dst := dst + 1;
    }
    UnderwayEnd(buf[..], tok, s, done);
    buf[dst] := NUL;
  }

  /** Outside the string at `tok` and its terminator nothing changed. */
  ghost predicate Around(was: seq<char>, buf: seq<char>, tok: nat, n: nat) {
    |was| == |buf| && forall k | 0 <= k < |buf| && (k < tok || tok + n < k) :: buf[k] == was[k]
  }

  lemma AroundKeeps(was: seq<char>, buf: seq<char>, tok: nat, n: nat, at: nat, s: string)
    requires Around(was, buf, tok, n) && tok <= |buf|
    ensures buf[..tok] == was[..tok]
    ensures tok + n < at && Holds(was, at, s) ==> Holds(buf, at, s)
  {
    HoldsChars(was, at, s);
    HoldsChars(buf, at, s);
  }

  /** One turn of the loop. */
  method Advance(buf: array<char>, src: nat, dst: nat, ghost tok: nat, ghost s: string, ghost done: string)
    returns (next: nat, ghost now: string)
    requires tok <= src < tok + |s| < buf.Length && dst == tok + |done| && buf[src] != NUL
    requires Underway(buf[..], tok, s, done, src - tok)
    modifies buf
    ensures src < next <= tok + |s| && |now| == |done| + 1
    ensures Underway(buf[..], tok, s, now, next - tok)
    ensures tok + |now| <= next && (buf[next] == NUL <==> next == tok + |s|)
    ensures Around(old(buf[..]), buf[..], tok, |s|)
  {
    hide Underway, Unescape;
    ghost var i := src - tok;
    UnderwayHead(buf[..], tok, s, done, i);
    UnderwayStep(buf[..], tok, s, done, i);
    now := done + [Output(s, i)];
    if buf[src] == '~' && buf[src + 1] == '1' {
      buf[dst] := '/';
      next := src + 2;
    } else if buf[src] == '~' && buf[src + 1] == '0' {
      buf[dst] := '~';
      next := src + 2;
    } else {
      buf[dst] := buf[src];
      next := src + 1;
    }
    UnderwayHead(buf[..], tok, s, now, next - tok);
  }

  /** `strchr(tok, '/')`, as the distance from `tok` to the slash or to the end of the string. */
  method FindSlash(buf: array<char>, tok: nat, ghost s: string) returns (n: nat)
    requires Holds(buf[..], tok, s)
    ensures n <= |s| && '/' !in s[..n] && (n < |s| ==> s[n] == '/')
  {
    n := 0;
    assert forall k | tok <= k < tok + |s| :: buf[k] == s[k - tok];
    while buf[tok + n] != NUL && buf[tok + n] != '/'
      invariant n <= |s| && '/' !in s[..n]
      decreases |s| - n
    {
      n := n + 1;
    }
  }

  /** The counting pass. */
  method CountSlashes(p: string) returns (n: nat)
    ensures n == |Split(p, '/')|
  {
    n := 1;
    assert p[..0] == "";
    for i := 0 to |p|
      invariant n == Count(p[..i], '/') + 1
    {
      CountSplit(p[..i + 1], i, '/');
      assert p[..i + 1][..i] == p[..i] && p[..i + 1][i..] == [p[i]];
      if p[i] == '/' {
        n := n + 1;
      }
    }
    assert p[..|p|] == p;
    SplitCount(p, '/');
  }

  lemma HoldsElsewhere(was: seq<char>, buf: seq<char>, at: nat, s: string, tok: nat)
    requires Holds(was, at, s) && at + |s| < tok <= |was| == |buf|
    requires was[..tok] == buf[..tok]
    ensures Holds(buf, at, s)
  {
    assert was[at..at + |s|] == was[..tok][at..at + |s|] && was[at + |s|] == was[..tok][at + |s|];
  }

  /** Cutting at the slash leaves the first part in place and the rest behind it. */
  lemma HoldsCut(buf: seq<char>, tok: nat, s: string, n: nat)
    requires Holds(buf, tok, s) && n < |s|
    ensures Holds(buf[tok + n := NUL], tok, s[..n])
    ensures Holds(buf[tok + n := NUL], tok + n + 1, s[n + 1..])
  {
  }

  /** Every segment written so far lies, unescaped, before `tok`. */
  ghost predicate Written(buf: seq<char>, segs: seq<nat>, parts: seq<string>, tok: nat) {
    && |segs| == |parts| && tok <= |buf|
    && forall k | 0 <= k < |segs| ::
         Holds(buf, segs[k], Unescape(parts[k])) && segs[k] + |Unescape(parts[k])| < tok
  }

  lemma WrittenNext(was: seq<char>, buf: seq<char>, segs: seq<nat>, parts: seq<string>, tok: nat, part: string,
                    next: nat)
    requires Written(was, segs, parts, tok) && |buf| == |was| && was[..tok] == buf[..tok]
    requires Holds(buf, tok, Unescape(part)) && tok + |Unescape(part)| < next <= |buf|
    ensures Written(buf, segs + [tok], parts + [part], next)
  {
    hide Holds, Unescape;
    forall k | 0 <= k < |segs| ensures Holds(buf, segs[k], Unescape(parts[k])) {
      HoldsElsewhere(was, buf, segs[k], Unescape(parts[k]), tok);
    }
  }

  /** Cuts the first part off the string at `tok` and unescapes it; `rest` is where the others start. */
  method Cut(buf: array<char>, tok: nat, ghost s: string)
    returns (more: bool, rest: nat, ghost part: string, ghost later: string)
    requires Holds(buf[..], tok, s)
    modifies buf
    ensures tok < rest <= buf.Length && buf[..tok] == old(buf[..tok])
    ensures Holds(buf[..], tok, Unescape(part)) && tok + |Unescape(part)| < rest
    ensures Split(s, '/') == [part] + if more then Split(later, '/') else []
    ensures more ==> Holds(buf[..], rest, later)
  {
    hide Holds, Unescape, Around;
    var n := FindSlash(buf, tok, s);
    HoldsChars(buf[..], tok, s);
    rest := tok + n + 1;
    more := buf[tok + n] == '/';
    part := s[..n];
    if more {
      HoldsCut(buf[..], tok, s, n);
      later := s[n + 1..];
      SplitAt(s, '/', n);
      buf[tok + n] := NUL;
    } else {
      later := "";
      assert part == s;
      SplitNone(s, '/');
    }
    ghost var was := buf[..];
    assert was[..tok] == old(buf[..tok]);
    UnescapeBounds(part);
    UnescapeSegment(buf, tok, part);
    AroundKeeps(was, buf[..], tok, n, rest, later);
  }

  /**
   * `oas_jsonptr_parse`: a copy of the pointer is cut and unescaped in place. The counting pass
   * sizes the array of segment positions, and every position is one of a NUL-terminated segment.
   */
  method Parse(pointer: string) returns (ok: bool, buf: array<char>, segs: array<nat>, count: nat)
    requires NUL !in pointer
    ensures ok <==> Segments(pointer).Some?
    ensures ok ==>
      && count == |Segments(pointer).value| == segs.Length
      && forall k | 0 <= k < count :: segs[k] < buf.Length && CStr(buf[segs[k]..]) == Segments(pointer).value[k]
  {
    buf, segs, count := new char[0], new nat[0], 0;
    if |pointer| == 0 {
      return true, buf, segs, 0;
    }
    if pointer[0] != '/' {
      return false, buf, segs, 0;
    }
    var p := pointer[1..];
    var n := CountSlashes(p);
    segs := new nat[n];
    buf := new char[|p| + 1](i => if 0 <= i < |p| then p[i] else NUL);
    HoldsChars(buf[..], 0, p);
    count := CutAll(buf, segs, p);
    forall k | 0 <= k < count ensures CStr(buf[segs[k]..]) == Segments(pointer).value[k] {
      HoldsIsCStr(buf[..], segs[k], Unescape(Split(p, '/')[k]));
    }
    ok := true;
  }

  method CutAll(buf: array<char>, segs: array<nat>, ghost p: string) returns (idx: nat)
    requires Holds(buf[..], 0, p) && segs.Length == |Split(p, '/')|
    modifies buf, segs
    ensures idx == segs.Length && exists tok :: Written(buf[..], segs[..], Split(p, '/'), tok)
  {
    assert Written(buf[..], [], [], 0);
    hide *;
    ghost var all, rest, done := Split(p, '/'), p, [];
    idx := 0;
    var tok, more := 0, true;
    while more
      invariant idx == |done| <= segs.Length
      invariant Written(buf[..], segs[..idx], done, tok)
      invariant more ==> Holds(buf[..], tok, rest)
      invariant all == done + if more then Split(rest, '/') else []
      decreases segs.Length - idx, more
    {
      ghost var was, firsts := buf[..], segs[..idx];
      var again, next, part, later := Cut(buf, tok, rest);
      WrittenNext(was, buf[..], firsts, done, tok, part, next);
      OneMore(done, part, if again then Split(later, '/') else []);
      segs[idx] := tok;
      assert segs[..idx + 1] == firsts + [tok];
      idx, done, rest := idx + 1, done + [part], later;
      tok, more := next, again;
    }
    assert segs[..idx] == segs[..] && done == all;
  }
}
