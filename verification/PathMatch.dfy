/** Matching request paths against path templates. */
module PathMatch {
  import opened Json
  import opened Text

  const MAX_SEGMENTS: nat := 64

  datatype Segment = Static(text: string) | Param(name: string)

  datatype Template = Template(path: string, segments: seq<Segment>, staticCount: nat)

  datatype Parameter = Parameter(name: string, value: string)

  // ----- pieces of a path -----

  function NonEmpty(parts: seq<string>): (r: seq<string>)
    ensures forall p | p in r :: p != []
    ensures |r| <= |parts|
  {
    if parts == [] then []
    else if parts[0] == [] then NonEmpty(parts[1..])
    else [parts[0]] + NonEmpty(parts[1..])
  }

  /** The segments of a path: its non-empty parts between slashes. */
  function Segments(s: string): seq<string> {
    NonEmpty(Split(s, '/'))
  }

  lemma SegmentsStep(s: string, n: nat)
    requires Ends(s, n, '/')
    ensures Segments(s) == (if n > 0 then [s[..n]] else []) + Segments(Behind(s, n))
  {
    SplitFirst(s, n, '/');
    assert ([s[..n]] + Split(Behind(s, n), '/'))[1..] == Split(Behind(s, n), '/');
    assert NonEmpty([[]]) == [];
  }

  /** Where no piece is empty, the pieces are the segments. */
  lemma {:induction false} PiecesAreSegments(s: string)
    requires [] !in Pieces(s, '/')
    ensures Pieces(s, '/') == Segments(s)
    decreases |s|
  {
    if s != [] {
      var n := End(s, '/');
      PiecesStep(s, n, '/');
      SegmentsStep(s, n);
      assert Pieces(s, '/')[0] == s[..n] && Pieces(s, '/')[0] in Pieces(s, '/');
      assert forall p | p in Pieces(Behind(s, n), '/') :: p in Pieces(s, '/');
      PiecesAreSegments(Behind(s, n));
    } else {
      assert NonEmpty([[]]) == [];
    }
  }

  /** A path without its leading slash. */
  function Body(path: string): string {
    if path != [] && path[0] == '/' then path[1..] else path
  }

  lemma BodySegments(path: string)
    ensures Segments(Body(path)) == Segments(path)
  {
    if path != [] && path[0] == '/' {
      SegmentsStep(path, 0);
    }
  }

  // ----- templates -----

  /** `{name}` is a parameter, everything else is static text. */
  function SegmentOf(part: string): Segment {
    if |part| >= 2 && part[0] == '{' && part[|part| - 1] == '}' then Param(part[1..|part| - 1]) else Static(part)
  }

  function SegmentsOf(parts: seq<string>): (r: seq<Segment>)
    ensures |r| == |parts|
  {
    if parts == [] then []
    else SegmentsOf(parts[..|parts| - 1]) + [SegmentOf(parts[|parts| - 1])]
  }

  lemma {:induction false} SegmentsOfAt(parts: seq<string>, i: nat)
    requires i < |parts|
    ensures SegmentsOf(parts)[i] == SegmentOf(parts[i])
    decreases |parts|
  {
    if i < |parts| - 1 { SegmentsOfAt(parts[..|parts| - 1], i); }
  }

  function Statics(segments: seq<Segment>): nat {
    if segments == [] then 0
    else Statics(segments[..|segments| - 1]) + if segments[|segments| - 1].Static? then 1 else 0
  }

  /** Templates with an empty segment in between are rejected. */
  predicate Rejected(tmpl: string) {
    Segments(tmpl) != [] && [] in Pieces(Body(tmpl), '/')
  }

  /** The parsed form of an accepted template. */
  function Parsed(tmpl: string): Template {
    var segments := SegmentsOf(Segments(tmpl));
    Template(tmpl, segments, Statics(segments))
  }

  lemma CountStep(path: string, start: nat, i: nat)
    requires start <= i <= |path| && '/' !in path[start..i] && (i < |path| ==> path[i] == '/')
    ensures |Segments(path[start..])| ==
      (if i > start then 1 else 0) + |Segments(if i + 1 < |path| then path[i + 1..] else "")|
  {
    var rest, n := path[start..], i - start;
    assert rest[..n] == path[start..i];
    SegmentsStep(rest, n);
    assert Behind(rest, n) == if i + 1 < |path| then path[i + 1..] else "";
  }

  lemma NoSegments()
    ensures Segments("") == []
  {
    assert NonEmpty([[]]) == [];
  }

  /** The loop has counted the segments in front of `start`. */
  ghost predicate CountedTo(path: string, start: nat, count: nat) {
    start <= |path| && count + |Segments(path[start..])| == |Segments(path)|
  }

  lemma CountStart(path: string)
    requires path != []
    ensures CountedTo(path, if path[0] == '/' then 1 else 0, 0)
  {
    BodySegments(path);
    assert path[0..] == path;
  }

  lemma CountTurn(path: string, start: nat, i: nat, count: nat)
    requires CountedTo(path, start, count)
    requires start <= i <= |path| && '/' !in path[start..i] && (i < |path| ==> path[i] == '/')
    ensures CountedTo(path, if i < |path| then i + 1 else i, if i > start then count + 1 else count)
  {
    hide Segments;
    CountStep(path, start, i);
    NoSegments();
    assert path[if i < |path| then i + 1 else i..] == if i + 1 < |path| then path[i + 1..] else "";
  }

  lemma CountEnd(path: string, count: nat)
    requires CountedTo(path, |path|, count)
    ensures count == |Segments(path)|
  {
    hide Segments;
    NoSegments();
    assert path[|path|..] == "";
  }

  /** `count_segments`: how many segments `parse_template` makes room for. */
  method CountSegments(path: string) returns (count: nat)
    ensures count == |Segments(path)|
  {
    hide *;
    if |path| == 0 {
      NoSegments();
      return 0;
    }
    CountStart(path);
    count := 0;
    var i := 0;
    if path[0] == '/' {
      i := 1;
    }
    if i >= |path| {
      CountEnd(path, 0);
      return 0;
    }
    var start := i;
    while i <= |path|
      invariant start <= i <= |path| && start < |path|
      invariant '/' !in path[start..i] && CountedTo(path, start, count)
      decreases |path| - i
    {
      if i == |path| || path[i] == '/' {
        CountTurn(path, start, i, count);
        if i > start {
          count := count + 1;
        }
        if i < |path| && i + 1 < |path| {
          start := i + 1;
        } else {
          CountEnd(path, count);
          break;
        }
      }
      i := i + 1;
    }
  }

  lemma SegmentsOfMore(done: seq<string>, part: string)
    ensures SegmentsOf(done + [part]) == SegmentsOf(done) + [SegmentOf(part)]
    ensures Statics(SegmentsOf(done + [part])) ==
      Statics(SegmentsOf(done)) + if SegmentOf(part).Static? then 1 else 0
  {
    var more := SegmentsOf(done) + [SegmentOf(part)];
    assert (done + [part])[..|done|] == done;
    assert more[..|more| - 1] == SegmentsOf(done);
  }

  /** How far a scan has come: `done` was read, without an empty piece, and `rest` is still to be read. */
  ghost predicate Scanned(whole: string, done: seq<string>, rest: string) {
    && [] !in done
    && Pieces(whole, '/') == done + Pieces(rest, '/')
    && Segments(whole) == done + Segments(rest)
  }

  lemma ScanStep(whole: string, done: seq<string>, rest: string, n: nat)
    requires Scanned(whole, done, rest) && rest != [] && Ends(rest, n, '/')
    ensures n == 0 ==> [] in Pieces(whole, '/')
    ensures n > 0 ==> Scanned(whole, done + [rest[..n]], Behind(rest, n)) && |done| < |Segments(whole)|
    ensures |done| < |Pieces(whole, '/')|
  {
    PiecesStep(rest, n, '/');
    SegmentsStep(rest, n);
    hide Pieces, Segments, Behind;
    OneMore(done, rest[..n], Pieces(Behind(rest, n), '/'));
    OneMore(done, rest[..n], Segments(Behind(rest, n)));
    assert Pieces(whole, '/')[|done|] == rest[..n];
  }

  lemma ScanEnd(whole: string, done: seq<string>, path: string, end: nat)
    requires ScannedTo(whole, done, path, end, end)
    ensures Pieces(whole, '/') == Segments(whole) == done && [] !in Pieces(whole, '/')
  {
    NoSegments();
    assert path[end..end] == "";
  }

  lemma BehindSlice(s: string, start: nat, i: nat, end: nat)
    requires start <= i <= end <= |s|
    ensures Behind(s[start..end], i - start) == s[if i < end then i + 1 else i..end]
    ensures s[start..end][..i - start] == s[start..i]
  {
  }

  /** The same for a scan of `path[..end]` that has come to position `i`. */
  ghost predicate ScannedTo(whole: string, done: seq<string>, path: string, i: nat, end: nat) {
    i <= end <= |path| && Scanned(whole, done, path[i..end])
  }

  lemma ScanStart(path: string, i: nat, end: nat)
    requires i <= end <= |path|
    ensures ScannedTo(path[i..end], [], path, i, end)
    ensures Statics([]) == 0 && SegmentsOf([]) == []
  {
  }

  /** The inner loop of both parsers: the piece at `start` ends at the next slash, or at `end`. */
  method SegmentEnd(path: string, start: nat, end: nat, ghost whole: string, ghost done: seq<string>) returns (i: nat)
    requires start < end && ScannedTo(whole, done, path, start, end)
    ensures start <= i <= end
    ensures i == start ==> [] in Pieces(whole, '/')
    ensures i > start ==> |done| < |Segments(whole)|
    ensures i > start ==> ScannedTo(whole, done + [path[start..i]], path, if i < end then i + 1 else i, end)
    ensures |done| < |Pieces(whole, '/')|
  {
    hide Scanned, Pieces, Segments;
    i := start;
    while i < end && path[i] != '/'
      invariant start <= i <= end && '/' !in path[start..i]
    {
      i := i + 1;
    }
    PieceFound(path, start, i, end, whole, done);
  }

  lemma PieceFound(path: string, start: nat, i: nat, end: nat, whole: string, done: seq<string>)
    requires start < end && ScannedTo(whole, done, path, start, end)
    requires start <= i <= end && '/' !in path[start..i] && (i < end ==> path[i] == '/')
    ensures i == start ==> [] in Pieces(whole, '/')
    ensures i > start ==> |done| < |Segments(whole)|
    ensures i > start ==> ScannedTo(whole, done + [path[start..i]], path, if i < end then i + 1 else i, end)
    ensures |done| < |Pieces(whole, '/')|
  {
    hide Scanned, Pieces, Segments, Behind;
    BehindSlice(path, start, i, end);
    ScanStep(whole, done, path[start..end], i - start);
  }

  /** `parse_template`. The array it fills has exactly as many cells as `count_segments` found segments. */
  method ParseTemplate(tmpl: string) returns (r: Option<Template>)
    ensures r == if Rejected(tmpl) then None else Some(Parsed(tmpl))
  {
    BodySegments(tmpl);
    NoSegments();
    if |tmpl| == 1 && tmpl[0] == '/' {
      ScanStart(tmpl, 1, 1);
      assert Body(tmpl) == tmpl[1..1];
      ScanEnd(Body(tmpl), [], tmpl, 1);
      return Some(Template(tmpl, [], 0));
    }
    var nseg := CountSegments(tmpl);
    if nseg == 0 {
      return Some(Template(tmpl, [], 0));
    }
    var i := if tmpl[0] == '/' then 1 else 0;
    assert Body(tmpl) == tmpl[i..|tmpl|] && !Rejected(tmpl) == ([] !in Pieces(Body(tmpl), '/'));
    r := Scan(tmpl, i, nseg);
  }

  method Scan(tmpl: string, from: nat, nseg: nat) returns (r: Option<Template>)
    requires from <= |tmpl| && nseg == |Segments(tmpl[from..|tmpl|])|
    requires Segments(tmpl) == Segments(tmpl[from..|tmpl|])
    ensures r == if [] in Pieces(tmpl[from..|tmpl|], '/') then None else Some(Parsed(tmpl))
  {
    hide *;
    var segments := new Segment[nseg];
    var count, statics, i := 0, 0, from;
    ghost var body, done := tmpl[from..|tmpl|], [];
    ScanStart(tmpl, from, |tmpl|);
    while i < |tmpl|
      invariant i <= |tmpl| && count == |done| <= nseg
      invariant ScannedTo(body, done, tmpl, i, |tmpl|)
      invariant segments[..count] == SegmentsOf(done) && statics == Statics(SegmentsOf(done))
    {
      var start := i;
      i := SegmentEnd(tmpl, start, |tmpl|, body, done);
      if i == start {
        return None;
      }
      statics := PutSegment(segments, count, statics, tmpl[start..i], done);
      done := done + [tmpl[start..i]];
      count := count + 1;
      if i < |tmpl| {
        i := i + 1;
      }
    }
    ScanEnd(body, done, tmpl, |tmpl|);
    ParsedIs(tmpl);
    return Some(Template(tmpl, segments[..count], statics));
  }

  lemma ParsedIs(tmpl: string)
    ensures var segments := SegmentsOf(Segments(tmpl)); Parsed(tmpl) == Template(tmpl, segments, Statics(segments))
  {
  }

  method PutSegment(segments: array<Segment>, count: nat, statics: nat, part: string, ghost done: seq<string>)
    returns (now: nat)
    requires count == |done| < segments.Length
    requires segments[..count] == SegmentsOf(done) && statics == Statics(SegmentsOf(done))
    modifies segments
    ensures segments[..count + 1] == SegmentsOf(done + [part]) && now == Statics(SegmentsOf(done + [part]))
  {
    SegmentsOfMore(done, part);
    segments[count] := SegmentOf(part);
    now := if segments[count].Static? then statics + 1 else statics;
    assert segments[..count + 1] == SegmentsOf(done) + [segments[count]];
  }

  // ----- requests -----

  /** A path longer than "/" loses one trailing slash. */
  function Normal(path: string): string {
    if |path| > 1 && path[|path| - 1] == '/' then path[..|path| - 1] else path
  }

  /** The segments of a request path; nothing when one is empty or there are too many. */
  function RequestParts(path: string): Option<seq<string>> {
    var pieces := Pieces(Body(Normal(path)), '/');
    if [] in pieces || |pieces| > MAX_SEGMENTS then None else Some(pieces)
  }

  /** The first cells of the two arrays cut these parts out of the path. */
  ghost predicate Cut(path: string, starts: seq<nat>, lens: seq<nat>, parts: seq<string>) {
    && |parts| <= |starts| && |parts| <= |lens|
    && forall k | 0 <= k < |parts| ::
         starts[k] + lens[k] <= |path| && path[starts[k]..starts[k] + lens[k]] == parts[k]
  }

  lemma CutMore(path: string, starts: seq<nat>, lens: seq<nat>, parts: seq<string>, start: nat, end: nat)
    requires Cut(path, starts, lens, parts) && start <= end <= |path|
    requires |parts| < |starts| && |parts| < |lens|
    ensures Cut(path, starts[|parts| := start], lens[|parts| := end - start], parts + [path[start..end]])
  {
  }

  lemma PartsAre(path: string, done: seq<string>, end: nat)
    requires end <= |path| && path[..end] == Normal(path) && |done| <= MAX_SEGMENTS
    requires ScannedTo(Body(Normal(path)), done, path, end, end)
    ensures RequestParts(path) == Some(done)
  {
    hide Pieces, Scanned, ScannedTo;
    ScanEnd(Body(Normal(path)), done, path, end);
  }

  lemma TooMany(path: string, done: seq<string>, i: nat, end: nat)
    requires ScannedTo(Body(Normal(path)), done, path, i, end) && i < end && |done| >= MAX_SEGMENTS
    ensures RequestParts(path).None?
  {
    var n := End(path[i..end], '/');
    ScanStep(Body(Normal(path)), done, path[i..end], n);
  }

  lemma EmptyPiece(path: string)
    requires [] in Pieces(Body(Normal(path)), '/')
    ensures RequestParts(path).None?
  {
  }

  lemma NothingCut(path: string, starts: seq<nat>, lens: seq<nat>)
    ensures Cut(path, starts, lens, [])
  {
  }

  /** `split_request_path`, writing into arrays of `MAX_SEGMENTS` cells. */
  method SplitRequest(path: string, starts: array<nat>, lens: array<nat>) returns (ok: bool, count: nat)
    requires path != [] && starts.Length == lens.Length == MAX_SEGMENTS && starts != lens
    modifies starts, lens
    ensures ok <==> RequestParts(path).Some?
    ensures ok ==> count == |RequestParts(path).value| && Cut(path, starts[..], lens[..], RequestParts(path).value)
  {
    count := 0;
    if |path| == 1 && path[0] == '/' {
      NoSegments();
      assert RequestParts(path) == Some([]);
      return true, 0;
    }
    var end := |path|;
    if end > 1 && path[end - 1] == '/' {
      end := end - 1;
    }
    var i := if path[0] == '/' then 1 else 0;
    assert Body(Normal(path)) == path[i..end] && Normal(path) == path[..end];
    ok, count := SplitFrom(path, i, end, starts, lens);
  }

  method SplitFrom(path: string, from: nat, end: nat, starts: array<nat>, lens: array<nat>)
    returns (ok: bool, count: nat)
    requires starts.Length == lens.Length == MAX_SEGMENTS && starts != lens
    requires from <= end <= |path| && Normal(path) == path[..end] && Body(Normal(path)) == path[from..end]
    modifies starts, lens
    ensures ok <==> RequestParts(path).Some?
    ensures ok ==> count == |RequestParts(path).value| && Cut(path, starts[..], lens[..], RequestParts(path).value)
  {
    hide *;
    ghost var body, done := path[from..end], [];
    ScanStart(path, from, end);
    NothingCut(path, starts[..], lens[..]);
    var i := from;
    count := 0;
    while i < end
      invariant i <= end && count == |done| <= MAX_SEGMENTS
      invariant ScannedTo(body, done, path, i, end)
      invariant Cut(path, starts[..], lens[..], done)
    {
      if count >= MAX_SEGMENTS {
        TooMany(path, done, i, end);
        return false, count;
      }
      var start := i;
      i := SegmentEnd(path, start, end, body, done);
      if i == start {
        EmptyPiece(path);
        return false, count;
      }
      CutMore(path, starts[..], lens[..], done, start, i);
      starts[count] := start;
      lens[count] := i - start;
      done := done + [path[start..i]];
      count := count + 1;
      if i < end {
        i := i + 1;
      }
    }
    PartsAre(path, done, end);
    ok := true;
  }

  // ----- matching -----

  predicate FitsAt(segments: seq<Segment>, parts: seq<string>, i: nat)
    requires i < |segments| == |parts|
  {
    segments[i].Static? ==> segments[i].text == parts[i]
  }

  /** Same length, and every static segment equals the part of the request. */
  ghost predicate Fits(segments: seq<Segment>, parts: seq<string>) {
    |segments| == |parts| && forall i: nat | i < |segments| :: FitsAt(segments, parts, i)
  }

  /** The parameters of a template with the parts they stand for. */
  function Bindings(segments: seq<Segment>, parts: seq<string>): seq<Parameter>
    requires |segments| == |parts|
  {
    if segments == [] then []
    else
      var n := |segments| - 1;
      Bindings(segments[..n], parts[..n]) +
      if segments[n].Param? then [Parameter(segments[n].name, parts[n])] else []
  }

  /** The segments with the values of the parameters filled in. */
  function Fill(segments: seq<Segment>, params: seq<Parameter>): seq<string> {
    if segments == [] then []
    else
      var n := |segments| - 1;
      if segments[n].Static? then Fill(segments[..n], params) + [segments[n].text]
      else if params == [] then []
      else Fill(segments[..n], params[..|params| - 1]) + [params[|params| - 1].value]
  }

  /** Substituting the extracted values gives the parts of the request back. */
  lemma {:induction false} FillBindings(segments: seq<Segment>, parts: seq<string>)
    requires Fits(segments, parts)
    ensures Fill(segments, Bindings(segments, parts)) == parts
    ensures |Bindings(segments, parts)| == |segments| - Statics(segments)
    decreases |segments|
  {
    if segments != [] {
      var n := |segments| - 1;
      var front, back := segments[..n], parts[..n];
      forall i: nat | i < n ensures FitsAt(front, back, i) {
        assert FitsAt(segments, parts, i);
      }
      assert FitsAt(segments, parts, n);
      FillBindings(front, back);
      var params := Bindings(segments, parts);
      assert if segments[n].Param? then params[..|params| - 1] == Bindings(front, back)
             else params == Bindings(front, back);
      assert back + [parts[n]] == parts;
    }
  }

  function Rebuild(parts: seq<string>): string {
    if parts == [] then "/" else "/" + Join(parts, '/')
  }

  /** The code strips one trailing slash, but its loop also passes over a second one. */
  predicate DoubleTail(path: string) {
    |path| > 2 && path[|path| - 1] == '/' && path[|path| - 2] == '/'
  }

  lemma RebuildPieces(s: string)
    requires [] !in Pieces(s, '/')
    ensures Rebuild(Pieces(s, '/')) == "/" + if s != [] && s[|s| - 1] == '/' then s[..|s| - 1] else s
  {
    var parts := Split(s, '/');
    LastPart(s, '/');
    JoinSplit(s, '/');
    if parts[|parts| - 1] == [] && |parts| > 1 {
      assert s[..|s| - 1] == Join(parts[..|parts| - 1], '/');
    }
  }

  /** Joining the parts of a request gives back its path less one trailing slash, or two where there are two. */
  lemma RebuildRequest(path: string)
    requires path != [] && path[0] == '/' && RequestParts(path).Some?
    ensures Rebuild(RequestParts(path).value) == if DoubleTail(path) then path[..|path| - 2] else Normal(path)
    ensures Rebuild(RequestParts(path).value) == Normal(path) <==> !DoubleTail(path)
  {
    hide Rebuild, Pieces;
    var s := Body(Normal(path));
    RebuildPieces(s);
    assert DoubleTail(path) <==> s != [] && s[|s| - 1] == '/';
    assert Normal(path) == "/" + s;
    assert DoubleTail(path) ==> "/" + s[..|s| - 1] == path[..|path| - 2];
  }

  /** Two slashes behind a path change nothing, although empty segments are otherwise rejected. */
  lemma DoubleTailIgnored(path: string)
    requires |path| > 1 && path[0] == '/' && path[|path| - 1] != '/'
    ensures RequestParts(path + "//") == RequestParts(path)
  {
    var s := Body(path);
    assert Normal(path + "//") == path + "/" && Body(path + "/") == s + "/" && Normal(path) == path;
    SplitEnd(s, '/');
    LastPart(s, '/');
    assert s[|s| - 1] != '/';
  }

  lemma DoubleSlashAtEnd()
    ensures RequestParts("/a//") == Some(["a"])
    ensures Rebuild(["a"]) == "/a" != Normal("/a//")
  {
    hide Split;
    DoubleTailIgnored("/a");
    SplitNone("a", '/');
    assert "/a" + "//" == "/a//" && Normal("/a") == "/a" && Body("/a") == "a";
    assert Pieces("a", '/') == ["a"];
    assert Normal("/a//") == "/a/";
  }

  /** Template number `i` fits, has the most static segments of those that fit, and is the first of these. */
  ghost predicate Best(matcher: seq<Template>, parts: seq<string>, i: nat) {
    && i < |matcher| && Fits(matcher[i].segments, parts)
    && forall j: nat | j < |matcher| && Fits(matcher[j].segments, parts) ::
         Statics(matcher[j].segments) <= Statics(matcher[i].segments)
         && (j < i ==> Statics(matcher[j].segments) < Statics(matcher[i].segments))
  }

  ghost predicate Counted(matcher: seq<Template>) {
    forall t | t in matcher :: t.staticCount == Statics(t.segments)
  }

  /** `oas_path_matcher_create`: one rejected template fails the whole set. */
  method CreateMatcher(templates: seq<string>) returns (r: Option<seq<Template>>)
    ensures r.None? <==> templates == [] || exists t :: t in templates && Rejected(t)
    ensures r.Some? ==> |r.value| == |templates| && Counted(r.value)
    ensures r.Some? ==> forall i | 0 <= i < |templates| :: r.value[i] == Parsed(templates[i])
  {
    hide Rejected, Statics, SegmentsOf, Segments;
    if |templates| == 0 {
      return None;
    }
    var matcher := [];
    for i := 0 to |templates|
      invariant |matcher| == i && Counted(matcher)
      invariant forall k | 0 <= k < i :: matcher[k] == Parsed(templates[k]) && !Rejected(templates[k])
    {
      var t := ParseTemplate(templates[i]);
      if t.None? {
        return None;
      }
      matcher := matcher + [t.value];
    }
    return Some(matcher);
  }

  method TryMatch(tmpl: Template, path: string, starts: array<nat>, lens: array<nat>, count: nat,
                  ghost parts: seq<string>) returns (yes: bool)
    requires count == |parts| && Cut(path, starts[..], lens[..], parts)
    ensures yes <==> Fits(tmpl.segments, parts)
  {
    if |tmpl.segments| != count {
      return false;
    }
    for i := 0 to count
      invariant forall k: nat | k < i :: FitsAt(tmpl.segments, parts, k)
    {
      var segment := tmpl.segments[i];
      assert path[starts[i]..starts[i] + lens[i]] == parts[i];
      if segment.Static? {
        if |segment.text| != lens[i] || segment.text != path[starts[i]..starts[i] + lens[i]] {
          assert !FitsAt(tmpl.segments, parts, i);
          return false;
        }
      }
    }
    yes := true;
  }

  datatype Result = Invalid | NoMatch | Matched(path: string, params: seq<Parameter>)

  /** Among the first `n` templates: none fits, or `best` is the best of them. */
  ghost predicate BestOf(matcher: seq<Template>, parts: seq<string>, n: nat, best: Option<nat>) {
    n <= |matcher| &&
    if best.Some? then best.value < n && Best(matcher[..n], parts, best.value)
    else forall i: nat | i < n :: !Fits(matcher[i].segments, parts)
  }

  lemma BestStep(matcher: seq<Template>, parts: seq<string>, n: nat, best: Option<nat>)
    requires BestOf(matcher, parts, n, best) && n < |matcher|
    ensures var better := best.None? || Statics(matcher[best.value].segments) < Statics(matcher[n].segments);
      BestOf(matcher, parts, n + 1, if Fits(matcher[n].segments, parts) && better then Some(n) else best)
  {
    hide Fits, Statics;
    assert matcher[..n + 1] == matcher[..n] + [matcher[n]];
  }

  /** The loop that keeps the first best template. */
  method FindBest(matcher: seq<Template>, path: string, starts: array<nat>, lens: array<nat>, count: nat,
                  ghost parts: seq<string>) returns (best: Option<nat>)
    requires count == |parts| && Cut(path, starts[..], lens[..], parts) && Counted(matcher)
    ensures BestOf(matcher, parts, |matcher|, best)
  {
    hide Fits, Statics, Cut, Best;
    best := None;
    for i := 0 to |matcher|
      invariant BestOf(matcher, parts, i, best)
    {
      BestStep(matcher, parts, i, best);
      assert matcher[i] in matcher && (best.Some? ==> matcher[best.value] in matcher);
      var fits := TryMatch(matcher[i], path, starts, lens, count, parts);
      if fits {
        if best.None? || matcher[i].staticCount > matcher[best.value].staticCount {
          best := Some(i);
        }
      }
    }
  }

  lemma BindingsStep(segments: seq<Segment>, parts: seq<string>, i: nat)
    requires |segments| == |parts| && i < |segments|
    ensures Bindings(segments[..i + 1], parts[..i + 1]) == Bindings(segments[..i], parts[..i]) +
      if segments[i].Param? then [Parameter(segments[i].name, parts[i])] else []
    ensures |Bindings(segments[..i + 1], parts[..i + 1])| <= |Bindings(segments, parts)|
  {
    assert segments[..i + 1][..i] == segments[..i] && parts[..i + 1][..i] == parts[..i];
    BindingsGrow(segments, parts, i + 1);
  }

  lemma {:induction false} BindingsGrow(segments: seq<Segment>, parts: seq<string>, i: nat)
    requires |segments| == |parts| && i <= |segments|
    ensures |Bindings(segments[..i], parts[..i])| <= |Bindings(segments, parts)|
    decreases |segments|
  {
    if i < |segments| {
      var n := |segments| - 1;
      BindingsGrow(segments[..n], parts[..n], i);
      assert segments[..n][..i] == segments[..i] && parts[..n][..i] == parts[..i];
    } else {
      assert segments[..i] == segments && parts[..i] == parts;
    }
  }

  /** The two passes over the winning template: counting its parameters, then filling the array. */
  method Extract(segments: seq<Segment>, path: string, starts: array<nat>, lens: array<nat>, ghost parts: seq<string>)
    returns (params: seq<Parameter>)
    requires |segments| == |parts| && Cut(path, starts[..], lens[..], parts)
    ensures params == Bindings(segments, parts)
  {
    hide Bindings, Cut;
    var total := CountParams(segments, parts);
    var cells := new Parameter[total];
    var filled := 0;
    NoBindings(segments, parts);
    for i := 0 to |segments|
      invariant filled <= total && cells[..filled] == Bindings(segments[..i], parts[..i])
    {
      BindingsStep(segments, parts, i);
      CutPart(path, starts[..], lens[..], parts, i);
      if segments[i].Param? {
        ghost var before := cells[..filled];
        cells[filled] := Parameter(segments[i].name, path[starts[i]..starts[i] + lens[i]]);
        filled := filled + 1;
        assert cells[..filled] == before + [cells[filled - 1]];
      }
    }
    NoBindings(segments, parts);
    params := cells[..filled];
  }

  lemma CutPart(path: string, starts: seq<nat>, lens: seq<nat>, parts: seq<string>, k: nat)
    requires Cut(path, starts, lens, parts) && k < |parts|
    ensures k < |starts| && k < |lens| && starts[k] + lens[k] <= |path|
    ensures path[starts[k]..starts[k] + lens[k]] == parts[k]
  {
  }

  lemma NoBindings(segments: seq<Segment>, parts: seq<string>)
    requires |segments| == |parts|
    ensures Bindings(segments[..0], parts[..0]) == []
    ensures Bindings(segments[..|segments|], parts[..|segments|]) == Bindings(segments, parts)
  {
    assert segments[..|segments|] == segments && parts[..|segments|] == parts;
  }

  method CountParams(segments: seq<Segment>, ghost parts: seq<string>) returns (n: nat)
    requires |segments| == |parts|
    ensures n == |Bindings(segments, parts)|
  {
    hide Bindings;
    n := 0;
    NoBindings(segments, parts);
    for i := 0 to |segments|
      invariant n == |Bindings(segments[..i], parts[..i])|
    {
      BindingsStep(segments, parts, i);
      if segments[i].Param? {
        n := n + 1;
      }
    }
    NoBindings(segments, parts);
  }

  /** `oas_path_match`. */
  method Match(matcher: seq<Template>, path: string) returns (r: Result, ghost index: nat)
    requires Counted(matcher)
    ensures r.Invalid? <==> path == [] || path[0] != '/'
    ensures !r.Invalid? ==>
      (r.Matched? <==> RequestParts(path).Some? &&
                       exists i | 0 <= i < |matcher| :: Fits(matcher[i].segments, RequestParts(path).value))
    ensures r.Matched? ==>
      && Best(matcher, RequestParts(path).value, index)
      && r.path == matcher[index].path
      && Fill(matcher[index].segments, r.params) == RequestParts(path).value
      && r.params == Bindings(matcher[index].segments, RequestParts(path).value)
  {
    hide RequestParts, Cut, Statics, Bindings, Fill;
    index := 0;
    if |path| == 0 || path[0] != '/' {
      return Invalid, 0;
    }
    var starts, lens := new nat[MAX_SEGMENTS], new nat[MAX_SEGMENTS];
    var ok, count := SplitRequest(path, starts, lens);
    if !ok {
      return NoMatch, 0;
    }
    ghost var parts := RequestParts(path).value;
    var best := FindBest(matcher, path, starts, lens, count, parts);
    assert matcher[..|matcher|] == matcher;
    if best.None? {
      return NoMatch, 0;
    }
    var segments := matcher[best.value].segments;
    var params := Extract(segments, path, starts, lens, parts);
    FillBindings(segments, parts);
    r, index := Matched(matcher[best.value].path, params), best.value;
  }
}
