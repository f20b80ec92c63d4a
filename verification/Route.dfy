/** What matching means for templates and requests as they are written: `{name}` stands for any segment, everything
    else for itself. */
module Routes {
  import opened Json
  import opened Text
  import opened PathMatch

  /** A segment in braces, with this between them. */
  predicate Braced(piece: string, name: string) {
    piece == "{" + name + "}"
  }

  ghost predicate IsBraced(piece: string) {
    exists name :: Braced(piece, name)
  }

  lemma SegmentIs(piece: string)
    ensures forall name :: SegmentOf(piece) == Param(name) <==> Braced(piece, name)
    ensures !IsBraced(piece) <==> SegmentOf(piece) == Static(piece)
  {
    if |piece| >= 2 && piece[0] == '{' && piece[|piece| - 1] == '}' {
      assert piece == "{" + piece[1..|piece| - 1] + "}";
      assert Braced(piece, piece[1..|piece| - 1]);
    }
    forall name | Braced(piece, name) ensures SegmentOf(piece) == Param(name) {
      assert piece[1..|piece| - 1] == name;
    }
  }

  /** The segments of an accepted template: a parameter for a piece in braces, its own text for any other. */
  lemma TemplateSegments(tmpl: string, i: nat)
    requires i < |Segments(tmpl)|
    ensures |Parsed(tmpl).segments| == |Segments(tmpl)|
    ensures forall name :: Parsed(tmpl).segments[i] == Param(name) <==> Braced(Segments(tmpl)[i], name)
    ensures !IsBraced(Segments(tmpl)[i]) <==> Parsed(tmpl).segments[i] == Static(Segments(tmpl)[i])
  {
    hide Segments, SegmentOf, IsBraced;
    SegmentsOfAt(Segments(tmpl), i);
    SegmentIs(Segments(tmpl)[i]);
  }

  /** The request agrees with every piece of the template that is not in braces. */
  ghost predicate Agrees(pieces: seq<string>, parts: seq<string>) {
    |pieces| == |parts| && forall i | 0 <= i < |pieces| :: IsBraced(pieces[i]) || pieces[i] == parts[i]
  }

  lemma FitsIsAgrees(tmpl: string, parts: seq<string>)
    ensures Fits(Parsed(tmpl).segments, parts) <==> Agrees(Segments(tmpl), parts)
  {
    hide Segments, SegmentOf, IsBraced;
    var pieces, segments := Segments(tmpl), Parsed(tmpl).segments;
    if |pieces| == |parts| {
      forall i: nat | i < |pieces|
        ensures FitsAt(segments, parts, i) <==> IsBraced(pieces[i]) || pieces[i] == parts[i]
      {
        SegmentsOfAt(pieces, i);
        SegmentIs(pieces[i]);
        if IsBraced(pieces[i]) { BracedIs(pieces[i]); }
      }
    }
  }

  lemma BracedIs(piece: string)
    requires IsBraced(piece)
    ensures SegmentOf(piece).Param?
  {
    hide SegmentOf;
    var name :| Braced(piece, name);
    SegmentIs(piece);
  }

  /** `at` are the places of the pieces in braces, in order. */
  ghost predicate BracedAt(pieces: seq<string>, at: seq<nat>) {
    && (forall k | 0 <= k < |at| :: at[k] < |pieces| && IsBraced(pieces[at[k]]))
    && (forall j, k | 0 <= j < k < |at| :: at[j] < at[k])
    && (forall i | 0 <= i < |pieces| && IsBraced(pieces[i]) :: i in at)
  }

  /** Each of them gives one parameter: the name between the braces, and the piece of the request. */
  ghost predicate Bound(pieces: seq<string>, parts: seq<string>, at: seq<nat>, params: seq<Parameter>) {
    && |params| == |at|
    && forall k | 0 <= k < |at| ::
         at[k] < |pieces| && at[k] < |parts| && Braced(pieces[at[k]], params[k].name) && params[k].value == parts[at[k]]
  }

  ghost predicate Lists(pieces: seq<string>, parts: seq<string>, params: seq<Parameter>) {
    exists at :: BracedAt(pieces, at) && Bound(pieces, parts, at, params)
  }

  lemma BindingsStep(pieces: seq<string>, parts: seq<string>, n: nat)
    requires |pieces| == |parts| == n + 1
    ensures Bindings(SegmentsOf(pieces), parts) == Bindings(SegmentsOf(pieces[..n]), parts[..n]) +
      if SegmentOf(pieces[n]).Param? then [Parameter(SegmentOf(pieces[n]).name, parts[n])] else []
  {
    hide SegmentOf;
    assert SegmentsOf(pieces)[..n] == SegmentsOf(pieces[..n]);
  }

  lemma PlacesStep(pieces: seq<string>, at: seq<nat>, n: nat)
    requires |pieces| == n + 1 && BracedAt(pieces[..n], at)
    ensures BracedAt(pieces, if IsBraced(pieces[n]) then at + [n] else at)
  {
    hide IsBraced, BracedAt;
    PlacesOf(pieces[..n], at);
    var more := if IsBraced(pieces[n]) then at + [n] else at;
    forall k | 0 <= k < |more| ensures more[k] <= n && IsBraced(pieces[more[k]]) {
      if k < |at| { assert more[k] == at[k] && pieces[..n][at[k]] == pieces[at[k]]; }
    }
    forall i | 0 <= i < |pieces| && IsBraced(pieces[i]) ensures i in more {
      if i < n { assert pieces[..n][i] == pieces[i]; }
    }
    PlacesAre(pieces, more);
  }

  lemma PlacesOf(pieces: seq<string>, at: seq<nat>)
    requires BracedAt(pieces, at)
    ensures forall k | 0 <= k < |at| :: at[k] < |pieces| && IsBraced(pieces[at[k]])
    ensures forall j, k | 0 <= j < k < |at| :: at[j] < at[k]
    ensures forall i | 0 <= i < |pieces| && IsBraced(pieces[i]) :: i in at
  {
    hide IsBraced;
  }

  lemma PlacesAre(pieces: seq<string>, at: seq<nat>)
    requires forall k | 0 <= k < |at| :: at[k] < |pieces| && IsBraced(pieces[at[k]])
    requires forall j, k | 0 <= j < k < |at| :: at[j] < at[k]
    requires forall i | 0 <= i < |pieces| && IsBraced(pieces[i]) :: i in at
    ensures BracedAt(pieces, at)
  {
    hide IsBraced;
  }

  lemma {:induction false} BindingsList(pieces: seq<string>, parts: seq<string>) returns (at: seq<nat>)
    requires |pieces| == |parts|
    ensures BracedAt(pieces, at) && Bound(pieces, parts, at, Bindings(SegmentsOf(pieces), parts))
    decreases |pieces|
  {
    hide SegmentOf, IsBraced, Braced, SegmentsOf, BracedAt, Bindings;
    if pieces == [] {
      NothingBound(pieces, parts);
      at := [];
    } else {
      var n := |pieces| - 1;
      at := BindingsList(pieces[..n], parts[..n]);
      SegmentIs(pieces[n]);
      BindingsStep(pieces, parts, n);
      PlacesStep(pieces, at, n);
      if IsBraced(pieces[n]) {
        BracedIs(pieces[n]);
        at := at + [n];
        assert Braced(pieces[n], SegmentOf(pieces[n]).name);
      }
    }
  }

  lemma NothingBound(pieces: seq<string>, parts: seq<string>)
    requires pieces == parts == []
    ensures BracedAt(pieces, []) && Bindings(SegmentsOf(pieces), parts) == []
  {
  }

  lemma PlacedAlike(pieces: seq<string>, a: seq<nat>, b: seq<nat>, k: nat)
    requires BracedAt(pieces, a) && BracedAt(pieces, b) && k < |a| && k <= |b| && a[..k] == b[..k]
    ensures k < |b| && b[k] <= a[k]
  {
    hide IsBraced;
    forall j | 0 <= j < k ensures b[j] == a[j] < a[k] { assert a[..k][j] == b[..k][j]; }
    assert a[k] in b;
  }

  lemma {:induction false} PlacesAlike(pieces: seq<string>, a: seq<nat>, b: seq<nat>, k: nat)
    requires BracedAt(pieces, a) && BracedAt(pieces, b) && k <= |a|
    ensures k <= |b| && a[..k] == b[..k]
  {
    hide BracedAt;
    if k > 0 {
      PlacesAlike(pieces, a, b, k - 1);
      PlacedAlike(pieces, a, b, k - 1);
      PlacedAlike(pieces, b, a, k - 1);
      assert a[..k] == a[..k - 1] + [a[k - 1]] && b[..k] == b[..k - 1] + [b[k - 1]];
    }
  }

  /** There is only one such list. */
  lemma ListsOnce(pieces: seq<string>, parts: seq<string>, p: seq<Parameter>, q: seq<Parameter>)
    requires Lists(pieces, parts, p) && Lists(pieces, parts, q)
    ensures p == q
  {
    hide BracedAt;
    var a :| BracedAt(pieces, a) && Bound(pieces, parts, a, p);
    var b :| BracedAt(pieces, b) && Bound(pieces, parts, b, q);
    PlacesAlike(pieces, a, b, |a|);
    PlacesAlike(pieces, b, a, |b|);
    assert a[..|a|] == a && b[..|b|] == b;
    forall k | 0 <= k < |p| ensures p[k] == q[k] {
      var piece := pieces[a[k]];
      assert piece[1..|piece| - 1] == p[k].name && piece[1..|piece| - 1] == q[k].name;
    }
  }

  /** How many pieces of a template are not in braces. */
  ghost function Plain(pieces: seq<string>): nat {
    |set i | 0 <= i < |pieces| && !IsBraced(pieces[i])|
  }

  lemma PlainStep(pieces: seq<string>, n: nat)
    requires |pieces| == n + 1
    ensures Plain(pieces) == Plain(pieces[..n]) + if IsBraced(pieces[n]) then 0 else 1
  {
    hide IsBraced;
    var front := set i | 0 <= i < n && !IsBraced(pieces[..n][i]);
    var all := set i | 0 <= i < |pieces| && !IsBraced(pieces[i]);
    assert all == front + if IsBraced(pieces[n]) then {} else {n};
  }

  lemma StaticsStep(pieces: seq<string>, n: nat)
    requires |pieces| == n + 1
    ensures Statics(SegmentsOf(pieces)) == Statics(SegmentsOf(pieces[..n])) + if SegmentOf(pieces[n]).Static? then 1
        else 0
  {
    hide SegmentOf;
    assert SegmentsOf(pieces)[..n] == SegmentsOf(pieces[..n]);
  }

  lemma {:induction false} StaticsArePlain(pieces: seq<string>)
    ensures Statics(SegmentsOf(pieces)) == Plain(pieces)
    decreases |pieces|
  {
    hide SegmentOf, IsBraced, Plain, SegmentsOf, Statics;
    if pieces == [] {
      NothingPlain();
    } else {
      var n := |pieces| - 1;
      StaticsArePlain(pieces[..n]);
      SegmentIs(pieces[n]);
      if IsBraced(pieces[n]) { BracedIs(pieces[n]); }
      PlainStep(pieces, n);
      StaticsStep(pieces, n);
    }
  }

  lemma NothingPlain()
    ensures Statics(SegmentsOf([])) == Plain([]) == 0
  {
    var none: seq<string> := [];
    assert (set i | 0 <= i < |none| && !IsBraced(none[i])) == {};
  }

  // ----- paths made of parts -----

  lemma {:induction false} NonEmptyParts(parts: seq<string>)
    requires "" !in parts
    ensures NonEmpty(parts) == parts
  {
    if parts != [] { NonEmptyParts(parts[1..]); }
  }

  /** A template made of non-empty parts is accepted, and these are its segments. */
  lemma TemplateOfParts(parts: seq<string>)
    requires forall p | p in parts :: p != "" && '/' !in p
    ensures !Rejected(Rebuild(parts)) && Segments(Rebuild(parts)) == parts
  {
    hide Split, Join;
    var s := if parts == [] then "" else Join(parts, '/');
    assert Rebuild(parts) == "/" + s && Body("/" + s) == s;
    BodySegments("/" + s);
    if parts == [] {
      NoSegments();
    } else {
      SplitJoin(parts, '/');
      NonEmptyParts(parts);
      assert parts[|parts| - 1] in parts;
    }
  }

  /** A request made of at most 64 parts is cut into them again; one of more is refused. */
  lemma RequestOfParts(parts: seq<string>)
    requires forall p | p in parts :: p != "" && '/' !in p
    ensures RequestParts(Rebuild(parts)) == if |parts| <= 64 then Some(parts) else None
  {
    hide Split, Join;
    if parts == [] {
      NoPieces('/');
      assert Normal("/") == "/" && Body("/") == "";
    } else {
      var s := Join(parts, '/');
      SplitJoin(parts, '/');
      LastPart(s, '/');
      assert parts[|parts| - 1] in parts;
      assert Normal("/" + s) == "/" + s && Body("/" + s) == s;
      assert Pieces(s, '/') == parts;
    }
  }

  // ----- from templates to a match -----

  /** `oas_path_matcher_create` and then `oas_path_match`. */
  method Route(templates: seq<string>, path: string) returns (r: Option<Result>, ghost at: nat)
    ensures r.None? <==> templates == [] || exists t :: t in templates && Rejected(t)
    ensures r.Some? && r.value.Invalid? ==> path == "" || path[0] != '/'
    ensures r.Some? && !r.value.Invalid? ==>
      (r.value.Matched? <==>
        RequestParts(path).Some? && exists t | t in templates :: Agrees(Segments(t), RequestParts(path).value))
    ensures r.Some? && r.value.Matched? ==>
      && RequestParts(path).Some? && at < |templates| && r.value.path == templates[at]
      && var parts := RequestParts(path).value;
      && Agrees(Segments(templates[at]), parts)
      && Lists(Segments(templates[at]), parts, r.value.params)
      && (forall j | 0 <= j < |templates| && Agrees(Segments(templates[j]), parts) ::
            var n, m := Plain(Segments(templates[at])), Plain(Segments(templates[j]));
            if j < at then n > m else n >= m)
  {
    hide Rejected, RequestParts, Fits, Agrees, Lists, Plain, Segments, Statics, SegmentsOf, Bindings, Fill;
    at := 0;
    var matcher := CreateMatcher(templates);
    if matcher.None? {
      return None, 0;
    }
    var m;
    m, at := Match(matcher.value, path);
    r := Some(m);
    if !m.Invalid? && RequestParts(path).Some? {
      RouteMeans(templates, matcher.value, RequestParts(path).value);
      if m.Matched? {
        FitsLength(matcher.value[at].segments, RequestParts(path).value);
        ListsBindings(templates[at], RequestParts(path).value);
      }
    }
  }

  lemma FitsLength(segments: seq<Segment>, parts: seq<string>)
    requires Fits(segments, parts)
    ensures |segments| == |parts|
  {
  }

  lemma RouteMeans(templates: seq<string>, matcher: seq<Template>, parts: seq<string>)
    requires |matcher| == |templates| && forall i | 0 <= i < |templates| :: matcher[i] == Parsed(templates[i])
    ensures forall i | 0 <= i < |matcher| ::
      && (Fits(matcher[i].segments, parts) <==> Agrees(Segments(templates[i]), parts))
      && Statics(matcher[i].segments) == Plain(Segments(templates[i]))
  {
    hide Fits, Agrees, Plain, Segments, Statics, SegmentsOf;
    forall i | 0 <= i < |matcher|
      ensures Fits(matcher[i].segments, parts) <==> Agrees(Segments(templates[i]), parts)
      ensures Statics(matcher[i].segments) == Plain(Segments(templates[i]))
    {
      FitsIsAgrees(templates[i], parts);
      StaticsArePlain(Segments(templates[i]));
    }
  }

  lemma ListsBindings(tmpl: string, parts: seq<string>)
    requires |Parsed(tmpl).segments| == |parts|
    ensures Lists(Segments(tmpl), parts, Bindings(Parsed(tmpl).segments, parts))
  {
    hide Segments, SegmentsOf, Bindings, BracedAt, Bound;
    var at := BindingsList(Segments(tmpl), parts);
  }
}
