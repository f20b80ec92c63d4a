/** Filling missing object members with the default values of their schemas. */
module Defaults {
  import opened Json

  const MAX_DEPTH: nat := 64

  /** Schemas refer to each other by number, so that a schema may contain itself. */
  type Id = nat

  datatype Property = Property(name: string, schema: Option<Id>)

  datatype Node = Node(properties: seq<Property>, defaultValue: Option<Value>, resolved: Option<Id>)

  type Graph = Id -> Node

  /** The schema of a property, behind one resolved reference. */
  function Target(g: Graph, p: Property): Option<Id> {
    if p.schema.Some? && g(p.schema.value).resolved.Some? then g(p.schema.value).resolved else p.schema
  }

  function Default(g: Graph, p: Property): Option<Value> {
    if Target(g, p).Some? then g(Target(g, p).value).defaultValue else None
  }

  /** The position of the first member called `name`, or the number of members. */
  function Position(members: seq<Member>, name: string): (i: nat)
    ensures i <= |members|
    ensures i < |members| ==> members[i].key == name
    ensures forall j | 0 <= j < i :: members[j].key != name
  {
    if members == [] || members[0].key == name then 0 else 1 + Position(members[1..], name)
  }

  // ----- what the code does -----

  function Apply(g: Graph, s: Option<Id>, v: Value, depth: nat): Value
    decreases MAX_DEPTH + 1 - depth, |if s.Some? then g(s.value).properties else []| + 1
  {
    if s.None? || !v.JObj? || depth > MAX_DEPTH then v
    else JObj(ApplyProps(g, g(s.value).properties, v.members, depth))
  }

  /** The properties are visited in list order. */
  function ApplyProps(g: Graph, props: seq<Property>, members: seq<Member>, depth: nat): seq<Member>
    requires depth <= MAX_DEPTH
    decreases MAX_DEPTH + 1 - depth, |props|, 2
  {
    if props == [] then members
    else
      var n := |props| - 1;
      PropStep(g, props[n], ApplyProps(g, props[..n], members, depth), depth)
  }

  function PropStep(g: Graph, p: Property, members: seq<Member>, depth: nat): seq<Member>
    requires depth <= MAX_DEPTH
    decreases MAX_DEPTH + 1 - depth, 0, 1
  {
    var i := Position(members, p.name);
    if i == |members| then
      if Default(g, p).Some? then members + [Member(p.name, Default(g, p).value)] else members
    else members[i := members[i].(value := Visit(g, p, members[i].value, depth))]
  }

  /** A member that is there already is only descended into. */
  function Visit(g: Graph, p: Property, v: Value, depth: nat): Value
    requires depth <= MAX_DEPTH
    decreases MAX_DEPTH + 1 - depth, 0, 0
  {
    Apply(g, Target(g, p), v, depth + 1)
  }

  lemma LoopSplit(g: Graph, props: seq<Property>, members: seq<Member>, depth: nat)
    requires depth <= MAX_DEPTH
    ensures ApplyProps(g, props[..0], members, depth) == members
    ensures props[..|props|] == props
  {
  }

  lemma LoopTurn(g: Graph, props: seq<Property>, members: seq<Member>, k: nat, depth: nat)
    requires depth <= MAX_DEPTH && k < |props|
    ensures ApplyProps(g, props[..k + 1], members, depth) ==
      PropStep(g, props[k], ApplyProps(g, props[..k], members, depth), depth)
  {
    assert props[..k + 1][..k] == props[..k];
  }

  lemma StepCases(g: Graph, p: Property, members: seq<Member>, depth: nat)
    requires depth <= MAX_DEPTH
    ensures Target(g, p) ==
      if p.schema.Some? && g(p.schema.value).resolved.Some? then g(p.schema.value).resolved else p.schema
    ensures var i, t := Position(members, p.name), Target(g, p);
      PropStep(g, p, members, depth) ==
        if i == |members| && t.Some? && g(t.value).defaultValue.Some?
        then members + [Member(p.name, g(t.value).defaultValue.value)]
        else if i < |members| && members[i].value.JObj? && t.Some?
        then members[i := members[i].(value := Apply(g, t, members[i].value, depth + 1))]
        else members
  {
    var i := Position(members, p.name);
    if i < |members| {
      var v := members[i].value;
      assert Visit(g, p, v, depth) == Apply(g, Target(g, p), v, depth + 1);
      assert !v.JObj? || Target(g, p).None? ==> Apply(g, Target(g, p), v, depth + 1) == v;
      assert members[i := members[i].(value := v)] == members;
    }
  }

  /** `apply_defaults_recursive`. */
  method ApplyDefaults(g: Graph, s: Option<Id>, obj: Value, depth: nat) returns (r: Value)
    ensures r == Apply(g, s, obj, depth)
    decreases MAX_DEPTH + 1 - depth
  {
    if s.None? || !obj.JObj? || depth > MAX_DEPTH {
      return obj;
    }
    hide ApplyProps, PropStep, Visit, Target, Default, Position;
    var props, members := g(s.value).properties, obj.members;
    LoopSplit(g, props, members, depth);
    for k := 0 to |props|
      invariant members == ApplyProps(g, props[..k], obj.members, depth)
    {
      LoopTurn(g, props, obj.members, k, depth);
      StepCases(g, props[k], members, depth);
      var schema := props[k].schema;
      if schema.Some? && g(schema.value).resolved.Some? {
        schema := g(schema.value).resolved;
      }
      var i := FindMember(members, props[k].name);
      if i == |members| && schema.Some? && g(schema.value).defaultValue.Some? {
        members := members + [Member(props[k].name, g(schema.value).defaultValue.value)];
      } else if i < |members| && members[i].value.JObj? && schema.Some? {
        var inner := ApplyDefaults(g, schema, members[i].value, depth + 1);
        members := members[i := members[i].(value := inner)];
      }
    }
    r := JObj(members);
  }

  /** `yyjson_mut_obj_get`, as a position. */
  method FindMember(members: seq<Member>, name: string) returns (i: nat)
    ensures i == Position(members, name)
  {
    i := 0;
    while i < |members| && members[i].key != name
      invariant i <= |members| && Position(members, name) == i + Position(members[i..], name)
    {
      i := i + 1;
    }
  }

  // ----- what it means -----

  ghost predicate Distinct(g: Graph) {
    forall s, i, j | 0 <= i < j < |g(s).properties| :: g(s).properties[i].name != g(s).properties[j].name
  }

  ghost predicate DistinctNames(props: seq<Property>) {
    forall i, j | 0 <= i < j < |props| :: props[i].name != props[j].name
  }

  /** Objects are only extended: what was there keeps its place, and other values stay as they are. */
  predicate Extends(v: Value, w: Value)
    decreases v
  {
    if v.JObj? then w.JObj? && ExtendsAll(v.members, w.members) else w == v
  }

  predicate ExtendsAll(m: seq<Member>, n: seq<Member>)
    decreases m
  {
    m == [] || (n != [] && n[0].key == m[0].key && Extends(m[0].value, n[0].value) && ExtendsAll(m[1..], n[1..]))
  }

  lemma {:induction false} ExtendsAllAt(m: seq<Member>, n: seq<Member>)
    ensures ExtendsAll(m, n) <==>
      |m| <= |n| && forall i | 0 <= i < |m| :: n[i].key == m[i].key && Extends(m[i].value, n[i].value)
    decreases |m|
  {
    if m != [] && n != [] {
      ExtendsAllAt(m[1..], n[1..]);
      if |m| <= |n| && forall i | 0 <= i < |m| :: n[i].key == m[i].key && Extends(m[i].value, n[i].value) {
        forall i | 0 <= i < |m[1..]|
          ensures n[1..][i].key == m[1..][i].key && Extends(m[1..][i].value, n[1..][i].value)
        {
          assert n[i + 1].key == m[i + 1].key;
        }
      }
      if ExtendsAll(m, n) {
        forall i | 0 < i < |m| ensures n[i].key == m[i].key && Extends(m[i].value, n[i].value) {
          assert n[1..][i - 1].key == m[1..][i - 1].key;
        }
      }
    }
  }

  /** The members that are added: a default for every property that is absent and has one. */
  function Added(g: Graph, props: seq<Property>, members: seq<Member>): seq<Member> {
    if props == [] then []
    else
      var n := |props| - 1;
      Added(g, props[..n], members) +
      if Position(members, props[n].name) == |members| && Default(g, props[n]).Some?
      then [Member(props[n].name, Default(g, props[n]).value)] else []
  }

  /** The property of this name, if there is one. */
  function PropertyOf(props: seq<Property>, name: string): (r: Option<Property>)
    ensures r.Some? ==> r.value in props && r.value.name == name
    ensures r.None? ==> forall p | p in props :: p.name != name
  {
    if props == [] then None
    else if props[|props| - 1].name == name then Some(props[|props| - 1])
    else PropertyOf(props[..|props| - 1], name)
  }

  /** What becomes of member `i`: only the first one of its name is descended into. */
  function Updated(g: Graph, props: seq<Property>, members: seq<Member>, i: nat, depth: nat): (r: Member)
    requires i < |members| && depth <= MAX_DEPTH
    ensures r.key == members[i].key
  {
    var p := PropertyOf(props, members[i].key);
    if p.Some? && Position(members, members[i].key) == i
    then members[i].(value := Visit(g, p.value, members[i].value, depth))
    else members[i]
  }

  /** The loop over the properties, described at once: every old member updated in place, then the added ones. */
  ghost predicate Describes(g: Graph, props: seq<Property>, m: seq<Member>, r: seq<Member>, depth: nat)
    requires depth <= MAX_DEPTH
  {
    && |r| >= |m|
    && (forall i: nat | i < |m| :: r[i] == Updated(g, props, m, i, depth))
    && r[|m|..] == Added(g, props, m)
  }

  predicate IsAdded(g: Graph, p: Property, m: seq<Member>, added: Member) {
    Position(m, p.name) == |m| && Default(g, p) == Some(added.value) && added.key == p.name
  }

  lemma {:induction false} AddedNames(g: Graph, props: seq<Property>, m: seq<Member>, k: nat)
    requires k < |Added(g, props, m)|
    ensures exists p | p in props :: IsAdded(g, p, m, Added(g, props, m)[k])
    decreases |props|
  {
    var n := |props| - 1;
    if k < |Added(g, props[..n], m)| {
      AddedNames(g, props[..n], m, k);
      var p :| p in props[..n] && IsAdded(g, p, m, Added(g, props[..n], m)[k]);
      assert p in props && Added(g, props, m)[k] == Added(g, props[..n], m)[k];
    } else {
      assert IsAdded(g, props[n], m, Added(g, props, m)[k]);
    }
  }

  /** Where a name is found after the loop over other properties. */
  lemma SamePosition(g: Graph, props: seq<Property>, m: seq<Member>, r: seq<Member>, depth: nat, name: string)
    requires depth <= MAX_DEPTH && Describes(g, props, m, r, depth)
    requires forall p | p in props :: p.name != name
    ensures Position(r, name) == if Position(m, name) < |m| then Position(m, name) else |r|
  {
    hide Updated, Added, IsAdded;
    assert forall i: nat | i < |m| :: r[i].key == m[i].key;
    forall k: nat | |m| <= k < |r| ensures r[k].key != name {
      assert r[k] == r[|m|..][k - |m|];
      AddedNames(g, props, m, k - |m|);
      var p :| p in props && IsAdded(g, p, m, r[k]);
      AddedName(g, p, m, r[k]);
    }
  }

  lemma AddedName(g: Graph, p: Property, m: seq<Member>, added: Member)
    requires IsAdded(g, p, m, added)
    ensures added.key == p.name
  {
  }

  lemma UpdatedStep(g: Graph, props: seq<Property>, m: seq<Member>, i: nat, depth: nat)
    requires props != [] && DistinctNames(props) && depth <= MAX_DEPTH && i < |m|
    ensures var n := |props| - 1;
      Updated(g, props, m, i, depth) ==
        if Position(m, props[n].name) == i then m[i].(value := Visit(g, props[n], m[i].value, depth))
        else Updated(g, props[..n], m, i, depth)
    ensures var n := |props| - 1;
      Position(m, props[n].name) == i ==> Updated(g, props[..n], m, i, depth) == m[i]
  {
    hide Visit;
  }

  lemma LoopStep(g: Graph, props: seq<Property>, m: seq<Member>, r0: seq<Member>, depth: nat)
    requires props != [] && DistinctNames(props) && depth <= MAX_DEPTH
    requires Describes(g, props[..|props| - 1], m, r0, depth)
    ensures Describes(g, props, m, PropStep(g, props[|props| - 1], r0, depth), depth)
  {
    hide Visit, Apply, Target, Default, Updated;
    var n := |props| - 1;
    var p := props[n];
    SamePosition(g, props[..n], m, r0, depth, p.name);
    forall i: nat | i < |m| ensures PropStep(g, p, r0, depth)[i] == Updated(g, props, m, i, depth) {
      UpdatedStep(g, props, m, i, depth);
    }
  }

  lemma {:induction false} LoopDescribed(g: Graph, props: seq<Property>, m: seq<Member>, depth: nat)
    requires DistinctNames(props) && depth <= MAX_DEPTH
    ensures Describes(g, props, m, ApplyProps(g, props, m, depth), depth)
    decreases |props|
  {
    if props != [] {
      hide Describes;
      var front := props[..|props| - 1];
      LoopDescribed(g, front, m, depth);
      LoopStep(g, props, m, ApplyProps(g, front, m, depth), depth);
    } else {
      Nothing(g, m, depth);
    }
  }

  lemma Nothing(g: Graph, m: seq<Member>, depth: nat)
    requires depth <= MAX_DEPTH
    ensures Describes(g, [], m, m, depth)
  {
  }

  lemma {:induction false} ExtendsItself(v: Value)
    ensures Extends(v, v)
    decreases v
  {
    if v.JObj? {
      forall i | 0 <= i < |v.members| ensures Extends(v.members[i].value, v.members[i].value) {
        ExtendsItself(v.members[i].value);
      }
      ExtendsAllAt(v.members, v.members);
    }
  }

  lemma {:induction false} ExtendsOnward(u: Value, v: Value, w: Value)
    requires Extends(u, v) && Extends(v, w)
    ensures Extends(u, w)
    decreases u
  {
    if u.JObj? {
      var a, b, c := u.members, v.members, w.members;
      ExtendsAllAt(a, b);
      ExtendsAllAt(b, c);
      forall i | 0 <= i < |a| ensures Extends(a[i].value, c[i].value) {
        assert b[i].key == a[i].key && c[i].key == b[i].key;
        ExtendsOnward(a[i].value, b[i].value, c[i].value);
      }
      ExtendsAllAt(a, c);
    }
  }

  /** Default filling is a conservative extension. */
  lemma {:induction false} ApplyExtends(g: Graph, s: Option<Id>, v: Value, depth: nat)
    ensures Extends(v, Apply(g, s, v, depth))
    decreases MAX_DEPTH + 1 - depth, |if s.Some? then g(s.value).properties else []| + 1
  {
    if s.None? || !v.JObj? || depth > MAX_DEPTH {
      ExtendsItself(v);
    } else {
      PropsExtend(g, g(s.value).properties, v.members, depth);
    }
  }

  lemma {:induction false} PropsExtend(g: Graph, props: seq<Property>, m: seq<Member>, depth: nat)
    requires depth <= MAX_DEPTH
    ensures Extends(JObj(m), JObj(ApplyProps(g, props, m, depth)))
    decreases MAX_DEPTH + 1 - depth, |props|, 2
  {
    if props == [] {
      ExtendsItself(JObj(m));
    } else {
      var n := |props| - 1;
      var before := ApplyProps(g, props[..n], m, depth);
      PropsExtend(g, props[..n], m, depth);
      StepExtends(g, props[n], before, depth);
      ExtendsOnward(JObj(m), JObj(before), JObj(ApplyProps(g, props, m, depth)));
    }
  }

  lemma StepExtends(g: Graph, p: Property, m: seq<Member>, depth: nat)
    requires depth <= MAX_DEPTH
    ensures Extends(JObj(m), JObj(PropStep(g, p, m, depth)))
    decreases MAX_DEPTH + 1 - depth, 0, 1
  {
    var r, at := PropStep(g, p, m, depth), Position(m, p.name);
    forall i | 0 <= i < |m| ensures Extends(m[i].value, r[i].value) {
      ExtendsItself(m[i].value);
      if i == at {
        ApplyExtends(g, Target(g, p), m[i].value, depth + 1);
        assert r[i].value == Visit(g, p, m[i].value, depth);
      }
    }
    ExtendsAllAt(m, r);
  }

  /** Every property with a default is present in `w`, and so at every level of `v` that is visited. */
  ghost predicate Filled(g: Graph, s: Option<Id>, v: Value, w: Value, depth: nat)
    decreases MAX_DEPTH + 1 - depth, 1
  {
    s.Some? && v.JObj? && depth <= MAX_DEPTH ==>
      w.JObj? && forall p | p in g(s.value).properties :: FilledFor(g, p, v.members, w.members, depth)
  }

  ghost predicate FilledFor(g: Graph, p: Property, m: seq<Member>, r: seq<Member>, depth: nat)
    requires depth <= MAX_DEPTH
    decreases MAX_DEPTH + 1 - depth, 0
  {
    var i := Position(m, p.name);
    && (Default(g, p).Some? ==> Position(r, p.name) < |r|)
    && (i < |m| ==> i < |r| && Filled(g, Target(g, p), m[i].value, r[i].value, depth + 1))
  }

  lemma ExtendsPosition(m: seq<Member>, r: seq<Member>, name: string)
    requires Extends(JObj(m), JObj(r)) && Position(m, name) < |m|
    ensures Position(r, name) == Position(m, name) < |r|
    ensures Extends(m[Position(m, name)].value, r[Position(m, name)].value)
  {
    ExtendsAllAt(m, r);
    assert forall j | 0 <= j <= Position(m, name) :: r[j].key == m[j].key;
  }

  /** What is filled stays filled when more is added to it, and so it is for an object with less in it. */
  lemma {:induction false} StaysFilled(g: Graph, s: Option<Id>, u: Value, v: Value, w: Value, x: Value, depth: nat)
    requires Extends(u, v) && Filled(g, s, v, w, depth) && Extends(w, x)
    ensures Filled(g, s, u, x, depth)
    decreases MAX_DEPTH + 1 - depth, 1
  {
    if s.Some? && u.JObj? && depth <= MAX_DEPTH {
      forall p | p in g(s.value).properties ensures FilledFor(g, p, u.members, x.members, depth) {
        StaysFilledFor(g, p, u.members, v.members, w.members, x.members, depth);
      }
    }
  }

  lemma StaysFilledFor(g: Graph, p: Property, k: seq<Member>, m: seq<Member>, r: seq<Member>, q: seq<Member>,
      depth: nat)
    requires depth <= MAX_DEPTH && FilledFor(g, p, m, r, depth)
    requires Extends(JObj(k), JObj(m)) && Extends(JObj(r), JObj(q))
    ensures FilledFor(g, p, k, q, depth)
    decreases MAX_DEPTH + 1 - depth, 0
  {
    hide Default, Target, Extends;
    if Position(r, p.name) < |r| { ExtendsPosition(r, q, p.name); }
    var i := Position(k, p.name);
    if i < |k| {
      ExtendsPosition(k, m, p.name);
      MemberExtends(r, q, i);
      StaysFilled(g, Target(g, p), k[i].value, m[i].value, r[i].value, q[i].value, depth + 1);
    }
  }

  lemma MemberExtends(m: seq<Member>, r: seq<Member>, i: nat)
    requires Extends(JObj(m), JObj(r)) && i < |m|
    ensures i < |r| && Extends(m[i].value, r[i].value)
  {
    ExtendsAllAt(m, r);
  }

  /** Every property with a default is present afterwards, in every object down to the depth limit. */
  lemma {:induction false} ApplyFills(g: Graph, s: Option<Id>, v: Value, depth: nat)
    ensures Filled(g, s, v, Apply(g, s, v, depth), depth)
    decreases MAX_DEPTH + 1 - depth, |if s.Some? then g(s.value).properties else []| + 1
  {
    if s.Some? && v.JObj? && depth <= MAX_DEPTH {
      var props := g(s.value).properties;
      forall p | p in props ensures FilledFor(g, p, v.members, ApplyProps(g, props, v.members, depth), depth) {
        PropsFill(g, props, v.members, depth, p);
      }
    }
  }

  lemma {:induction false} PropsFill(g: Graph, props: seq<Property>, m: seq<Member>, depth: nat, p: Property)
    requires depth <= MAX_DEPTH && p in props
    ensures FilledFor(g, p, m, ApplyProps(g, props, m, depth), depth)
    decreases MAX_DEPTH + 1 - depth, |props|, 2
  {
    hide FilledFor, Extends;
    var n := |props| - 1;
    var before := ApplyProps(g, props[..n], m, depth);
    var after := PropStep(g, props[n], before, depth);
    LoopEnd(g, props, m, depth);
    ExtendsItself(JObj(m));
    if p == props[n] {
      PropsExtend(g, props[..n], m, depth);
      StepFills(g, p, before, depth);
      ExtendsItself(JObj(after));
      StaysFilledFor(g, p, m, before, after, after, depth);
    } else {
      PropsFill(g, props[..n], m, depth, p);
      StepExtends(g, props[n], before, depth);
      StaysFilledFor(g, p, m, m, before, after, depth);
    }
  }

  lemma LoopEnd(g: Graph, props: seq<Property>, m: seq<Member>, depth: nat)
    requires depth <= MAX_DEPTH && props != []
    ensures var n := |props| - 1;
      ApplyProps(g, props, m, depth) == PropStep(g, props[n], ApplyProps(g, props[..n], m, depth), depth)
  {
  }

  lemma StepFills(g: Graph, p: Property, m: seq<Member>, depth: nat)
    requires depth <= MAX_DEPTH
    ensures FilledFor(g, p, m, PropStep(g, p, m, depth), depth)
    decreases MAX_DEPTH + 1 - depth, 0, 1
  {
    hide Default, Target;
    var r, i := PropStep(g, p, m, depth), Position(m, p.name);
    if i < |m| {
      StepExtends(g, p, m, depth);
      ExtendsPosition(m, r, p.name);
      ApplyFills(g, Target(g, p), m[i].value, depth + 1);
    } else if Default(g, p).Some? {
      assert r[|m|].key == p.name;
    }
  }

  // ----- a second pass -----

  /** Every default that gets inserted would itself stay as it is. */
  ghost predicate InsertsStable(g: Graph, s: Option<Id>, v: Value, depth: nat)
    decreases MAX_DEPTH + 1 - depth, 1
  {
    s.Some? && v.JObj? && depth <= MAX_DEPTH ==>
      forall p | p in g(s.value).properties :: StableFor(g, p, v.members, depth)
  }

  ghost predicate StableFor(g: Graph, p: Property, m: seq<Member>, depth: nat)
    requires depth <= MAX_DEPTH
    decreases MAX_DEPTH + 1 - depth, 0
  {
    var i := Position(m, p.name);
    if i < |m| then InsertsStable(g, Target(g, p), m[i].value, depth + 1)
    else Default(g, p).Some? ==> Visit(g, p, Default(g, p).value, depth) == Default(g, p).value
  }

  lemma {:induction false} NothingToAdd(g: Graph, props: seq<Property>, m: seq<Member>)
    requires forall p | p in props && Default(g, p).Some? :: Position(m, p.name) < |m|
    ensures Added(g, props, m) == []
    decreases |props|
  {
    if props != [] {
      NothingToAdd(g, props[..|props| - 1], m);
      assert props[|props| - 1] in props;
    }
  }

  lemma PropertyOnce(props: seq<Property>, p: Property)
    requires DistinctNames(props) && p in props
    ensures PropertyOf(props, p.name) == Some(p)
  {
    var q := PropertyOf(props, p.name).value;
    assert q in props;
  }

  ghost predicate Fixed(g: Graph, props: seq<Property>, r: seq<Member>, i: nat, depth: nat)
    requires depth <= MAX_DEPTH && i < |r|
  {
    Updated(g, props, r, i, depth) == r[i]
  }

  lemma FixedPass(g: Graph, props: seq<Property>, r: seq<Member>, r2: seq<Member>, depth: nat)
    requires depth <= MAX_DEPTH && Describes(g, props, r, r2, depth) && Added(g, props, r) == []
    ensures r2 == r <==> forall i: nat | i < |r| :: Fixed(g, props, r, i, depth)
  {
    hide Updated, Added;
    assert |r2| == |r[..]| + |r2[|r|..]|;
    forall i: nat | i < |r| ensures Fixed(g, props, r, i, depth) <==> r2[i] == r[i] {}
    if forall i: nat | i < |r| :: Fixed(g, props, r, i, depth) {
      forall i: nat | i < |r| ensures r2[i] == r[i] {
        assert Fixed(g, props, r, i, depth);
      }
      assert r2 == r;
    }
  }

  /** Only the first members named by a property can change. */
  lemma FixedAll(g: Graph, props: seq<Property>, r: seq<Member>, depth: nat)
    requires depth <= MAX_DEPTH
    ensures (forall i: nat | i < |r| :: Fixed(g, props, r, i, depth)) <==>
      forall p | p in props && Position(r, p.name) < |r| :: Fixed(g, props, r, Position(r, p.name), depth)
  {
    forall i: nat | i < |r| && !Fixed(g, props, r, i, depth)
      ensures exists p :: p in props && Position(r, p.name) == i
    {
      var p := PropertyOf(props, r[i].key).value;
      assert p in props && Position(r, p.name) == i;
    }
  }

  /** An added member holds the default of the property it is named by. */
  lemma AddedIsDefault(g: Graph, props: seq<Property>, m: seq<Member>, r: seq<Member>, depth: nat, p: Property)
    requires depth <= MAX_DEPTH && DistinctNames(props) && Describes(g, props, m, r, depth) && p in props
    requires Position(m, p.name) == |m| && Position(r, p.name) < |r|
    ensures Default(g, p) == Some(r[Position(r, p.name)].value)
  {
    hide Updated, Added;
    var j := Position(r, p.name);
    assert forall k: nat | k < |m| :: r[k].key == m[k].key;
    assert r[j] == r[|m|..][j - |m|];
    AddedNames(g, props, m, j - |m|);
    var q :| q in props && IsAdded(g, q, m, r[j]);
    assert q.name == p.name;
  }

  lemma StableIsFixed(g: Graph, props: seq<Property>, m: seq<Member>, r: seq<Member>, depth: nat, p: Property)
    requires Distinct(g) && depth <= MAX_DEPTH && DistinctNames(props) && Describes(g, props, m, r, depth)
    requires p in props && (Default(g, p).Some? ==> Position(r, p.name) < |r|)
    ensures StableFor(g, p, m, depth) <==> Position(r, p.name) < |r| ==> Fixed(g, props, r, Position(r, p.name), depth)
    decreases MAX_DEPTH + 1 - depth, 0, 0
  {
    var i, j := Position(m, p.name), Position(r, p.name);
    PropertyOnce(props, p);
    if i < |m| {
      assert r[i] == Updated(g, props, m, i, depth);
      assert forall k: nat | k < |m| :: r[k].key == m[k].key;
      assert j == i;
      SecondPass(g, Target(g, p), m[i].value, depth + 1);
    } else if j < |r| {
      AddedIsDefault(g, props, m, r, depth, p);
    }
  }

  /** Filling twice is filling once, exactly when every inserted default is a fixed point. */
  lemma {:induction false} SecondPass(g: Graph, s: Option<Id>, v: Value, depth: nat)
    requires Distinct(g)
    ensures Apply(g, s, Apply(g, s, v, depth), depth) == Apply(g, s, v, depth) <==> InsertsStable(g, s, v, depth)
    decreases MAX_DEPTH + 1 - depth, 1
  {
    if s.Some? && v.JObj? && depth <= MAX_DEPTH {
      SecondLoop(g, g(s.value).properties, v.members, depth);
    }
  }

  lemma SecondLoop(g: Graph, props: seq<Property>, m: seq<Member>, depth: nat)
    requires Distinct(g) && DistinctNames(props) && depth <= MAX_DEPTH
    ensures var r := ApplyProps(g, props, m, depth);
      ApplyProps(g, props, r, depth) == r <==> forall p | p in props :: StableFor(g, p, m, depth)
    decreases MAX_DEPTH + 1 - depth, 0, 1
  {
    hide Apply, ApplyProps, Visit, Added, Default, StableFor, Updated;
    var r := ApplyProps(g, props, m, depth);
    var r2 := ApplyProps(g, props, r, depth);
    LoopDescribed(g, props, m, depth);
    LoopDescribed(g, props, r, depth);
    forall p | p in props && Default(g, p).Some? ensures Position(r, p.name) < |r| {
      PropsFill(g, props, m, depth, p);
    }
    NothingToAdd(g, props, r);
    forall p | p in props
      ensures StableFor(g, p, m, depth) <==>
        Position(r, p.name) < |r| ==> Fixed(g, props, r, Position(r, p.name), depth)
    {
      StableIsFixed(g, props, m, r, depth, p);
    }
    FixedAll(g, props, r, depth);
    FixedPass(g, props, r, r2, depth);
  }

  /** Each default in the graph, wherever it is inserted, stays as it is. */
  ghost predicate DefaultsStable(g: Graph) {
    forall s: Id, p, depth: nat | p in g(s).properties && Default(g, p).Some? && depth <= MAX_DEPTH ::
      Visit(g, p, Default(g, p).value, depth) == Default(g, p).value
  }

  lemma {:induction false} StableDefaults(g: Graph, s: Option<Id>, v: Value, depth: nat)
    requires DefaultsStable(g)
    ensures InsertsStable(g, s, v, depth)
    decreases MAX_DEPTH + 1 - depth
  {
    if s.Some? && v.JObj? && depth <= MAX_DEPTH {
      forall p | p in g(s.value).properties ensures StableFor(g, p, v.members, depth) {
        var i := Position(v.members, p.name);
        if i < |v.members| {
          StableDefaults(g, Target(g, p), v.members[i].value, depth + 1);
        }
      }
    }
  }

  /** A recursive schema whose default is an object: every pass adds one more level. */
  function Growing(s: Id): Node {
    Node([Property("child", Some(0))], Some(JObj([])), None)
  }

  lemma DefaultsKeepGrowing()
    ensures var once := Apply(Growing, Some(0), JObj([]), 0);
      once == JObj([Member("child", JObj([]))]) && Apply(Growing, Some(0), once, 0) != once
  {
    var p, none := Property("child", Some(0)), [];
    var one := [Member("child", JObj(none))];
    assert Position(none, "child") == 0 && Position(one, "child") == 0;
    assert Default(Growing, p) == Some(JObj(none)) && Target(Growing, p) == Some(0);
    assert [p][..0] == [];
    assert ApplyProps(Growing, [p], none, 0) == PropStep(Growing, p, none, 0) == one;
    assert ApplyProps(Growing, [p], none, 1) == PropStep(Growing, p, none, 1) == one;
    assert Visit(Growing, p, JObj(none), 0) == Apply(Growing, Some(0), JObj(none), 1) == JObj(one);
    assert PropStep(Growing, p, one, 0) == [Member("child", JObj(one))];
    assert ApplyProps(Growing, [p], one, 0) == PropStep(Growing, p, one, 0);
  }

  // ----- how deep it goes -----

  /** A recursive schema with a default in every object. */
  function Deep(s: Id): Node {
    if s == 0 then Node([Property("child", Some(0)), Property("x", Some(1))], None, None)
    else Node([], Some(JInt(1)), None)
  }

  /** Its default is no object, so a second pass over it changes nothing. */
  lemma DeepStable()
    ensures Distinct(Deep) && DefaultsStable(Deep)
  {
    hide ApplyProps;
    forall s: Id, i, j | 0 <= i < j < |Deep(s).properties|
      ensures Deep(s).properties[i].name != Deep(s).properties[j].name
    {
      assert |"child"| != |"x"|;
    }
    forall s: Id, p, depth: nat | p in Deep(s).properties && Default(Deep, p).Some? && depth <= MAX_DEPTH
      ensures Visit(Deep, p, Default(Deep, p).value, depth) == Default(Deep, p).value
    {
      assert Default(Deep, p).value == JInt(1);
    }
  }

  /** `k` objects inside one another. */
  function Nested(k: nat): Value {
    JObj(if k == 0 then [] else [Member("child", Nested(k - 1))])
  }

  /** The same, each with the default in it as far as the 64th inside the outermost one. */
  function NestedFilled(k: nat, depth: nat): Value {
    if depth > 64 then Nested(k)
    else
      var inside := if k == 0 then [] else [Member("child", NestedFilled(k - 1, depth + 1))];
      JObj(inside + [Member("x", JInt(1))])
  }

  lemma DeepStep(members: seq<Member>, depth: nat)
    requires depth <= 64
    ensures Apply(Deep, Some(0), JObj(members), depth) ==
      JObj(PropStep(Deep, Property("x", Some(1)), PropStep(Deep, Property("child", Some(0)), members, depth), depth))
  {
    hide PropStep;
    var a, b := Property("child", Some(0)), Property("x", Some(1));
    assert [a, b][..1] == [a] && [a][..0] == [];
    assert ApplyProps(Deep, [a], members, depth) == PropStep(Deep, a, members, depth);
  }

  /** Defaults are filled in 64 levels below the outermost object, and no deeper. */
  lemma {:induction false} FilledTo64(k: nat, depth: nat)
    ensures Apply(Deep, Some(0), Nested(k), depth) == NestedFilled(k, depth)
    decreases k
  {
    hide ApplyProps, PropStep;
    if depth <= 64 {
      var a, b, members := Property("child", Some(0)), Property("x", Some(1)), Nested(k).members;
      DeepStep(members, depth);
      StepCases(Deep, a, members, depth);
      var inside := if k == 0 then [] else [Member("child", NestedFilled(k - 1, depth + 1))];
      if k > 0 {
        FilledTo64(k - 1, depth + 1);
        assert Position(members, "child") == 0;
      }
      assert PropStep(Deep, a, members, depth) == inside;
      StepCases(Deep, b, inside, depth);
      assert "child" != "x" by { assert |"child"| != |"x"|; }
      assert Position(inside, "x") == |inside|;
    }
  }
}
