/** Runs of the machine over flattened trees: where each run stops, and with which verdict. */
module Running {
  import opened Json
  import opened Schemas
  import opened Instructions
  import opened Trees
  import opened Meanings
  import opened Landing
  import opened Machine
  import opened Sets

  ghost predicate Ready(c: Code, ip: nat, st: Stack, post: Code) {
    WellCounted(c) && At(c, ip, st, post) && LooseStack(st) && st.Push?
  }

  lemma ReadyInside(c: Code, ip: nat, st: Stack, post: Code)
    requires Ready(c, ip, st, post)
    ensures ip <= |c|
  {
  }

  ghost predicate Lands(c: Code, ip: nat, rest: Stack, out: Stack, post: Code) {
    At(c, ip, out, post) && LooseStack(out) && Under(rest, out)
  }

  /** A whole run over the top body of `st`: it leaves that body exactly when the run is clean, and
      a clean run has the verdict of the body. */
  ghost predicate Ran(e: Env, c: Code, v: Value, ok: bool, r: Outcome, st: Stack, out: Stack, post: Code)
    requires st.Push?
  {
    && Lands(c, r.ip, st.below, out, post)
    && (Proper(st.top) ==>
          if Clean(e, st.top, v, ok) then out == st.below && r.valid == (ok && Accepts(e, st.top, v))
          else WellUnder(st.below, out))
  }

  /** The stack `out` is too deep to be one body on top of `rest`. */
  predicate Misses(rest: Stack, out: Stack) {
    out.Push? && WellUnder(rest, out.below)
  }

  /** One step over the first tree of the top body. */
  ghost predicate Stepped(e: Env, c: Code, v: Value, ok: bool, r: Outcome, st: Stack, out: Stack, post: Code)
    requires st.Push? && st.top != []
  {
    && Lands(c, r.ip, st.below, out, post) && WellUnder(st.below, out)
    && (Proper(st.top) ==>
          if CleanTree(e, st.top[0], v, ok) then
            out == Push(st.top[1..], st.below) && r.valid == (ok && AcceptsTree(e, st.top[0], v))
          else Misses(st.below, out))
  }

  lemma {:induction false} RunLands(e: Env, c: Code, v: Value, ip: nat, ok: bool, mute: bool, st: Stack, post: Code)
    returns (out: Stack)
    requires Ready(c, ip, st, post)
    ensures Ran(e, c, v, ok, Exec(e, c, v, ip, ok, mute), st, out, post)
    decreases |c| - ip, 3, 0
  {
    hide At, LooseStack, Under, Step, Clean, Accepts, Proper, WellCounted;
    if st.top == [] {
      out := RunEnd(e, c, v, ip, ok, mute, st, post);
    } else {
      var mid := StepLands(e, c, v, ip, ok, mute, st, post);
      var s := Step(e, c, v, ip, ok, mute);
      out := RunLands(e, c, v, s.ip, s.valid, mute, mid, post);
      RunCompose(e, c, v, ok, s, Exec(e, c, v, s.ip, s.valid, mute), st, mid, out, post);
    }
  }

  lemma RunEnd(e: Env, c: Code, v: Value, ip: nat, ok: bool, mute: bool, st: Stack, post: Code)
    returns (out: Stack)
    requires Ready(c, ip, st, post) && st.top == []
    ensures Ran(e, c, v, ok, Exec(e, c, v, ip, ok, mute), st, out, post)
  {
    hide FlatStack, Step;
    Leave(c, ip, st, post);
    out := st.below;
  }

  /** A step and then the rest of the body make a run over the body. */
  lemma RunCompose(e: Env, c: Code, v: Value, ok: bool, s: Outcome, r: Outcome,
                   st: Stack, mid: Stack, out: Stack, post: Code)
    requires st.Push? && st.top != [] && mid.Push?
    requires Stepped(e, c, v, ok, s, st, mid, post)
    requires Ran(e, c, v, s.valid, r, mid, out, post)
    ensures Ran(e, c, v, ok, r, st, out, post)
  {
    hide At, LooseStack, CleanTree, AcceptsTree, ProperTree, Accepts, Proper;
    UnderTransitive(st.below, mid.below, out);
    AcceptsStep(e, st.top, v);
    ProperTail(st.top);
  }

  lemma ProperTail(ts: seq<Tree>)
    requires ts != []
    ensures Proper(ts) ==> ProperTree(ts[0]) && Proper(ts[1..])
  {
    assert forall i | 0 <= i < |ts| - 1 :: ts[1..][i] == ts[i + 1];
  }

  lemma {:induction false} StepLands(e: Env, c: Code, v: Value, ip: nat, ok: bool, mute: bool, st: Stack, post: Code)
    returns (out: Stack)
    requires Ready(c, ip, st, post) && st.top != []
    ensures ip < |c| && !c[ip].End?
    ensures Stepped(e, c, v, ok, Step(e, c, v, ip, ok, mute), st, out, post)
    decreases |c| - ip, 2, 0
  {
    hide At, LooseStack, Under, Step, Stepped;
    Enter(c, ip, st, post);
    match st.top[0]
    case Leaf(_) => out := StepLeaf(e, c, v, ip, ok, mute, st, post);
    case Names(_, _) => out := StepNames(e, c, v, ip, ok, mute, st, post);
    case Nest(_, _) => out := StepNest(e, c, v, ip, ok, mute, st, post);
    case Cond(_, _, _) => out := StepCond(e, c, v, ip, ok, mute, st, post);
    case Quota(_, _, _) => out := StepQuota(e, c, v, ip, ok, mute, st, post);
    case Fork(_, _) => out := StepFork(e, c, v, ip, ok, mute, st, post);
    case Pick(_, _, _) => out := StepPick(e, c, v, ip, ok, mute, st, post);
  }

  // ----- single checks -----

  lemma UnderPush(ts: seq<Tree>, below: Stack)
    ensures WellUnder(below, Push(ts, below)) && Under(below, Push(ts, below)) && Under(below, below)
  {
  }

  lemma EnteredPlain(st: Stack)
    requires st.Push? && st.top != [] && (st.top[0].Leaf? || st.top[0].Names?)
    ensures Entered(st) == Push(st.top[1..], st.below)
    ensures WellUnder(st.below, Entered(st)) && Under(st.below, Entered(st))
  {
    UnderPush(st.top[1..], st.below);
  }

  lemma StepLeaf(e: Env, c: Code, v: Value, ip: nat, ok: bool, mute: bool, st: Stack, post: Code)
    returns (out: Stack)
    requires Ready(c, ip, st, post) && st.top != [] && st.top[0].Leaf?
    ensures ip < |c| && Stepped(e, c, v, ok, Step(e, c, v, ip, ok, mute), st, out, post)
  {
    hide FlatStack, LooseTop, Proper, AcceptsTree, CleanTree, Step;
    Enter(c, ip, st, post);
    EnteredLoose(st);
    out := Entered(st);
    LeafVerdict(e, c, v, ip, ok, mute, st.top[0]);
    EnteredPlain(st);
  }

  lemma LeafVerdict(e: Env, c: Code, v: Value, ip: nat, ok: bool, mute: bool, t: Tree)
    requires WellCounted(c) && t.Leaf? && ip < |c| && c[ip] == Test(t.check)
    ensures var r := Step(e, c, v, ip, ok, mute);
            r.ip == ip + 1 && r.valid == (ok && AcceptsTree(e, t, v)) && CleanTree(e, t, v, ok)
  {
    hide CheckOk;
  }

  lemma StepNames(e: Env, c: Code, v: Value, ip: nat, ok: bool, mute: bool, st: Stack, post: Code)
    returns (out: Stack)
    requires Ready(c, ip, st, post) && st.top != [] && st.top[0].Names?
    ensures ip < |c| && Stepped(e, c, v, ok, Step(e, c, v, ip, ok, mute), st, out, post)
  {
    hide FlatStack, LooseTop, Proper, AcceptsTree, CleanTree, Step;
    NamesAhead(c, ip, st, post);
    EnteredLoose(st);
    out := Entered(st);
    NamesVerdict(e, c, v, ip, ok, mute, st.top[0]);
    EnteredPlain(st);
  }

  lemma NamesVerdict(e: Env, c: Code, v: Value, ip: nat, ok: bool, mute: bool, t: Tree)
    requires WellCounted(c) && t.Names? && NamesBehind(c, ip, t.names)
    requires c[ip] == DepRequired(t.trigger)
    ensures var r := Step(e, c, v, ip, ok, mute);
            r.ip == ip + 2 + |t.names| && r.valid == (ok && AcceptsTree(e, t, v)) && CleanTree(e, t, v, ok)
  {
    assert forall i | 0 <= i < |t.names| :: c[ip + 2 + i].name == t.names[i];
  }

  /** Inline names behind an opcode and their count. */
  predicate NamesBehind(c: Code, ip: nat, names: seq<Option<string>>) {
    && ip + 2 + |names| <= |c| && c[ip + 1] == NopCount(|names|)
    && (forall i | 0 <= i < |names| :: c[ip + 2 + i] == NopName(names[i]))
    && (forall j | ip + 2 <= j < ip + 2 + |names| :: c[j] == NopName(names[j - ip - 2]))
  }

  lemma ReadNames(c: Code, ip: nat, op: Instr, names: seq<Option<string>>)
    requires var o := [op, NopCount(|names|)] + NameCode(names);
      ip + |o| <= |c| && forall k | 0 <= k < |o| :: c[ip + k] == o[k]
    ensures NamesBehind(c, ip, names)
  {
    var o := [op, NopCount(|names|)] + NameCode(names);
    assert c[ip + 1] == o[1];
    forall i | 0 <= i < |names| ensures c[ip + 2 + i] == NopName(names[i]) {
      assert c[ip + (2 + i)] == o[2 + i];
    }
    forall j | ip + 2 <= j < ip + 2 + |names| ensures c[j] == NopName(names[j - ip - 2]) {
      assert c[ip + (j - ip)] == o[j - ip];
    }
  }

  /** The inline operands behind a dependentRequired or discriminator opcode. */
  lemma NamesAhead(c: Code, ip: nat, st: Stack, post: Code)
    requires Ready(c, ip, st, post) && st.top != [] && (st.top[0].Names? || st.top[0].Pick?)
    ensures var names := if st.top[0].Names? then st.top[0].names else st.top[0].keys;
            && ip < |c| && NamesBehind(c, ip, names) && c[ip] == Opening(st.top[0])[0]
            && At(c, ip + 2 + |names|, Entered(st), post)
  {
    hide FlatStack, LooseStack, Entered, At, NamesBehind, NameCode, WellCounted;
    Enter(c, ip, st, post);
    ReadNames(c, ip, Opening(st.top[0])[0], if st.top[0].Names? then st.top[0].names else st.top[0].keys);
  }

  // ----- bodies that are run on other values and then skipped -----

  /** A body without composition, run on its own: its verdict. */
  lemma {:induction false} BodyVerdict(e: Env, c: Code, v: Value, ip: nat, ok: bool, mute: bool, st: Stack, post: Code)
    requires Ready(c, ip, st, post) && Proper(st.top) && ForkFree(st.top)
    ensures Exec(e, c, v, ip, ok, mute).valid == (ok && Accepts(e, st.top, v))
    decreases |c| - ip, 4, 0
  {
    ForkFreeIsClean(e, st.top, v, ok);
    var _ := RunLands(e, c, v, ip, ok, mute, st, post);
  }

  ghost predicate AllAccepted(e: Env, ts: seq<Tree>, vs: seq<Value>) {
    forall i | 0 <= i < |vs| :: Accepts(e, ts, vs[i])
  }

  lemma AllAcceptedHead(e: Env, ts: seq<Tree>, vs: seq<Value>)
    requires vs != []
    ensures AllAccepted(e, ts, vs) <==> Accepts(e, ts, vs[0]) && AllAccepted(e, ts, vs[1..])
  {
    assert vs == [vs[0]] + vs[1..];
    assert forall i | 0 <= i < |vs| - 1 :: vs[1..][i] == vs[i + 1];
    if Accepts(e, ts, vs[0]) && AllAccepted(e, ts, vs[1..]) {
      forall i | 0 <= i < |vs| ensures Accepts(e, ts, vs[i]) {
        if i > 0 { assert vs[i] == vs[1..][i - 1]; }
      }
    }
  }

  lemma {:induction false} RunOverVerdict(e: Env, c: Code, vs: seq<Value>, ip: nat, ok: bool, mute: bool, st: Stack,
      post: Code)
    requires Ready(c, ip, st, post) && Proper(st.top) && ForkFree(st.top)
    ensures RunOver(e, c, vs, ip, ok, mute).valid == (ok && AllAccepted(e, st.top, vs))
    decreases |c| - ip, 5, |vs|
  {
    if vs != [] {
      BodyVerdict(e, c, vs[0], ip, ok, mute, st, post);
      RunOverVerdict(e, c, vs[1..], ip, ok && Exec(e, c, vs[0], ip, ok, mute).valid, mute, st, post);
      AllAcceptedHead(e, st.top, vs);
    }
  }

  lemma {:induction false} RunNamesVerdict(e: Env, c: Code, vs: seq<Value>, ip: nat, ok: bool, mute: bool, op: Instr,
      st: Stack, post: Code)
    requires Ready(c, ip, st, post) && Proper(st.top) && ForkFree(st.top)
    ensures RunNames(e, c, vs, ip, ok, mute, op).valid == (ok && AllAccepted(e, st.top, vs))
    decreases |c| - ip, 5, |vs|
  {
    if vs != [] {
      BodyVerdict(e, c, vs[0], ip, ok, mute, st, post);
      var s := Exec(e, c, vs[0], ip, ok, mute);
      RunNamesVerdict(e, c, vs[1..], ip, Report(s.valid, ip, ok, mute, s.errors, op).valid, mute, op, st, post);
      AllAcceptedHead(e, st.top, vs);
    }
  }

  lemma {:induction false} MatchingAccepted(e: Env, p: string, members: seq<Member>, ts: seq<Tree>)
    ensures AllAccepted(e, ts, Matching(e, p, members))
       <==> forall i | 0 <= i < |members| :: e.matches(p, members[i].key) ==> Accepts(e, ts, members[i].value)
  {
    if members != [] {
      var m, vs := members[1..], Matching(e, p, members);
      MatchingAccepted(e, p, m, ts);
      assert forall i | 0 <= i < |m| :: m[i] == members[i + 1];
      assert forall i | 1 <= i < |members| :: members[i] == m[i - 1];
      if e.matches(p, members[0].key) {
        assert vs[0] == members[0].value && vs[1..] == Matching(e, p, m);
        AllAcceptedHead(e, ts, vs);
      } else {
        assert vs == Matching(e, p, m);
      }
    }
  }

  lemma NamesAccepted(e: Env, members: seq<Member>, ts: seq<Tree>)
    ensures AllAccepted(e, ts, Machine.Names(members))
       <==> forall i | 0 <= i < |members| :: Accepts(e, ts, JStr(CStr(members[i].key)))
  {
    var vs := Machine.Names(members);
    assert forall i | 0 <= i < |vs| :: vs[i] == JStr(CStr(members[i].key));
  }

  lemma StepNest(e: Env, c: Code, v: Value, ip: nat, ok: bool, mute: bool, st: Stack, post: Code)
    returns (out: Stack)
    requires Ready(c, ip, st, post) && st.top != [] && st.top[0].Nest?
    ensures ip < |c| && Stepped(e, c, v, ok, Step(e, c, v, ip, ok, mute), st, out, post)
    decreases |c| - ip, 1, 0
  {
    hide FlatStack, Exec, Step, Clean, Accepts, AcceptsTree, CleanTree, ForkFree, Proper, LooseStack, Entered;
    Enter(c, ip, st, post);
    EnteredLoose(st);
    var t, en := st.top[0], Entered(st);
    EnteredNest(st);
    NestOpener(st);
    ProperTail(st.top);
    if IsArm(t) {
      out := en;
      ArmVerdict(e, c, v, ip, ok, mute);
    } else if t.opener.Negate? || (t.opener.CheckDepSchema? && Get(v, t.opener.trigger).Some?) {
      out := RunLands(e, c, v, ip + 1, ok, mute || t.opener.Negate?, en, post);
      UnderTransitive(st.below, en.below, out);
      MissesAbove(st.below, en.below, out);
      InPlaceVerdict(e, c, v, ip, ok, mute, t);
    } else {
      out := SkipBody(c, ip + 1, en, post);
      UnderTransitive(st.below, en.below, out);
      MissesAbove(st.below, en.below, out);
      SkippedVerdict(e, c, v, ip, ok, mute, st, post);
    }
  }

  lemma ArmVerdict(e: Env, c: Code, v: Value, ip: nat, ok: bool, mute: bool)
    requires WellCounted(c) && ip < |c| && (c[ip] == Open(CondThen) || c[ip] == Open(CondElse))
    ensures Step(e, c, v, ip, ok, mute) == Outcome(ip + 1, ok, [])
  {
  }

  /** not, and a dependent schema whose trigger is there: the body's run is the step. */
  lemma InPlaceVerdict(e: Env, c: Code, v: Value, ip: nat, ok: bool, mute: bool, t: Tree)
    requires WellCounted(c) && ip < |c| && t.Nest? && c[ip] == Open(t.opener)
    requires t.opener.Negate? || (t.opener.CheckDepSchema? && Get(v, t.opener.trigger).Some?)
    ensures CleanTree(e, t, v, ok) <==> Clean(e, t.body.trees, v, ok)
    ensures AcceptsTree(e, t, v) <==> (Accepts(e, t.body.trees, v) != t.opener.Negate?)
    ensures var s := Exec(e, c, v, ip + 1, ok, mute || t.opener.Negate?);
            var r := Step(e, c, v, ip, ok, mute);
            r.ip == s.ip && r.valid == (if t.opener.Negate? then ok && !s.valid else s.valid)
  {
    hide Clean, Accepts, Exec;
  }

  lemma EnteredNest(st: Stack)
    requires st.Push? && st.top != [] && (st.top[0].Nest? || st.top[0].Quota? || st.top[0].Cond?)
    ensures var t := st.top[0];
            Entered(st) == Push(Inside(t)[0].trees, Push(Behind(t, st.top[1..]), st.below))
    ensures Under(st.below, Entered(st).below) && WellUnder(st.below, Entered(st).below)
    ensures Misses(st.below, Entered(st)) && WellUnder(st.below, Entered(st)) && Under(st.below, Entered(st))
  {
    var t := st.top[0];
    assert Inside(t) == [Inside(t)[0]];
    PushOne(Inside(t)[0], Push(Behind(t, st.top[1..]), st.below));
    UnderPush(Behind(t, st.top[1..]), st.below);
    UnderPush(Inside(t)[0].trees, Push(Behind(t, st.top[1..]), st.below));
    assert Under(st.below, Entered(st));
  }

  lemma NestOpener(st: Stack)
    requires LooseStack(st) && st.Push? && st.top != [] && st.top[0].Nest?
    ensures !st.top[0].opener.CondIf? && Proper(st.top[0].body.trees)
    ensures Proper(st.top) ==> !IsArm(st.top[0])
  {
    hide ForkFree;
    assert Loose(st.top[0]);
    if Proper(st.top) { assert ProperTree(st.top[0]); }
  }

  lemma SkipBody(c: Code, ip: nat, st: Stack, post: Code) returns (out: Stack)
    requires At(c, ip, st, post) && LooseStack(st) && st.Push?
    ensures Lands(c, Skip(c, ip), st.below, out, post)
    ensures if ForkFree(st.top) then out == st.below else WellUnder(st.below, out)
  {
    hide At, LooseStack, ForkFree;
    out := SkipLands(c, ip, 1, st, post);
    assert Pop(st, 1) == st.below;
    assert ForkFreeTops(st, 1) <==> ForkFree(st.top);
  }

  /** The openers whose body is always skipped afterwards. */
  lemma SkippedVerdict(e: Env, c: Code, v: Value, ip: nat, ok: bool, mute: bool, st: Stack, post: Code)
    requires Ready(c, ip, st, post) && st.top != [] && st.top[0].Nest?
    requires ip < |c| && c[ip] == Open(st.top[0].opener)
    requires !st.top[0].opener.Negate? && !st.top[0].opener.CondIf? && !IsArm(st.top[0])
    requires st.top[0].opener.CheckDepSchema? ==> Get(v, st.top[0].opener.trigger).None?
    ensures var r, t := Step(e, c, v, ip, ok, mute), st.top[0];
            && r.ip == Skip(c, ip + 1)
            && (CleanTree(e, t, v, ok) <==> ForkFree(t.body.trees))
            && (Proper(st.top) && ForkFree(t.body.trees) ==> r.valid == (ok && AcceptsTree(e, t, v)))
    decreases |c| - ip, 0, 0
  {
    hide FlatStack, Exec, Clean, Accepts, ForkFree, Loose, Skip, Get, WellCounted, Step, CleanTree, AcceptsTree, Proper;
    var t := st.top[0];
    SkippedStep(e, c, v, ip, ok, mute, t);
    ProperTail(st.top);
    if Proper(st.top) && ForkFree(t.body.trees) {
      Enter(c, ip, st, post);
      EnteredLoose(st);
      EnteredNest(st);
      SkippedBody(e, c, v, ip, ok, mute, t, Entered(st), post);
    }
  }

  lemma SkippedStep(e: Env, c: Code, v: Value, ip: nat, ok: bool, mute: bool, t: Tree)
    requires WellCounted(c) && t.Nest? && ip < |c| && c[ip] == Open(t.opener)
    requires !t.opener.Negate? && !t.opener.CondIf? && !IsArm(t)
    requires t.opener.CheckDepSchema? ==> Get(v, t.opener.trigger).None?
    ensures Step(e, c, v, ip, ok, mute).ip == Skip(c, ip + 1)
    ensures CleanTree(e, t, v, ok) <==> ForkFree(t.body.trees)
  {
    hide Exec, Clean, Accepts, ForkFree, RunOver, RunNames, Skip, Get, WellCounted;
  }

  lemma SkippedBody(e: Env, c: Code, v: Value, ip: nat, ok: bool, mute: bool, t: Tree, en: Stack, post: Code)
    requires Ready(c, ip + 1, en, post) && Proper(en.top) && ForkFree(en.top)
    requires t.Nest? && t.body.trees == en.top && ip < |c| && c[ip] == Open(t.opener)
    requires !t.opener.Negate? && !t.opener.CondIf? && !IsArm(t)
    requires t.opener.CheckDepSchema? ==> Get(v, t.opener.trigger).None?
    ensures Step(e, c, v, ip, ok, mute).valid == (ok && AcceptsTree(e, t, v))
    decreases |c| - (ip + 1), 6, 1
  {
    hide FlatStack, Exec, Clean, Accepts, ForkFree, RunOver, RunNames, Loose, Skip, Proper, Get;
    match t.opener
    case EnterItems => SkippedSeries(e, c, v, ip, ok, mute, t, en, post);
    case CheckPropNames => SkippedSeries(e, c, v, ip, ok, mute, t, en, post);
    case CheckPatternProps(_) => SkippedSeries(e, c, v, ip, ok, mute, t, en, post);
    case EnterPrefixItem(k) =>
      if v.JArr? && k < |v.items| { BodyVerdict(e, c, v.items[k], ip + 1, ok, mute, en, post); }
    case EnterProperty(name) =>
      if Get(v, name).Some? { BodyVerdict(e, c, Get(v, name).value, ip + 1, ok, mute, en, post); }
    case EnterAdditional =>
    case CheckDepSchema(_) =>
  }

  /** The openers that run their body for each of several values. */
  lemma SkippedSeries(e: Env, c: Code, v: Value, ip: nat, ok: bool, mute: bool, t: Tree, en: Stack, post: Code)
    requires Ready(c, ip + 1, en, post) && Proper(en.top) && ForkFree(en.top)
    requires t.Nest? && t.body.trees == en.top && ip < |c| && c[ip] == Open(t.opener)
    requires t.opener.EnterItems? || t.opener.CheckPropNames? || t.opener.CheckPatternProps?
    ensures Step(e, c, v, ip, ok, mute).valid == (ok && AcceptsTree(e, t, v))
    decreases |c| - (ip + 1), 6, 0
  {
    hide FlatStack, Exec, Clean, Accepts, ForkFree, RunOver, RunNames, Loose, Skip, Proper, Get;
    match t.opener
    case EnterItems =>
      if v.JArr? { RunOverVerdict(e, c, v.items, ip + 1, ok, mute, en, post); }
    case CheckPropNames =>
      if v.JObj? {
        RunNamesVerdict(e, c, Machine.Names(v.members), ip + 1, ok, mute, c[ip], en, post);
        NamesAccepted(e, v.members, t.body.trees);
      }
    case CheckPatternProps(p) =>
      if v.JObj? && e.config.hasRegex {
        RunOverVerdict(e, c, Matching(e, p, v.members), ip + 1, ok, mute, en, post);
        MatchingAccepted(e, p, v.members, t.body.trees);
      }
  }

  // ----- contains -----

  lemma AcceptingHead(e: Env, ts: seq<Tree>, vs: seq<Value>)
    requires vs != []
    ensures |Accepting(e, ts, vs)| == |Accepting(e, ts, vs[1..])| + if Accepts(e, ts, vs[0]) then 1 else 0
  {
    var b := seq(|vs|, i requires 0 <= i < |vs| => Accepts(e, ts, vs[i]));
    TruesHead(b);
    assert Accepting(e, ts, vs) == Trues(b);
    assert Accepting(e, ts, vs[1..]) == Trues(b[1..]);
  }

  lemma {:induction false} HitsCount(e: Env, c: Code, vs: seq<Value>, ip: nat, st: Stack, post: Code)
    requires Ready(c, ip, st, post) && Proper(st.top) && ForkFree(st.top)
    ensures Hits(e, c, vs, ip, true) == |Accepting(e, st.top, vs)|
    decreases |c| - ip, 5, |vs|
  {
    if vs != [] {
      BodyVerdict(e, c, vs[0], ip, true, true, st, post);
      HitsCount(e, c, vs[1..], ip, st, post);
      AcceptingHead(e, st.top, vs);
    }
  }

  lemma StepQuota(e: Env, c: Code, v: Value, ip: nat, ok: bool, mute: bool, st: Stack, post: Code)
    returns (out: Stack)
    requires Ready(c, ip, st, post) && st.top != [] && st.top[0].Quota?
    ensures ip < |c| && Stepped(e, c, v, ok, Step(e, c, v, ip, ok, mute), st, out, post)
    decreases |c| - ip, 1, 0
  {
    hide FlatStack, Step, Hits, CleanTree, AcceptsTree, ForkFree, Proper, LooseStack, Entered;
    Enter(c, ip, st, post);
    EnteredLoose(st);
    EnteredNest(st);
    var t, en := st.top[0], Entered(st);
    assert c[ip + 1] == Opening(t)[1];
    out := SkipBody(c, ip + 2, en, post);
    UnderTransitive(st.below, en.below, out);
    MissesAbove(st.below, en.below, out);
    QuotaVerdict(e, c, v, ip, ok, mute, t);
    ProperTail(st.top);
    if Proper(st.top) && ForkFree(t.body.trees) && v.JArr? && ok {
      ProperQuota(t);
      HitsCount(e, c, v.items, ip + 2, en, post);
    }
  }

  lemma ProperQuota(t: Tree)
    requires t.Quota? && ProperTree(t)
    ensures Proper(t.body.trees)
  {
  }

  lemma QuotaVerdict(e: Env, c: Code, v: Value, ip: nat, ok: bool, mute: bool, t: Tree)
    requires WellCounted(c) && t.Quota? && ip + 2 <= |c| && c[ip] == Contains(t.min) && c[ip + 1] == NopCount(t.max)
    ensures var r := Step(e, c, v, ip, ok, mute);
            && r.ip == Skip(c, ip + 2)
            && (CleanTree(e, t, v, ok) <==> ForkFree(t.body.trees))
            && (v.JArr? && Hits(e, c, v.items, ip + 2, true) == |Accepting(e, t.body.trees, v.items)| ==>
                  r.valid == (ok && AcceptsTree(e, t, v)))
            && (!v.JArr? || !ok ==> r.valid == (ok && AcceptsTree(e, t, v)))
  {
    hide Hits, Accepts, ForkFree;
    assert SkipFrom(c, ip + 1, 1) == SkipFrom(c, ip + 2, 1);
  }

  // ----- conditionals -----

  /** What is known after an arm: where it stopped and with which verdict. */
  ghost predicate ArmDone(e: Env, v: Value, arm: Opener, taken: bool, ok: bool, valid: bool, st: Stack, out: Stack)
    requires st.Push?
  {
    if st.top != [] && st.top[0].Nest? && st.top[0].opener == arm then
      var body := st.top[0].body.trees;
      if (if taken then Clean(e, body, v, ok) else ForkFree(body)) then
        && out == Push(st.top[1..], st.below)
        && valid == (ok && (taken ==> Accepts(e, body, v)))
      else Misses(st.below, out)
    else out == st && valid == ok
  }

  /** An arm, if it is the next thing in the code: taken or skipped. */
  lemma {:induction false} ArmLands(e: Env, c: Code, v: Value, ip: nat, arm: Opener, taken: bool, ok: bool,
      mute: bool, st: Stack, post: Code)
    returns (out: Stack)
    requires Ready(c, ip, st, post) && (arm.CondThen? || arm.CondElse?)
    ensures var r := Arm(e, c, v, ip, arm, taken, ok, mute);
            && Lands(c, r.ip, st.below, out, post) && WellUnder(st.below, out)
            && ArmDone(e, v, arm, taken, ok, r.valid, st, out)
    decreases |c| - ip, 4, 0
  {
    hide FlatStack, Exec, Clean, Accepts, ForkFree, Skip, Arm, Proper, LooseStack;
    if st.top != [] && st.top[0].Nest? && st.top[0].opener == arm {
      out := ArmTaken(e, c, v, ip, arm, taken, ok, mute, st, post);
    } else {
      out := st;
      UnderPush(st.top, st.below);
      if st.top == [] { Leave(c, ip, st, post); } else { Enter(c, ip, st, post); }
      ArmStep(e, c, v, ip, arm, taken, ok, mute);
    }
  }

  lemma {:induction false} ArmTaken(e: Env, c: Code, v: Value, ip: nat, arm: Opener, taken: bool, ok: bool,
      mute: bool, st: Stack, post: Code)
    returns (out: Stack)
    requires Ready(c, ip, st, post) && (arm.CondThen? || arm.CondElse?)
    requires st.top != [] && st.top[0].Nest? && st.top[0].opener == arm
    ensures var r := Arm(e, c, v, ip, arm, taken, ok, mute);
            && Lands(c, r.ip, st.below, out, post) && WellUnder(st.below, out)
            && ArmDone(e, v, arm, taken, ok, r.valid, st, out)
    decreases |c| - ip, 3, 0
  {
    hide FlatStack, Exec, Clean, Accepts, ForkFree, Skip, Arm, Proper, LooseStack, Entered;
    Enter(c, ip, st, post);
    EnteredLoose(st);
    EnteredNest(st);
    NestOpener(st);
    var en := Entered(st);
    ArmStep(e, c, v, ip, arm, taken, ok, mute);
    if taken {
      out := RunLands(e, c, v, ip + 1, ok, mute, en, post);
    } else {
      out := SkipBody(c, ip + 1, en, post);
    }
    UnderTransitive(st.below, en.below, out);
    MissesAbove(st.below, en.below, out);
  }

  /** More than a body too deep. */
  lemma MissesAbove(rest: Stack, x: Stack, out: Stack)
    requires x.Push? && x.below == rest
    ensures WellUnder(x, out) ==> Misses(rest, out)
  {
    if WellUnder(x, out) {
      UnderTransitive(rest, x, out.below);
    }
  }

  lemma ArmStep(e: Env, c: Code, v: Value, ip: nat, arm: Opener, taken: bool, ok: bool, mute: bool)
    requires WellCounted(c) && ip < |c|
    ensures Arm(e, c, v, ip, arm, taken, ok, mute) ==
              if c[ip] != Open(arm) then Outcome(ip, ok, [])
              else if taken then Exec(e, c, v, ip + 1, ok, mute) else Outcome(Skip(c, ip + 1), ok, [])
  {
  }

  lemma StepCond(e: Env, c: Code, v: Value, ip: nat, ok: bool, mute: bool, st: Stack, post: Code)
    returns (out: Stack)
    requires Ready(c, ip, st, post) && st.top != [] && st.top[0].Cond?
    ensures ip < |c| && Stepped(e, c, v, ok, Step(e, c, v, ip, ok, mute), st, out, post)
    decreases |c| - ip, 1, 0
  {
    hide FlatStack, Exec, Step, StepIf, Clean, Accepts, AcceptsTree, CleanTree, ForkFree, Proper, ProperTree,
         ArmDone, LooseStack, WellCounted, CondTail, Entered;
    Enter(c, ip, st, post);
    EnteredLoose(st);
    EnteredNest(st);
    var t, en, ts := st.top[0], Entered(st), st.top[1..];
    CondStep(e, c, v, ip, ok, mute);
    var a, b, i, th;
    a, b, out, i, th := CondRuns(e, c, v, ip, ok, mute, en, st.below, post);
    CondCompose(e, v, ok, t, ts, st.below, i, th, StepIf(e, c, v, ip, ok, mute).valid, a, b, out);
    CondVerdict(e, v, ok, t);
    ProperTail(st.top);
    if Proper(st.top) { ProperCond(t, ts); }
  }

  lemma DeeperAgain(rest: Stack, a: Stack, b: Stack)
    requires WellUnder(rest, a) && WellUnder(a.below, b)
    ensures WellUnder(rest, b) && (Misses(rest, a) ==> Misses(rest, b))
  {
    UnderTransitive(rest, a.below, b.below);
  }

  /** The runs an if makes: over its own body, and over the arms it finds behind that. */
  lemma CondRuns(e: Env, c: Code, v: Value, ip: nat, ok: bool, mute: bool, en: Stack, rest: Stack, post: Code)
    returns (a: Stack, b: Stack, out: Stack, i: bool, th: bool)
    requires ip < |c| && Ready(c, ip + 1, en, post) && en.below.Push? && en.below.below == rest
    ensures WellUnder(rest, a) && WellUnder(a.below, b) && WellUnder(b.below, out) && WellUnder(rest, out)
    ensures Proper(en.top) ==>
              if Clean(e, en.top, v, ok) then a == en.below && i == (ok && Accepts(e, en.top, v))
              else Misses(rest, a)
    ensures ArmDone(e, v, CondThen, i, ok, th, a, b)
    ensures var r := StepIf(e, c, v, ip, ok, mute);
            ArmDone(e, v, CondElse, !i, th, r.valid, b, out) && Lands(c, r.ip, rest, out, post)
    decreases |c| - ip, 0, 0
  {
    hide FlatStack, Exec, Clean, Accepts, ForkFree, Arm, Proper, ArmDone, LooseStack, WellCounted;
    var r1 := Exec(e, c, v, ip + 1, ok, true);
    i := r1.valid;
    a := RunLands(e, c, v, ip + 1, ok, true, en, post);
    UnderTransitive(rest, en.below, a);
    MissesAbove(rest, en.below, a);
    var r2 := Arm(e, c, v, r1.ip, CondThen, i, ok, mute);
    th := r2.valid;
    b := ArmLands(e, c, v, r1.ip, CondThen, i, ok, mute, a, post);
    DeeperAgain(rest, a, b);
    out := ArmLands(e, c, v, r2.ip, CondElse, !i, th, mute, b, post);
    DeeperAgain(rest, b, out);
  }

  lemma CondStep(e: Env, c: Code, v: Value, ip: nat, ok: bool, mute: bool)
    requires WellCounted(c) && ip < |c| && c[ip] == Open(CondIf)
    ensures Step(e, c, v, ip, ok, mute) == StepIf(e, c, v, ip, ok, mute)
  {
  }

  lemma ProperCond(t: Tree, ts: seq<Tree>)
    requires t.Cond? && ProperTree(t) && Proper(ts)
    ensures Proper(t.ifBody.trees) && (ts != [] ==> !IsArm(ts[0]))
  {
    assert ts != [] ==> ProperTree(ts[0]);
  }

  lemma CondVerdict(e: Env, v: Value, ok: bool, t: Tree)
    requires t.Cond?
    ensures var pass := ok && Accepts(e, t.ifBody.trees, v);
            CleanTree(e, t, v, ok) <==>
              && Clean(e, t.ifBody.trees, v, ok)
              && (t.thenBody.Some? ==> if pass then Clean(e, t.thenBody.value.trees, v, ok)
                  else ForkFree(t.thenBody.value.trees))
              && (t.elseBody.Some? ==> if pass then ForkFree(t.elseBody.value.trees)
                  else Clean(e, t.elseBody.value.trees, v, ok))
    ensures AcceptsTree(e, t, v) <==>
              if Accepts(e, t.ifBody.trees, v) then t.thenBody.Some? ==> Accepts(e, t.thenBody.value.trees, v)
              else t.elseBody.Some? ==> Accepts(e, t.elseBody.value.trees, v)
  {
    hide Clean, Accepts, ForkFree;
  }

  lemma CondCompose(e: Env, v: Value, ok: bool, t: Tree, ts: seq<Tree>, rest: Stack,
                    i: bool, th: bool, el: bool, a: Stack, b: Stack, out: Stack)
    requires t.Cond? && WellUnder(rest, a) && WellUnder(a.below, b) && WellUnder(b.below, out)
    requires Proper(t.ifBody.trees) ==>
               if Clean(e, t.ifBody.trees, v, ok) then
                 a == Push(Behind(t, ts), rest) && i == (ok && Accepts(e, t.ifBody.trees, v))
               else Misses(rest, a)
    requires ArmDone(e, v, CondThen, i, ok, th, a, b) && ArmDone(e, v, CondElse, !i, th, el, b, out)
    ensures Proper(t.ifBody.trees) && (ts != [] ==> !IsArm(ts[0])) ==>
              var pass := ok && Accepts(e, t.ifBody.trees, v);
              if && Clean(e, t.ifBody.trees, v, ok)
                 && (t.thenBody.Some? ==> if pass then Clean(e, t.thenBody.value.trees, v, ok)
                     else ForkFree(t.thenBody.value.trees))
                 && (t.elseBody.Some? ==> if pass then ForkFree(t.elseBody.value.trees)
                     else Clean(e, t.elseBody.value.trees, v, ok))
              then
                && out == Push(ts, rest)
                && el == (ok && (if Accepts(e, t.ifBody.trees, v)
                                 then t.thenBody.Some? ==> Accepts(e, t.thenBody.value.trees, v)
                                 else t.elseBody.Some? ==> Accepts(e, t.elseBody.value.trees, v)))
              else Misses(rest, out)
  {
    hide Clean, Accepts, ForkFree, Proper, WellUnder, CondTail;
    DeeperAgain(rest, a, b);
    DeeperAgain(rest, b, out);
    CondArms(t.thenBody, t.elseBody, ts);
  }

  lemma CondArms(th: Option<Block>, el: Option<Block>, ts: seq<Tree>)
    ensures var l := CondTail(th, el) + ts;
            && (th.Some? ==> l != [] && l[0] == Nest(CondThen, th.value) && l[1..] == CondTail(None, el) + ts)
            && (th.None? ==> l == CondTail(None, el) + ts)
    ensures var l := CondTail(None, el) + ts;
            && (el.Some? ==> l != [] && l[0] == Nest(CondElse, el.value) && l[1..] == ts)
            && (el.None? ==> l == ts)
  {
  }

  // ----- composition -----

  predicate ProperTops(st: Stack, n: nat) {
    n == 0 || (st.Push? && Proper(st.top) && ProperTops(st.below, n - 1))
  }

  /** The top `n` bodies all accept. */
  ghost predicate AdmitTops(e: Env, st: Stack, n: nat, v: Value) {
    n == 0 || (st.Push? && Accepts(e, st.top, v) && AdmitTops(e, st.below, n - 1, v))
  }

  ghost predicate CleanEach(e: Env, st: Stack, n: nat, v: Value, ok: bool) {
    n == 0 || (st.Push? && Clean(e, st.top, v, ok) && CleanEach(e, st.below, n - 1, v, ok))
  }

  /** Each of the top `n` bodies clean when it starts with the verdict the earlier ones left. */
  ghost predicate CleanAll(e: Env, st: Stack, n: nat, v: Value, ok: bool) {
    n == 0 || (st.Push? && Clean(e, st.top, v, ok) && CleanAll(e, st.below, n - 1, v, ok && Accepts(e, st.top, v)))
  }

  ghost function Passing(e: Env, st: Stack, n: nat, v: Value): nat {
    if n == 0 || st.Bottom? then 0 else (if Accepts(e, st.top, v) then 1 else 0) + Passing(e, st.below, n - 1, v)
  }

  ghost predicate RanAll(e: Env, c: Code, v: Value, n: nat, ok: bool, r: Outcome, st: Stack, out: Stack, post: Code) {
    && Lands(c, r.ip, Pop(st, n), out, post)
    && (ProperTops(st, n) ==>
          if CleanAll(e, st, n, v, ok) then out == Pop(st, n) && r.valid == (ok && AdmitTops(e, st, n, v))
          else WellUnder(Pop(st, n), out))
  }

  lemma {:induction false} RunAllLands(e: Env, c: Code, v: Value, n: nat, ip: nat, ok: bool, mute: bool, st: Stack,
      post: Code)
    returns (out: Stack)
    requires Ready(c, ip, st, post) && n < Depth(st)
    ensures RanAll(e, c, v, n, ok, RunAll(e, c, v, n, ip, ok, mute), st, out, post)
    decreases |c| - ip, 5, n
  {
    hide At, LooseStack, Clean, Accepts, Proper, WellCounted;
    ReadyInside(c, ip, st, post);
    if n == 0 {
      out := st;
    } else {
      var a := RunLands(e, c, v, ip, ok, mute, st, post);
      var s := Exec(e, c, v, ip, ok, mute);
      UnderDepth(st.below, a);
      out := RunAllLands(e, c, v, n - 1, s.ip, ok && s.valid, mute, a, post);
      RunAllCompose(e, c, v, n, ok, s, RunAll(e, c, v, n - 1, s.ip, ok && s.valid, mute), st, a, out, post);
    }
  }

  lemma RunAllCompose(e: Env, c: Code, v: Value, n: nat, ok: bool, s: Outcome, r: Outcome,
                      st: Stack, a: Stack, out: Stack, post: Code)
    requires 1 <= n < Depth(st) && (s.valid ==> ok)
    requires Ran(e, c, v, ok, s, st, a, post)
    requires RanAll(e, c, v, n - 1, s.valid, r, a, out, post)
    ensures RanAll(e, c, v, n, ok, r, st, out, post)
  {
    hide At, LooseStack, Clean, Accepts, Proper;
    PopMonotone(st.below, a, n - 1);
    UnderTransitive(Pop(st, n), Pop(a, n - 1), out);
  }

  ghost predicate RanEach(e: Env, c: Code, v: Value, n: nat, ok: bool, r: Tally, st: Stack, out: Stack, post: Code) {
    && Lands(c, r.ip, Pop(st, n), out, post)
    && (ProperTops(st, n) ==>
          if CleanEach(e, st, n, v, ok) then out == Pop(st, n) && r.passed == if ok then Passing(e, st, n, v) else 0
          else WellUnder(Pop(st, n), out))
  }

  lemma {:induction false} RunEachLands(e: Env, c: Code, v: Value, n: nat, ip: nat, ok: bool, mute: bool, st: Stack,
      post: Code)
    returns (out: Stack)
    requires Ready(c, ip, st, post) && n < Depth(st)
    ensures RanEach(e, c, v, n, ok, RunEach(e, c, v, n, ip, ok, mute), st, out, post)
    decreases |c| - ip, 5, n
  {
    hide At, LooseStack, Clean, Accepts, Proper, WellCounted;
    ReadyInside(c, ip, st, post);
    if n == 0 {
      out := st;
    } else {
      var a := RunLands(e, c, v, ip, ok, mute, st, post);
      var s := Exec(e, c, v, ip, ok, mute);
      UnderDepth(st.below, a);
      out := RunEachLands(e, c, v, n - 1, s.ip, ok, mute, a, post);
      RunEachCompose(e, c, v, n, ok, s, RunEach(e, c, v, n - 1, s.ip, ok, mute), st, a, out, post);
    }
  }

  lemma RunEachCompose(e: Env, c: Code, v: Value, n: nat, ok: bool, s: Outcome, r: Tally,
                       st: Stack, a: Stack, out: Stack, post: Code)
    requires 1 <= n < Depth(st) && (s.valid ==> ok)
    requires Ran(e, c, v, ok, s, st, a, post)
    requires RanEach(e, c, v, n - 1, ok, r, a, out, post)
    ensures RanEach(e, c, v, n, ok, r.(passed := r.passed + (if s.valid then 1 else 0)), st, out, post)
  {
    hide At, LooseStack, Clean, Accepts, Proper;
    PopMonotone(st.below, a, n - 1);
    UnderTransitive(Pop(st, n), Pop(a, n - 1), out);
  }

  // ----- what that means for a list of bodies -----

  predicate ProperBodies(bs: seq<Block>) {
    forall i | 0 <= i < |bs| :: Proper(bs[i].trees)
  }

  lemma {:induction false} ProperBodiesTops(bs: seq<Block>, st: Stack, n: nat)
    requires n <= |bs| && ProperBodies(bs)
    ensures ProperTops(PushAll(bs, st), n)
  {
    hide Proper;
    if n > 0 { ProperBodiesTops(bs[1..], st, n - 1); }
  }

  lemma {:induction false} AdmitBodies(e: Env, bs: seq<Block>, st: Stack, v: Value)
    ensures AdmitTops(e, PushAll(bs, st), |bs|, v) <==> AdmitBefore(e, bs, |bs|, v)
  {
    hide Accepts;
    if bs != [] {
      AdmitBodies(e, bs[1..], st, v);
      AdmitBeforeHead(e, bs, |bs|, v);
    }
  }

  lemma AdmitBeforeHead(e: Env, bs: seq<Block>, i: int, v: Value)
    requires 1 <= i <= |bs|
    ensures AdmitBefore(e, bs, i, v) <==> Accepts(e, bs[0].trees, v) && AdmitBefore(e, bs[1..], i - 1, v)
  {
    hide Accepts;
    assert forall j | 0 <= j < i - 1 :: bs[1..][j] == bs[j + 1];
    if Accepts(e, bs[0].trees, v) && AdmitBefore(e, bs[1..], i - 1, v) {
      forall j | 0 <= j < i ensures Accepts(e, bs[j].trees, v) {
        if j > 0 { assert bs[1..][j - 1] == bs[j]; }
      }
    }
  }

  ghost predicate CleanSeries(e: Env, bs: seq<Block>, v: Value, ok: bool) {
    forall i | 0 <= i < |bs| :: Clean(e, bs[i].trees, v, ok && AdmitBefore(e, bs, i, v))
  }

  lemma CleanSeriesHead(e: Env, bs: seq<Block>, v: Value, ok: bool)
    requires bs != []
    ensures CleanSeries(e, bs, v, ok)
       <==> Clean(e, bs[0].trees, v, ok) && CleanSeries(e, bs[1..], v, ok && Accepts(e, bs[0].trees, v))
  {
    hide Clean, Accepts;
    var rest, ok' := bs[1..], ok && Accepts(e, bs[0].trees, v);
    assert AdmitBefore(e, bs, 0, v);
    forall i | 0 <= i < |rest|
      ensures Clean(e, bs[i + 1].trees, v, ok && AdmitBefore(e, bs, i + 1, v))
         <==> Clean(e, rest[i].trees, v, ok' && AdmitBefore(e, rest, i, v))
    {
      AdmitBeforeHead(e, bs, i + 1, v);
      assert rest[i] == bs[i + 1];
    }
    hide AdmitBefore;
    if CleanSeries(e, rest, v, ok') && Clean(e, bs[0].trees, v, ok) {
      forall i | 0 <= i < |bs| ensures Clean(e, bs[i].trees, v, ok && AdmitBefore(e, bs, i, v)) {
        if i > 0 { assert Clean(e, rest[i - 1].trees, v, ok' && AdmitBefore(e, rest, i - 1, v)); }
      }
    }
    if CleanSeries(e, bs, v, ok) {
      assert Clean(e, bs[0].trees, v, ok && AdmitBefore(e, bs, 0, v));
      forall i | 0 <= i < |rest| ensures Clean(e, rest[i].trees, v, ok' && AdmitBefore(e, rest, i, v)) {
        assert Clean(e, bs[i + 1].trees, v, ok && AdmitBefore(e, bs, i + 1, v));
      }
    }
  }

  lemma {:induction false} CleanAllBodies(e: Env, bs: seq<Block>, st: Stack, v: Value, ok: bool)
    ensures CleanAll(e, PushAll(bs, st), |bs|, v, ok) <==> CleanSeries(e, bs, v, ok)
  {
    hide Clean, Accepts;
    if bs != [] {
      CleanAllBodies(e, bs[1..], st, v, ok && Accepts(e, bs[0].trees, v));
      CleanSeriesHead(e, bs, v, ok);
    }
  }

  lemma {:induction false} CleanEachBodies(e: Env, bs: seq<Block>, st: Stack, n: nat, v: Value, ok: bool)
    requires n <= |bs|
    ensures CleanEach(e, PushAll(bs, st), n, v, ok) <==> forall i | 0 <= i < n :: Clean(e, bs[i].trees, v, ok)
  {
    hide Clean;
    if n > 0 {
      CleanEachBodies(e, bs[1..], st, n - 1, v, ok);
      assert forall i | 0 <= i < n - 1 :: bs[1..][i] == bs[i + 1];
      if Clean(e, bs[0].trees, v, ok) && CleanEach(e, PushAll(bs[1..], st), n - 1, v, ok) {
        forall i | 0 <= i < n ensures Clean(e, bs[i].trees, v, ok) {
          if i > 0 { assert bs[1..][i - 1] == bs[i]; }
        }
      }
    }
  }

  lemma {:induction false} PassingBodies(e: Env, bs: seq<Block>, st: Stack, v: Value)
    ensures Passing(e, PushAll(bs, st), |bs|, v) == |Admitting(e, bs, v)|
  {
    hide Accepts;
    if bs == [] {
      assert Admitting(e, bs, v) == {};
    } else {
      PassingBodies(e, bs[1..], st, v);
      var b := seq(|bs|, i requires 0 <= i < |bs| => Accepts(e, bs[i].trees, v));
      TruesHead(b);
      assert Admitting(e, bs, v) == Trues(b);
      assert Admitting(e, bs[1..], v) == Trues(b[1..]);
    }
  }

  // ----- allOf, anyOf, oneOf -----

  lemma StepFork(e: Env, c: Code, v: Value, ip: nat, ok: bool, mute: bool, st: Stack, post: Code)
    returns (out: Stack)
    requires Ready(c, ip, st, post) && st.top != [] && st.top[0].Fork?
    ensures ip < |c| && Stepped(e, c, v, ok, Step(e, c, v, ip, ok, mute), st, out, post)
    decreases |c| - ip, 1, 0
  {
    hide FlatStack, Step, Clean, Accepts, AcceptsTree, CleanTree, RunAll, RunEach, CleanAll, CleanEach, AdmitTops,
         Passing, LooseStack, Proper, ProperTops;
    Enter(c, ip, st, post);
    EnteredLoose(st);
    EnteredDepth(st);
    var t, en := st.top[0], Entered(st);
    var n := |t.bodies| % 0x1_0000;
    ForkStep(e, c, v, ip, ok, mute);
    ProperForks(st, n);
    if t.kind.AllOf? {
      out := RunAllLands(e, c, v, n, ip + 1, ok, mute, en, post);
    } else {
      out := RunEachLands(e, c, v, n, ip + 1, ok, true, en, post);
    }
    ForkBounds(st, n, out);
    ForkVerdict(e, t, Push(st.top[1..], st.below), v, ok);
  }

  lemma ForkStep(e: Env, c: Code, v: Value, ip: nat, ok: bool, mute: bool)
    requires WellCounted(c) && ip < |c| && c[ip].Branch?
    ensures c[ip].kind.AllOf? ==> Step(e, c, v, ip, ok, mute) == RunAll(e, c, v, c[ip].count, ip + 1, ok, mute)
    ensures !c[ip].kind.AllOf? ==>
              var t := RunEach(e, c, v, c[ip].count, ip + 1, ok, true);
              var r := Step(e, c, v, ip, ok, mute);
              && r.ip == t.ip
              && r.valid == (ok && if c[ip].kind.AnyOf? then t.passed > 0 else t.passed == 1)
  {
    hide RunAll, RunEach;
  }

  lemma ProperForks(st: Stack, n: nat)
    requires LooseStack(st) && st.Push? && st.top != [] && (st.top[0].Fork? || st.top[0].Pick?)
    requires n <= |Inside(st.top[0])|
    ensures ProperTops(Entered(st), n) && ProperBodies(st.top[0].bodies)
    ensures st.top[0].Pick? ==> |st.top[0].keys| == |st.top[0].bodies|
  {
    assert Loose(st.top[0]);
    ProperBodiesTops(Inside(st.top[0]), Push(st.top[1..], st.below), n);
  }

  /** Running the first `n` of a fork's bodies, or fewer, never gets past the bodies. */
  lemma ForkBounds(st: Stack, n: nat, out: Stack)
    requires st.Push? && st.top != [] && (st.top[0].Fork? || st.top[0].Pick?)
    requires n <= |Inside(st.top[0])| && Under(Pop(Entered(st), n), out)
    ensures Under(st.below, out) && WellUnder(st.below, out)
    ensures n < |Inside(st.top[0])| || WellUnder(Push(st.top[1..], st.below), out) ==> Misses(st.below, out)
    ensures n == |Inside(st.top[0])| ==> Pop(Entered(st), n) == Push(st.top[1..], st.below)
  {
    var bs, x := Inside(st.top[0]), Push(st.top[1..], st.below);
    PopSome(bs, x, n);
    UnderTransitive(x, Pop(Entered(st), n), out);
    UnderTransitive(st.below, x, out);
    MissesAbove(st.below, x, out);
  }

  lemma {:induction false} PopSome(bs: seq<Block>, x: Stack, n: nat)
    requires n <= |bs|
    ensures if n == |bs| then Pop(PushAll(bs, x), n) == x else WellUnder(x, Pop(PushAll(bs, x), n))
    ensures Under(x, Pop(PushAll(bs, x), n))
  {
    if n > 0 {
      PopSome(bs[1..], x, n - 1);
    } else {
      PopPushAll(bs, x, 0);
    }
  }

  lemma ForkVerdict(e: Env, t: Tree, x: Stack, v: Value, ok: bool)
    requires t.Fork?
    ensures |t.bodies| >= 0x1_0000 ==> !CleanTree(e, t, v, ok)
    ensures |t.bodies| < 0x1_0000 && t.kind.AllOf? ==>
              && (CleanTree(e, t, v, ok) <==> CleanAll(e, PushAll(t.bodies, x), |t.bodies|, v, ok))
              && (AcceptsTree(e, t, v) <==> AdmitTops(e, PushAll(t.bodies, x), |t.bodies|, v))
    ensures |t.bodies| < 0x1_0000 && !t.kind.AllOf? ==>
              && (CleanTree(e, t, v, ok) <==> CleanEach(e, PushAll(t.bodies, x), |t.bodies|, v, ok))
              && (AcceptsTree(e, t, v) <==>
                    var n := Passing(e, PushAll(t.bodies, x), |t.bodies|, v);
                    if t.kind.AnyOf? then n > 0 else n == 1)
  {
    hide Clean, Accepts, CleanAll, CleanEach, AdmitTops, Passing, PushAll;
    if t.kind.AllOf? {
      CleanAllBodies(e, t.bodies, x, v, ok);
      AdmitBodies(e, t.bodies, x, v);
    } else {
      CleanEachBodies(e, t.bodies, x, |t.bodies|, v, ok);
      hide AcceptsTree;
      PassingVerdict(e, t, x, v);
    }
  }

  lemma PassingVerdict(e: Env, t: Tree, x: Stack, v: Value)
    requires t.Fork? && !t.kind.AllOf?
    ensures AcceptsTree(e, t, v) <==>
              var n := Passing(e, PushAll(t.bodies, x), |t.bodies|, v);
              if t.kind.AnyOf? then n > 0 else n == 1
  {
    hide Accepts, Passing, PushAll;
    PassingBodies(e, t.bodies, x, v);
    SomeAdmits(e, t.bodies, v);
  }

  lemma SomeAdmits(e: Env, bs: seq<Block>, v: Value)
    ensures |Admitting(e, bs, v)| > 0 <==> exists i :: 0 <= i < |bs| && Accepts(e, bs[i].trees, v)
  {
    hide Accepts;
    var s := Admitting(e, bs, v);
    if |s| > 0 { var _ := Witness(s); }
    if i :| 0 <= i < |bs| && Accepts(e, bs[i].trees, v) {
      assert i in s;
    }
  }

  // ----- discriminators -----

  lemma StepPick(e: Env, c: Code, v: Value, ip: nat, ok: bool, mute: bool, st: Stack, post: Code)
    returns (out: Stack)
    requires Ready(c, ip, st, post) && st.top != [] && st.top[0].Pick?
    ensures ip < |c| && Stepped(e, c, v, ok, Step(e, c, v, ip, ok, mute), st, out, post)
    decreases |c| - ip, 1, 0
  {
    hide FlatStack, Step, Clean, Accepts, AcceptsTree, CleanTree, RunEach, Exec, CleanEach, PicksAt,
         Passing, LooseStack, Proper, ProperTops, Under, WellCounted, PickRunsClean, NameCode, FindKey, At,
         PushAll, Pop, PickCode, NamesBehind;
    PickAhead(c, ip, st, post);
    EnteredLoose(st);
    EnteredDepth(st);
    var t, en, n := st.top[0], Entered(st), |st.top[0].keys|;
    ProperForks(st, |t.bodies|);
    var m := PickedKey(t.property, t.keys, v);
    if m == n {
      PickNoneStep(e, c, v, ip, ok, mute, t);
      out := RunEachLands(e, c, v, n, ip + 2 + n, ok, mute, en, post);
      PickNone(e, t, Push(st.top[1..], st.below), v, ok);
    } else {
      PickOneStep(e, c, v, ip, ok, mute, t, m);
      out := PickLands(e, c, v, m, n, ip + 2 + n, ok, mute, en, post);
      PickVerdict(e, t, Push(st.top[1..], st.below), v, ok, m);
    }
    ForkBounds(st, n, out);
  }

  /** The position a discriminator picks; one past the last when it picks none. */
  lemma {:induction false} PickedKey(property: string, keys: seq<Option<string>>, v: Value) returns (m: nat)
    ensures m <= |keys| && forall i | 0 <= i < |keys| :: PicksAt(property, keys, v, i) <==> i == m
  {
    var tag := Get(v, property);
    if tag.Some? && tag.value.JStr? {
      m := 0;
      while m < |keys| && !SameName(keys[m], tag.value.s)
        invariant m <= |keys| && forall j | 0 <= j < m :: !SameName(keys[j], tag.value.s)
      {
        m := m + 1;
      }
    } else {
      m := |keys|;
    }
  }

  predicate PickCode(c: Code, ip: nat, t: Tree) {
    t.Pick? && ip < |c| && c[ip] == Dispatch(t.property) && NamesBehind(c, ip, t.keys)
  }

  lemma PickAhead(c: Code, ip: nat, st: Stack, post: Code)
    requires Ready(c, ip, st, post) && st.top != [] && st.top[0].Pick?
    ensures PickCode(c, ip, st.top[0]) && At(c, ip + 2 + |st.top[0].keys|, Entered(st), post)
  {
    hide FlatStack, LooseStack, Entered, At, NamesBehind, NameCode, WellCounted;
    NamesAhead(c, ip, st, post);
  }

  /** `FindKey` finds the picked position in the inline keys. */
  lemma FindPicked(c: Code, ip: nat, t: Tree, v: Value, m: nat)
    requires PickCode(c, ip, t) && m <= |t.keys|
    requires forall i | 0 <= i < |t.keys| :: PicksAt(t.property, t.keys, v, i) <==> i == m
    requires Get(v, t.property).Some? && Get(v, t.property).value.JStr?
    ensures FindKey(c, ip + 2, |t.keys|, Get(v, t.property).value.s) == m
  {
    hide Get, SameName;
    var n, tag := |t.keys|, Get(v, t.property).value.s;
    var k := FindKey(c, ip + 2, n, tag);
    assert forall j | 0 <= j < k :: c[ip + 2 + j].name == t.keys[j] && !SameName(t.keys[j], tag);
    assert k < n ==> c[ip + 2 + k].name == t.keys[k] && PicksAt(t.property, t.keys, v, k);
    assert m < n ==> PicksAt(t.property, t.keys, v, m);
  }

  lemma PickNoneStep(e: Env, c: Code, v: Value, ip: nat, ok: bool, mute: bool, t: Tree)
    requires WellCounted(c) && PickCode(c, ip, t)
    requires forall i | 0 <= i < |t.keys| :: !PicksAt(t.property, t.keys, v, i)
    ensures var r := Step(e, c, v, ip, ok, mute);
            !r.valid && r.ip == RunEach(e, c, v, |t.keys|, ip + 2 + |t.keys|, ok, mute).ip
  {
    hide RunEach, Exec, PicksAt, FindKey;
    if Get(v, t.property).Some? && Get(v, t.property).value.JStr? {
      FindPicked(c, ip, t, v, |t.keys|);
    }
    hide Get;
  }

  lemma PickOneStep(e: Env, c: Code, v: Value, ip: nat, ok: bool, mute: bool, t: Tree, m: nat)
    requires WellCounted(c) && PickCode(c, ip, t) && m < |t.keys|
    requires forall i | 0 <= i < |t.keys| :: PicksAt(t.property, t.keys, v, i) <==> i == m
    ensures var n, start, r := |t.keys|, ip + 2 + |t.keys|, Step(e, c, v, ip, ok, mute);
            var before := RunEach(e, c, v, m, start, ok, true);
            var s := Exec(e, c, v, before.ip, ok, mute);
            var after := RunEach(e, c, v, n - m - 1, s.ip, ok && s.valid, true);
            r.ip == after.ip && r.valid == (ok && s.valid)
  {
    hide RunEach, Exec, FindKey, SameName;
    assert PicksAt(t.property, t.keys, v, m);
    FindPicked(c, ip, t, v, m);
    hide Get, PicksAt;
  }

  lemma PickNone(e: Env, t: Tree, x: Stack, v: Value, ok: bool)
    requires t.Pick? && |t.keys| == |t.bodies|
    requires forall i | 0 <= i < |t.keys| :: !PicksAt(t.property, t.keys, v, i)
    ensures !AcceptsTree(e, t, v)
    ensures CleanTree(e, t, v, ok) <==> CleanEach(e, PushAll(t.bodies, x), |t.bodies|, v, ok)
  {
    hide Clean, Accepts, PicksAt, CleanEach, PushAll;
    CleanEachBodies(e, t.bodies, x, |t.bodies|, v, ok);
    assert forall i | 0 <= i < |t.bodies| :: PickBefore(e, t.property, t.keys, t.bodies, i, v);
    hide PickBefore;
  }

  /** Of the top `n` bodies, `m` is the one that counts; the ones behind it start with its verdict. */
  ghost predicate PickRunsClean(e: Env, st: Stack, m: nat, n: nat, v: Value, ok: bool)
    requires m < n <= Depth(st)
  {
    && CleanEach(e, st, m, v, ok)
    && Pop(st, m).Push? && Clean(e, Pop(st, m).top, v, ok)
    && CleanEach(e, Pop(st, m).below, n - m - 1, v, ok && Accepts(e, Pop(st, m).top, v))
  }

  lemma PickVerdict(e: Env, t: Tree, x: Stack, v: Value, ok: bool, m: nat)
    requires t.Pick? && |t.keys| == |t.bodies| && m < |t.keys|
    requires forall i | 0 <= i < |t.keys| :: PicksAt(t.property, t.keys, v, i) <==> i == m
    ensures var st := PushAll(t.bodies, x);
            && |t.bodies| <= Depth(st) && Pop(st, m).Push? && Pop(st, m).top == t.bodies[m].trees
            && (AcceptsTree(e, t, v) <==> Accepts(e, Pop(st, m).top, v))
            && (CleanTree(e, t, v, ok) <==> PickRunsClean(e, st, m, |t.bodies|, v, ok))
  {
    hide Clean, Accepts, PicksAt, PushAll, PickRunsClean, Pop;
    PopAll(t.bodies, x);
    PopBodies(t.bodies, x, m);
    PickCleanBodies(e, t.bodies, x, v, ok, m);
    forall i | 0 <= i < |t.bodies|
      ensures PickBefore(e, t.property, t.keys, t.bodies, i, v) <==> (m < i ==> Accepts(e, t.bodies[m].trees, v))
    {
      if m < i { assert PicksAt(t.property, t.keys, v, m); }
    }
    hide PickBefore;
  }

  lemma PickCleanBodies(e: Env, bs: seq<Block>, x: Stack, v: Value, ok: bool, m: nat)
    requires m < |bs| <= Depth(PushAll(bs, x))
    ensures PickRunsClean(e, PushAll(bs, x), m, |bs|, v, ok)
       <==> forall i | 0 <= i < |bs| :: Clean(e, bs[i].trees, v, ok && (m < i ==> Accepts(e, bs[m].trees, v)))
  {
    hide Clean, Accepts, PushAll, CleanEach, Pop;
    var later := bs[m + 1..];
    PopBodies(bs, x, m);
    CleanEachBodies(e, bs, x, m, v, ok);
    CleanEachBodies(e, later, x, |later|, v, ok && Accepts(e, bs[m].trees, v));
    assert forall i | 0 <= i < |later| :: later[i] == bs[m + 1 + i];
    assert forall i | m < i < |bs| :: bs[i] == later[i - m - 1];
  }

  lemma {:induction false} PopBodies(bs: seq<Block>, x: Stack, m: nat)
    requires m < |bs|
    ensures Pop(PushAll(bs, x), m) == Push(bs[m].trees, PushAll(bs[m + 1..], x))
  {
    if m > 0 {
      PopBodies(bs[1..], x, m - 1);
      assert bs[1..][m..] == bs[m + 1..];
    }
  }

  lemma PickLands(e: Env, c: Code, v: Value, m: nat, n: nat, ip: nat, ok: bool, mute: bool, st: Stack, post: Code)
    returns (out: Stack)
    requires Ready(c, ip, st, post) && m < n < Depth(st) && ProperTops(st, n)
    ensures var before := RunEach(e, c, v, m, ip, ok, true);
            var s := Exec(e, c, v, before.ip, ok, mute);
            var after := RunEach(e, c, v, n - m - 1, s.ip, ok && s.valid, true);
            && Lands(c, after.ip, Pop(st, n), out, post)
            && Pop(st, m).Push?
            && if PickRunsClean(e, st, m, n, v, ok) then
                 out == Pop(st, n) && s.valid == (ok && Accepts(e, Pop(st, m).top, v))
               else WellUnder(Pop(st, n), out)
    decreases |c| - ip, 6, 0
  {
    hide FlatStack, RunEach, Exec, Clean, Accepts, Proper, LooseStack, CleanEach, WellCounted;
    var before := RunEach(e, c, v, m, ip, ok, true);
    var s := Exec(e, c, v, before.ip, ok, mute);
    var after := RunEach(e, c, v, n - m - 1, s.ip, ok && s.valid, true);
    PopDepth(st, m);
    ProperSplit(st, m, n);
    var mid := Pop(st, m);
    var a := RunEachLands(e, c, v, m, ip, ok, true, st, post);
    UnderDepth(mid, a);
    var b := RunLands(e, c, v, before.ip, ok, mute, a, post);
    UnderDepth(a.below, b);
    out := RunEachLands(e, c, v, n - m - 1, s.ip, ok && s.valid, true, b, post);
    PickUnder(st, m, n, a, b, out);
  }

  /** The three stretches of runs keep above what they should pop. */
  lemma PickUnder(st: Stack, m: nat, n: nat, a: Stack, b: Stack, out: Stack)
    requires m < n < Depth(st) && Under(Pop(st, m), a) && a.Push? && Under(a.below, b) && Under(Pop(b, n - m - 1), out)
    ensures Under(Pop(st, n), out) && Pop(st, m).Push? && Pop(Pop(st, m).below, n - m - 1) == Pop(st, n)
    ensures WellUnder(Pop(st, m), a) || WellUnder(a.below, b) || WellUnder(Pop(b, n - m - 1), out)
        ==> WellUnder(Pop(st, n), out)
  {
    var k, mid := n - m - 1, Pop(st, m);
    PopDepth(st, m);
    PopTwice(st, m, n - m);
    BelowUnder(mid, a);
    UnderTransitive(mid.below, a.below, b);
    PopMonotone(mid.below, b, k);
    UnderTransitive(Pop(mid.below, k), Pop(b, k), out);
  }

  lemma BelowUnder(a: Stack, b: Stack)
    requires a.Push? && Under(a, b)
    ensures b.Push? && Under(a.below, b.below) && (WellUnder(a, b) ==> WellUnder(a.below, b.below))
  {
    if a != b { UnderTransitive(a.below, a, b.below); }
    if WellUnder(a, b) { UnderTransitive(a.below, a, b.below); }
  }

  lemma {:induction false} PopDepth(st: Stack, n: nat)
    ensures n <= Depth(st) ==> Depth(Pop(st, n)) == Depth(st) - n
  {
    if n > 0 && st.Push? { PopDepth(st.below, n - 1); }
  }

  lemma {:induction false} PopTwice(st: Stack, m: nat, n: nat)
    ensures Pop(Pop(st, m), n) == Pop(st, m + n)
  {
    if m > 0 && st.Push? { PopTwice(st.below, m - 1, n); }
  }

  lemma {:induction false} ProperSplit(st: Stack, m: nat, n: nat)
    requires m < n < Depth(st) && ProperTops(st, n)
    ensures ProperTops(st, m) && Pop(st, m).Push? && Proper(Pop(st, m).top) && ProperTops(Pop(st, m).below, n - m - 1)
  {
    hide Proper;
    if m > 0 { ProperSplit(st.below, m - 1, n - 1); }
  }
}
