/** Running without an error list changes nothing but the list. */
module Muting {
  import opened Json
  import opened Schemas
  import opened Instructions
  import opened Meanings
  import opened Machine

  function Quiet(r: Outcome): Outcome {
    r.(errors := [])
  }

  lemma {:induction false} MuteExec(e: Env, c: Code, v: Value, ip: nat, ok: bool)
    requires WellCounted(c) && ip <= |c|
    ensures Exec(e, c, v, ip, ok, true) == Quiet(Exec(e, c, v, ip, ok, false))
    decreases |c| - ip, 2, 0
  {
    hide Step, WellCounted;
    if ip < |c| && !c[ip].End? {
      MuteStep(e, c, v, ip, ok);
      var s := Step(e, c, v, ip, ok, false);
      MuteExec(e, c, v, s.ip, s.valid);
    }
  }

  lemma {:induction false} MuteStep(e: Env, c: Code, v: Value, ip: nat, ok: bool)
    requires WellCounted(c) && ip < |c| && !c[ip].End?
    ensures Step(e, c, v, ip, ok, true) == Quiet(Step(e, c, v, ip, ok, false))
    decreases |c| - ip, 1, 0
  {
    hide StepOpen, StepDispatch, RunAll, RunEach, Hits, Missing, CheckOk, Skip;
    assert CountFits(c, ip);
    match c[ip]
    case Open(_) => MuteOpen(e, c, v, ip, ok);
    case Branch(AllOf, n) => MuteAll(e, c, v, n, ip + 1, ok);
    case Branch(_, n) =>
    case Dispatch(_) => MuteDispatch(e, c, v, ip, ok);
    case _ =>
  }

  lemma {:induction false} MuteOpen(e: Env, c: Code, v: Value, ip: nat, ok: bool)
    requires WellCounted(c) && ip < |c| && c[ip].Open?
    ensures StepOpen(e, c, v, ip, ok, true) == Quiet(StepOpen(e, c, v, ip, ok, false))
    decreases |c| - ip, 0, 0
  {
    hide Exec, StepIf, RunOver, RunNames, Skip, WellCounted;
    match c[ip].opener
    case EnterItems => if v.JArr? { MuteOver(e, c, v.items, ip + 1, ok); }
    case EnterPrefixItem(k) => if v.JArr? && k < |v.items| { MuteExec(e, c, v.items[k], ip + 1, ok); }
    case EnterProperty(name) => if Get(v, name).Some? { MuteExec(e, c, Get(v, name).value, ip + 1, ok); }
    case CondIf => MuteIf(e, c, v, ip, ok);
    case CheckPropNames => if v.JObj? { MuteNames(e, c, Names(v.members), ip + 1, ok, c[ip]); }
    case CheckPatternProps(p) =>
      if v.JObj? && e.config.hasRegex { MuteOver(e, c, Matching(e, p, v.members), ip + 1, ok); }
    case CheckDepSchema(trigger) => if Get(v, trigger).Some? { MuteExec(e, c, v, ip + 1, ok); }
    case _ =>
  }

  lemma {:induction false} MuteIf(e: Env, c: Code, v: Value, ip: nat, ok: bool)
    requires WellCounted(c) && ip < |c|
    ensures StepIf(e, c, v, ip, ok, true) == Quiet(StepIf(e, c, v, ip, ok, false))
    decreases |c| - (ip + 1), 5, 0
  {
    hide Exec, Arm, WellCounted;
    var i := Exec(e, c, v, ip + 1, ok, true);
    MuteArm(e, c, v, i.ip, CondThen, i.valid, ok);
    var t := Arm(e, c, v, i.ip, CondThen, i.valid, ok, false);
    MuteArm(e, c, v, t.ip, CondElse, !i.valid, t.valid);
  }

  lemma {:induction false} MuteArm(e: Env, c: Code, v: Value, ip: nat, arm: Opener, taken: bool, ok: bool)
    requires WellCounted(c) && ip <= |c|
    ensures Arm(e, c, v, ip, arm, taken, ok, true) == Quiet(Arm(e, c, v, ip, arm, taken, ok, false))
    decreases |c| - ip, 3, 0
  {
    hide Exec, Skip, WellCounted;
    if ip < |c| && c[ip] == Open(arm) && taken { MuteExec(e, c, v, ip + 1, ok); }
  }

  lemma {:induction false} MuteOver(e: Env, c: Code, vs: seq<Value>, ip: nat, ok: bool)
    requires WellCounted(c) && ip <= |c|
    ensures RunOver(e, c, vs, ip, ok, true) == Quiet(RunOver(e, c, vs, ip, ok, false))
    decreases |c| - ip, 4, |vs|
  {
    hide Exec, WellCounted;
    if vs != [] {
      MuteExec(e, c, vs[0], ip, ok);
      MuteOver(e, c, vs[1..], ip, ok && Exec(e, c, vs[0], ip, ok, false).valid);
    }
  }

  lemma {:induction false} MuteNames(e: Env, c: Code, vs: seq<Value>, ip: nat, ok: bool, op: Instr)
    requires WellCounted(c) && ip <= |c|
    ensures RunNames(e, c, vs, ip, ok, true, op) == Quiet(RunNames(e, c, vs, ip, ok, false, op))
    decreases |c| - ip, 4, |vs|
  {
    hide Exec, WellCounted;
    if vs != [] {
      MuteExec(e, c, vs[0], ip, ok);
      var s := Exec(e, c, vs[0], ip, ok, false);
      MuteNames(e, c, vs[1..], ip, Report(s.valid, ip, ok, false, s.errors, op).valid, op);
    }
  }

  lemma {:induction false} MuteAll(e: Env, c: Code, v: Value, n: nat, ip: nat, ok: bool)
    requires WellCounted(c) && ip <= |c|
    ensures RunAll(e, c, v, n, ip, ok, true) == Quiet(RunAll(e, c, v, n, ip, ok, false))
    decreases |c| - ip, 4, n
  {
    hide Exec, WellCounted;
    if n > 0 {
      MuteExec(e, c, v, ip, ok);
      var s := Exec(e, c, v, ip, ok, false);
      MuteAll(e, c, v, n - 1, s.ip, ok && s.valid);
    }
  }

  lemma {:induction false} MuteEach(e: Env, c: Code, v: Value, n: nat, ip: nat, ok: bool)
    requires WellCounted(c) && ip <= |c|
    ensures RunEach(e, c, v, n, ip, ok, true) == RunEach(e, c, v, n, ip, ok, false).(errors := [])
    decreases |c| - ip, 4, n
  {
    hide Exec, WellCounted;
    if n > 0 {
      MuteExec(e, c, v, ip, ok);
      MuteEach(e, c, v, n - 1, Exec(e, c, v, ip, ok, false).ip, ok);
    }
  }

  lemma {:induction false} MuteDispatch(e: Env, c: Code, v: Value, ip: nat, ok: bool)
    requires WellCounted(c) && ip < |c| && c[ip].Dispatch?
    ensures StepDispatch(e, c, v, ip, ok, true) == Quiet(StepDispatch(e, c, v, ip, ok, false))
    decreases |c| - ip, 0, 0
  {
    hide Exec, RunEach, FindKey, Get;
    assert CountFits(c, ip);
    var n := c[ip + 1].n;
    var tag := Get(v, c[ip].property);
    var m := if tag.Some? && tag.value.JStr? then FindKey(c, ip + 2, n, tag.value.s) else n;
    if m == n {
      MuteEach(e, c, v, n, ip + 2 + n, ok);
    } else {
      MuteExec(e, c, v, RunEach(e, c, v, m, ip + 2 + n, ok, true).ip, ok);
    }
  }
}
