/** The validation machine as a function of the code: what one run does to the instruction pointer,
    the verdict and the error list. */
module Machine {
  import opened Json
  import opened Schemas
  import opened Instructions
  import opened Meanings

  /** Where a run stopped, with which verdict, and the instructions that reported an error. */
  datatype Outcome = Outcome(ip: nat, valid: bool, errors: seq<Instr>)

  /** Consecutive runs over the same value: where they stopped, how many passed, what they reported. */
  datatype Tally = Tally(ip: nat, passed: nat, errors: seq<Instr>)

  // ----- skipping -----

  function SkipFrom(c: Code, ip: nat, depth: nat): (r: nat)
    requires ip <= |c|
    ensures ip <= r <= |c|
    decreases |c| - ip
  {
    if ip == |c| || depth == 0 then ip
    else SkipFrom(c, ip + 1, if c[ip].End? then depth - 1 else if IsNesting(c[ip]) then depth + 1 else depth)
  }

  /** Where `skip_to_end` leaves the instruction pointer. */
  function Skip(c: Code, ip: nat): (r: nat)
    requires ip <= |c|
    ensures ip <= r <= |c|
  {
    SkipFrom(c, ip, 1)
  }

  // ----- values a body is run on -----

  function Names(members: seq<Member>): (r: seq<Value>)
    ensures |r| == |members|
    ensures forall i | 0 <= i < |r| :: r[i] == JStr(CStr(members[i].key))
  {
    seq(|members|, i requires 0 <= i < |members| => JStr(CStr(members[i].key)))
  }

  function Matching(e: Env, pattern: string, members: seq<Member>): seq<Value> {
    if members == [] then []
    else (if e.matches(pattern, members[0].key) then [members[0].value] else [])
         + Matching(e, pattern, members[1..])
  }

  // ----- running -----

  /** `add_error`: the verdict drops; the list grows unless there is none. */
  function Fail(ip: nat, mute: bool, errors: seq<Instr>, op: Instr): (r: Outcome)
    ensures !r.valid && r.ip == ip
  {
    Outcome(ip, false, if mute then errors else errors + [op])
  }

  function Report(ok: bool, ip: nat, valid: bool, mute: bool, errors: seq<Instr>, op: Instr): (r: Outcome)
    ensures r.ip == ip && r.valid == (ok && valid)
  {
    if ok then Outcome(ip, valid, errors) else Fail(ip, mute, errors, op)
  }

  ghost predicate Progress(c: Code, from: nat, to: nat) {
    from <= to <= |c|
  }

  /** `execute`: run from `ip` with verdict `ok` so far. `mute` means that there is no error list. */
  ghost function Exec(e: Env, c: Code, v: Value, ip: nat, ok: bool, mute: bool): (r: Outcome)
    requires WellCounted(c) && ip <= |c|
    ensures Progress(c, ip, r.ip) && (ip < |c| ==> ip < r.ip)
    ensures r.valid ==> ok
    ensures mute ==> r.errors == []
    ensures ok && !mute ==> (r.valid <==> r.errors == [])
    decreases |c| - ip, 2, 0
  {
    if ip == |c| then Outcome(ip, ok, [])
    else if c[ip].End? then Outcome(ip + 1, ok, [])
    else
      var s := Step(e, c, v, ip, ok, mute);
      var t := Exec(e, c, v, s.ip, s.valid, mute);
      Outcome(t.ip, t.valid, s.errors + t.errors)
  }

  /** One instruction other than END. */
  ghost function Step(e: Env, c: Code, v: Value, ip: nat, ok: bool, mute: bool): (r: Outcome)
    requires WellCounted(c) && ip < |c|
    ensures Progress(c, ip + 1, r.ip)
    ensures r.valid ==> ok
    ensures mute ==> r.errors == []
    ensures ok && !mute ==> (r.valid <==> r.errors == [])
    decreases |c| - ip, 1, 0
  {
    assert CountFits(c, ip);
    match c[ip]
    case Test(k) => Report(CheckOk(e, k, v), ip + 1, ok, mute, [], c[ip])
    case Open(o) => StepOpen(e, c, v, ip, ok, mute)
    case Contains(min) =>
      if v.JArr? then
        var hits := Hits(e, c, v.items, ip + 2, ok);
        var max := c[ip + 1].n;
        var low := if hits < min && !mute then [c[ip]] else [];
        var high := if max >= 0 && hits > max && !mute then [c[ip]] else [];
        Outcome(Skip(c, ip + 2), ok && hits >= min && (max >= 0 ==> hits <= max), low + high)
      else Outcome(Skip(c, ip + 1), ok, [])
    case Branch(AllOf, n) => RunAll(e, c, v, n, ip + 1, ok, mute)
    case Branch(kind, n) =>
      var t := RunEach(e, c, v, n, ip + 1, ok, true);
      Report(if kind.AnyOf? then t.passed > 0 else t.passed == 1, t.ip, ok, mute, [], c[ip])
    case DepRequired(trigger) =>
      var n := c[ip + 1].n;
      var missing := if Get(v, trigger).Some? then Missing(c, v, ip + 2, n, c[ip]) else [];
      Outcome(ip + 2 + n, ok && missing == [], if mute then [] else missing)
    case Dispatch(property) => StepDispatch(e, c, v, ip, ok, mute)
    case _ => Outcome(ip + 1, ok, [])
  }

  ghost function StepOpen(e: Env, c: Code, v: Value, ip: nat, ok: bool, mute: bool): (r: Outcome)
    requires WellCounted(c) && ip < |c| && c[ip].Open?
    ensures Progress(c, ip + 1, r.ip)
    ensures r.valid ==> ok
    ensures mute ==> r.errors == []
    ensures ok && !mute ==> (r.valid <==> r.errors == [])
    decreases |c| - ip, 0, 0
  {
    var past := Skip(c, ip + 1);
    match c[ip].opener
    case EnterItems =>
      if v.JArr? then RunOver(e, c, v.items, ip + 1, ok, mute).(ip := past) else Outcome(past, ok, [])
    case EnterPrefixItem(k) =>
      if v.JArr? && k < |v.items| then Exec(e, c, v.items[k], ip + 1, ok, mute).(ip := past)
      else Outcome(past, ok, [])
    case EnterProperty(name) =>
      var p := Get(v, name);
      if p.Some? then Exec(e, c, p.value, ip + 1, ok, mute).(ip := past) else Outcome(past, ok, [])
    case EnterAdditional => Outcome(past, ok, [])
    case Negate =>
      var s := Exec(e, c, v, ip + 1, ok, true);
      Report(!s.valid, s.ip, ok, mute, [], c[ip])
    case CondIf => StepIf(e, c, v, ip, ok, mute)
    case CheckPropNames =>
      if v.JObj? then RunNames(e, c, Names(v.members), ip + 1, ok, mute, c[ip]).(ip := past)
      else Outcome(past, ok, [])
    case CheckPatternProps(p) =>
      if v.JObj? && e.config.hasRegex then
        RunOver(e, c, Matching(e, p, v.members), ip + 1, ok, mute).(ip := past)
      else Outcome(past, ok, [])
    case CheckDepSchema(trigger) =>
      if Get(v, trigger).Some? then Exec(e, c, v, ip + 1, ok, mute) else Outcome(past, ok, [])
    case CondThen => Outcome(ip + 1, ok, [])
    case CondElse => Outcome(ip + 1, ok, [])
  }

  /** if, and the then and else parts when they are the next thing in the code. */
  ghost function StepIf(e: Env, c: Code, v: Value, ip: nat, ok: bool, mute: bool): (r: Outcome)
    requires WellCounted(c) && ip < |c|
    ensures Progress(c, ip + 1, r.ip)
    ensures r.valid ==> ok
    ensures mute ==> r.errors == []
    ensures ok && !mute ==> (r.valid <==> r.errors == [])
    decreases |c| - (ip + 1), 5, 0
  {
    var i := Exec(e, c, v, ip + 1, ok, true);
    var t := Arm(e, c, v, i.ip, CondThen, i.valid, ok, mute);
    var f := Arm(e, c, v, t.ip, CondElse, !i.valid, t.valid, mute);
    Outcome(f.ip, f.valid, t.errors + f.errors)
  }

  ghost function Arm(e: Env, c: Code, v: Value, ip: nat, arm: Opener, taken: bool, ok: bool, mute: bool): (r: Outcome)
    requires WellCounted(c) && ip <= |c|
    ensures Progress(c, ip, r.ip)
    ensures r.valid ==> ok
    ensures mute ==> r.errors == []
    ensures ok && !mute ==> (r.valid <==> r.errors == [])
    decreases |c| - ip, 3, 0
  {
    if ip < |c| && c[ip] == Open(arm) then
      if taken then Exec(e, c, v, ip + 1, ok, mute) else Outcome(Skip(c, ip + 1), ok, [])
    else Outcome(ip, ok, [])
  }

  /** The body at `ip`, once per value. The instruction pointer of these runs is thrown away. */
  ghost function RunOver(e: Env, c: Code, vs: seq<Value>, ip: nat, ok: bool, mute: bool): (r: Outcome)
    requires WellCounted(c) && ip <= |c|
    ensures r.ip == ip
    ensures r.valid ==> ok
    ensures mute ==> r.errors == []
    ensures ok && !mute ==> (r.valid <==> r.errors == [])
    decreases |c| - ip, 4, |vs|
  {
    if vs == [] then Outcome(ip, ok, [])
    else
      var s := Exec(e, c, vs[0], ip, ok, mute);
      var t := RunOver(e, c, vs[1..], ip, ok && s.valid, mute);
      Outcome(ip, t.valid, s.errors + t.errors)
  }

  /** As `RunOver`, with one more error after each value that fails. */
  ghost function RunNames(e: Env, c: Code, vs: seq<Value>, ip: nat, ok: bool, mute: bool, op: Instr): (r: Outcome)
    requires WellCounted(c) && ip <= |c|
    ensures r.ip == ip
    ensures r.valid ==> ok
    ensures mute ==> r.errors == []
    ensures ok && !mute ==> (r.valid <==> r.errors == [])
    decreases |c| - ip, 4, |vs|
  {
    if vs == [] then Outcome(ip, ok, [])
    else
      var s := Exec(e, c, vs[0], ip, ok, mute);
      var s' := Report(s.valid, ip, ok, mute, s.errors, op);
      var t := RunNames(e, c, vs[1..], ip, s'.valid, mute, op);
      Outcome(ip, t.valid, s'.errors + t.errors)
  }

  /** How many of the values the body at `ip` accepts. */
  ghost function Hits(e: Env, c: Code, vs: seq<Value>, ip: nat, ok: bool): nat
    requires WellCounted(c) && ip <= |c|
    decreases |c| - ip, 4, |vs|
  {
    if vs == [] then 0
    else (if Exec(e, c, vs[0], ip, ok, true).valid then 1 else 0) + Hits(e, c, vs[1..], ip, ok)
  }

  /** `n` consecutive bodies, each run starting with the verdict the previous ones left. */
  ghost function RunAll(e: Env, c: Code, v: Value, n: nat, ip: nat, ok: bool, mute: bool): (r: Outcome)
    requires WellCounted(c) && ip <= |c|
    ensures Progress(c, ip, r.ip)
    ensures r.valid ==> ok
    ensures mute ==> r.errors == []
    ensures ok && !mute ==> (r.valid <==> r.errors == [])
    decreases |c| - ip, 4, n
  {
    if n == 0 then Outcome(ip, ok, [])
    else
      var s := Exec(e, c, v, ip, ok, mute);
      var t := RunAll(e, c, v, n - 1, s.ip, ok && s.valid, mute);
      Outcome(t.ip, t.valid, s.errors + t.errors)
  }

  /** `n` consecutive bodies, each run starting with the same verdict. */
  ghost function RunEach(e: Env, c: Code, v: Value, n: nat, ip: nat, ok: bool, mute: bool): (r: Tally)
    requires WellCounted(c) && ip <= |c|
    ensures Progress(c, ip, r.ip)
    ensures mute ==> r.errors == []
    decreases |c| - ip, 4, n
  {
    if n == 0 then Tally(ip, 0, [])
    else
      var s := Exec(e, c, v, ip, ok, mute);
      var t := RunEach(e, c, v, n - 1, s.ip, ok, mute);
      Tally(t.ip, t.passed + (if s.valid then 1 else 0), s.errors + t.errors)
  }

  /** One error for each of the `n` names at `ip` that `v` lacks. */
  function Missing(c: Code, v: Value, ip: nat, n: nat, op: Instr): (r: seq<Instr>)
    requires ip + n <= |c| && forall j | ip <= j < ip + n :: c[j].NopName?
    ensures r == [] <==> forall j | ip <= j < ip + n :: GetNamed(v, c[j].name).Some?
    decreases n
  {
    if n == 0 then []
    else (if GetNamed(v, c[ip].name).None? then [op] else []) + Missing(c, v, ip + 1, n - 1, op)
  }

  /** Position, among the `n` names at `ip`, of the first equal to `tag`; `n` when there is none. */
  function FindKey(c: Code, ip: nat, n: nat, tag: string): (r: nat)
    requires ip + n <= |c| && forall j | ip <= j < ip + n :: c[j].NopName?
    ensures r <= n
    ensures forall j | ip <= j < ip + r :: !SameName(c[j].name, tag)
    ensures r < n ==> SameName(c[ip + r].name, tag)
    decreases n
  {
    if n == 0 || SameName(c[ip].name, tag) then 0 else 1 + FindKey(c, ip + 1, n - 1, tag)
  }

  ghost function StepDispatch(e: Env, c: Code, v: Value, ip: nat, ok: bool, mute: bool): (r: Outcome)
    requires WellCounted(c) && ip < |c| && c[ip].Dispatch?
    ensures Progress(c, ip + 1, r.ip)
    ensures r.valid ==> ok
    ensures mute ==> r.errors == []
    ensures ok && !mute ==> (r.valid <==> r.errors == [])
    decreases |c| - ip, 0, 0
  {
    assert CountFits(c, ip);
    var n := c[ip + 1].n;
    var start := ip + 2 + n;
    var tag := Get(v, c[ip].property);
    var m := if tag.Some? && tag.value.JStr? then FindKey(c, ip + 2, n, tag.value.s) else n;
    if m == n then
      var t := RunEach(e, c, v, n, start, ok, mute);
      Fail(t.ip, mute, t.errors, c[ip])
    else
      var before := RunEach(e, c, v, m, start, ok, true);
      var s := Exec(e, c, v, before.ip, ok, mute);
      var after := RunEach(e, c, v, n - m - 1, s.ip, ok && s.valid, true);
      Outcome(after.ip, ok && s.valid, s.errors)
  }
}
