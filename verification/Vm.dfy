/** The machine as it runs: a state with a moving instruction pointer that is copied for sub-runs,
    and a list of errors that the copies share. */
module Vm {
  import opened Json
  import opened Schemas
  import opened Instructions
  import opened Trees
  import opened Meanings
  import opened Machine
  import opened Compiler
  import opened Correctness
  import opened Muting
  import Fragment
  import SchemaCompiler

  class ErrorList {
    var entries: seq<Instr>

    constructor ()
      ensures entries == []
    {
      entries := [];
    }

    method Add(op: Instr)
      modifies this
      ensures entries == old(entries) + [op]
    {
      entries := entries + [op];
    }
  }

  // ----- single checks -----

  /** `yyjson_to_type_mask`. */
  function TypeMaskOf(v: Value): bv8 {
    match v
    case JNull => 0x01
    case JBool(_) => 0x02
    case JInt(_) => 0x04 | 0x08
    case JReal(r) => if r == r.Floor as real then 0x04 | 0x08 else 0x08
    case JStr(_) => 0x10
    case JArr(_) => 0x20
    case JObj(_) => 0x40
  }

  /** The mask test of the machine decides the type keyword. */
  lemma TypeMaskDecides(mask: bv8, v: Value)
    ensures TypeMaskOf(v) & mask != 0 <==> TypeOk(mask, v)
  {
    CommuteMask(TypeMaskOf(v), mask);
    SplitMask(mask);
    var t := MainType(v);
    assert TypeIn(t, mask) || (IsNum(v) && TypeIn(TNumber, mask)) <==> mask & TypeMaskOf(v) != 0;
    assert HasType(v, t) && (IsNum(v) ==> HasType(v, TNumber));
    assert forall u :: HasType(v, u) ==> u == t || (IsNum(v) && u == TNumber);
  }

  function MainType(v: Value): JsonType {
    match v
    case JNull => TNull
    case JBool(_) => TBoolean
    case JInt(_) => TInteger
    case JReal(r) => if r == r.Floor as real then TInteger else TNumber
    case JStr(_) => TString
    case JArr(_) => TArray
    case JObj(_) => TObject
  }

  lemma SplitMask(mask: bv8)
    ensures mask & (0x04 | 0x08) != 0 <==> mask & 0x04 != 0 || mask & 0x08 != 0
  {
  }

  lemma CommuteMask(a: bv8, b: bv8)
    ensures a & b == b & a
  {
  }

  /** `utf8_codepoint_count`: the number of bytes that start a character. */
  method CodepointCount(s: string) returns (count: nat)
    ensures count == |CharStarts(s)|
  {
    count := 0;
    var i := 0;
    ghost var seen: set<int> := {};
    while i < |s|
      invariant 0 <= i <= |s|
      invariant seen == set j | 0 <= j < i && !IsContinuation(s[j])
      invariant count == |seen|
    {
      if !IsContinuation(s[i]) {
        count := count + 1;
        seen := seen + {i};
      }
      i := i + 1;
    }
    assert seen == CharStarts(s);
  }

  /** `has_duplicate_items`: two nested loops over the pairs. */
  method HasDuplicateItems(e: Env, items: seq<Value>) returns (found: bool)
    ensures found <==> exists i, j :: 0 <= i < j < |items| && e.equal(items[i], items[j])
  {
    var i := 0;
    while i < |items|
      invariant 0 <= i <= |items|
      invariant forall a, b | 0 <= a < i && a < b < |items| :: !e.equal(items[a], items[b])
    {
      var j := i + 1;
      while j < |items|
        invariant i < j <= |items|
        invariant forall b | i < b < j :: !e.equal(items[i], items[b])
      {
        if e.equal(items[i], items[j]) { return true; }
        j := j + 1;
      }
      i := i + 1;
    }
    found := false;
  }

  method InEnum(e: Env, v: Value, allowed: seq<Value>) returns (found: bool)
    ensures found <==> exists i :: 0 <= i < |allowed| && e.equal(v, allowed[i])
  {
    var i := 0;
    while i < |allowed|
      invariant 0 <= i <= |allowed|
      invariant forall j | 0 <= j < i :: !e.equal(v, allowed[j])
    {
      if e.equal(v, allowed[i]) { return true; }
      i := i + 1;
    }
    found := false;
  }

  method PassesNumber(e: Env, k: Check, v: Value) returns (ok: bool)
    requires k.CheckMinimum? || k.CheckMaximum? || k.CheckExMinimum? || k.CheckExMaximum? || k.CheckMultipleOf?
    ensures ok == CheckOk(e, k, v)
  {
    hide AsReal;
    match k
    case CheckMinimum(x) => ok := IsNum(v) ==> !(AsReal(v) < x);
    case CheckMaximum(x) => ok := IsNum(v) ==> !(AsReal(v) > x);
    case CheckExMinimum(x) => ok := IsNum(v) ==> !(AsReal(v) <= x);
    case CheckExMaximum(x) => ok := IsNum(v) ==> !(AsReal(v) >= x);
    case CheckMultipleOf(x) => ok := IsNum(v) ==> e.multipleOf(AsReal(v), x);
  }

  /** The opcodes that test the value once. */
  method Passes(e: Env, k: Check, v: Value) returns (ok: bool)
    ensures ok == CheckOk(e, k, v)
  {
    hide TypeOk, CharStarts, Get, AsReal;
    match k
    case CheckType(mask) =>
      TypeMaskDecides(mask, v);
      ok := TypeMaskOf(v) & mask != 0;
    case CheckMinLen(n) =>
      ok := true;
      if v.JStr? {
        var len := CodepointCount(v.s);
        ok := len >= n;
      }
    case CheckMaxLen(n) =>
      ok := true;
      if v.JStr? {
        var len := CodepointCount(v.s);
        ok := len <= n;
      }
    case CheckPattern(p) => ok := v.JStr? && e.config.hasRegex ==> e.matches(p, v.s);
    case CheckFormat(f) => ok := v.JStr? ==> e.formatOk(f, v.s);
    case CheckMinimum(_) => ok := PassesNumber(e, k, v);
    case CheckMaximum(_) => ok := PassesNumber(e, k, v);
    case CheckExMinimum(_) => ok := PassesNumber(e, k, v);
    case CheckExMaximum(_) => ok := PassesNumber(e, k, v);
    case CheckMultipleOf(_) => ok := PassesNumber(e, k, v);
    case CheckMinItems(n) => ok := v.JArr? ==> |v.items| >= n;
    case CheckMaxItems(n) => ok := v.JArr? ==> |v.items| <= n;
    case CheckUnique =>
      ok := true;
      if v.JArr? {
        var found := HasDuplicateItems(e, v.items);
        ok := !found;
      }
    case CheckRequired(name) => ok := v.JObj? ==> Get(v, name).Some?;
    case CheckMinProps(n) => ok := v.JObj? ==> |v.members| >= n;
    case CheckMaxProps(n) => ok := v.JObj? ==> |v.members| <= n;
    case CheckEnum(allowed) =>
      ok := true;
      if allowed.JArr? { ok := InEnum(e, v, allowed.items); }
    case CheckConst(expected) => ok := e.equal(v, expected);
    case CheckReadOnly => ok := e.direction != Request;
    case CheckWriteOnly => ok := e.direction != Response;
  }

  // ----- the machine -----

  class State {
    const env: Env
    const code: Code
    const value: Value
    const errors: ErrorList?
    var ip: nat
    var valid: bool

    ghost predicate Ready()
      reads this
    {
      WellCounted(code) && ip <= |code|
    }

    /** What the shared list holds; nothing when there is no list. */
    ghost function Log(): seq<Instr>
      reads errors
    {
      if errors == null then [] else errors.entries
    }

    /** A copy of another state, over another value and with or without its error list. */
    constructor (e: Env, c: Code, v: Value, list: ErrorList?, at: nat, ok: bool)
      ensures env == e && code == c && value == v && errors == list && ip == at && valid == ok
    {
      env, code, value, errors, ip, valid := e, c, v, list, at, ok;
    }

    method AddError(op: Instr)
      modifies this`valid, errors
      ensures !valid && Log() == old(Log()) + if errors == null then [] else [op]
    {
      valid := false;
      if errors != null { errors.Add(op); }
    }

    /** `skip_to_end`: a depth counter over END and the nesting opcodes. */
    method SkipToEnd()
      requires Ready()
      modifies this`ip
      ensures Ready() && ip == Skip(code, old(ip))
    {
      var depth := 1;
      while ip < |code| && depth > 0
        invariant Ready() && old(ip) <= ip && depth >= 0
        invariant SkipFrom(code, ip, depth) == Skip(code, old(ip))
        decreases |code| - ip
      {
        var op := code[ip];
        ip := ip + 1;
        if op.End? {
          depth := depth - 1;
        } else if IsNesting(op) {
          depth := depth + 1;
        }
      }
    }

    /** `execute`. The measure does not mention the value: every sub-run starts behind the
        instruction that launched it, and the instruction pointer never moves back. */
    method Execute()
      requires Ready()
      modifies this`ip, this`valid, errors
      ensures Ready()
      ensures var r := Exec(env, code, value, old(ip), old(valid), errors == null);
              ip == r.ip && valid == r.valid && Log() == old(Log()) + r.errors
      decreases |code| - ip, 7, 0
    {
      ghost var total := Exec(env, code, value, ip, valid, errors == null);
      ghost var start, log := ip, Log();
      while ip < |code|
        invariant Ready() && start <= ip
        invariant var rest := Exec(env, code, value, ip, valid, errors == null);
                  total.ip == rest.ip && total.valid == rest.valid && log + total.errors == Log() + rest.errors
        decreases |code| - ip
      {
        if code[ip].End? {
          ip := ip + 1;
          return;
        }
        ghost var before := Log();
        ghost var s := Step(env, code, value, ip, valid, errors == null);
        ghost var t := Exec(env, code, value, s.ip, s.valid, errors == null);
        Associate(before, s.errors, t.errors);
        Instruction();
      }
    }

    /** One instruction other than END. */
    method Instruction()
      requires Ready() && ip < |code| && !code[ip].End?
      modifies this`ip, this`valid, errors
      ensures Ready()
      ensures var r := Step(env, code, value, old(ip), old(valid), errors == null);
              ip == r.ip && valid == r.valid && Log() == old(Log()) + r.errors
      decreases |code| - ip, 6, 0
    {
      hide StepOpen, StepDispatch, RunAll, RunEach, Hits, Exec, CheckOk, Skip;
      assert CountFits(code, ip);
      var op := code[ip];
      if op.Test? {
        ip := ip + 1;
        var ok := Passes(env, op.check, value);
        if !ok { AddError(op); }
      } else if op.Open? {
        Opening();
      } else if op.Contains? {
        ContainsOp();
      } else if op.Branch? && op.kind.AllOf? {
        ip := ip + 1;
        RunAllBodies(op.count);
      } else if op.Branch? {
        ip := ip + 1;
        var passed := RunEachBody(op.count, true);
        if !(if op.kind.AnyOf? then passed > 0 else passed == 1) { AddError(op); }
      } else if op.DepRequired? {
        DependentRequiredOp();
      } else if op.Dispatch? {
        DispatchOp();
      } else {
        ip := ip + 1;
      }
    }

    method ContainsOp()
      requires Ready() && ip < |code| && code[ip].Contains?
      modifies this`ip, this`valid, errors
      ensures Ready()
      ensures var r := Step(env, code, value, old(ip), old(valid), errors == null);
              ip == r.ip && valid == r.valid && Log() == old(Log()) + r.errors
      decreases |code| - ip, 5, 0
    {
      hide Exec, Hits, Skip;
      assert CountFits(code, ip);
      var op := code[ip];
      ip := ip + 1;
      if !value.JArr? {
        SkipToEnd();
        return;
      }
      var max := code[ip].n;
      ip := ip + 1;
      var hits := CountHits(value.items);
      if hits < op.min { AddError(op); }
      if max >= 0 && hits > max { AddError(op); }
      SkipToEnd();
    }

    method DependentRequiredOp()
      requires Ready() && ip < |code| && code[ip].DepRequired?
      modifies this`ip, this`valid, errors
      ensures Ready()
      ensures var r := Step(env, code, value, old(ip), old(valid), errors == null);
              ip == r.ip && valid == r.valid && Log() == old(Log()) + r.errors
    {
      hide Exec, Get, Missing;
      assert CountFits(code, ip);
      var op := code[ip];
      ip := ip + 1;
      var count := code[ip].n;
      ip := ip + 1;
      if value.JObj? && Get(value, op.trigger).Some? {
        CheckNames(count, op);
      } else {
        NotAnObject(value, op.trigger);
        ip := ip + count;
      }
    }

    /** The inline names of dependentRequired, each of which must be present. */
    method CheckNames(count: nat, op: Instr)
      requires Ready() && ip + count <= |code| && forall j | ip <= j < ip + count :: code[j].NopName?
      modifies this`ip, this`valid, errors
      ensures Ready() && ip == old(ip) + count
      ensures var missing := Missing(code, value, old(ip), count, op);
              && valid == (old(valid) && missing == [])
              && Log() == old(Log()) + if errors == null then [] else missing
    {
      hide WellCounted, GetNamed, Missing, Log;
      ghost var log, ok, start := Log(), valid, ip;
      ghost var reported: seq<Instr> := [];
      MissingNone(code, value, start + count, op);
      var i := 0;
      while i < count && ip < |code|
        invariant 0 <= i <= count && ip == start + i && Ready()
        invariant Missing(code, value, start, count, op) == reported + Missing(code, value, ip, count - i, op)
        invariant valid == (ok && reported == [])
        invariant Log() == log + if errors == null then [] else reported
      {
        ghost var later := Missing(code, value, ip + 1, count - i - 1, op);
        MissingHead(code, value, ip, count - i, op);
        var name := code[ip].name;
        if GetNamed(value, name).None? {
          Associate(reported, [op], later);
          Associate(log, reported, [op]);
          AddError(op);
          reported := reported + [op];
        }
        ip := ip + 1;
        i := i + 1;
      }
    }

    // ----- openings -----

    method Opening()
      requires Ready() && ip < |code| && code[ip].Open?
      modifies this`ip, this`valid, errors
      ensures Ready()
      ensures var r := StepOpen(env, code, value, old(ip), old(valid), errors == null);
              ip == r.ip && valid == r.valid && Log() == old(Log()) + r.errors
      decreases |code| - ip, 5, 1
    {
      hide *;
      var opener := code[ip].opener;
      if opener.EnterItems? || opener.EnterPrefixItem? || opener.EnterProperty? || opener.EnterAdditional? {
        EnterOp();
      } else {
        ApplicatorOp();
      }
    }

    method EnterOp()
      requires Ready() && ip < |code| && code[ip].Open?
      requires var o := code[ip].opener; o.EnterItems? || o.EnterPrefixItem? || o.EnterProperty? || o.EnterAdditional?
      modifies this`ip, this`valid, errors
      ensures Ready()
      ensures var r := StepOpen(env, code, value, old(ip), old(valid), errors == null);
              ip == r.ip && valid == r.valid && Log() == old(Log()) + r.errors
      decreases |code| - ip, 5, 0
    {
      hide Exec, StepIf, RunOver, RunNames, Skip, Get, Log, WellCounted;
      var op := code[ip];
      ip := ip + 1;
      if op.opener.EnterItems? {
        if value.JArr? { RunOverValues(value.items); }
        SkipToEnd();
      } else if op.opener.EnterPrefixItem? {
        if value.JArr? && op.opener.index < |value.items| { RunOn(value.items[op.opener.index]); }
        SkipToEnd();
      } else if op.opener.EnterProperty? {
        var p := Get(value, op.opener.name);
        if p.Some? { RunOn(p.value); }
        SkipToEnd();
      } else {
        SkipToEnd();
      }
    }

    method ApplicatorOp()
      requires Ready() && ip < |code| && code[ip].Open?
      requires var o := code[ip].opener;
               !o.EnterItems? && !o.EnterPrefixItem? && !o.EnterProperty? && !o.EnterAdditional?
      modifies this`ip, this`valid, errors
      ensures Ready()
      ensures var r := StepOpen(env, code, value, old(ip), old(valid), errors == null);
              ip == r.ip && valid == r.valid && Log() == old(Log()) + r.errors
      decreases |code| - ip, 5, 0
    {
      hide Exec, StepIf, RunOver, RunNames, Skip, Get, Log, WellCounted;
      var op := code[ip];
      if op.opener.CondIf? {
        IfOp();
      } else {
        ip := ip + 1;
        if op.opener.Negate? {
          var matched := RunMuted();
          if matched { AddError(op); }
        } else if op.opener.CheckPropNames? {
          if value.JObj? { RunOverNames(Machine.Names(value.members), op); }
          SkipToEnd();
        } else if op.opener.CheckPatternProps? {
          if value.JObj? && env.config.hasRegex { RunOverMatching(op.opener.pattern, value.members); }
          SkipToEnd();
        } else if op.opener.CheckDepSchema? {
          if Get(value, op.opener.trigger).Some? {
            RunInPlace();
          } else {
            SkipToEnd();
          }
        }
      }
    }

    /** A sub-run over one value whose instruction pointer is thrown away. */
    method RunOn(v: Value)
      requires Ready()
      modifies this`valid, errors
      ensures var r := Exec(env, code, v, ip, old(valid), errors == null);
              valid == r.valid && Log() == old(Log()) + r.errors
      decreases |code| - ip, 8, 0
    {
      var sub := new State(env, code, v, errors, ip, valid);
      sub.Execute();
      if !sub.valid { valid := false; }
    }

    /** A muted sub-run over the current value whose instruction pointer is kept. */
    method RunMuted() returns (passed: bool)
      requires Ready()
      modifies this`ip
      ensures Ready()
      ensures var r := Exec(env, code, value, old(ip), valid, true);
              ip == r.ip && passed == r.valid
      decreases |code| - ip, 8, 0
    {
      hide Exec, WellCounted;
      var sub := new State(env, code, value, null, ip, valid);
      sub.Execute();
      passed := sub.valid;
      ip := sub.ip;
    }

    method IfOp()
      requires Ready() && ip < |code| && code[ip] == Open(CondIf)
      modifies this`ip, this`valid, errors
      ensures Ready()
      ensures var r := StepIf(env, code, value, old(ip), old(valid), errors == null);
              ip == r.ip && valid == r.valid && Log() == old(Log()) + r.errors
      decreases |code| - ip, 4, 0
    {
      hide Exec, Arm;
      ip := ip + 1;
      var passed := RunMuted();
      ghost var log := Log();
      ghost var t := Arm(env, code, value, ip, CondThen, passed, valid, errors == null);
      ArmOp(CondThen, passed);
      ghost var f := Arm(env, code, value, ip, CondElse, !passed, valid, errors == null);
      ArmOp(CondElse, !passed);
      Associate(log, t.errors, f.errors);
    }

    method ArmOp(arm: Opener, taken: bool)
      requires Ready()
      modifies this`ip, this`valid, errors
      ensures Ready()
      ensures var r := Arm(env, code, value, old(ip), arm, taken, old(valid), errors == null);
              ip == r.ip && valid == r.valid && Log() == old(Log()) + r.errors
      decreases |code| - ip, 8, 0
    {
      hide Exec, Skip;
      if ip < |code| && code[ip] == Open(arm) {
        ip := ip + 1;
        if taken {
          Execute();
        } else {
          SkipToEnd();
        }
      }
    }

    method RunOverValues(vs: seq<Value>)
      requires Ready()
      modifies this`valid, errors
      ensures var r := RunOver(env, code, vs, ip, old(valid), errors == null);
              valid == r.valid && Log() == old(Log()) + r.errors
      decreases |code| - ip, 9, 0
    {
      hide Exec;
      ghost var total, log := RunOver(env, code, vs, ip, valid, errors == null), Log();
      var i := 0;
      while i < |vs|
        invariant 0 <= i <= |vs|
        invariant var rest := RunOver(env, code, vs[i..], ip, valid, errors == null);
                  total.valid == rest.valid && log + total.errors == Log() + rest.errors
      {
        ghost var before := Log();
        ghost var s := Exec(env, code, vs[i], ip, valid, errors == null);
        assert vs[i..][1..] == vs[i + 1..];
        Associate(before, s.errors, RunOver(env, code, vs[i + 1..], ip, s.valid, errors == null).errors);
        RunOn(vs[i]);
        i := i + 1;
      }
    }

    /** The values of the members whose key the pattern matches. */
    method RunOverMatching(pattern: string, members: seq<Member>)
      requires Ready()
      modifies this`valid, errors
      ensures var r := RunOver(env, code, Matching(env, pattern, members), ip, old(valid), errors == null);
              valid == r.valid && Log() == old(Log()) + r.errors
      decreases |code| - ip, 9, 0
    {
      hide Exec;
      ghost var total, log := RunOver(env, code, Matching(env, pattern, members), ip, valid, errors == null), Log();
      var i := 0;
      while i < |members|
        invariant 0 <= i <= |members|
        invariant var rest := RunOver(env, code, Matching(env, pattern, members[i..]), ip, valid, errors == null);
                  total.valid == rest.valid && log + total.errors == Log() + rest.errors
      {
        ghost var before, later := Log(), Matching(env, pattern, members[i + 1..]);
        assert members[i..][1..] == members[i + 1..];
        if env.matches(pattern, members[i].key) {
          ghost var s := Exec(env, code, members[i].value, ip, valid, errors == null);
          assert Matching(env, pattern, members[i..]) == [members[i].value] + later;
          assert ([members[i].value] + later)[1..] == later;
          Associate(before, s.errors, RunOver(env, code, later, ip, s.valid, errors == null).errors);
          RunOn(members[i].value);
        } else {
          assert Matching(env, pattern, members[i..]) == later;
        }
        i := i + 1;
      }
    }

    /** One name checked in a sub-run; a failure is reported for the whole opcode. */
    method RunName(v: Value, op: Instr)
      requires Ready()
      modifies this`valid, errors
      ensures var s := Exec(env, code, v, ip, old(valid), errors == null);
              var r := Report(s.valid, ip, old(valid), errors == null, s.errors, op);
              valid == r.valid && Log() == old(Log()) + r.errors
      decreases |code| - ip, 8, 0
    {
      hide Exec, WellCounted;
      ghost var before, s := Log(), Exec(env, code, v, ip, valid, errors == null);
      Associate(before, s.errors, [op]);
      var sub := new State(env, code, v, errors, ip, valid);
      sub.Execute();
      if !sub.valid { AddError(op); }
    }

    method RunOverNames(names: seq<Value>, op: Instr)
      requires Ready()
      modifies this`valid, errors
      ensures var r := RunNames(env, code, names, ip, old(valid), errors == null, op);
              valid == r.valid && Log() == old(Log()) + r.errors
      decreases |code| - ip, 9, 0
    {
      hide Exec, Report, Log, WellCounted;
      ghost var total, log := RunNames(env, code, names, ip, valid, errors == null, op), Log();
      var i := 0;
      while i < |names|
        invariant 0 <= i <= |names|
        invariant var rest := RunNames(env, code, names[i..], ip, valid, errors == null, op);
                  total.valid == rest.valid && log + total.errors == Log() + rest.errors
      {
        ghost var before := Log();
        ghost var s := Exec(env, code, names[i], ip, valid, errors == null);
        ghost var t := Report(s.valid, ip, valid, errors == null, s.errors, op);
        assert names[i..][1..] == names[i + 1..];
        Associate(before, t.errors, RunNames(env, code, names[i + 1..], ip, t.valid, errors == null, op).errors);
        RunName(names[i], op);
        i := i + 1;
      }
    }

    method CountHits(vs: seq<Value>) returns (hits: nat)
      requires Ready()
      ensures hits == Hits(env, code, vs, ip, valid)
      decreases |code| - ip, 9, 0
    {
      hide Exec;
      hits := 0;
      var i := 0;
      while i < |vs|
        invariant 0 <= i <= |vs|
        invariant hits + Hits(env, code, vs[i..], ip, valid) == Hits(env, code, vs, ip, valid)
      {
        assert vs[i..][1..] == vs[i + 1..];
        var sub := new State(env, code, vs[i], null, ip, valid);
        sub.Execute();
        if sub.valid { hits := hits + 1; }
        i := i + 1;
      }
    }

    // ----- branches -----

    method RunAllBodies(count: nat)
      requires Ready()
      modifies this`ip, this`valid, errors
      ensures Ready()
      ensures var r := RunAll(env, code, value, count, old(ip), old(valid), errors == null);
              ip == r.ip && valid == r.valid && Log() == old(Log()) + r.errors
      decreases |code| - ip, 9, 0
    {
      hide Exec;
      ghost var total, start, log := RunAll(env, code, value, count, ip, valid, errors == null), ip, Log();
      var i := 0;
      while i < count
        invariant 0 <= i <= count && Ready() && start <= ip
        invariant var rest := RunAll(env, code, value, count - i, ip, valid, errors == null);
                  total.ip == rest.ip && total.valid == rest.valid && log + total.errors == Log() + rest.errors
      {
        ghost var before := Log();
        ghost var s := Exec(env, code, value, ip, valid, errors == null);
        Associate(before, s.errors, RunAll(env, code, value, count - i - 1, s.ip, s.valid, errors == null).errors);
        var sub := new State(env, code, value, errors, ip, valid);
        sub.Execute();
        if !sub.valid { valid := false; }
        ip := sub.ip;
        i := i + 1;
      }
    }

    /** Consecutive bodies over the same value with the same verdict in front; `muted` runs them
        without the error list. */
    method RunEachBody(count: nat, muted: bool) returns (passed: nat)
      requires Ready()
      modifies this`ip, errors
      ensures Ready()
      ensures var r := RunEach(env, code, value, count, old(ip), valid, muted || errors == null);
              ip == r.ip && passed == r.passed && Log() == old(Log()) + r.errors
      decreases |code| - ip, 9, 0
    {
      hide Exec;
      ghost var mute := muted || errors == null;
      ghost var total, start, log := RunEach(env, code, value, count, ip, valid, mute), ip, Log();
      passed := 0;
      var i := 0;
      while i < count
        invariant 0 <= i <= count && Ready() && start <= ip
        invariant var rest := RunEach(env, code, value, count - i, ip, valid, mute);
                  && total.ip == rest.ip && total.passed == passed + rest.passed
                  && log + total.errors == Log() + rest.errors
      {
        ghost var before := Log();
        ghost var s := Exec(env, code, value, ip, valid, mute);
        Associate(before, s.errors, RunEach(env, code, value, count - i - 1, s.ip, valid, mute).errors);
        var sub := new State(env, code, value, if muted then null else errors, ip, valid);
        sub.Execute();
        if sub.valid { passed := passed + 1; }
        ip := sub.ip;
        i := i + 1;
      }
    }

    method DispatchOp()
      requires Ready() && ip < |code| && code[ip].Dispatch?
      modifies this`ip, this`valid, errors
      ensures Ready()
      ensures var r := StepDispatch(env, code, value, old(ip), old(valid), errors == null);
              ip == r.ip && valid == r.valid && Log() == old(Log()) + r.errors
      decreases |code| - ip, 5, 0
    {
      hide Exec, RunEach, Log, WellCounted, StepDispatch, NamesFit, Fail, KeysAt, PickedKey;
      NamesCounted(code, ip);
      var op := code[ip];
      ip := ip + 1;
      var count := code[ip].n;
      ip := ip + 1;
      var keys := ip;
      KeysEnd(code, keys, count);
      ip := ip + count;
      var m := PickKey(op, keys, count);
      DispatchCases(env, code, value, old(ip), valid, errors == null, m);
      if m == count {
        NoBody(count, op);
      } else {
        PickedBody(m, count);
      }
    }

    /** The position of the inline key that the value of the discriminator property names. */
    method PickKey(op: Instr, keys: nat, count: nat) returns (m: nat)
      requires op.Dispatch? && KeysAt(code, keys, count)
      ensures m == PickedKey(code, value, op.property, keys, count)
    {
      hide FindKey, Get;
      var tag := Get(value, op.property);
      m := count;
      if tag.Some? && tag.value.JStr? { m := Search(code, keys, count, tag.value.s); }
    }

    /** No key is picked: all the bodies are run, and then the opcode reports. */
    method NoBody(count: nat, op: Instr)
      requires Ready()
      modifies this`ip, this`valid, errors
      ensures Ready() && !valid
      ensures var t := RunEach(env, code, value, count, old(ip), old(valid), errors == null);
              ip == t.ip && Log() == old(Log()) + Fail(t.ip, errors == null, t.errors, op).errors
      decreases |code| - ip, 10, 0
    {
      hide Exec, RunEach, Log, WellCounted;
      ghost var log, t := Log(), RunEach(env, code, value, count, ip, valid, errors == null);
      var _ := RunEachBody(count, false);
      AddError(op);
      Associate(log, t.errors, [op]);
    }

    /** Body `m` of `count` decides; the others are run muted, only to get past them. */
    method PickedBody(m: nat, count: nat)
      requires Ready() && m < count
      modifies this`ip, this`valid, errors
      ensures Ready()
      ensures var before := RunEach(env, code, value, m, old(ip), old(valid), true);
              var s := Exec(env, code, value, before.ip, old(valid), errors == null);
              var after := RunEach(env, code, value, count - m - 1, s.ip, old(valid) && s.valid, true);
              ip == after.ip && valid == (old(valid) && s.valid) && Log() == old(Log()) + s.errors
      decreases |code| - ip, 10, 0
    {
      hide Exec, RunEach, Log, WellCounted;
      var _ := RunEachBody(m, true);
      RunInPlace();
      var _ := RunEachBody(count - m - 1, true);
    }

    /** A sub-run over the current value whose instruction pointer is kept. */
    method RunInPlace()
      requires Ready()
      modifies this`ip, this`valid, errors
      ensures Ready()
      ensures var r := Exec(env, code, value, old(ip), old(valid), errors == null);
              ip == r.ip && valid == r.valid && Log() == old(Log()) + r.errors
      decreases |code| - ip, 8, 0
    {
      hide Exec, WellCounted;
      var sub := new State(env, code, value, errors, ip, valid);
      sub.Execute();
      if !sub.valid { valid := false; }
      ip := sub.ip;
    }
  }

  predicate KeysAt(c: Code, ip: nat, n: nat) {
    ip + n <= |c| && forall j | ip <= j < ip + n :: c[j].NopName?
  }

  function PickedKey(c: Code, v: Value, property: string, ip: nat, n: nat): (m: nat)
    requires KeysAt(c, ip, n)
    ensures m <= n
  {
    var tag := Get(v, property);
    if tag.Some? && tag.value.JStr? then FindKey(c, ip, n, tag.value.s) else n
  }

  lemma KeysEnd(c: Code, ip: nat, n: nat)
    requires KeysAt(c, ip, n)
    ensures ip + n <= |c|
  {
  }

  lemma NamesCounted(c: Code, ip: nat)
    requires WellCounted(c) && ip < |c| && c[ip].Dispatch?
    ensures NamesFit(c, ip) && ip + 1 < |c| && c[ip + 1].NopCount? && c[ip + 1].n >= 0
    ensures KeysAt(c, ip + 2, c[ip + 1].n)
  {
    assert CountFits(c, ip);
  }

  /** The discriminator dispatch, by the position `m` of the key that is picked. */
  lemma DispatchCases(e: Env, c: Code, v: Value, ip: nat, ok: bool, mute: bool, m: nat)
    requires WellCounted(c) && ip < |c| && c[ip].Dispatch? && NamesFit(c, ip)
    requires KeysAt(c, ip + 2, c[ip + 1].n) && m == PickedKey(c, v, c[ip].property, ip + 2, c[ip + 1].n)
    ensures var n, r := c[ip + 1].n, StepDispatch(e, c, v, ip, ok, mute);
      && m <= n
      && (m == n ==>
            var t := RunEach(e, c, v, n, ip + 2 + n, ok, mute);
            r == Fail(t.ip, mute, t.errors, c[ip]))
      && (m < n ==>
            var before := RunEach(e, c, v, m, ip + 2 + n, ok, true);
            var s := Exec(e, c, v, before.ip, ok, mute);
            var after := RunEach(e, c, v, n - m - 1, s.ip, ok && s.valid, true);
            r == Outcome(after.ip, ok && s.valid, s.errors))
  {
    hide RunEach, Exec, Get, WellCounted, FindKey;
  }

  lemma Associate(a: Code, b: Code, c: Code)
    ensures a + (b + c) == a + b + c
  {
  }

  lemma MissingHead(c: Code, v: Value, ip: nat, n: nat, op: Instr)
    requires 0 < n && ip + n <= |c| && forall j | ip <= j < ip + n :: c[j].NopName?
    ensures GetNamed(v, c[ip].name).None? ==> Missing(c, v, ip, n, op) == [op] + Missing(c, v, ip + 1, n - 1, op)
    ensures GetNamed(v, c[ip].name).Some? ==> Missing(c, v, ip, n, op) == Missing(c, v, ip + 1, n - 1, op)
  {
    hide GetNamed;
  }

  lemma MissingNone(c: Code, v: Value, ip: nat, op: Instr)
    requires ip <= |c|
    ensures Missing(c, v, ip, 0, op) == []
  {
  }

  lemma NotAnObject(v: Value, name: string)
    ensures !v.JObj? ==> Get(v, name).None?
  {
  }

  /** The first inline key equal to the tag, by scanning. */
  method Search(c: Code, ip: nat, n: nat, tag: string) returns (m: nat)
    requires ip + n <= |c| && forall j | ip <= j < ip + n :: c[j].NopName?
    ensures m == FindKey(c, ip, n, tag)
  {
    hide SameName;
    m := 0;
    while m < n
      invariant 0 <= m <= n
      invariant FindKey(c, ip, n, tag) == m + FindKey(c, ip + m, n - m, tag)
    {
      if SameName(c[ip + m].name, tag) { return; }
      m := m + 1;
    }
  }

  // ----- validation -----

  /** What a caller passes in and reads afterwards; the list may be missing. */
  class ValidationResult {
    var valid: bool
    var errors: ErrorList?

    constructor (list: ErrorList?)
      ensures errors == list
    {
      valid, errors := false, list;
    }
  }

  /** `oas_validate_with_direction`: an empty program is refused and nothing changes. Otherwise the verdict
      is that of one run; a missing list is made if there is an arena, what the run reports is appended
      to the list, and the verdict is negative exactly when the list has grown. */
  method Validate(e: Env, c: Code, v: Value, result: ValidationResult, arena: bool) returns (ok: bool)
    requires WellCounted(c)
    modifies result, result.errors
    ensures ok <==> c != []
    ensures !ok ==> result.valid == old(result.valid) && result.errors == old(result.errors)
    ensures !ok && result.errors != null ==> result.errors.entries == old(result.errors.entries)
    ensures ok ==> result.valid == Exec(e, c, v, 0, true, true).valid
    ensures ok && old(result.errors) != null ==>
      && result.errors == old(result.errors)
      && result.errors.entries == old(result.errors.entries) + Exec(e, c, v, 0, true, false).errors
      && (result.valid <==> result.errors.entries == old(result.errors.entries))
    ensures ok && old(result.errors) == null ==>
      && (result.errors != null <==> arena)
      && (arena ==>
            && fresh(result.errors) && result.errors.entries == Exec(e, c, v, 0, true, false).errors
            && (result.valid <==> result.errors.entries == []))
  {
    hide Exec, WellCounted;
    if |c| == 0 { return false; }
    VerdictIsReported(e, c, v, 0);
    result.valid := true;
    if result.errors == null && arena {
      result.errors := new ErrorList();
    }
    var vm := new State(e, c, v, result.errors, 0, true);
    vm.Execute();
    result.valid := vm.valid;
    ok := true;
  }

  /** Compile and run: the verdict is that of the run over the compiled program; it decides the schema
      whenever every skip of the run is exact, and so for every value when the schema is in the fragment. */
  method CompileAndValidate(e: Env, s: Schema, v: Value, result: ValidationResult, arena: bool) returns (ok: bool)
    modifies result, result.errors
    ensures ok <==> Compilable(e.config, s)
    ensures ok ==> WellCounted(ProgramOf(e.config, s))
    ensures ok ==> result.valid == Exec(e, ProgramOf(e.config, s), v, 0, true, true).valid
    ensures ok && Clean(e, Lower(e.config, s), v, true) ==> (result.valid <==> Satisfies(e, s, v))
    ensures ok && Fragment.InFragment(e.config, s) ==> (result.valid <==> Satisfies(e, s, v))
    ensures ok && old(result.errors) != null ==>
      && result.errors == old(result.errors)
      && (result.valid <==> result.errors.entries == old(result.errors.entries))
  {
    hide Lower, Clean, Satisfies, Exec, Compilable, Fragment.InFragment;
    var cs := SchemaCompiler.Compile(e.config, s);
    if cs == null { return false; }
    ProgramWellCounted(e.config, s);
    if Clean(e, Lower(e.config, s), v, true) { ValidationCorrect(e, s, v, true); }
    if Fragment.InFragment(e.config, s) { FragmentCorrect(e, s, v, true); }
    var code := cs.program.code[..cs.program.count];
    ok := Validate(e, code, v, result, arena);
  }
}
