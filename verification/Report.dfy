/** Which errors a run reports, and in which order. */
module Reports {
  import opened Json
  import opened Schemas
  import opened Instructions
  import opened Meanings
  import opened Machine

  /** The checks that fail, in order. */
  ghost function Failing(e: Env, ks: seq<Check>, v: Value): Code {
    if ks == [] then []
    else (if CheckOk(e, ks[0], v) then [] else [Test(ks[0])]) + Failing(e, ks[1..], v)
  }

  /** The code holds these checks and an END from `ip` on. */
  predicate ChecksAt(c: Code, ip: nat, ks: seq<Check>) {
    && WellCounted(c) && ip + |ks| < |c| && c[ip + |ks|] == End
    && forall i | 0 <= i < |ks| :: c[ip + i] == Test(ks[i])
  }

  lemma ExecCheck(e: Env, c: Code, v: Value, ip: nat, ok: bool)
    requires WellCounted(c) && ip < |c| && c[ip].Test?
    ensures var pass := CheckOk(e, c[ip].check, v);
      var t := Exec(e, c, v, ip + 1, ok && pass, false);
      Exec(e, c, v, ip, ok, false) == Outcome(t.ip, t.valid, (if pass then [] else [c[ip]]) + t.errors)
  {
    hide CheckOk;
    var s := Step(e, c, v, ip, ok, false);
    assert s == Report(CheckOk(e, c[ip].check, v), ip + 1, ok, false, [], c[ip]);
  }

  /** One error for each check that fails, in the order of the code. */
  lemma {:induction false} ChecksReport(e: Env, c: Code, v: Value, ip: nat, ks: seq<Check>, ok: bool)
    requires ChecksAt(c, ip, ks)
    ensures Exec(e, c, v, ip, ok, false) ==
      Outcome(ip + |ks| + 1, ok && Failing(e, ks, v) == [], Failing(e, ks, v))
    decreases |ks|
  {
    hide CheckOk, WellCounted;
    if ks == [] {
      NothingFails(e, v);
    } else {
      NextCheck(c, ip, ks);
      ExecCheck(e, c, v, ip, ok);
      ChecksReport(e, c, v, ip + 1, ks[1..], ok && CheckOk(e, ks[0], v));
    }
  }

  lemma NextCheck(c: Code, ip: nat, ks: seq<Check>)
    requires ChecksAt(c, ip, ks) && ks != []
    ensures c[ip] == Test(ks[0]) && ChecksAt(c, ip + 1, ks[1..])
  {
    hide WellCounted;
    assert c[ip + 0] == Test(ks[0]);
    assert forall i | 0 <= i < |ks[1..]| :: ks[1..][i] == ks[i + 1];
  }

  lemma NothingFails(e: Env, v: Value)
    ensures Failing(e, [], v) == []
  {
  }

  /** What fails for each of the values in turn. */
  ghost function FailingFor(e: Env, ks: seq<Check>, vs: seq<Value>): Code {
    if vs == [] then [] else Failing(e, ks, vs[0]) + FailingFor(e, ks, vs[1..])
  }

  lemma {:induction false} RunOverReports(e: Env, c: Code, vs: seq<Value>, ip: nat, ks: seq<Check>, ok: bool)
    requires ChecksAt(c, ip, ks)
    ensures RunOver(e, c, vs, ip, ok, false) == Outcome(ip, ok && FailingFor(e, ks, vs) == [], FailingFor(e, ks, vs))
    decreases |vs|
  {
    hide Exec, Failing, ChecksAt;
    CodeAt(c, ip, ks);
    if vs != [] {
      ChecksReport(e, c, vs[0], ip, ks, ok);
      RunOverReports(e, c, vs[1..], ip, ks, ok && Failing(e, ks, vs[0]) == []);
    }
  }

  lemma CodeAt(c: Code, ip: nat, ks: seq<Check>)
    requires ChecksAt(c, ip, ks)
    ensures WellCounted(c) && ip + |ks| < |c|
  {
  }

  /** items over an array: the failing checks of its first element, then those of the second, and so on. */
  lemma ItemsReport(e: Env, c: Code, items: seq<Value>, ip: nat, ks: seq<Check>, ok: bool)
    requires ip < |c| && c[ip] == Open(EnterItems) && ChecksAt(c, ip + 1, ks)
    ensures Step(e, c, JArr(items), ip, ok, false) ==
      Outcome(ip + |ks| + 2, ok && FailingFor(e, ks, items) == [], FailingFor(e, ks, items))
  {
    hide Exec, RunOver, FailingFor, SkipFrom;
    RunOverReports(e, c, items, ip + 1, ks, ok);
    SkipChecks(c, ip + 1, ks);
    assert Step(e, c, JArr(items), ip, ok, false) == StepOpen(e, c, JArr(items), ip, ok, false);
  }

  lemma {:induction false} SkipChecks(c: Code, ip: nat, ks: seq<Check>)
    requires ChecksAt(c, ip, ks)
    ensures SkipFrom(c, ip, 1) == ip + |ks| + 1
    decreases |ks|
  {
    if ks != [] {
      hide WellCounted;
      NextCheck(c, ip, ks);
      SkipChecks(c, ip + 1, ks[1..]);
    }
  }

  /** Consecutive bodies of checks, each with its END. */
  predicate BodiesAt(c: Code, ip: nat, bodies: seq<seq<Check>>)
    decreases |bodies|
  {
    if bodies == [] then WellCounted(c) && ip <= |c|
    else ChecksAt(c, ip, bodies[0]) && BodiesAt(c, ip + |bodies[0]| + 1, bodies[1..])
  }

  ghost function FailingIn(e: Env, bodies: seq<seq<Check>>, v: Value): Code {
    if bodies == [] then [] else Failing(e, bodies[0], v) + FailingIn(e, bodies[1..], v)
  }

  /** allOf: the failing checks of its first body, then those of the second, and so on, whatever failed before. */
  lemma {:induction false} RunAllReports(e: Env, c: Code, v: Value, ip: nat, bodies: seq<seq<Check>>, ok: bool)
    requires BodiesAt(c, ip, bodies)
    ensures WellCounted(c) && ip <= |c|
    ensures var r := RunAll(e, c, v, |bodies|, ip, ok, false);
      r.valid == (ok && FailingIn(e, bodies, v) == []) && r.errors == FailingIn(e, bodies, v)
    decreases |bodies|
  {
    hide Exec, Failing, ChecksAt;
    if bodies != [] {
      CodeAt(c, ip, bodies[0]);
      ChecksReport(e, c, v, ip, bodies[0], ok);
      RunAllReports(e, c, v, ip + |bodies[0]| + 1, bodies[1..], ok && Failing(e, bodies[0], v) == []);
    }
  }

  /** For each name its failing checks, and one more error for propertyNames itself, which comes for every name from
      the first one on that fails. */
  ghost function FailingNames(e: Env, ks: seq<Check>, vs: seq<Value>, ok: bool, op: Instr): Code {
    if vs == [] then []
    else
      var pass := ok && Failing(e, ks, vs[0]) == [];
      Failing(e, ks, vs[0]) + (if pass then [] else [op]) + FailingNames(e, ks, vs[1..], pass, op)
  }

  lemma {:induction false} RunNamesReports(e: Env, c: Code, vs: seq<Value>, ip: nat, ks: seq<Check>, ok: bool,
      op: Instr)
    requires ChecksAt(c, ip, ks)
    ensures WellCounted(c) && ip <= |c|
    ensures RunNames(e, c, vs, ip, ok, false, op).errors == FailingNames(e, ks, vs, ok, op)
    decreases |vs|
  {
    hide Exec, Failing, ChecksAt;
    CodeAt(c, ip, ks);
    if vs != [] {
      ChecksReport(e, c, vs[0], ip, ks, ok);
      RunNamesReports(e, c, vs[1..], ip, ks, ok && Failing(e, ks, vs[0]) == [], op);
    }
  }

  /** propertyNames over an object, in the order of its members. */
  lemma PropertyNamesReport(e: Env, c: Code, ms: seq<Member>, ip: nat, ks: seq<Check>, ok: bool)
    requires ip < |c| && c[ip] == Open(CheckPropNames) && ChecksAt(c, ip + 1, ks)
    ensures Step(e, c, JObj(ms), ip, ok, false).errors == FailingNames(e, ks, Names(ms), ok, c[ip])
  {
    hide Exec, RunNames, FailingNames, SkipFrom;
    RunNamesReports(e, c, Names(ms), ip + 1, ks, ok, c[ip]);
    assert Step(e, c, JObj(ms), ip, ok, false) == StepOpen(e, c, JObj(ms), ip, ok, false);
  }

  /** With names of at most one character, the name "b" is reported behind "aa", although it is short enough. */
  lemma GoodNameReported(e: Env)
    ensures var c := [Open(CheckPropNames), Test(CheckMaxLen(1)), End];
      && WellCounted(c) && CheckOk(e, CheckMaxLen(1), JStr("b"))
      && Step(e, c, JObj([Member("aa", JNull), Member("b", JNull)]), 0, true, false).errors == [c[1], c[0], c[0]]
  {
    hide Exec, Step, FailingNames, CheckOk, ChecksAt, WellCounted;
    ShortCode();
    PropertyNamesReport(e, [Open(CheckPropNames), Test(CheckMaxLen(1)), End],
                        [Member("aa", JNull), Member("b", JNull)], 0, [CheckMaxLen(1)], true);
    ShortNames(e, Open(CheckPropNames));
  }

  lemma ShortCode()
    ensures var c := [Open(CheckPropNames), Test(CheckMaxLen(1)), End];
      WellCounted(c) && ChecksAt(c, 1, [CheckMaxLen(1)])
  {
    var c := [Open(CheckPropNames), Test(CheckMaxLen(1)), End];
    assert forall i | 0 <= i < |c| :: CountFits(c, i);
  }

  lemma ShortNames(e: Env, op: Instr)
    ensures CheckOk(e, CheckMaxLen(1), JStr("b"))
    ensures FailingNames(e, [CheckMaxLen(1)], Names([Member("aa", JNull), Member("b", JNull)]), true, op) ==
      [Test(CheckMaxLen(1)), op, op]
  {
    hide CStr, CheckOk, Names;
    var k, a, b := CheckMaxLen(1), JStr("aa"), JStr("b");
    TwoNames();
    ShortChecks(e);
    assert [k][1..] == [] && [a, b][1..] == [b] && [b][1..] == [];
    assert Failing(e, [k], a) == [Test(k)] + Failing(e, [], a) && Failing(e, [k], b) == [] + Failing(e, [], b);
    assert FailingNames(e, [k], [b], false, op) == [] + [op] + FailingNames(e, [k], [], false, op);
  }

  lemma TwoNames()
    ensures Names([Member("aa", JNull), Member("b", JNull)]) == [JStr("aa"), JStr("b")]
  {
    hide CStr;
    CStrOfClean("aa");
    CStrOfClean("b");
  }

  lemma ShortChecks(e: Env)
    ensures !CheckOk(e, CheckMaxLen(1), JStr("aa")) && CheckOk(e, CheckMaxLen(1), JStr("b"))
  {
    assert CharStarts("aa") == {0, 1} && CharStarts("b") == {0};
  }

  // ----- after the first error -----

  lemma {:induction false} NonePass(e: Env, c: Code, v: Value, n: nat, ip: nat, mute: bool)
    requires WellCounted(c) && ip <= |c|
    ensures RunEach(e, c, v, n, ip, false, mute).passed == 0
    decreases n
  {
    hide Exec;
    if n > 0 { NonePass(e, c, v, n - 1, Exec(e, c, v, ip, false, mute).ip, mute); }
  }

  lemma {:induction false} NoHits(e: Env, c: Code, vs: seq<Value>, ip: nat)
    requires WellCounted(c) && ip <= |c|
    ensures Hits(e, c, vs, ip, false) == 0
    decreases |vs|
  {
    hide Exec;
    if vs != [] { NoHits(e, c, vs[1..], ip); }
  }

  /** The branches start with the verdict so far. So once something has failed, anyOf and oneOf always report an error,
      and so does contains on an array unless it asks for no element. */
  lemma ReportedAnyway(e: Env, c: Code, v: Value, ip: nat)
    requires WellCounted(c) && ip < |c|
    ensures c[ip].Branch? && !c[ip].kind.AllOf? ==> Step(e, c, v, ip, false, false).errors == [c[ip]]
    ensures c[ip].Contains? && v.JArr? && c[ip].min > 0 ==> c[ip] in Step(e, c, v, ip, false, false).errors
    ensures c[ip].Contains? && v.JArr? && c[ip].min <= 0 ==> Step(e, c, v, ip, false, false).errors == []
  {
    hide Exec, RunEach, Hits, Skip;
    assert CountFits(c, ip);
    if c[ip].Branch? && !c[ip].kind.AllOf? { NonePass(e, c, v, c[ip].count, ip + 1, true); }
    if c[ip].Contains? && v.JArr? { NoHits(e, c, v.items, ip + 2); }
  }
}
