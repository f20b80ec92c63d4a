/** The compiler is correct for the machine, exactly as far as the machine skips correctly. */
module Correctness {
  import opened Json
  import opened Schemas
  import opened Instructions
  import opened Trees
  import opened Meanings
  import opened Machine
  import opened Landing
  import opened Running
  import opened Compiler
  import opened Lowering
  import opened Fragment
  import opened Muting

  /** Main theorem. Run the machine from the start of the code compiled for `s`, followed by its END
      and any other code. It stops just behind that END if and only if the run is clean, and earlier
      otherwise; and after a clean run the verdict has dropped exactly when the value does not
      satisfy the schema. */
  lemma CompileCorrect(e: Env, s: Schema, c: Code, ip: nat, post: Code, v: Value, ok: bool, mute: bool)
    requires WellCounted(c) && ip <= |c| && c[ip..] == FlatSeq(Lower(e.config, s)) + [End] + post
    ensures var r := Exec(e, c, v, ip, ok, mute);
            var past := ip + |FlatSeq(Lower(e.config, s))| + 1;
            && r.ip <= past
            && (r.ip == past <==> Clean(e, Lower(e.config, s), v, ok))
            && (r.ip == past ==> r.valid == (ok && Satisfies(e, s, v)))
  {
    hide Lower, FlatSeq, Clean, Accepts, Satisfies, Exec, CompositionFree, ForkFree;
    var ts := Lower(e.config, s);
    var st := Push(ts, Bottom);
    LowerShape(e.config, s);
    ProperIsLoose(ts);
    FlatOne(ts);
    assert At(c, ip, st, post);
    assert LooseStack(st);
    var out := RunLands(e, c, v, ip, ok, mute, st, post);
    UnderBottom(out);
    var r := Exec(e, c, v, ip, ok, mute);
    assert |c| - r.ip == |FlatStack(out)| + |post|;
    LowerMeans(e, s, v);
  }

  /** The same for `skip_to_end`: entered at the start of the code of `s` it stops just behind the
      END if and only if no composition and no discriminator is compiled for `s`. */
  lemma SkipCorrect(cfg: Config, s: Schema, c: Code, ip: nat, post: Code)
    requires ip <= |c| && c[ip..] == FlatSeq(Lower(cfg, s)) + [End] + post
    ensures var past := ip + |FlatSeq(Lower(cfg, s))| + 1;
            Skip(c, ip) <= past && (Skip(c, ip) == past <==> CompositionFree(cfg, s))
  {
    hide Lower, FlatSeq, Proper, ForkFree, CompositionFree, Skip;
    LowerShape(cfg, s);
    SkipExact(c, ip, Lower(cfg, s), post);
  }

  lemma ProgramWellCounted(cfg: Config, s: Schema)
    ensures WellCounted(ProgramOf(cfg, s))
  {
    FlatSeqWellCounted(Lower(cfg, s));
    WellCountedConcat(FlatSeq(Lower(cfg, s)), [End]);
  }

  /** Whole programs: when no skip goes wrong the machine consumes the program and decides the schema. */
  lemma ValidationCorrect(e: Env, s: Schema, v: Value, mute: bool)
    requires Clean(e, Lower(e.config, s), v, true)
    ensures WellCounted(ProgramOf(e.config, s))
    ensures var r := Exec(e, ProgramOf(e.config, s), v, 0, true, mute);
            r.ip == |ProgramOf(e.config, s)| && (r.valid <==> Satisfies(e, s, v))
  {
    hide Lower, FlatSeq, Clean, Satisfies, Exec;
    ProgramWellCounted(e.config, s);
    var c := ProgramOf(e.config, s);
    assert c[0..] == FlatSeq(Lower(e.config, s)) + [End] + [];
    CompileCorrect(e, s, c, 0, [], v, true, mute);
  }

  /** Inside the fragment that is so for every value. */
  lemma FragmentCorrect(e: Env, s: Schema, v: Value, mute: bool)
    requires InFragment(e.config, s)
    ensures WellCounted(ProgramOf(e.config, s))
    ensures var r := Exec(e, ProgramOf(e.config, s), v, 0, true, mute);
            r.ip == |ProgramOf(e.config, s)| && (r.valid <==> Satisfies(e, s, v))
  {
    hide Lower, FlatSeq, Clean, Satisfies, Exec, InFragment;
    FragmentIsClean(e, s);
    ValidationCorrect(e, s, v, mute);
  }

  /** Verdict and diagnostics agree: a run that starts valid ends invalid exactly when it reported
      something; leaving the error list out changes neither the verdict nor where the run stops. */
  lemma VerdictIsReported(e: Env, c: Code, v: Value, ip: nat)
    requires WellCounted(c) && ip <= |c|
    ensures var r := Exec(e, c, v, ip, true, false);
            && (r.valid <==> r.errors == [])
            && Exec(e, c, v, ip, true, true) == Outcome(r.ip, r.valid, [])
  {
    MuteExec(e, c, v, ip, true);
  }

  // ----- where it goes wrong -----

  function OfType(t: JsonType): Schema {
    EmptySchema().(typeMask := TypeBit(t))
  }

  function Either(a: Schema, b: Schema): Schema {
    EmptySchema().(comp := Composition([], [Some(a), Some(b)], [], None))
  }

  function ArrayOf(s: Schema): Schema {
    EmptySchema().(arr := ArrayRules(Some(s), [], -1, -1, false, None, -1, -1))
  }

  lemma OfTypeCode(cfg: Config, t: JsonType)
    ensures Lower(cfg, OfType(t)) == [Leaf(CheckType(TypeBit(t)))]
  {
  }

  lemma EitherCode(cfg: Config, a: Schema, b: Schema)
    ensures Lower(cfg, Either(a, b)) == [Fork(AnyOf, [Block(Lower(cfg, a)), Block(Lower(cfg, b))])]
  {
    var s, os := Either(a, b), [Some(a), Some(b)];
    assert LowerBranches(cfg, os) == [LowerOpt(cfg, os[0]), LowerOpt(cfg, os[1])];
    assert LowerFork(cfg, AllOf, s.comp.allOf) == [] && LowerFork(cfg, OneOf, s.comp.oneOf) == [];
    assert LowerFork(cfg, AnyOf, s.comp.anyOf) == [Fork(AnyOf, LowerBranches(cfg, os))];
    assert LowerAlternatives(cfg, s.comp, s.disc) == [Fork(AnyOf, LowerBranches(cfg, os))] + [];
    assert LowerComposition(cfg, s.comp, s.disc) == [Fork(AnyOf, LowerBranches(cfg, os))];
    assert LowerArray(cfg, s.arr) == [] && LowerObject(cfg, s.obj) == [];
  }

  lemma ArrayOfCode(cfg: Config, s: Schema)
    ensures Lower(cfg, ArrayOf(s)) == [Nest(EnterItems, Block(Lower(cfg, s)))]
  {
    var a := ArrayOf(s);
    assert LowerOpt(cfg, a.arr.items) == Block(Lower(cfg, s));
    assert LowerArray(cfg, a.arr) == [Nest(EnterItems, LowerOpt(cfg, a.arr.items))];
    assert LowerObject(cfg, a.obj) == [] && LowerComposition(cfg, a.comp, a.disc) == [];
  }

  /** Arrays whose elements are strings or integers. */
  function StringsOrIntegers(): Schema {
    ArrayOf(Either(OfType(TString), OfType(TInteger)))
  }

  lemma StringsOrIntegersCode(cfg: Config)
    ensures ProgramOf(cfg, StringsOrIntegers()) ==
      [Open(EnterItems), Branch(AnyOf, 2), Test(CheckType(0x10)), End, Test(CheckType(0x04)), End, End, End]
  {
    var a, b := OfType(TString), OfType(TInteger);
    OfTypeCode(cfg, TString);
    OfTypeCode(cfg, TInteger);
    EitherCode(cfg, a, b);
    ArrayOfCode(cfg, Either(a, b));
    hide Lower;
    var x, y := Block([Leaf(CheckType(0x10))]), Block([Leaf(CheckType(0x04))]);
    var f := Fork(AnyOf, [x, y]);
    assert FlatSeq(x.trees) == Flat(x.trees[0]) + FlatSeq([]) == [Test(CheckType(0x10))];
    assert FlatSeq(y.trees) == Flat(y.trees[0]) + FlatSeq([]) == [Test(CheckType(0x04))];
    assert [x, y][1..] == [y];
    assert FlatBodies([y]) == FlatSeq(y.trees) + [End] + FlatBodies([]);
    assert FlatBodies([x, y]) == FlatSeq(x.trees) + [End] + FlatBodies([y]);
    assert Flat(f) == [Branch(AnyOf, 2)] + FlatBodies([x, y]);
    assert FlatSeq([f]) == Flat(f) + FlatSeq([]) == Flat(f);
    var n := Nest(EnterItems, Block([f]));
    assert Flat(n) == [Open(EnterItems)] + FlatSeq([f]) + [End];
    assert FlatSeq([n]) == Flat(n) + FlatSeq([]) == Flat(n);
  }

  /** Outside the fragment the verdict can be wrong: after the element of `["a"]` has been checked,
      the skip over the body stops behind the first branch, and the second branch is then run on the
      array itself. */
  lemma SkippedForkRejects(e: Env)
    ensures WellCounted(ProgramOf(e.config, StringsOrIntegers()))
    ensures Satisfies(e, StringsOrIntegers(), JArr([JStr("a")]))
    ensures !Exec(e, ProgramOf(e.config, StringsOrIntegers()), JArr([JStr("a")]), 0, true, true).valid
  {
    var c := [Open(EnterItems), Branch(AnyOf, 2), Test(CheckType(0x10)), End, Test(CheckType(0x04)), End, End, End];
    StringsOrIntegersCode(e.config);
    ProgramWellCounted(e.config, StringsOrIntegers());
    EitherMeans(e, JStr("a"));
    SkippedForkRun(e, c, JArr([JStr("a")]));
  }

  lemma EitherMeans(e: Env, v: Value)
    requires v.JStr?
    ensures Satisfies(e, StringsOrIntegers(), JArr([v]))
  {
    var a, b := OfType(TString), OfType(TInteger);
    assert HasType(v, TString) && TypeIn(TString, 0x10);
    assert TypeOk(EffectiveMask(a), v);
    assert Satisfies(e, a, v);
    var o := Either(a, b);
    assert 0 in Schemas.Passing(e, o.comp.anyOf, v) by {
      assert o.comp.anyOf[0] == Some(a);
      assert SatisfiesOpt(e, o.comp.anyOf[0], v);
    }
    assert Satisfies(e, o, v);
    assert SatisfiesOpt(e, Some(o), v);
    assert ItemsOk(e, Some(o), JArr([v]));
  }

  lemma SkippedForkRun(e: Env, c: Code, v: Value)
    requires c == [Open(EnterItems), Branch(AnyOf, 2), Test(CheckType(0x10)), End, Test(CheckType(0x04)), End, End, End]
    requires WellCounted(c) && v.JArr?
    ensures !Exec(e, c, v, 0, true, true).valid
  {
    hide RunOver;
    assert SkipFrom(c, 1, 1) == SkipFrom(c, 2, 1) == SkipFrom(c, 3, 1) == SkipFrom(c, 4, 0) == 4;
    var s := Step(e, c, v, 0, true, true);
    assert s == StepOpen(e, c, v, 0, true, true);
    assert s.ip == Skip(c, 1);
    assert s.ip == 4;
    assert !TypeOk(0x04, v) by {
      assert forall t :: HasType(v, t) ==> t == TArray;
      assert !TypeIn(TArray, 0x04);
    }
    assert !Step(e, c, v, 4, s.valid, true).valid;
    assert !Exec(e, c, v, 4, s.valid, true).valid;
  }
}
