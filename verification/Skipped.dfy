/** Which schemas compile to code that no run gets through exactly. */
module Skipped {
  import opened Json
  import opened Schemas
  import opened Instructions
  import opened Trees
  import opened Meanings
  import opened Machine
  import opened Compiler
  import opened Fragment
  import opened Correctness

  /** Composition is compiled below a body that every run skips, or a branch list is too long for its
      16-bit count, in a part of the schema that every run either enters or skips. */
  predicate SkipsComposition(cfg: Config, s: Schema)
    decreases s
  {
    if s.refResolved.Some? then SkipsComposition(cfg, s.refResolved.value)
    else
      || !ArrayFree(cfg, s.arr)
      || !MembersFree(cfg, s.obj)
      || DependentSkips(cfg, s.obj.dependentSchemas)
      || BranchesSkip(cfg, s.comp.allOf)
      || AlternativesSkip(cfg, s.comp, s.disc)
      || OptSkips(cfg, s.comp.notSchema)
      || ConditionalSkips(cfg, s.cond)
  }

  predicate OptSkips(cfg: Config, o: Option<Schema>)
    decreases o
  {
    o.Some? && SkipsComposition(cfg, o.value)
  }

  /** Everything the object keywords skip whatever the value: all of them but dependentSchemas. */
  predicate MembersFree(cfg: Config, r: ObjectRules) {
    && PropertiesFree(cfg, r.properties) && CompositionFreeOpt(cfg, r.additional)
    && CompositionFreeOpt(cfg, r.propertyNames) && PatternsFree(cfg, r.patternProperties)
  }

  predicate DependentSkips(cfg: Config, ds: seq<DependentSchema>)
    decreases ds
  {
    exists i :: 0 <= i < |ds| && OptSkips(cfg, ds[i].schema)
  }

  predicate SomeSkips(cfg: Config, os: seq<Option<Schema>>)
    decreases os, 0
  {
    exists i :: 0 <= i < |os| && OptSkips(cfg, os[i])
  }

  predicate BranchesSkip(cfg: Config, os: seq<Option<Schema>>)
    decreases os, 1
  {
    |os| >= 0x1_0000 || SomeSkips(cfg, os)
  }

  predicate AlternativesSkip(cfg: Config, c: Composition, d: Discriminator)
    decreases c
  {
    if HasDiscriminator(d) then
      var os := if c.oneOf != [] then c.oneOf else c.anyOf;
      |os| == |d.mapping| && SomeSkips(cfg, os)
    else BranchesSkip(cfg, c.anyOf) || BranchesSkip(cfg, c.oneOf)
  }

  predicate ConditionalSkips(cfg: Config, c: Conditional)
    decreases c
  {
    c.ifSchema.Some? && (OptSkips(cfg, c.ifSchema) || OptSkips(cfg, c.thenSchema) || OptSkips(cfg, c.elseSchema))
  }

  // ----- trees that no run gets through -----

  ghost predicate NeverClean(e: Env, ts: seq<Tree>) {
    forall v, ok :: !Clean(e, ts, v, ok)
  }

  ghost predicate NeverCleanTree(e: Env, t: Tree) {
    forall v, ok :: !CleanTree(e, t, v, ok)
  }

  ghost predicate HasBad(e: Env, ts: seq<Tree>) {
    exists t :: t in ts && NeverCleanTree(e, t)
  }

  lemma {:induction false} BadIsNeverClean(e: Env, ts: seq<Tree>, t: Tree, v: Value, ok: bool)
    requires t in ts && NeverCleanTree(e, t)
    ensures !Clean(e, ts, v, ok)
    decreases |ts|
  {
    hide CleanTree, AcceptsTree;
    if ts[0] != t {
      BadIsNeverClean(e, ts[1..], t, v, ok && AcceptsTree(e, ts[0], v));
    }
  }

  lemma BadCode(e: Env, ts: seq<Tree>)
    requires HasBad(e, ts)
    ensures NeverClean(e, ts)
  {
    hide Clean, NeverCleanTree;
    var t :| t in ts && NeverCleanTree(e, t);
    forall v, ok ensures !Clean(e, ts, v, ok) {
      BadIsNeverClean(e, ts, t, v, ok);
    }
  }

  lemma NeverCleanHasForks(e: Env, ts: seq<Tree>)
    requires NeverClean(e, ts) && Proper(ts)
    ensures !ForkFree(ts)
  {
    hide Clean, Proper, ForkFree;
    if ForkFree(ts) { ForkFreeIsClean(e, ts, JNull, true); }
  }

  /** The machine skips the bodies of such a tree whatever the value. */
  predicate Skips(t: Tree) {
    t.Leaf? || t.Names? || t.Quota? || (t.Nest? && !t.opener.Negate? && !t.opener.CheckDepSchema?)
  }

  lemma SkippedFork(e: Env, part: seq<Tree>)
    requires (forall t | t in part :: Skips(t)) && !ForkFree(part)
    ensures HasBad(e, part)
  {
    var i :| 0 <= i < |part| && !ForkFreeTree(part[i]);
    var t := part[i];
    assert Skips(t);
    hide Clean, ForkFree;
    forall v, ok ensures !CleanTree(e, t, v, ok) {
    }
    assert NeverCleanTree(e, t);
  }

  lemma BadWithin(e: Env, part: seq<Tree>, ts: seq<Tree>)
    requires HasBad(e, part) && forall t | t in part :: t in ts
    ensures HasBad(e, ts)
  {
  }

  // ----- the parts of a program -----

  lemma Parts(cfg: Config, s: Schema)
    requires s.refResolved.None?
    ensures forall t | t in LowerArray(cfg, s.arr) :: t in Lower(cfg, s)
    ensures forall t | t in LowerObject(cfg, s.obj) :: t in Lower(cfg, s)
    ensures forall t | t in LowerContains(cfg, s.arr) :: t in Lower(cfg, s)
    ensures forall t | t in LowerComposition(cfg, s.comp, s.disc) :: t in Lower(cfg, s)
    ensures forall t | t in LowerConditional(cfg, s.cond) :: t in Lower(cfg, s)
  {
    hide LowerArray, LowerObject, LowerContains, LowerComposition, LowerConditional, LowerAnnotations,
         LowerString, LowerNumber, When;
  }

  lemma ArraySkips(cfg: Config, r: ArrayRules)
    ensures forall t | t in LowerArray(cfg, r) :: Skips(t)
    ensures forall t | t in LowerContains(cfg, r) :: Skips(t)
  {
    hide LowerOpt;
  }

  lemma NestedSkips(cfg: Config, opener: Opener, o: Option<Schema>)
    requires !opener.Negate? && !opener.CheckDepSchema?
    ensures forall t | t in LowerNested(cfg, opener, o) :: Skips(t)
  {
    hide LowerOpt;
  }

  lemma {:induction false} PatternsSkip(cfg: Config, ps: seq<PatternProperty>)
    ensures forall t | t in LowerPatterns(cfg, ps) :: Skips(t)
    decreases |ps|
  {
    hide LowerNested, Skips;
    if ps != [] {
      NestedSkips(cfg, CheckPatternProps(ps[0].pattern), ps[0].schema);
      PatternsSkip(cfg, ps[1..]);
    }
  }

  /** The object keywords up to dependentSchemas. */
  function SkippedMembers(cfg: Config, r: ObjectRules): seq<Tree> {
    LowerMembers(cfg, r) + LowerNested(cfg, CheckPropNames, r.propertyNames) + LowerPatterns(cfg, r.patternProperties)
  }

  lemma MembersSkip(cfg: Config, r: ObjectRules)
    ensures forall t | t in SkippedMembers(cfg, r) :: Skips(t)
  {
    hide LowerNested, LowerPatterns, Skips, LowerRequired, LowerProperties, When;
    LeavesSkip(cfg, r);
    NestedSkips(cfg, EnterAdditional, r.additional);
    NestedSkips(cfg, CheckPropNames, r.propertyNames);
    PatternsSkip(cfg, r.patternProperties);
  }

  lemma LeavesSkip(cfg: Config, r: ObjectRules)
    ensures forall t | t in LowerRequired(r.required) :: Skips(t)
    ensures forall t | t in LowerProperties(cfg, r.properties) :: Skips(t)
    ensures forall t | t in When(r.minProperties >= 0, CheckMinProps(r.minProperties)) :: Skips(t)
    ensures forall t | t in When(r.maxProperties >= 0, CheckMaxProps(r.maxProperties)) :: Skips(t)
  {
    hide Lower;
  }

  lemma MembersShape(cfg: Config, r: ObjectRules)
    ensures Shaped(SkippedMembers(cfg, r), MembersFree(cfg, r))
  {
    var q, c := LowerRequired(r.required), When(r.minProperties >= 0, CheckMinProps(r.minProperties));
    var d := When(r.maxProperties >= 0, CheckMaxProps(r.maxProperties));
    ObjectPlain(r);
    PropertiesShape(cfg, r.properties);
    NestedShape(cfg, EnterAdditional, r.additional);
    NestedShape(cfg, CheckPropNames, r.propertyNames);
    PatternsShape(cfg, r.patternProperties);
    ShapedOne(Leaf(CheckUnique));
    hide Shaped, LowerRequired, LowerProperties, LowerNested, When, LowerPatterns, CompositionFreeOpt,
         PropertiesFree, PatternsFree;
    ShapedNine(q, LowerProperties(cfg, r.properties), LowerNested(cfg, EnterAdditional, r.additional), c, d,
               LowerNested(cfg, CheckPropNames, r.propertyNames), LowerPatterns(cfg, r.patternProperties), [], [],
               true, PropertiesFree(cfg, r.properties), CompositionFreeOpt(cfg, r.additional), true, true,
               CompositionFreeOpt(cfg, r.propertyNames), PatternsFree(cfg, r.patternProperties), true, true);
    var all := q + LowerProperties(cfg, r.properties) + LowerNested(cfg, EnterAdditional, r.additional) + c + d
               + LowerNested(cfg, CheckPropNames, r.propertyNames) + LowerPatterns(cfg, r.patternProperties);
    assert all + [] + [] == all;
  }

  lemma MembersWithin(cfg: Config, r: ObjectRules)
    ensures forall t | t in SkippedMembers(cfg, r) :: t in LowerObject(cfg, r)
    ensures forall t | t in LowerDependentSchemas(cfg, r.dependentSchemas) :: t in LowerObject(cfg, r)
  {
    hide LowerMembers, LowerNested, LowerPatterns, LowerDependentSchemas, LowerDependentRequired;
  }

  // ----- the converse -----

  /** Such a schema has no clean run: not for any value, and not for any verdict to start with. */
  lemma {:induction false} SkipsNeverClean(e: Env, s: Schema)
    requires SkipsComposition(e.config, s)
    ensures NeverClean(e, Lower(e.config, s))
    decreases s
  {
    SkipsBad(e, s);
    BadCode(e, Lower(e.config, s));
  }

  lemma {:induction false} SkipsBad(e: Env, s: Schema)
    requires SkipsComposition(e.config, s)
    ensures HasBad(e, Lower(e.config, s))
    decreases s, 0
  {
    hide HasBad, LowerArray, LowerObject, LowerContains, LowerComposition, LowerConditional, ArrayFree, MembersFree,
         DependentSkips, BranchesSkip, AlternativesSkip, OptSkips, ConditionalSkips, LowerValue, LowerAnnotations;
    var cfg := e.config;
    if s.refResolved.Some? {
      SkipsBad(e, s.refResolved.value);
    } else {
      Parts(cfg, s);
      hide Lower;
      if !ArrayFree(cfg, s.arr) {
        ArrayBad(e, s.arr);
        if HasBad(e, LowerArray(cfg, s.arr)) {
          BadWithin(e, LowerArray(cfg, s.arr), Lower(cfg, s));
        } else {
          BadWithin(e, LowerContains(cfg, s.arr), Lower(cfg, s));
        }
      } else if !MembersFree(cfg, s.obj) || DependentSkips(cfg, s.obj.dependentSchemas) {
        ObjectBad(e, s.obj);
        BadWithin(e, LowerObject(cfg, s.obj), Lower(cfg, s));
      } else if ConditionalSkips(cfg, s.cond) {
        ConditionalBad(e, s.cond);
        BadWithin(e, LowerConditional(cfg, s.cond), Lower(cfg, s));
      } else {
        CompositionBad(e, s.comp, s.disc);
        BadWithin(e, LowerComposition(cfg, s.comp, s.disc), Lower(cfg, s));
      }
    }
  }

  lemma ArrayBad(e: Env, r: ArrayRules)
    requires !ArrayFree(e.config, r)
    ensures HasBad(e, LowerArray(e.config, r)) || HasBad(e, LowerContains(e.config, r))
  {
    hide LowerArray, LowerContains, CompositionFreeOpt, HasBad, ForkFree, Proper, Skips;
    ArrayFreeParts(e.config, r);
    ArrayShape(e.config, r);
    ArraySkips(e.config, r);
    if !ArrayPartFree(e.config, r) {
      SkippedFork(e, LowerArray(e.config, r));
    } else {
      SkippedFork(e, LowerContains(e.config, r));
    }
  }

  lemma {:induction false} ObjectBad(e: Env, r: ObjectRules)
    requires !MembersFree(e.config, r) || DependentSkips(e.config, r.dependentSchemas)
    ensures HasBad(e, LowerObject(e.config, r))
    decreases r
  {
    hide HasBad, ForkFree, Proper, Skips, SkippedMembers, MembersFree, LowerObject, LowerDependentSchemas;
    var cfg := e.config;
    MembersWithin(cfg, r);
    if !MembersFree(cfg, r) {
      MembersShape(cfg, r);
      MembersSkip(cfg, r);
      SkippedFork(e, SkippedMembers(cfg, r));
      BadWithin(e, SkippedMembers(cfg, r), LowerObject(cfg, r));
    } else {
      var i :| 0 <= i < |r.dependentSchemas| && OptSkips(cfg, r.dependentSchemas[i].schema);
      DependentBad(e, r.dependentSchemas, i);
      BadWithin(e, LowerDependentSchemas(cfg, r.dependentSchemas), LowerObject(cfg, r));
    }
  }

  /** Entered or skipped, the body of a dependent schema is not passed exactly. */
  lemma {:induction false} DependentBad(e: Env, ds: seq<DependentSchema>, i: nat)
    requires i < |ds| && OptSkips(e.config, ds[i].schema)
    ensures HasBad(e, LowerDependentSchemas(e.config, ds))
    decreases ds
  {
    var cfg := e.config;
    if i == 0 {
      OptBad(e, ds[0].schema);
      var t := Nest(CheckDepSchema(ds[0].property), LowerOpt(cfg, ds[0].schema));
      hide LowerOpt, Clean, ForkFree;
      forall v, ok ensures !CleanTree(e, t, v, ok) {
      }
      assert NeverCleanTree(e, t) && t in LowerDependentSchemas(cfg, ds);
    } else {
      hide HasBad, LowerNested, OptSkips;
      DependentBad(e, ds[1..], i - 1);
      BadWithin(e, LowerDependentSchemas(cfg, ds[1..]), LowerDependentSchemas(cfg, ds));
    }
  }

  lemma {:induction false} OptBad(e: Env, o: Option<Schema>)
    requires OptSkips(e.config, o)
    ensures NeverClean(e, LowerOpt(e.config, o).trees) && !ForkFree(LowerOpt(e.config, o).trees)
    decreases o, 0
  {
    SkipsBad(e, o.value);
    hide HasBad, NeverClean, Lower, ForkFree, Proper;
    BadCode(e, Lower(e.config, o.value));
    OptShape(e.config, o);
    NeverCleanHasForks(e, LowerOpt(e.config, o).trees);
  }

  lemma {:induction false} BranchesBad(e: Env, os: seq<Option<Schema>>)
    requires SomeSkips(e.config, os)
    ensures exists i :: 0 <= i < |os| && NeverClean(e, LowerBranches(e.config, os)[i].trees)
    decreases os, 0
  {
    hide LowerOpt, NeverClean, OptSkips;
    var i :| 0 <= i < |os| && OptSkips(e.config, os[i]);
    OptBad(e, os[i]);
    assert LowerBranches(e.config, os)[i] == LowerOpt(e.config, os[i]);
  }

  lemma {:induction false} ForkBad(e: Env, kind: BranchKind, os: seq<Option<Schema>>)
    requires BranchesSkip(e.config, os)
    ensures HasBad(e, LowerFork(e.config, kind, os))
    decreases os, 1
  {
    var bs := LowerBranches(e.config, os);
    if SomeSkips(e.config, os) { BranchesBad(e, os); }
    hide LowerBranches, Clean, AdmitBefore, SomeSkips;
    var t := Fork(kind, bs);
    assert LowerFork(e.config, kind, os)[0] == t;
    forall v, ok ensures !CleanTree(e, t, v, ok) {
      NotAllClean(e, bs);
    }
    assert NeverCleanTree(e, t);
  }

  lemma NotAllClean(e: Env, bs: seq<Block>)
    ensures (exists i :: 0 <= i < |bs| && NeverClean(e, bs[i].trees)) ==>
      exists i :: 0 <= i < |bs| && forall v, ok :: !Clean(e, bs[i].trees, v, ok)
  {
    hide Clean;
  }

  lemma {:induction false} PickBad(e: Env, os: seq<Option<Schema>>, d: Discriminator)
    requires HasDiscriminator(d) && |os| == |d.mapping| && SomeSkips(e.config, os)
    ensures HasBad(e, LowerPick(e.config, os, d))
    decreases os, 1
  {
    var bs := LowerBranches(e.config, os);
    BranchesBad(e, os);
    hide LowerBranches, Clean, PickBefore, SomeSkips;
    var t := Pick(d.property.value, Keys(d.mapping), bs);
    assert LowerPick(e.config, os, d)[0] == t;
    forall v, ok ensures !CleanTree(e, t, v, ok) {
      NotAllClean(e, bs);
    }
    assert NeverCleanTree(e, t);
  }

  lemma {:induction false} CompositionBad(e: Env, c: Composition, d: Discriminator)
    requires BranchesSkip(e.config, c.allOf) || AlternativesSkip(e.config, c, d) || OptSkips(e.config, c.notSchema)
    ensures HasBad(e, LowerComposition(e.config, c, d))
    decreases c
  {
    var cfg := e.config;
    if OptSkips(cfg, c.notSchema) {
      NotBad(e, c.notSchema);
      CompositionParts(cfg, c, d);
      BadWithin(e, LowerNested(cfg, Negate, c.notSchema), LowerComposition(cfg, c, d));
    } else if BranchesSkip(cfg, c.allOf) {
      ForkBad(e, AllOf, c.allOf);
      CompositionParts(cfg, c, d);
      BadWithin(e, LowerFork(cfg, AllOf, c.allOf), LowerComposition(cfg, c, d));
    } else {
      AlternativesBad(e, c, d);
      CompositionParts(cfg, c, d);
      BadWithin(e, LowerAlternatives(cfg, c, d), LowerComposition(cfg, c, d));
    }
  }

  lemma CompositionParts(cfg: Config, c: Composition, d: Discriminator)
    ensures forall t | t in LowerFork(cfg, AllOf, c.allOf) :: t in LowerComposition(cfg, c, d)
    ensures forall t | t in LowerAlternatives(cfg, c, d) :: t in LowerComposition(cfg, c, d)
    ensures forall t | t in LowerNested(cfg, Negate, c.notSchema) :: t in LowerComposition(cfg, c, d)
  {
    hide LowerFork, LowerAlternatives, LowerNested;
  }

  lemma {:induction false} AlternativesBad(e: Env, c: Composition, d: Discriminator)
    requires AlternativesSkip(e.config, c, d)
    ensures HasBad(e, LowerAlternatives(e.config, c, d))
    decreases c, 0
  {
    hide HasBad, LowerFork, LowerPick, SomeSkips;
    var cfg := e.config;
    if HasDiscriminator(d) {
      if c.oneOf != [] { PickBad(e, c.oneOf, d); } else { PickBad(e, c.anyOf, d); }
    } else if BranchesSkip(cfg, c.anyOf) {
      ForkBad(e, AnyOf, c.anyOf);
      BadWithin(e, LowerFork(cfg, AnyOf, c.anyOf), LowerAlternatives(cfg, c, d));
    } else {
      ForkBad(e, OneOf, c.oneOf);
      BadWithin(e, LowerFork(cfg, OneOf, c.oneOf), LowerAlternatives(cfg, c, d));
    }
  }

  lemma {:induction false} NotBad(e: Env, o: Option<Schema>)
    requires OptSkips(e.config, o)
    ensures HasBad(e, LowerNested(e.config, Negate, o))
    decreases o, 1
  {
    OptBad(e, o);
    hide LowerOpt, Clean, ForkFree;
    var t := Nest(Negate, LowerOpt(e.config, o));
    forall v, ok ensures !CleanTree(e, t, v, ok) {
    }
    assert NeverCleanTree(e, t) && LowerNested(e.config, Negate, o)[0] == t;
  }

  lemma {:induction false} ConditionalBad(e: Env, c: Conditional)
    requires ConditionalSkips(e.config, c)
    ensures HasBad(e, LowerConditional(e.config, c))
    decreases c
  {
    var cfg := e.config;
    if OptSkips(cfg, c.ifSchema) { OptBad(e, c.ifSchema); }
    if OptSkips(cfg, c.thenSchema) { OptBad(e, c.thenSchema); }
    if OptSkips(cfg, c.elseSchema) { OptBad(e, c.elseSchema); }
    hide LowerOpt, Clean, ForkFree, Accepts, SkipsComposition;
    var t := LowerConditional(cfg, c)[0];
    forall v, ok ensures !CleanTree(e, t, v, ok) {
    }
    assert NeverCleanTree(e, t);
  }

  /** What that means for the machine: whatever the value, execution leaves the compiled body before
      its END. */
  lemma SkipsStopEarly(e: Env, s: Schema, c: Code, ip: nat, post: Code, v: Value, ok: bool, mute: bool)
    requires SkipsComposition(e.config, s)
    requires WellCounted(c) && ip <= |c| && c[ip..] == FlatSeq(Lower(e.config, s)) + [End] + post
    ensures Exec(e, c, v, ip, ok, mute).ip < ip + |FlatSeq(Lower(e.config, s))| + 1
  {
    hide SkipsComposition, Lower, FlatSeq, Clean, Exec;
    SkipsNeverClean(e, s);
    CompileCorrect(e, s, c, ip, post, v, ok, mute);
  }

  // ----- which schemas these are -----

  /** A schema that some body of `s`, run whenever `s` is, stands for: under allOf, not, if, then, else or
      dependentSchemas, under anyOf and oneOf without a discriminator, and under the list a discriminator picks from. */
  predicate Alongside(s: Schema, o: Schema) {
    || Some(o) in s.comp.allOf || s.comp.notSchema == Some(o)
    || (s.cond.ifSchema.Some? && Some(o) in [s.cond.ifSchema, s.cond.thenSchema, s.cond.elseSchema])
    || (exists d :: d in s.obj.dependentSchemas && d.schema == Some(o))
    || (if s.disc.property.None? || s.disc.mapping == [] then Some(o) in s.comp.anyOf || Some(o) in s.comp.oneOf
        else
          var os := if s.comp.oneOf != [] then s.comp.oneOf else s.comp.anyOf;
          |os| == |s.disc.mapping| && Some(o) in os)
  }

  /** They hold composition below an array or object keyword, or more than 65535 branches,
      or one of these schemas does. */
  lemma SkipsMeans(cfg: Config, s: Schema)
    requires s.refResolved.None?
    ensures !ArrayFree(cfg, s.arr) ==> SkipsComposition(cfg, s)
    ensures !PropertiesFree(cfg, s.obj.properties) || !CompositionFreeOpt(cfg, s.obj.additional)
        ==> SkipsComposition(cfg, s)
    ensures !CompositionFreeOpt(cfg, s.obj.propertyNames) ==> SkipsComposition(cfg, s)
    ensures !PatternsFree(cfg, s.obj.patternProperties) ==> SkipsComposition(cfg, s)
    ensures |s.comp.allOf| >= 65536 ==> SkipsComposition(cfg, s)
    ensures (s.disc.property.None? || s.disc.mapping == []) && (|s.comp.anyOf| >= 65536 || |s.comp.oneOf| >= 65536) ==>
      SkipsComposition(cfg, s)
    ensures forall o | Alongside(s, o) && SkipsComposition(cfg, o) :: SkipsComposition(cfg, s)
  {
    hide ArrayFree, PropertiesFree, PatternsFree, CompositionFree;
    assert HasDiscriminator(s.disc) <==> s.disc.property.Some? && s.disc.mapping != [];
    assert |s.comp.anyOf| >= 65536 ==> BranchesSkip(cfg, s.comp.anyOf);
    assert |s.comp.oneOf| >= 65536 ==> BranchesSkip(cfg, s.comp.oneOf);
    assert !HasDiscriminator(s.disc) && (|s.comp.anyOf| >= 65536 || |s.comp.oneOf| >= 65536) ==>
      AlternativesSkip(cfg, s.comp, s.disc);
    assert BranchesSkip(cfg, s.comp.allOf) || AlternativesSkip(cfg, s.comp, s.disc) ==> SkipsComposition(cfg, s);
    forall o | Alongside(s, o) && SkipsComposition(cfg, o) ensures SkipsComposition(cfg, s) {
      SkipsAlongside(cfg, s, o);
    }
  }

  lemma SkipsAlongside(cfg: Config, s: Schema, o: Schema)
    requires s.refResolved.None? && Alongside(s, o) && SkipsComposition(cfg, o)
    ensures SkipsComposition(cfg, s)
  {
    hide ArrayFree, MembersFree;
    assert HasDiscriminator(s.disc) <==> s.disc.property.Some? && s.disc.mapping != [];
    if Some(o) in s.comp.allOf {
      SomeOf(cfg, s.comp.allOf, o);
    } else if s.comp.notSchema == Some(o) {
      assert OptSkips(cfg, s.comp.notSchema);
    } else if s.cond.ifSchema.Some? && Some(o) in [s.cond.ifSchema, s.cond.thenSchema, s.cond.elseSchema] {
      assert ConditionalSkips(cfg, s.cond);
    } else if d :| d in s.obj.dependentSchemas && d.schema == Some(o) {
      var i :| 0 <= i < |s.obj.dependentSchemas| && s.obj.dependentSchemas[i] == d;
      assert OptSkips(cfg, s.obj.dependentSchemas[i].schema);
    } else {
      var os := if Some(o) in s.comp.oneOf then s.comp.oneOf else s.comp.anyOf;
      SomeOf(cfg, os, o);
      assert AlternativesSkip(cfg, s.comp, s.disc);
    }
  }

  lemma SomeOf(cfg: Config, os: seq<Option<Schema>>, o: Schema)
    requires Some(o) in os && SkipsComposition(cfg, o)
    ensures SomeSkips(cfg, os)
  {
    hide SkipsComposition;
    var i :| 0 <= i < |os| && os[i] == Some(o);
  }

  /** Arrays of strings or integers are such a schema. */
  lemma StringsOrIntegersSkips(e: Env, v: Value, ok: bool)
    ensures !Clean(e, Lower(e.config, StringsOrIntegers()), v, ok)
  {
    hide Clean, Lower;
    var s := StringsOrIntegers();
    assert !CompositionFree(e.config, s.arr.items.value);
    SkipsNeverClean(e, s);
  }
}
