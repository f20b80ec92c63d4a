/** `compile_schema` as it runs: it appends instructions to a program and patterns to a list. */
module SchemaCompiler {
  import opened Json
  import opened Schemas
  import opened Instructions
  import opened Trees
  import opened Compiler

  /** The pattern an instruction carries a compiled form of. */
  function PatternIn(i: Instr): seq<string> {
    if i.Test? && i.check.CheckPattern? then [i.check.pattern]
    else if i.Open? && i.opener.CheckPatternProps? then [i.opener.pattern]
    else []
  }

  /** All compiled patterns the code points at, in code order. */
  function PatternsOf(c: Code): seq<string> {
    if c == [] then [] else PatternsOf(c[..|c| - 1]) + PatternIn(c[|c| - 1])
  }

  lemma PatternsSnoc(c: Code, i: Instr)
    ensures PatternsOf(c + [i]) == PatternsOf(c) + PatternIn(i)
  {
    assert (c + [i])[..|c|] == c;
  }

  lemma Extend(base: Code, a: seq<Tree>, b: seq<Tree>)
    ensures base + FlatSeq(a) + FlatSeq(b) == base + FlatSeq(a + b)
  {
    FlatSeqConcat(a, b);
    hide FlatSeq;
    assert base + FlatSeq(a) + FlatSeq(b) == base + (FlatSeq(a) + FlatSeq(b));
  }

  lemma FlatOneTree(t: Tree)
    ensures FlatSeq([t]) == Flat(t) && FlatSeq([]) == []
  {
    assert [t][1..] == [];
    assert FlatSeq([t]) == Flat(t) + FlatSeq([]);
  }

  lemma Bracket(base: Code, op: Code, body: Code)
    ensures base + op + body + [End] == base + (op + body + [End])
  {
  }

  lemma Join(base: Code, a: Code, b: Code)
    ensures base + a + b == base + (a + b)
  {
  }

  lemma Snoc<T>(s: seq<T>, i: int)
    requires 0 <= i < |s|
    ensures s[..i + 1] == s[..i] + [s[i]] && s[..|s|] == s
  {
  }

  class CompiledSchema {
    const config: Config
    const program: Program
    var patterns: seq<string>

    /** Every compiled pattern in the code is tracked exactly once, so that all of them are freed. */
    ghost predicate Valid()
      reads this, program, program.code
    {
      program.Valid() && patterns == PatternsOf(program.Contents())
    }

    ghost function Code(): Code
      requires Valid()
      reads this, program, program.code
    {
      program.Contents()
    }

    constructor (cfg: Config)
      ensures Valid() && fresh(program) && fresh(program.code) && config == cfg && Code() == []
    {
      config := cfg;
      program := new Program();
      patterns := [];
    }

    method Append(i: Instr)
      requires Valid() && PatternIn(i) == []
      modifies this, program, program.code
      ensures Valid() && (program.code == old(program.code) || fresh(program.code))
      ensures Code() == old(Code()) + [i]
    {
      PatternsSnoc(program.Contents(), i);
      program.Emit(i);
    }

    /** Compile a pattern, track it, and emit the instruction that uses it. */
    method AppendPattern(pattern: string, i: Instr) returns (ok: bool)
      requires Valid() && PatternIn(i) == [pattern]
      modifies this, program, program.code
      ensures Valid() && (program.code == old(program.code) || fresh(program.code))
      ensures ok == config.compiles(pattern)
      ensures Code() == if ok then old(Code()) + [i] else old(Code())
    {
      ok := config.compiles(pattern);
      if ok {
        PatternsSnoc(program.Contents(), i);
        patterns := patterns + [pattern];
        program.Emit(i);
      }
    }

    method AppendWhen(condition: bool, check: Check)
      requires Valid() && !check.CheckPattern?
      modifies this, program, program.code
      ensures Valid() && (program.code == old(program.code) || fresh(program.code))
      ensures Code() == old(Code()) + FlatSeq(When(condition, check))
    {
      FlatOneTree(Leaf(check));
      if condition {
        Append(Test(check));
      }
    }

    method AppendSome(o: Option<real>, make: real -> Check)
      requires Valid() && (o.Some? ==> !make(o.value).CheckPattern?)
      modifies this, program, program.code
      ensures Valid() && (program.code == old(program.code) || fresh(program.code))
      ensures Code() == old(Code()) + FlatSeq(WhenSome(o, make))
    {
      FlatOneTree(Leaf(if o.Some? then make(o.value) else CheckUnique));
      if o.Some? {
        Append(Test(make(o.value)));
      }
    }

    method AppendNames(names: seq<Option<string>>)
      requires Valid()
      modifies this, program, program.code
      ensures Valid() && (program.code == old(program.code) || fresh(program.code))
      ensures Code() == old(Code()) + NameCode(names)
    {
      hide Valid, Code, PatternsOf, Program.Contents, Program.Valid;
      var i := 0;
      while i < |names|
        invariant 0 <= i <= |names|
        invariant Valid() && (program.code == old(program.code) || fresh(program.code))
        invariant Code() == old(Code()) + NameCode(names)[..i]
      {
        Append(NopName(names[i]));
        Snoc(NameCode(names), i);
        Join(old(Code()), NameCode(names)[..i], [NopName(names[i])]);
        i := i + 1;
      }
    }

    // ----- groups of keywords -----

    method CompilePatternKeyword(o: Option<string>) returns (ok: bool)
      requires Valid()
      modifies this, program, program.code
      ensures Valid() && (program.code == old(program.code) || fresh(program.code))
      ensures ok == (o.Some? && config.hasRegex ==> config.compiles(o.value))
      ensures ok ==> Code() == old(Code()) + FlatSeq(PatternLeaf(config, o))
    {
      hide Valid, Code, PatternsOf, Program.Contents, Program.Valid;
      FlatOneTree(Leaf(if o.Some? then CheckPattern(o.value) else CheckUnique));
      ok := true;
      if o.Some? && config.hasRegex {
        ok := AppendPattern(o.value, Test(CheckPattern(o.value)));
      }
    }

    method CompileString(r: StringRules) returns (ok: bool)
      requires Valid()
      modifies this, program, program.code
      ensures Valid() && (program.code == old(program.code) || fresh(program.code))
      ensures ok == (r.pattern.Some? && config.hasRegex ==> config.compiles(r.pattern.value))
      ensures ok ==> Code() == old(Code()) + FlatSeq(LowerString(config, r))
    {
      hide Valid, Code, PatternsOf, Program.Contents, Program.Valid;
      hide FlatSeq, When, PatternLeaf;
      ghost var base := Code();
      AppendWhen(r.minLength >= 0, CheckMinLen(r.minLength));
      ghost var done := When(r.minLength >= 0, CheckMinLen(r.minLength));
      AppendWhen(r.maxLength >= 0, CheckMaxLen(r.maxLength));
      Extend(base, done, When(r.maxLength >= 0, CheckMaxLen(r.maxLength)));
      done := done + When(r.maxLength >= 0, CheckMaxLen(r.maxLength));
      ok := CompilePatternKeyword(r.pattern);
      if !ok { return; }
      Extend(base, done, PatternLeaf(config, r.pattern));
      done := done + PatternLeaf(config, r.pattern);
      FlatOneTree(Leaf(CheckUnique));
      if r.format.Some? {
        AppendWhen(ChecksFormat(config, r.format.value), CheckFormat(r.format.value));
      }
      Extend(base, done, FormatLeaf(config, r.format));
    }

    method CompileNumber(r: NumberRules)
      requires Valid()
      modifies this, program, program.code
      ensures Valid() && (program.code == old(program.code) || fresh(program.code))
      ensures Code() == old(Code()) + FlatSeq(LowerNumber(r))
    {
      hide Valid, Code, PatternsOf, Program.Contents, Program.Valid;
      hide When, FlatSeq;
      ghost var base := Code();
      var k1, k2, k3, k4, k5 :=
        (x: real) => CheckMinimum(x), (x: real) => CheckMaximum(x), (x: real) => CheckExMinimum(x),
        (x: real) => CheckExMaximum(x), (x: real) => CheckMultipleOf(x);
      AppendSome(r.minimum, k1);
      ghost var done := WhenSome(r.minimum, k1);
      AppendSome(r.maximum, k2);
      Extend(base, done, WhenSome(r.maximum, k2));
      done := done + WhenSome(r.maximum, k2);
      AppendSome(r.exclusiveMinimum, k3);
      Extend(base, done, WhenSome(r.exclusiveMinimum, k3));
      done := done + WhenSome(r.exclusiveMinimum, k3);
      AppendSome(r.exclusiveMaximum, k4);
      Extend(base, done, WhenSome(r.exclusiveMaximum, k4));
      done := done + WhenSome(r.exclusiveMaximum, k4);
      AppendSome(r.multipleOf, k5);
      Extend(base, done, WhenSome(r.multipleOf, k5));
    }

    method CompileAnnotations(s: Schema)
      requires Valid()
      modifies this, program, program.code
      ensures Valid() && (program.code == old(program.code) || fresh(program.code))
      ensures Code() == old(Code()) + FlatSeq(LowerAnnotations(s))
    {
      hide Valid, Code, PatternsOf, Program.Contents, Program.Valid;
      hide When, FlatSeq;
      ghost var base := Code();
      FlatOneTree(Leaf(CheckUnique));
      ghost var a := if s.enumValues.Some? then [Leaf(CheckEnum(s.enumValues.value))] else [];
      ghost var b := if s.constValue.Some? then [Leaf(CheckConst(s.constValue.value))] else [];
      if s.enumValues.Some? {
        FlatOneTree(Leaf(CheckEnum(s.enumValues.value)));
        Append(Test(CheckEnum(s.enumValues.value)));
      }
      assert Code() == base + FlatSeq(a);
      if s.constValue.Some? {
        FlatOneTree(Leaf(CheckConst(s.constValue.value)));
        Append(Test(CheckConst(s.constValue.value)));
      }
      Extend(base, a, b);
      AppendWhen(s.readOnly, CheckReadOnly);
      Extend(base, a + b, When(s.readOnly, CheckReadOnly));
      AppendWhen(s.writeOnly, CheckWriteOnly);
      Extend(base, a + b + When(s.readOnly, CheckReadOnly), When(s.writeOnly, CheckWriteOnly));
    }

    // ----- sub-schemas -----

    /** `compile_schema` on a pointer that may be null. */
    method CompileOpt(o: Option<Schema>) returns (ok: bool)
      requires Valid()
      modifies this, program, program.code
      ensures Valid() && (program.code == old(program.code) || fresh(program.code))
      ensures ok == CompilableOpt(config, o)
      ensures ok ==> Code() == old(Code()) + FlatSeq(LowerOpt(config, o).trees)
      decreases o, 0
    {
      hide Valid, Code, PatternsOf, Program.Contents, Program.Valid;
      ok := true;
      if o.Some? {
        ok := CompileSchema(o.value);
      } else {
        FlatOneTree(Leaf(CheckUnique));
      }
    }

    /** The body behind an opening that has been emitted, and its END. */
    method CompileBody(o: Option<Schema>) returns (ok: bool)
      requires Valid()
      modifies this, program, program.code
      ensures Valid() && (program.code == old(program.code) || fresh(program.code))
      ensures ok == CompilableOpt(config, o)
      ensures ok ==> Code() == old(Code()) + FlatSeq(LowerOpt(config, o).trees) + [End]
      decreases o, 1
    {
      hide Valid, Code, PatternsOf, Program.Contents, Program.Valid;
      hide FlatSeq, LowerOpt, CompilableOpt;
      ok := CompileOpt(o);
      if ok { Append(End); }
    }

    method CompileNested(opener: Opener, o: Option<Schema>) returns (ok: bool)
      requires Valid() && !opener.CheckPatternProps?
      modifies this, program, program.code
      ensures Valid() && (program.code == old(program.code) || fresh(program.code))
      ensures ok == CompilableOpt(config, o)
      ensures ok ==> Code() == old(Code()) + FlatSeq(LowerNested(config, opener, o))
      decreases o, 2
    {
      hide Valid, Code, PatternsOf, Program.Contents, Program.Valid;
      FlatOneTree(Nest(opener, LowerOpt(config, o)));
      ok := true;
      if o.Some? {
        ghost var base := Code();
        Append(Open(opener));
        ok := CompileBody(o);
        ghost var body := FlatSeq(LowerOpt(config, o).trees);
        Bracket(base, [Open(opener)], body);
      }
    }

    method CompileArray(r: ArrayRules) returns (ok: bool)
      requires Valid()
      modifies this, program, program.code
      ensures Valid() && (program.code == old(program.code) || fresh(program.code))
      ensures ok == (AllCompilable(config, r.prefixItems) && CompilableOpt(config, r.items))
      ensures ok ==> Code() == old(Code()) + FlatSeq(LowerArray(config, r))
      decreases r, 0
    {
      hide Valid, Code, PatternsOf, Program.Contents, Program.Valid;
      hide FlatSeq, When, LowerPrefix, LowerNested, AllCompilable, CompilableOpt;
      ghost var base := Code();
      AppendWhen(r.minItems >= 0, CheckMinItems(r.minItems));
      ghost var done := When(r.minItems >= 0, CheckMinItems(r.minItems));
      AppendWhen(r.maxItems >= 0, CheckMaxItems(r.maxItems));
      Extend(base, done, When(r.maxItems >= 0, CheckMaxItems(r.maxItems)));
      done := done + When(r.maxItems >= 0, CheckMaxItems(r.maxItems));
      AppendWhen(r.uniqueItems, CheckUnique);
      Extend(base, done, When(r.uniqueItems, CheckUnique));
      done := done + When(r.uniqueItems, CheckUnique);
      ok := CompilePrefix(r.prefixItems);
      if !ok { return; }
      Extend(base, done, LowerPrefix(config, r.prefixItems));
      done := done + LowerPrefix(config, r.prefixItems);
      ok := CompileNested(EnterItems, r.items);
      Extend(base, done, LowerNested(config, EnterItems, r.items));
    }

    method CompilePrefix(os: seq<Option<Schema>>) returns (ok: bool)
      requires Valid()
      modifies this, program, program.code
      ensures Valid() && (program.code == old(program.code) || fresh(program.code))
      ensures ok == AllCompilable(config, os)
      ensures ok ==> Code() == old(Code()) + FlatSeq(LowerPrefix(config, os))
      decreases os, 0
    {
      hide Valid, Code, PatternsOf, Program.Contents, Program.Valid;
      hide FlatSeq, LowerPrefix, CompilableOpt, LowerOpt;
      ghost var base, ts := Code(), LowerPrefix(config, os);
      FlatOneTree(Leaf(CheckUnique));
      var i := 0;
      while i < |os|
        invariant 0 <= i <= |os|
        invariant Valid() && (program.code == old(program.code) || fresh(program.code))
        invariant forall j | 0 <= j < i :: CompilableOpt(config, os[j])
        invariant Code() == base + FlatSeq(ts[..i])
      {
        ghost var before := Code();
        ghost var body := FlatSeq(LowerOpt(config, os[i]).trees);
        Append(Open(EnterPrefixItem(i % 0x1_0000)));
        ok := CompileBody(os[i]);
        if !ok { return; }
        Bracket(before, [Open(EnterPrefixItem(i % 0x1_0000))], body);
        FlatNest(EnterPrefixItem(i % 0x1_0000), LowerOpt(config, os[i]));
        FlatOneTree(ts[i]);
        Extend(base, ts[..i], [ts[i]]);
        Snoc(ts, i);
        i := i + 1;
      }
      Snoc(ts + [Leaf(CheckUnique)], |ts|);
      assert ts[..|ts|] == ts;
      ok := true;
    }

    method CompileProperties(ps: seq<Property>) returns (ok: bool)
      requires Valid()
      modifies this, program, program.code
      ensures Valid() && (program.code == old(program.code) || fresh(program.code))
      ensures ok == forall i | 0 <= i < |ps| :: Compilable(config, ps[i].schema)
      ensures ok ==> Code() == old(Code()) + FlatSeq(LowerProperties(config, ps))
      decreases ps, 0
    {
      hide Valid, Code, PatternsOf, Program.Contents, Program.Valid;
      hide FlatSeq, LowerProperties, Compilable, Lower;
      ghost var base, ts := Code(), LowerProperties(config, ps);
      FlatOneTree(Leaf(CheckUnique));
      var i := 0;
      while i < |ps|
        invariant 0 <= i <= |ps|
        invariant Valid() && (program.code == old(program.code) || fresh(program.code))
        invariant forall j | 0 <= j < i :: Compilable(config, ps[j].schema)
        invariant Code() == base + FlatSeq(ts[..i])
      {
        ghost var before := Code();
        ghost var body := FlatSeq(Lower(config, ps[i].schema));
        Append(Open(EnterProperty(ps[i].name)));
        ok := CompileSchema(ps[i].schema);
        if !ok { return; }
        Append(End);
        Bracket(before, [Open(EnterProperty(ps[i].name))], body);
        FlatNest(EnterProperty(ps[i].name), Block(Lower(config, ps[i].schema)));
        FlatOneTree(ts[i]);
        Extend(base, ts[..i], [ts[i]]);
        Snoc(ts, i);
        i := i + 1;
      }
      assert ts[..|ts|] == ts;
      ok := true;
    }

    method CompilePatterns(ps: seq<PatternProperty>) returns (ok: bool)
      requires Valid()
      modifies this, program, program.code
      ensures Valid() && (program.code == old(program.code) || fresh(program.code))
      ensures ok == (config.hasRegex ==> forall i | 0 <= i < |ps| :: PatternCompilable(config, ps[i]))
      ensures ok ==> Code() == old(Code()) + FlatSeq(LowerPatterns(config, ps))
      decreases ps, 0
    {
      hide Valid, Code, PatternsOf, Program.Contents, Program.Valid;
      hide FlatSeq, PatternCompilable, LowerPattern;
      ghost var base := Code();
      FlatOneTree(Leaf(CheckUnique));
      var i := 0;
      while i < |ps|
        invariant 0 <= i <= |ps|
        invariant Valid() && (program.code == old(program.code) || fresh(program.code))
        invariant config.hasRegex ==> forall j | 0 <= j < i :: PatternCompilable(config, ps[j])
        invariant Code() == base + FlatSeq(LowerPatterns(config, ps[..i]))
      {
        ok := CompilePattern(ps[i]);
        if !ok { return; }
        Extend(base, LowerPatterns(config, ps[..i]), LowerPattern(config, ps[i]));
        Snoc(ps, i);
        PatternsAppend(config, ps[..i], ps[i]);
        i := i + 1;
      }
      assert ps[..|ps|] == ps;
      ok := true;
    }

    method CompilePattern(p: PatternProperty) returns (ok: bool)
      requires Valid()
      modifies this, program, program.code
      ensures Valid() && (program.code == old(program.code) || fresh(program.code))
      ensures ok == (config.hasRegex ==> PatternCompilable(config, p))
      ensures ok ==> Code() == old(Code()) + FlatSeq(LowerPattern(config, p))
      decreases p, 0
    {
      hide Valid, Code, PatternsOf, Program.Contents, Program.Valid;
      ghost var base := Code();
      ghost var op := Open(CheckPatternProps(p.pattern));
      FlatOneTree(Nest(CheckPatternProps(p.pattern), LowerOpt(config, p.schema)));
      ok := true;
      if p.schema.Some? && config.hasRegex {
        ok := AppendPattern(p.pattern, Open(CheckPatternProps(p.pattern)));
        if !ok { return; }
        ok := CompileBody(p.schema);
        ghost var body := FlatSeq(LowerOpt(config, p.schema).trees);
        Bracket(base, [op], body);
      }
    }

    method CompileDependentRequired(ds: seq<DependentRequired>)
      requires Valid()
      modifies this, program, program.code
      ensures Valid() && (program.code == old(program.code) || fresh(program.code))
      ensures Code() == old(Code()) + FlatSeq(LowerDependentRequired(ds))
    {
      hide Valid, Code, PatternsOf, Program.Contents, Program.Valid;
      hide FlatSeq, LowerDependentRequired;
      ghost var base, ts := Code(), LowerDependentRequired(ds);
      FlatOneTree(Leaf(CheckUnique));
      var i := 0;
      while i < |ds|
        invariant 0 <= i <= |ds|
        invariant Valid() && (program.code == old(program.code) || fresh(program.code))
        invariant Code() == base + FlatSeq(ts[..i])
      {
        ghost var before := Code();
        Append(DepRequired(ds[i].property));
        Append(NopCount(|ds[i].required|));
        AppendNames(ds[i].required);
        ghost var op, n := [DepRequired(ds[i].property)], [NopCount(|ds[i].required|)];
        Join(before, op, n);
        Join(before, op + n, NameCode(ds[i].required));
        FlatNames(ds[i].property, ds[i].required);
        FlatOneTree(ts[i]);
        Extend(base, ts[..i], [ts[i]]);
        Snoc(ts, i);
        i := i + 1;
      }
      assert ts[..|ts|] == ts;
    }

    method CompileRequired(names: seq<string>)
      requires Valid()
      modifies this, program, program.code
      ensures Valid() && (program.code == old(program.code) || fresh(program.code))
      ensures Code() == old(Code()) + FlatSeq(LowerRequired(names))
    {
      hide Valid, Code, PatternsOf, Program.Contents, Program.Valid;
      hide FlatSeq, LowerRequired;
      ghost var base, ts := Code(), LowerRequired(names);
      FlatOneTree(Leaf(CheckUnique));
      var i := 0;
      while i < |names|
        invariant 0 <= i <= |names|
        invariant Valid() && (program.code == old(program.code) || fresh(program.code))
        invariant Code() == base + FlatSeq(ts[..i])
      {
        Append(Test(CheckRequired(names[i])));
        FlatOneTree(ts[i]);
        Extend(base, ts[..i], [ts[i]]);
        Snoc(ts, i);
        i := i + 1;
      }
      assert ts[..|ts|] == ts;
    }

    method CompileDependentSchemas(ds: seq<DependentSchema>) returns (ok: bool)
      requires Valid()
      modifies this, program, program.code
      ensures Valid() && (program.code == old(program.code) || fresh(program.code))
      ensures ok == forall i | 0 <= i < |ds| :: CompilableOpt(config, ds[i].schema)
      ensures ok ==> Code() == old(Code()) + FlatSeq(LowerDependentSchemas(config, ds))
      decreases ds, 0
    {
      hide Valid, Code, PatternsOf, Program.Contents, Program.Valid;
      hide FlatSeq, CompilableOpt, LowerNested;
      ghost var base := Code();
      FlatOneTree(Leaf(CheckUnique));
      var i := 0;
      while i < |ds|
        invariant 0 <= i <= |ds|
        invariant Valid() && (program.code == old(program.code) || fresh(program.code))
        invariant forall j | 0 <= j < i :: CompilableOpt(config, ds[j].schema)
        invariant Code() == base + FlatSeq(LowerDependentSchemas(config, ds[..i]))
      {
        ghost var t := LowerNested(config, CheckDepSchema(ds[i].property), ds[i].schema);
        ok := CompileNested(CheckDepSchema(ds[i].property), ds[i].schema);
        if !ok { return; }
        Extend(base, LowerDependentSchemas(config, ds[..i]), t);
        Snoc(ds, i);
        DependentsAppend(config, ds[..i], ds[i]);
        i := i + 1;
      }
      assert ds[..|ds|] == ds;
      ok := true;
    }

    method CompileMembers(r: ObjectRules) returns (ok: bool)
      requires Valid()
      modifies this, program, program.code
      ensures Valid() && (program.code == old(program.code) || fresh(program.code))
      ensures ok == MembersCompilable(config, r)
      ensures ok ==> Code() == old(Code()) + FlatSeq(LowerMembers(config, r))
      decreases r, 0
    {
      hide Valid, Code, PatternsOf, Program.Contents, Program.Valid;
      hide FlatSeq, When, LowerRequired, LowerProperties, LowerNested, CompilableOpt, Compilable;
      ghost var base := Code();
      CompileRequired(r.required);
      ghost var done := LowerRequired(r.required);
      ok := CompileProperties(r.properties);
      if !ok { return; }
      Extend(base, done, LowerProperties(config, r.properties));
      done := done + LowerProperties(config, r.properties);
      ok := CompileNested(EnterAdditional, r.additional);
      if !ok { return; }
      Extend(base, done, LowerNested(config, EnterAdditional, r.additional));
      done := done + LowerNested(config, EnterAdditional, r.additional);
      AppendWhen(r.minProperties >= 0, CheckMinProps(r.minProperties));
      Extend(base, done, When(r.minProperties >= 0, CheckMinProps(r.minProperties)));
      done := done + When(r.minProperties >= 0, CheckMinProps(r.minProperties));
      AppendWhen(r.maxProperties >= 0, CheckMaxProps(r.maxProperties));
      Extend(base, done, When(r.maxProperties >= 0, CheckMaxProps(r.maxProperties)));
    }

    method CompileObject(r: ObjectRules) returns (ok: bool)
      requires Valid()
      modifies this, program, program.code
      ensures Valid() && (program.code == old(program.code) || fresh(program.code))
      ensures ok == ObjectCompilable(config, r)
      ensures ok ==> Code() == old(Code()) + FlatSeq(LowerObject(config, r))
      decreases r, 1
    {
      hide Valid, Code, PatternsOf, Program.Contents, Program.Valid;
      hide FlatSeq, LowerMembers, LowerNested, LowerPatterns, LowerDependentRequired, LowerDependentSchemas,
           CompilableOpt, MembersCompilable, PatternCompilable, ObjectCompilable;
      ObjectParts(config, r);
      ghost var base := Code();
      ok := CompileMembers(r);
      if !ok { return; }
      ghost var done := LowerMembers(config, r);
      ok := CompileNested(CheckPropNames, r.propertyNames);
      if !ok { return; }
      Extend(base, done, LowerNested(config, CheckPropNames, r.propertyNames));
      done := done + LowerNested(config, CheckPropNames, r.propertyNames);
      ok := CompilePatterns(r.patternProperties);
      if !ok { return; }
      Extend(base, done, LowerPatterns(config, r.patternProperties));
      done := done + LowerPatterns(config, r.patternProperties);
      CompileDependentRequired(r.dependentRequired);
      Extend(base, done, LowerDependentRequired(r.dependentRequired));
      done := done + LowerDependentRequired(r.dependentRequired);
      ok := CompileDependentSchemas(r.dependentSchemas);
      Extend(base, done, LowerDependentSchemas(config, r.dependentSchemas));
    }

    method CompileContains(r: ArrayRules) returns (ok: bool)
      requires Valid()
      modifies this, program, program.code
      ensures Valid() && (program.code == old(program.code) || fresh(program.code))
      ensures ok == CompilableOpt(config, r.contains)
      ensures ok ==> Code() == old(Code()) + FlatSeq(LowerContains(config, r))
      decreases r, 0
    {
      hide Valid, Code, PatternsOf, Program.Contents, Program.Valid;
      var min := if r.minContains >= 0 then r.minContains else 1;
      FlatOneTree(Quota(min, r.maxContains, LowerOpt(config, r.contains)));
      ok := true;
      if r.contains.Some? {
        ghost var base := Code();
        Append(Contains(min));
        Append(NopCount(r.maxContains));
        ok := CompileBody(r.contains);
        ghost var body := FlatSeq(LowerOpt(config, r.contains).trees);
        Join(base, [Contains(min)], [NopCount(r.maxContains)]);
        Bracket(base, [Contains(min)] + [NopCount(r.maxContains)], body);
        FlatQuota(min, r.maxContains, LowerOpt(config, r.contains));
      }
    }

    // ----- composition -----

    /** Consecutive bodies, each with its END. */
    method CompileBranches(os: seq<Option<Schema>>) returns (ok: bool)
      requires Valid()
      modifies this, program, program.code
      ensures Valid() && (program.code == old(program.code) || fresh(program.code))
      ensures ok == AllCompilable(config, os)
      ensures ok ==> Code() == old(Code()) + FlatBodies(LowerBranches(config, os))
      decreases os, 0
    {
      hide Valid, Code, PatternsOf, Program.Contents, Program.Valid;
      hide FlatSeq, CompilableOpt, LowerOpt, LowerBranches;
      ghost var base, bs := Code(), LowerBranches(config, os);
      var i := 0;
      while i < |os|
        invariant 0 <= i <= |os|
        invariant Valid() && (program.code == old(program.code) || fresh(program.code))
        invariant forall j | 0 <= j < i :: CompilableOpt(config, os[j])
        invariant Code() == base + FlatBodies(bs[..i])
      {
        ok := CompileBody(os[i]);
        if !ok { return; }
        ExtendBodies(base, bs[..i], bs[i]);
        Snoc(bs, i);
        i := i + 1;
      }
      assert bs[..|bs|] == bs;
      ok := true;
    }

    /** `compile_composition`; nothing is emitted for an absent list. */
    method CompileFork(kind: BranchKind, os: seq<Option<Schema>>) returns (ok: bool)
      requires Valid()
      modifies this, program, program.code
      ensures Valid() && (program.code == old(program.code) || fresh(program.code))
      ensures ok == AllCompilable(config, os)
      ensures ok ==> Code() == old(Code()) + FlatSeq(LowerFork(config, kind, os))
      decreases os, 1
    {
      hide Valid, Code, PatternsOf, Program.Contents, Program.Valid;
      hide AllCompilable, LowerBranches, FlatBodies;
      ghost var base, bs := Code(), LowerBranches(config, os);
      FlatOneTree(Fork(kind, bs));
      ok := true;
      if os != [] {
        Append(Branch(kind, |os| % 0x1_0000));
        ok := CompileBranches(os);
        Join(base, [Branch(kind, |os| % 0x1_0000)], FlatBodies(bs));
      } else {
        AllOfNone(config, os);
      }
    }

    method CompilePick(os: seq<Option<Schema>>, d: Discriminator) returns (ok: bool)
      requires Valid() && d.property.Some?
      modifies this, program, program.code
      ensures Valid() && (program.code == old(program.code) || fresh(program.code))
      ensures ok == (|os| == |d.mapping| ==> AllCompilable(config, os))
      ensures ok ==> Code() == old(Code()) + FlatSeq(LowerPick(config, os, d))
      decreases os, 1
    {
      hide Valid, Code, PatternsOf, Program.Contents, Program.Valid;
      hide AllCompilable, LowerBranches, FlatBodies, NameCode;
      ghost var base, bs := Code(), LowerBranches(config, os);
      var keys := Keys(d.mapping);
      FlatOneTree(Pick(d.property.value, keys, bs));
      ok := true;
      if |os| == |d.mapping| {
        Append(Dispatch(d.property.value));
        Append(NopCount(|d.mapping|));
        AppendNames(keys);
        ok := CompileBranches(os);
        ghost var op, n := [Dispatch(d.property.value)], [NopCount(|keys|)];
        Join(base, op, n);
        Join(base, op + n, NameCode(keys));
        Join(base, op + n + NameCode(keys), FlatBodies(bs));
        FlatPick(d.property.value, keys, bs);
      }
    }

    method CompileAlternatives(c: Composition, d: Discriminator) returns (ok: bool)
      requires Valid()
      modifies this, program, program.code
      ensures Valid() && (program.code == old(program.code) || fresh(program.code))
      ensures ok == AlternativesCompilable(config, c, d)
      ensures ok ==> Code() == old(Code()) + FlatSeq(LowerAlternatives(config, c, d))
      decreases c, 0
    {
      hide Valid, Code, PatternsOf, Program.Contents, Program.Valid;
      hide AllCompilable, LowerPick, LowerFork, FlatSeq;
      ghost var base := Code();
      FlatOneTree(Leaf(CheckUnique));
      ok := true;
      if HasDiscriminator(d) {
        if c.oneOf != [] {
          ok := CompilePick(c.oneOf, d);
        } else if c.anyOf != [] {
          ok := CompilePick(c.anyOf, d);
        }
      } else {
        ok := CompileFork(AnyOf, c.anyOf);
        if !ok { return; }
        ok := CompileFork(OneOf, c.oneOf);
        Extend(base, LowerFork(config, AnyOf, c.anyOf), LowerFork(config, OneOf, c.oneOf));
      }
    }

    method CompileComposition(c: Composition, d: Discriminator) returns (ok: bool)
      requires Valid()
      modifies this, program, program.code
      ensures Valid() && (program.code == old(program.code) || fresh(program.code))
      ensures ok == CompositionCompilable(config, c, d)
      ensures ok ==> Code() == old(Code()) + FlatSeq(LowerComposition(config, c, d))
      decreases c, 1
    {
      hide Valid, Code, PatternsOf, Program.Contents, Program.Valid;
      hide AllCompilable, CompilableOpt, LowerAlternatives, LowerFork, LowerNested, FlatSeq;
      ghost var base := Code();
      ok := CompileFork(AllOf, c.allOf);
      if !ok { return; }
      ok := CompileAlternatives(c, d);
      if !ok { return; }
      ghost var done := LowerFork(config, AllOf, c.allOf);
      Extend(base, done, LowerAlternatives(config, c, d));
      ok := CompileNested(Negate, c.notSchema);
      Extend(base, done + LowerAlternatives(config, c, d), LowerNested(config, Negate, c.notSchema));
    }

    /** `compile_conditional_part`. */
    method CompileArm(opener: Opener, o: Option<Schema>) returns (ok: bool)
      requires Valid() && !opener.CheckPatternProps?
      modifies this, program, program.code
      ensures Valid() && (program.code == old(program.code) || fresh(program.code))
      ensures ok == CompilableOpt(config, o)
      ensures ok ==> Code() == old(Code()) + ArmCode(config, opener, o)
      decreases o, 2
    {
      hide Valid, Code, PatternsOf, Program.Contents, Program.Valid;
      ok := true;
      if o.Some? {
        ghost var base := Code();
        Append(Open(opener));
        ok := CompileBody(o);
        ghost var body := FlatSeq(LowerOpt(config, o).trees);
        Bracket(base, [Open(opener)], body);
      }
    }

    method CompileConditional(c: Conditional) returns (ok: bool)
      requires Valid()
      modifies this, program, program.code
      ensures Valid() && (program.code == old(program.code) || fresh(program.code))
      ensures ok == ConditionalCompilable(config, c)
      ensures ok ==> Code() == old(Code()) + FlatSeq(LowerConditional(config, c))
      decreases c, 0
    {
      hide Valid, Code, PatternsOf, Program.Contents, Program.Valid;
      hide CompilableOpt, ArmCode, FlatSeq;
      ghost var base := Code();
      ConditionalCode(config, c);
      ok := true;
      if c.ifSchema.Some? {
        ok := CompileArm(CondIf, c.ifSchema);
        if !ok { return; }
        ok := CompileArm(CondThen, c.thenSchema);
        if !ok { return; }
        ok := CompileArm(CondElse, c.elseSchema);
        ghost var x, y, z := ArmCode(config, CondIf, c.ifSchema), ArmCode(config, CondThen, c.thenSchema),
            ArmCode(config, CondElse, c.elseSchema);
        Join(base, x, y);
        Join(base, x + y, z);
      }
    }

    // ----- whole schemas -----

    /** The keywords in front of the object keywords. */
    method CompileValue(s: Schema) returns (ok: bool)
      requires Valid()
      modifies this, program, program.code
      ensures Valid() && (program.code == old(program.code) || fresh(program.code))
      ensures ok == ValueCompilable(config, s)
      ensures ok ==> Code() == old(Code()) + FlatSeq(LowerValue(config, s))
      decreases s, 0
    {
      hide Valid, Code, PatternsOf, Program.Contents, Program.Valid;
      hide FlatSeq, When, LowerString, LowerNumber, LowerArray, AllCompilable, CompilableOpt, EffectiveMask;
      ghost var base := Code();
      AppendWhen(EffectiveMask(s) != 0, CheckType(EffectiveMask(s)));
      ghost var done := When(EffectiveMask(s) != 0, CheckType(EffectiveMask(s)));
      ok := CompileString(s.str);
      if !ok { return; }
      Extend(base, done, LowerString(config, s.str));
      done := done + LowerString(config, s.str);
      CompileNumber(s.num);
      Extend(base, done, LowerNumber(s.num));
      done := done + LowerNumber(s.num);
      ok := CompileArray(s.arr);
      Extend(base, done, LowerArray(config, s.arr));
    }

    /** `compile_schema`: fails exactly on schemas that are not compilable, and otherwise appends the
        flat form of the structured program. */
    method CompileSchema(s: Schema) returns (ok: bool)
      requires Valid()
      modifies this, program, program.code
      ensures Valid() && (program.code == old(program.code) || fresh(program.code))
      ensures ok == Compilable(config, s)
      ensures ok ==> Code() == old(Code()) + FlatSeq(Lower(config, s))
      decreases s, 1
    {
      hide Valid, Code, PatternsOf, Program.Contents, Program.Valid;
      hide FlatSeq, LowerValue, LowerObject, LowerContains, LowerComposition, LowerConditional, LowerAnnotations,
           Compilable, ValueCompilable, ObjectCompilable, CompositionCompilable, ConditionalCompilable, CompilableOpt;
      SchemaParts(config, s);
      if s.refResolved.Some? {
        ok := CompileSchema(s.refResolved.value);
        return;
      }
      if s.ref.Some? { return false; }
      ghost var base := Code();
      ok := CompileValue(s);
      if !ok { return; }
      ghost var done := LowerValue(config, s);
      ok := CompileObject(s.obj);
      if !ok { return; }
      Extend(base, done, LowerObject(config, s.obj));
      done := done + LowerObject(config, s.obj);
      ok := CompileContains(s.arr);
      if !ok { return; }
      Extend(base, done, LowerContains(config, s.arr));
      done := done + LowerContains(config, s.arr);
      ok := CompileComposition(s.comp, s.disc);
      if !ok { return; }
      Extend(base, done, LowerComposition(config, s.comp, s.disc));
      done := done + LowerComposition(config, s.comp, s.disc);
      ok := CompileConditional(s.cond);
      if !ok { return; }
      Extend(base, done, LowerConditional(config, s.cond));
      done := done + LowerConditional(config, s.cond);
      CompileAnnotations(s);
      Extend(base, done, LowerAnnotations(s));
    }
  }

  /** `oas_schema_compile`: null exactly when the schema is not compilable. */
  method Compile(cfg: Config, s: Schema) returns (r: CompiledSchema?)
    ensures r != null <==> Compilable(cfg, s)
    ensures r != null ==> fresh(r) && r.Valid() && r.config == cfg && r.Code() == ProgramOf(cfg, s)
    ensures r != null ==> r.patterns == PatternsOf(ProgramOf(cfg, s))
  {
    hide FlatSeq, Lower, Compilable;
    var cs := new CompiledSchema(cfg);
    var ok := cs.CompileSchema(s);
    if !ok { return null; }
    cs.Append(End);
    r := cs;
    assert [] + FlatSeq(Lower(cfg, s)) == FlatSeq(Lower(cfg, s));
  }

  // ----- laws the methods use -----

  lemma FlatNest(opener: Opener, b: Block)
    ensures Flat(Nest(opener, b)) == [Open(opener)] + FlatSeq(b.trees) + [End]
  {
  }

  lemma FlatNames(trigger: string, names: seq<Option<string>>)
    ensures Flat(Names(trigger, names)) == [DepRequired(trigger)] + [NopCount(|names|)] + NameCode(names)
  {
    assert [DepRequired(trigger)] + [NopCount(|names|)] == [DepRequired(trigger), NopCount(|names|)];
  }

  lemma FlatQuota(min: int, max: int, b: Block)
    ensures Flat(Quota(min, max, b)) == [Contains(min)] + [NopCount(max)] + FlatSeq(b.trees) + [End]
  {
    assert [Contains(min)] + [NopCount(max)] == [Contains(min), NopCount(max)];
  }

  lemma FlatPick(property: string, keys: seq<Option<string>>, bs: seq<Block>)
    ensures Flat(Pick(property, keys, bs))
         == [Dispatch(property)] + [NopCount(|keys|)] + NameCode(keys) + FlatBodies(bs)
  {
    assert [Dispatch(property)] + [NopCount(|keys|)] == [Dispatch(property), NopCount(|keys|)];
  }

  lemma ExtendBodies(base: Code, bs: seq<Block>, b: Block)
    ensures base + FlatBodies(bs) + FlatSeq(b.trees) + [End] == base + FlatBodies(bs + [b])
  {
    FlatBodiesConcat(bs, [b]);
    assert [b][1..] == [];
    assert FlatBodies([b]) == FlatSeq(b.trees) + [End] + FlatBodies([]);
    hide FlatSeq;
    assert base + FlatBodies(bs) + FlatSeq(b.trees) + [End] == base + (FlatBodies(bs) + (FlatSeq(b.trees) + [End]));
  }

  lemma AllOfNone(cfg: Config, os: seq<Option<Schema>>)
    requires os == []
    ensures AllCompilable(cfg, os)
  {
  }

  lemma {:induction false} PatternsAppend(cfg: Config, ps: seq<PatternProperty>, p: PatternProperty)
    ensures LowerPatterns(cfg, ps + [p]) == LowerPatterns(cfg, ps) + LowerPattern(cfg, p)
  {
    hide LowerPattern;
    if ps == [] {
      assert (ps + [p])[1..] == [];
    } else {
      PatternsAppend(cfg, ps[1..], p);
      assert (ps + [p])[1..] == ps[1..] + [p];
    }
  }

  lemma {:induction false} DependentsAppend(cfg: Config, ds: seq<DependentSchema>, d: DependentSchema)
    ensures LowerDependentSchemas(cfg, ds + [d])
         == LowerDependentSchemas(cfg, ds) + LowerNested(cfg, CheckDepSchema(d.property), d.schema)
  {
    hide LowerNested;
    if ds == [] {
      assert (ds + [d])[1..] == [];
    } else {
      DependentsAppend(cfg, ds[1..], d);
      assert (ds + [d])[1..] == ds[1..] + [d];
    }
  }

  function ArmCode(cfg: Config, opener: Opener, o: Option<Schema>): Code {
    if o.Some? then [Open(opener)] + FlatSeq(LowerOpt(cfg, o).trees) + [End] else []
  }

  lemma ConditionalCode(cfg: Config, c: Conditional)
    ensures c.ifSchema.Some? ==>
      FlatSeq(LowerConditional(cfg, c)) ==
        ArmCode(cfg, CondIf, c.ifSchema) + ArmCode(cfg, CondThen, c.thenSchema) + ArmCode(cfg, CondElse, c.elseSchema)
    ensures c.ifSchema.None? ==> FlatSeq(LowerConditional(cfg, c)) == []
  {
    hide LowerOpt;
    if c.ifSchema.Some? { FlatOneTree(LowerConditional(cfg, c)[0]); }
  }

  predicate ValueCompilable(cfg: Config, s: Schema) {
    && (s.str.pattern.Some? && cfg.hasRegex ==> cfg.compiles(s.str.pattern.value))
    && AllCompilable(cfg, s.arr.prefixItems) && CompilableOpt(cfg, s.arr.items)
  }

  predicate MembersCompilable(cfg: Config, r: ObjectRules) {
    && (forall i | 0 <= i < |r.properties| :: Compilable(cfg, r.properties[i].schema))
    && CompilableOpt(cfg, r.additional)
  }

  lemma SchemaParts(cfg: Config, s: Schema)
    ensures s.refResolved.Some? ==> (Compilable(cfg, s) <==> Compilable(cfg, s.refResolved.value))
    ensures s.refResolved.None? ==>
      (Compilable(cfg, s) <==>
         && s.ref.None? && ValueCompilable(cfg, s) && ObjectCompilable(cfg, s.obj) && CompilableOpt(cfg, s.arr.contains)
         && CompositionCompilable(cfg, s.comp, s.disc) && ConditionalCompilable(cfg, s.cond))
  {
  }

  lemma ObjectParts(cfg: Config, r: ObjectRules)
    ensures ObjectCompilable(cfg, r) <==>
      && MembersCompilable(cfg, r) && CompilableOpt(cfg, r.propertyNames)
      && (cfg.hasRegex ==> forall i | 0 <= i < |r.patternProperties| :: PatternCompilable(cfg, r.patternProperties[i]))
      && (forall i | 0 <= i < |r.dependentSchemas| :: CompilableOpt(cfg, r.dependentSchemas[i].schema))
  {
  }
}
