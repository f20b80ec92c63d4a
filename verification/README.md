# Verification model of liboas

liboas reads OpenAPI documents, compiles their JSON Schemas to a flat instruction array and validates
JSON values with a small virtual machine. This project models the parts of the library where something
can go subtly wrong, in Dafny 4.11, and proves what they do. `dafny verify dfyconfig.toml` checks all
of it; nothing here is meant to be run.

## What is modelled

**Compiler and machine.** `Schema.dfy` holds the schema tree and its meaning (`Satisfies`), following
sections 10.2 and 10.3 of draft-bhutton-json-schema (2020-12) except where the code does otherwise: a
resolved `$ref` hides its siblings, `items` covers the elements that `prefixItems` covers, positions
and branch counts are taken modulo 2^16, `additionalProperties` demands nothing, and a discriminator
is positional. `Compiler.dfy` gives the structured program of a schema and `Tree.dfy` its flat code;
`Machine.dfy` is the machine as a function. `SchemaCompiler.dfy` and `Vm.dfy` are the imperative
compiler and machine - classes with a doubling array, a moving `ip`, state copies and a shared error
list - proved against those functions. The theorems are in `Correctness.dfy`. `skip_to_end` does not
count the several ENDs owned by a composition or a discriminator, so the compiler is not correct for
every schema. The theorem has an if-and-only-if about where a run stops: just behind the compiled body
exactly if the run is clean (`Clean`). About the verdict it says one thing only: where the run stops
there, the verdict decides the schema; a run that stops earlier may still have the right verdict, by
accident. Runs are always clean in the fragment without composition below a skipped body
(`Fragment.dfy`), and never clean with composition below a body that the machine skips in every case
(`Skipped.dfy`); in between it depends on the value. `KeywordMeaning.dfy` says what `Satisfies` is once more,
keyword by keyword and without the functions that the compiler and the machine are built from, and `Report.dfy`
which errors are reported and in which order.

In memory schemas may link into cycles, while the trees of `Schema.dfy` are finite. `SchemaGraph.dfy`
models schemas as numbered nodes and the compiler's recursion over them, in the order of the code and
with its early returns: when it ends at all. `Unfolding.dfy` shows that where it does it compiles the
tree that the node unfolds to, which is what the other theorems are about.

**Printer and parser.** `Keywords.dfy`, `TypeNames.dfy`, `Printer.dfy`, `SchemaParser.dfy`: the two
directions between schemas and JSON trees. `RoundTrip.dfy` says exactly what a round trip makes of any
schema, `Reversal.dfy` that it is the reversal of the property lists exactly on the normal form, and
`RoundTripMeaning.dfy` when the schema accepts the same values afterwards. `ParsedForm.dfy` reads off
any JSON document what the parser makes of it, so these results hold for documents too: for those whose
`required` lists hold only strings (`RequiredGiven`), since for any other entry the code leaves a cell
unwritten. `Reading.dfy` says what the parser reads for each keyword, under its literal name. `NullName.dfy`
holds two documents that change what they accept.

**Data structures.** `RefCache.dfy` (open addressing against a bounded map), `Intern.dfy` (chained
hashing against canonical addresses), `Arena.dfy` (bump allocation against disjoint aligned regions, in
64-bit arithmetic that wraps), with the bit masks they use in `Bits.dfy`.

**Matching and decoding.** `PathMatch.dfy`, with what it means for templates as they are written in `Route.dfy`,
`JsonPointer.dfy`, `Query.dfy`, `Format.dfy`, `Utf8.dfy`,
with string cutting in `Text.dfy`.

**References and defaults.** `RefChain.dfy` and `Defaults.dfy`.

One `char` of a string stands for one byte. Regular expressions, format checkers inside validation,
deep equality of JSON values and the floating-point remainder test are parameters shared by both sides
of a theorem.

## Where the code and its promises part

- A skipped body that contains allOf, anyOf, oneOf or a discriminator is left too early
  (`SkipCorrect`, `SkippedForkRejects`).
- Sub-runs start with the verdict so far, so once something has failed, anyOf, oneOf and contains report an error
  although they are satisfied (`ReportedAnyway`), and propertyNames reports every name behind the first bad one
  (`GoodNameReported`). The verdict is not affected.
- docs/en/04-schema-compiler.md:186 says that ENTER_ADDITIONAL validates additional properties; the machine
  only skips its body.
- Mutually recursive components link into a cycle of resolved references, on which compilation does
  not end (`MutualNeverEnds`).
- "Double slashes are rejected" does not hold for two slashes at the end of a request path
  (`DoubleSlashAtEnd`); a template made of slashes only is accepted as the root.
- The boolean form of additionalProperties comes back negated from a round trip
  (`BooleanAdditionalNegated`); counts below -1 and mappings without a propertyName are lost
  (`NegativeCount`, `NamelessMapping`), and so are null branches, which can change what a schema
  accepts (`NullBranchLost`).
- A name in dependentRequired that is no string is a null pointer, which is missing from every object, and
  the printer prints nothing for it: `{"dependentRequired": {"a": [5]}}` rejects {"a": 1} before a round trip
  and accepts it afterwards (`NumberRequiredLost`). A mapping target that is no string counts while the
  discriminator is compiled and is not printed: `{"oneOf": [{}], "discriminator": {"propertyName": "t",
  "mapping": {"a": 5}}}` rejects 7 before and accepts it afterwards (`NumberTargetLost`).
- A request whose size and offset add up to 2^64 or more can pass the arena's room test, and then its
  region does not lie inside the block (`WrappedRequest`).
- Filling defaults twice can add more than filling them once (`DefaultsKeepGrowing`).

## Model

| member | source | states |
|---|---|---|
| `Correctness.CompileCorrect` | src/compiler/oas_compiler.c:136-582 | For every schema, value, direction, verdict so far and surrounding code: execution from the start of the compiled body never passes its END; it stops just behind that END if and only if no skip on the way goes wrong (`Clean`); and where it stops there, the verdict is the earlier verdict and "the value satisfies the schema" |
| `Correctness.SkipCorrect` | src/validator/oas_validator.c:117-138 | `skip_to_end` entered at the start of a compiled body stops just behind its END if and only if no allOf, anyOf, oneOf or discriminator is compiled for the schema, at any depth; otherwise strictly earlier |
| `Correctness.ValidationCorrect` | src/validator/oas_validator.c:800-833 | A whole compiled program, run cleanly, is consumed to its last instruction and its verdict decides the schema |
| `Correctness.FragmentCorrect` | src/validator/oas_validator.c:140-786 | With no composition below items, prefixItems, properties, additionalProperties, propertyNames, patternProperties, dependentSchemas, contains, then and else, every run on every value decides the schema |
| `Correctness.VerdictIsReported` | src/validator/oas_validator.c:100-113 | A run that starts valid ends invalid exactly when it appended an error; without an error list the verdict and the final position are the same and nothing is reported |
| `Reports.ChecksReport` | src/validator/oas_validator.c:100-308 | Checks one behind the other: one error for each that fails, in the order of the code, also after the first; the verdict drops exactly if there is one |
| `Reports.ItemsReport` | src/validator/oas_validator.c:310-330 | items over checks: the failing checks of the first element, then those of the second, and so on; the run goes on behind the END |
| `Reports.RunAllReports` | src/validator/oas_validator.c:375-386 | allOf over checks: the failing checks of each body in turn |
| `Reports.PropertyNamesReport` | src/validator/oas_validator.c:522-564 | propertyNames over checks: for each name its failing checks, and an error of its own for every name from the first bad one on |
| `Reports.GoodNameReported` | src/validator/oas_validator.c:546-553 | With names of at most one character, "b" is reported behind "aa" |
| `Reports.ReportedAnyway` | src/validator/oas_validator.c:388-432 | Once the verdict has dropped, anyOf and oneOf report exactly one error whatever the value, and contains at least one on every array unless it asks for no element |
| `Correctness.ProgramWellCounted` | src/compiler/oas_compiler.c:95-113 | Every inline count the compiler emits stays inside the code behind it |
| `Correctness.SkippedForkRejects` | src/validator/oas_validator.c:310-330 | `items: {anyOf: [{type: string}, {type: integer}]}` accepts ["a"] by its meaning, yet the run over the compiled program rejects it: the skip stops inside the anyOf |
| `Correctness.StringsOrIntegersCode` | src/compiler/oas_compiler.c:99-113 | The code compiled for that schema, instruction by instruction |
| `Correctness.SkippedForkRun` | src/validator/oas_validator.c:310-330 | The run over that code rejects every array |
| `SchemaGraph.CompilationEnds` | src/compiler/oas_compiler.c:136-582 | Schemas as nodes that refer to each other by number, compiled with room for any number of nested calls, in the order of the code and with its early returns: some room suffices if and only if the compiler never enters a schema that it is still compiling. A walk that always ends decides that and gives the result, and then no more calls are nested than there are schemas |
| `SchemaGraph.EndsWithoutCycle` | src/compiler/oas_compiler.c:136-582 | The same in terms of paths: compilation ends if and only if no chain of calls, each reached before any failure, comes back to one of its schemas. What is not descended into (then and else without if, branches that do not match the mapping, pattern properties without a regex backend) does not count |
| `SchemaGraph.EndsWithoutLinkCycle` | src/compiler/oas_compiler.c:136-582 | What a caller can check on the links alone: where the calls listed for the schemas, reached or not, lead from a schema back to none they have passed, its compilation ends, with no more calls nested than there are schemas |
| `SchemaGraph.OrderedEnds` | src/compiler/oas_compiler.c:136-582 | So schemas that only lead to later ones compile |
| `SchemaGraph.GuardedAgrees` | src/compiler/oas_compiler.c:136-582 | Where that walk ends, the compiler ends with the same result |
| `SchemaGraph.Stuck` | src/compiler/oas_compiler.c:136-582 | Where it does not, the compiler has no result however much room there is |
| `SchemaGraph.MoreFuel` | src/compiler/oas_compiler.c:136-582 | More room does not change a result |
| `SchemaGraph.FailureComesFirst` | src/compiler/oas_compiler.c:181-190 | A schema with a property that refers back to it and a pattern the backend rejects: compilation fails, and the cycle is not entered |
| `Unfolding.CompileIsTree` | src/compiler/oas_compiler.c:136-582 | Where compiling a node ends, it fails exactly if the tree it unfolds to is not compilable (`Compilable`), and otherwise emits the code of that tree, which is what `CompileSchema` appends |
| `Unfolding.CompiledTree` | src/compiler/oas_compiler.c:136-582 | Unless it runs into a cycle, as many levels of unfolding as there are schemas suffice, and more make no difference |
| `Unfolding.NodePart` | src/compiler/oas_compiler.c:136-582 | Keyword by keyword: the steps taken for one node have the result of the tree compiler, whatever its links lead to |
| `SchemaGraph.MutualNeverEnds` | tests/unit/test_doc_ref_integration.c:168-205 | Components A and B that are references to each other, linked into a cycle: compiling either one has no result however much room there is |
| `SchemaGraph.MutualClosed` | tests/unit/test_doc_ref_integration.c:168-205 | These two are linked to each other and to nothing else |
| `Lowering.LowerMeans` | src/compiler/oas_compiler.c:136-582 | The structured program of a schema accepts exactly the values that satisfy the schema |
| `KeywordMeanings.MeaningIs` | src/compiler/oas_compiler.c:136-582 | What satisfying a schema means, on the value itself: types by the bits of the mask, an integer compared as the real number it is, texts by the bytes that do not continue a character, members by the first one called by the name in front of its first NUL, the format condition in the two fields of the configuration, and so on for every keyword; a resolved reference hides the rest |
| `KeywordMeanings.NothingAsked` | src/model/oas_schema.c:6-27 | A fresh schema node accepts everything |
| `KeywordMeanings.IntegerChecks` | src/validator/oas_validator.c:209-271 | The five numeric opcodes on an integer: compared with the bound as the real number it is |
| `KeywordMeanings.NumberChecks` | src/validator/oas_validator.c:209-271 | The same on every value: integers, reals, and anything else, which passes |
| `KeywordMeanings.NumbersOnly` | src/compiler/oas_compiler.c:215-243 | A schema with nothing but numeric keywords accepts exactly what lies within its bounds, and everything that is no number |
| `KeywordMeanings.MinimumOnly` | src/compiler/oas_compiler.c:215-219 | A schema with nothing but a minimum of x accepts an integer or a real exactly from x on |
| `KeywordMeanings.FormatCompiled` | src/compiler/oas_compiler.c:203-212 | A format check is compiled for a format if and only if it is the one given, formats are checked, and it has a checker |
| `KeywordMeanings.FormatOnlyCode` | src/compiler/oas_compiler.c:203-212 | The code of a schema with nothing but a format: one check under that condition, and nothing otherwise |
| `KeywordMeanings.FormatOnlyMeans` | src/compiler/oas_compiler.c:203-212 | A text satisfies such a schema if and only if that condition implies that the checker accepts it |
| `Lowering.ArrayMeans` | src/compiler/oas_compiler.c:245-291 | The same for prefixItems, items and the size limits |
| `Lowering.ObjectMeans` | src/compiler/oas_compiler.c:293-425 | The same for the object keywords; additionalProperties demands nothing |
| `Lowering.ContainsMeans` | src/compiler/oas_compiler.c:427-454 | The same for contains with minContains (1 when unset) and maxContains |
| `Lowering.CompositionMeans` | src/compiler/oas_compiler.c:456-535 | The same for allOf, anyOf, oneOf, not and the positional discriminator |
| `Lowering.ConditionalMeans` | src/compiler/oas_compiler.c:537-552 | The same for if, then and else |
| `Fragment.LowerShape` | src/compiler/oas_compiler.c:136-582 | The program of a schema is properly shaped, and free of composition exactly when the schema is |
| `Fragment.FragmentIsClean` | src/compiler/oas_compiler.c:136-582 | Inside the fragment no skip can go wrong, whatever the value |
| `Fragment.FreeInFragment` | src/validator/oas_validator.c:117-138 | Every schema without composition is inside the fragment |
| `Fragment.ComposedInFragment` | src/validator/oas_validator.c:375-446 | So is one with fewer than 65536 schemas of the fragment under allOf, anyOf and oneOf each, and one under not |
| `Skipped.SkipsNeverClean` | src/validator/oas_validator.c:117-138 | The converse: with composition below items, prefixItems, properties, additionalProperties, propertyNames, patternProperties or contains, in the schema itself or in one it holds by reference, allOf, anyOf, oneOf, not, if, then, else or dependentSchemas, no run is clean, for any value and any verdict to start with |
| `Skipped.SkipsStopEarly` | src/validator/oas_validator.c:310-330 | So every run over such a schema leaves its body before the END |
| `Skipped.SkipsMeans` | src/validator/oas_validator.c:117-138 | Which schemas these are: with composition below an array keyword or one of the object keywords other than dependentSchemas, with more than 65535 branches, or with one of these under allOf, not, if, then, else or dependentSchemas, or under the anyOf and oneOf that are in force |
| `Skipped.StringsOrIntegersSkips` | src/validator/oas_validator.c:310-330 | Arrays of strings or integers are such a schema: no run over its code is clean |
| `Meanings.ForkFreeIsClean` | src/validator/oas_validator.c:117-138 | Code without composition is never skipped wrongly |
| `Machine.SkipFrom` | src/validator/oas_validator.c:126-138 | The skip only moves forward and stays inside the code |
| `Machine.Exec` | src/validator/oas_validator.c:140-786 | The instruction pointer never moves backwards, every sub-run starts behind the instruction that launched it (the measure end - ip), a verdict never recovers, and with an error list it is invalid exactly when something was reported |
| `Machine.Step` | src/validator/oas_validator.c:140-786 | One instruction makes progress, and keeps verdict and reports in step |
| `Machine.RunOver` | src/validator/oas_validator.c:310-330 | Re-running a body for each value leaves the pointer at the body and keeps verdict and reports in step |
| `Machine.RunEach` | src/validator/oas_validator.c:388-432 | The muted bodies of anyOf and oneOf: forward progress, and nothing reported without a list |
| `Machine.RunAll` | src/validator/oas_validator.c:375-386 | The bodies of allOf, run in place |
| `Machine.StepDispatch` | src/validator/oas_validator.c:687-766 | The discriminator dispatch makes progress past its inline keys and bodies |
| `Machine.FindKey` | src/validator/oas_validator.c:687-766 | The first inline key equal to the tag, or none |
| `Muting.MuteExec` | src/validator/oas_validator.c:100-113 | Taking the error list away changes neither verdict nor position, through every sub-run |
| `Running.RunLands` | src/validator/oas_validator.c:140-786 | A run from any point of properly shaped code ends at the end of one of the enclosing bodies; it is the innermost one exactly when the run is clean, and then the verdict is that of the structured program |
| `Running.StepLands` | src/validator/oas_validator.c:140-786 | The same for one instruction, against every kind of tree |
| `Running.SkippedVerdict` | src/validator/oas_validator.c:310-373 | An opcode that works on copies and then skips: where it lands and what its verdict is |
| `Running.ForkVerdict` | src/validator/oas_validator.c:375-432 | allOf, anyOf and oneOf over their bodies |
| `Running.PickVerdict` | src/validator/oas_validator.c:687-766 | The discriminator runs the body at the position of the first matching key |
| `Landing.SkipLands` | src/validator/oas_validator.c:126-138 | From any point of compiled code the skip ends at the end of an enclosing body, never in between |
| `Landing.SkipExact` | src/validator/oas_validator.c:126-138 | It is the innermost one if and only if the rest of that body is free of composition |
| `Trees.FlatSeqWellCounted` | src/compiler/oas_compiler.c:95-113 | Flattening keeps every inline count inside the code |
| `Vm.State.Execute` | src/validator/oas_validator.c:140-786 | The loop over `ip`, updating `ip`, `valid` and the shared list, ends in the state `Exec` describes |
| `Vm.State.Instruction` | src/validator/oas_validator.c:144-786 | One turn of the loop, against `Step` |
| `Vm.State.EnterOp` | src/validator/oas_validator.c:310-373 | items, prefixItems, properties, additionalProperties on state copies, then the skip |
| `Vm.State.ApplicatorOp` | src/validator/oas_validator.c:434-647 | not, propertyNames, patternProperties, dependentSchemas |
| `Vm.State.SkipToEnd` | src/validator/oas_validator.c:126-138 | The depth counter of the loop computes `Skip` |
| `Vm.State.AddError` | src/validator/oas_validator.c:100-113 | The verdict drops, and the list, if there is one, gets one more entry |
| `Vm.State.RunOverValues` | src/validator/oas_validator.c:318-327 | One sub-run for each element, all starting at the same instruction |
| `Vm.State.RunName` | src/validator/oas_validator.c:534-560 | One propertyNames sub-run: its own errors and then one for the opcode |
| `Vm.State.RunOverMatching` | src/validator/oas_validator.c:566-593 | Sub-runs for the members whose names match |
| `Vm.State.RunEachBody` | src/validator/oas_validator.c:388-432 | Muted runs of each body in turn, counting those that pass |
| `Vm.State.RunAllBodies` | src/validator/oas_validator.c:375-386 | The bodies of allOf, on the state itself |
| `Vm.State.ContainsOp` | src/validator/oas_validator.c:648-685 | Counting muted runs against the two inline limits |
| `Vm.State.CheckNames` | src/validator/oas_validator.c:595-626 | One error for every inline name that is missing; a null name is missing from every object |
| `Vm.State.DependentRequiredOp` | src/validator/oas_validator.c:595-626 | The names are only checked when the property is there, and always passed over |
| `Vm.State.IfOp` | src/validator/oas_validator.c:445-469 | The muted condition, and the arm it selects |
| `Vm.State.DispatchOp` | src/validator/oas_validator.c:687-766 | Tag lookup, inline keys, and the body that is run |
| `Vm.State.RunInPlace` | src/validator/oas_validator.c:628-646 | dependentSchemas runs its body on the current value |
| `Vm.TypeMaskDecides` | src/validator/oas_validator.c:30-56 | Intersecting the value's mask decides membership in the JSON Schema instance types (integer counts as number) |
| `Vm.CodepointCount` | src/validator/oas_validator.c:61-70 | The loop counts the bytes that start a character |
| `Vm.HasDuplicateItems` | src/validator/oas_validator.c:72-85 | The two nested loops find a pair of equal elements if and only if there is one |
| `Vm.InEnum` | src/validator/oas_validator.c:471-490 | The loop finds an equal entry if and only if there is one |
| `Vm.Passes` | src/validator/oas_validator.c:152-308 | Each one-shot check decides its keyword |
| `Vm.Validate` | src/validator/oas_validator.c:800-833 | An empty program is refused and nothing changes. Otherwise the verdict is that of `Exec`, with and without a list; a missing list is made exactly if there is an arena; the list gets what the run reports, in order, and the verdict is negative exactly when it has grown |
| `Vm.CompileAndValidate` | src/validator/oas_validator.c:788-833 | Compiling and validating together: refused exactly for a schema that does not compile; the verdict is that of the run over the compiled program; on clean runs, and so always inside the fragment, it is "the value satisfies the schema" |
| `Utf8.CodepointsOfEncoding` | src/validator/oas_validator.c:61-70 | On the UTF-8 encoding (section 3 of RFC 3629) of any sequence of Unicode scalar values the count is the length of the sequence |
| `Utf8.TextMeans` | src/validator/oas_validator.c:61-70 | Which characters these are: the code points without the surrogates |
| `Utf8.LengthOpcodes` | src/validator/oas_validator.c:160-182 | minLength and maxLength decide the number of characters |
| `Instructions.Program.Emit` | src/compiler/oas_instruction.c:30-48 | Appending to the doubling array is appending to a sequence, across every reallocation |
| `SchemaCompiler.CompiledSchema.CompileSchema` | src/compiler/oas_compiler.c:136-582 | Succeeds exactly on compilable schemas (references resolved, patterns accepted), and then appends the flat form of the schema's program and nothing else, every compiled pattern tracked once |
| `SchemaCompiler.CompiledSchema.AppendPattern` | src/compiler/oas_compiler.c:181-201 | A pattern is compiled, tracked, and used by one instruction, or compilation fails |
| `SchemaCompiler.CompiledSchema.CompileString` | src/compiler/oas_compiler.c:168-213 | The string keywords in order |
| `SchemaCompiler.CompiledSchema.CompileNumber` | src/compiler/oas_compiler.c:214-244 | The numeric keywords in order |
| `SchemaCompiler.CompiledSchema.CompileArray` | src/compiler/oas_compiler.c:245-291 | Size limits, prefix items with their 16-bit positions, items |
| `SchemaCompiler.CompiledSchema.CompilePrefix` | src/compiler/oas_compiler.c:265-278 | The loop over prefix items |
| `SchemaCompiler.CompiledSchema.CompileProperties` | src/compiler/oas_compiler.c:301-314 | The walk over the property list |
| `SchemaCompiler.CompiledSchema.CompilePatterns` | src/compiler/oas_compiler.c:355-388 | The loop over pattern properties, skipping null schemas and every one when there is no regex backend |
| `SchemaCompiler.CompiledSchema.CompileDependentRequired` | src/compiler/oas_compiler.c:390-406 | The loop with its inline counts and names |
| `SchemaCompiler.CompiledSchema.CompileContains` | src/compiler/oas_compiler.c:427-454 | The opcode, its two inline limits, the body |
| `SchemaCompiler.CompiledSchema.CompileFork` | src/compiler/oas_compiler.c:95-115 | `compile_composition`: the count cast to 16 bits, then every body with its END |
| `SchemaCompiler.CompiledSchema.CompilePick` | src/compiler/oas_compiler.c:464-503 | The positional discriminator, emitted only when mapping and branches have the same length |
| `SchemaCompiler.CompiledSchema.CompileConditional` | src/compiler/oas_compiler.c:117-134 | `compile_conditional_part` for if, then, else, null parts included |
| `SchemaCompiler.Compile` | src/compiler/oas_compiler.c:584-613 | A whole program, closed by END, or nothing |
| `RefChain.Context.Resolve` | src/parser/oas_ref.c:245-302 | Resolution along local references returns what walking up to the limit of 64 references without cycle detection returns, and leaves the visited stack as it was |
| `RefChain.Context.Contains` | src/parser/oas_ref.c:64-72 | The loop over the stack finds the reference if and only if it is there |
| `RefChain.Context.Push` | src/parser/oas_ref.c:74-89 | The growing array behaves as a stack |
| `RefChain.Context.Pop` | src/parser/oas_ref.c:91-96 | Pop undoes push |
| `RefChain.ResolveFresh` | src/parser/oas_ref.c:245-302 | From an empty stack: what the chain ends in, if it ends within 64 references; -ELOOP exactly when it goes on beyond them, and so for every chain that runs into a cycle. On the document itself: a reference leads on exactly if it is a fragment that finds an object whose first member called "$ref" is a string, to what is in front of the first NUL of that string; otherwise it stands for the value it finds, -ENOENT or -ENOTSUP. The result is what at most 64 such references end in, and -ELOOP exactly if there are 65 |
| `RefChain.ChainsEnd` | src/parser/oas_ref.c:275-302 | Chains read off the members of the document end exactly where the walk ends |
| `RefChain.WalkDecides` | src/parser/oas_ref.c:245-302 | The bounded walk succeeds with a value exactly when the chain ends there within the limit |
| `RefChain.CycleLoops` | src/parser/oas_ref.c:251-266 | A chain that meets any reference twice, wherever it enters the cycle, never ends: no bounded walk along it finds anything |
| `RefChain.ChainMeetsTwice` | src/parser/oas_ref.c:251-257 | A chain read off the document in which a reference comes twice is such a chain |
| `RefChain.RevisitLoops` | src/parser/oas_ref.c:251-257 | A chain that comes back to a visited reference would never have ended, so cycle detection rejects no chain that resolves |
| `RefCaches.RefCache.Put` | src/parser/oas_ref_cache.c:99-141 | Agrees with a bounded insert-only map for every hash function: an existing key is kept, a new one is stored, -ENOSPC exactly when the key is new and the map is full |
| `RefCaches.RefCache.FindFree` | src/parser/oas_ref_cache.c:121-140 | Probing always meets a free slot, so the last exit is never reached |
| `RefCaches.RefCache.Get` | src/parser/oas_ref_cache.c:74-97 | The probe loop returns exactly what the map holds |
| `RefCaches.RefCache.constructor` | src/parser/oas_ref_cache.c:49-72 | An empty cache; a maximum that is not positive means 100 |
| `RefCaches.NextPow2` | src/parser/oas_ref_cache.c:36-47 | The least power of two that is at least 16 and the argument |
| `RefCaches.RunHolds` | src/parser/oas_ref_cache.c:99-141 | After any run of puts a key is present exactly if its first put came before `limit` other keys, with the root of that first put |
| `RefCaches.RunKeys` | src/parser/oas_ref_cache.c:99-119 | The size is the number of distinct keys put, up to the limit |
| `RefCaches.MaskedProbe` | src/parser/oas_ref_cache.c:80-85 | Masking with `capacity - 1` is taking the remainder |
| `RefCaches.FreeSlot` | src/parser/oas_ref_cache.c:138-140 | A table with fewer taken slots than slots has a free one |
| `RefCaches.LayoutStore` | src/parser/oas_ref_cache.c:124-135 | Writing into the first free slot of a probe keeps every key findable |
| `Bits.MaskIsModulo` | src/parser/oas_ref_cache.c:80-81 | `h & (2^k - 1)` equals `h % 2^k` |
| `Arenas.Arena.Alloc` | src/core/oas_alloc.c:77-122 | Over all 64-bit sizes and alignments, with the wrap-around of the code: the new block list, mark, region and total, and exactly when the arena stays valid (regions pairwise disjoint, aligned, inside the used part of their blocks, later blocks unused, the total equal to the sum granted): if and only if the request ends inside its block. In the current block that is if the sum in the room test does not wrap; a new block always fits if size, alignment and header together do not. Served exactly when the request is well-formed and there is room or memory, then at the first aligned address |
| `Arenas.ApartMeans` | src/core/oas_alloc.c:77-122 | No byte belongs to two of the regions that a valid arena has handed out |
| `Arenas.SeparateMeans` | src/core/oas_alloc.c:7-12 | Two blocks with their headers of 32 bytes share no byte |
| `Arenas.Arena.AnswerMeans` | src/core/oas_alloc.c:21-31 | What is asked of `malloc`, where no sum wraps: a range for the block and its header in memory, apart from all the others |
| `Arenas.GrantExact` | src/core/oas_alloc.c:91-97 | After a grant the regions lie apart in their blocks if and only if offset and size, as numbers, end inside the block |
| `Arenas.AcceptedIsWhole` | src/core/oas_alloc.c:93-97 | A request the room test accepts ends inside the block if and only if the sum it looks at does not wrap |
| `Arenas.WrappedRequest` | src/core/oas_alloc.c:93-97 | 16 bytes in use, size 2^64 - 9, alignment 1: the request passes the test and moves the mark back to 7 |
| `Arenas.Arena.Reset` | src/core/oas_alloc.c:124-137 | All blocks empty, the first one current, no region left; the arena is valid again even after a request that wrapped |
| `Arenas.Arena.Grant` | src/core/oas_alloc.c:93-98 | Takes the aligned rest of the current block up to the end of the request; the arena stays valid exactly if that lies inside the block |
| `Arenas.Arena.Extend` | src/core/oas_alloc.c:106-114 | Inserting a block keeps all blocks apart, exactly if its capacity is that of the memory asked for |
| `Arenas.Arena.constructor` | src/core/oas_alloc.c:33-55 | One empty block; size 0 means 64 KiB |
| `Arenas.Arena.IsPowerOfTwo` | src/core/oas_alloc.c:83-86 | The bit test accepts exactly the powers of two |
| `Arenas.NewBlockFits` | src/core/oas_alloc.c:100-104 | A block of the larger of the block size and size plus alignment has room for the request behind its first aligned address, if no sum wraps |
| `Arenas.AlignUpRounds` | src/core/oas_alloc.c:72-75 | The bit trick gives the first multiple from the offset on, as long as nothing wraps |
| `Arenas.OffsetCases` | src/core/oas_alloc.c:90-91 | The aligned offset is that of the next aligned address, or, where the address wraps, points to address zero |
| `Bits.ClearIsRoundDown` | src/core/oas_alloc.c:74 | Clearing the low bits rounds down to a multiple |
| `Bits.PowerTest` | src/core/oas_alloc.c:84 | `n & (n - 1)` is zero exactly for powers of two |
| `JsonPointer.Parse` | src/core/oas_jsonptr.c:72-131 | The segments found in the buffer are those of the pointer, each a NUL-terminated string; the counting pass gave exactly their number |
| `JsonPointer.UnescapeSegment` | src/core/oas_jsonptr.c:54-70 | The in-place loop leaves the unescaped string, and nothing outside it changes |
| `JsonPointer.CutAll` | src/core/oas_jsonptr.c:113-126 | Every token, unescaped, survives the cutting of the later ones |
| `JsonPointer.CountSlashes` | src/core/oas_jsonptr.c:92-98 | Counts the segments |
| `JsonPointer.OnePassIsTwoPass` | src/core/oas_jsonptr.c:54-70 | The single pass equals the two replacements of section 4 of RFC 6901 on every string, malformed escapes included |
| `JsonPointer.ParsePrint` | src/core/oas_jsonptr.c:72-131 | Parsing the escaped printing of any list of segments returns the list |
| `JsonPointer.PrintParse` | src/core/oas_jsonptr.c:72-131 | Printing what was parsed gives the pointer back exactly when each "~" in it starts an escape |
| `JsonPointer.UnescapeEscape` | src/core/oas_jsonptr.c:54-70 | Unescaping undoes escaping |
| `PathMatch.Match` | src/core/oas_path_match.c:265-356 | A match is reported exactly when the path splits into at most 64 non-empty segments and some template fits; the winner has the most static segments, the earliest on ties, and its segments filled with the extracted values are the segments of the path |
| `Routes.Route` | src/core/oas_path_match.c:265-356 | From templates as they are written to a match: reported exactly when some template agrees with the request on every segment that is not a name in braces; the winner has the most such segments and is the first of those; its parameters are the names between the braces with the segments of the request, in order |
| `Routes.ListsOnce` | src/core/oas_path_match.c:314-353 | The list of parameters is determined by the template and the request |
| `Routes.TemplateSegments` | src/core/oas_path_match.c:117-147 | Segment i of an accepted template is a parameter called by what is between the braces if piece i is in braces, and the text of the piece otherwise |
| `Routes.TemplateOfParts` | src/core/oas_path_match.c:71-152 | A template made of non-empty segments is accepted and falls into them again |
| `Routes.RequestOfParts` | src/core/oas_path_match.c:192-237 | A request made of at most 64 segments is cut into them again; a longer one is refused |
| `PathMatch.FillBindings` | src/core/oas_path_match.c:329-353 | Substituting the extracted values gives the request segments back |
| `PathMatch.RebuildRequest` | src/core/oas_path_match.c:192-237 | Joined with "/" they are the request path less one trailing slash, if and only if it does not end in two |
| `PathMatch.DoubleTailIgnored` | src/core/oas_path_match.c:202-234 | Two slashes behind a path change nothing |
| `PathMatch.DoubleSlashAtEnd` | src/core/oas_path_match.c:202-234 | "/a//" is taken for "/a", so there the rebuilt path is not the request less one slash |
| `PathMatch.FindBest` | src/core/oas_path_match.c:294-304 | The loop ends with the best of all templates |
| `PathMatch.TryMatch` | src/core/oas_path_match.c:240-263 | Decides whether a template fits |
| `PathMatch.SplitRequest` | src/core/oas_path_match.c:192-237 | The two arrays of 64 cells hold exactly the segments; rejected exactly when one is empty or there are more |
| `PathMatch.CountSegments` | src/core/oas_path_match.c:33-68 | Counts the non-empty segments of any string |
| `PathMatch.ParseTemplate` | src/core/oas_path_match.c:71-152 | Writes only within the counted cells; accepted templates yield exactly the non-empty segments, with the number of unbraced ones |
| `PathMatch.PiecesAreSegments` | src/core/oas_path_match.c:33-152 | Where the parser meets no empty piece it meets exactly the segments counted |
| `PathMatch.CreateMatcher` | src/core/oas_path_match.c:154-189 | One rejected template fails the whole set |
| `PathMatch.Extract` | src/core/oas_path_match.c:314-353 | The two passes over the winner agree on the number of parameters, and bind each name to its segment |
| `Defaults.ApplyDefaults` | src/validator/oas_defaults.c:14-46 | The recursive walk computes `Apply`, for any graph of schemas |
| `Defaults.ApplyExtends` | src/validator/oas_defaults.c:14-46 | Conservative: members keep their order, other values are unchanged, objects are only extended |
| `Defaults.ApplyFills` | src/validator/oas_defaults.c:14-46 | At every level of the object down to the depth limit, every property with a default is present in the result, recursive schemas included |
| `Defaults.StaysFilled` | src/validator/oas_defaults.c:22-45 | What is filled stays filled when more is added, so later properties undo nothing |
| `Defaults.LoopDescribed` | src/validator/oas_defaults.c:22-45 | With distinct names the loop equals a parallel description: old members updated in place, then one default for each absent property |
| `Defaults.SecondPass` | src/validator/oas_defaults.c:14-46 | With distinct names a second pass changes nothing if and only if every inserted default is a fixed point itself, recursive schemas included |
| `Defaults.StableDefaults` | src/validator/oas_defaults.c:31-38 | It is enough that every default of the graph is a fixed point |
| `Defaults.DefaultsKeepGrowing` | src/validator/oas_defaults.c:31-42 | A recursive schema with an object default: the second pass does change the result |
| `Defaults.DeepStable` | src/validator/oas_defaults.c:31-38 | A recursive schema whose default is an integer: its properties have distinct names and its default stays as it is, so a second pass changes nothing |
| `Defaults.FilledTo64` | src/validator/oas_defaults.c:12-20 | Objects inside one another under a recursive schema: filled in as far as the 64th inside the outermost one, and no deeper |
| `Intern.InternPool.Get` | src/core/oas_intern.c:62-98 | Returns the one copy of the bytes, new only for a new string; each entry sits in its hash's bucket exactly once and the count is the number of copies |
| `Intern.SameAnswer` | src/core/oas_intern.c:62-98 | In any run two calls return the same address if and only if their strings, length included, are equal |
| `Intern.DistinctStrings` | src/core/oas_intern.c:62-106 | The number of copies is the number of distinct strings seen |
| `Intern.InternPool.constructor` | src/core/oas_intern.c:34-60 | An empty pool; capacity 0 means 256 |
| `Query.Parse` | src/core/oas_query.c:49-105 | The pairs written are those of the query, within the pre-counted array |
| `Query.QueryRoundTrip` | src/core/oas_query.c:49-105 | Parsing a printed list of NUL-free pairs returns the list, in order |
| `Query.PrintableMeans` | src/core/oas_query.c:49-105 | Which texts these are: all bytes but NUL |
| `Query.PairsFit` | src/core/oas_query.c:63-69 | There is one pair for each "&" and one more, unless the string is empty or ends in "&" |
| `Query.UrlDecode` | src/core/oas_query.c:21-47 | The loop writes the decoded bytes and a NUL |
| `Query.DecodeEncode` | src/core/oas_query.c:21-47 | Decoding undoes percent-encoding (section 2.1 of RFC 3986) |
| `Query.DecodeMeans` | src/core/oas_query.c:6-47 | A percent sign with two digits, in either case, is one byte, "+" is a space, and anything else stands for itself |
| `Query.PairMeans` | src/core/oas_query.c:71-100 | A part without "=" is a key with an empty value; otherwise the first "=" ends the key |
| `Formats.Ipv4` | src/compiler/oas_format.c:287-321 | Accepts exactly four dec-octets joined by dots (section 3.2.2 of RFC 3986) |
| `Formats.OctetCheck` | src/compiler/oas_format.c:299-309 | The checks at the end of a run of digits decide dec-octet |
| `Formats.Date` | src/compiler/oas_format.c:45-73 | Accepts exactly full-date of section 5.6 of RFC 3339, with the Gregorian month lengths |
| `Formats.DateAndTime` | src/compiler/oas_format.c:153-171 | Accepts exactly date-time of that section, "T" and "Z" in either case, second 60 at any time |
| `Formats.Time` | src/compiler/oas_format.c:141-149 | Accepts exactly full-time |
| `Formats.TimePart` | src/compiler/oas_format.c:77-112 | The clock and the longest fraction; a rejection means there is no full-time |
| `Formats.Timezone` | src/compiler/oas_format.c:114-139 | Accepts exactly time-offset |
| `Formats.TimeParts` | src/compiler/oas_format.c:77-149 | A time falls apart into clock, fraction and offset in one way only |
| `Formats.ParseDigits` | src/compiler/oas_format.c:16-27 | The value of a run of digits, or a refusal |
| `Formats.DigitsAre` | src/compiler/oas_format.c:16-27 | The ten digits |
| `Formats.MonthLength` | src/compiler/oas_format.c:34-41 | The table gives the Gregorian month lengths |
| `Formats.DaysOfYear` | src/compiler/oas_format.c:29-41 | The months have 366 days in all in years divisible by 4, unless by 100 and not by 400 |
| `Printer.EmitSchema` | src/emitter/oas_emitter.c:81-368 | Builds the object that has, in order, one member for each keyword with something to print |
| `Printer.FindPrinted` | src/emitter/oas_emitter.c:81-368 | Looking any keyword up in a printed schema finds exactly what was printed for it |
| `Printer.EmitList` | src/emitter/oas_emitter.c:151-161 | The loop skips null entries |
| `Printer.EmitPropertyList` | src/emitter/oas_emitter.c:184-193 | The walk over the property list keeps its order |
| `TypeNames.EmitType` | src/emitter/oas_emitter.c:51-77 | One name, a list of names in bit order, or nothing |
| `TypeNames.Popcount8` | src/emitter/oas_emitter.c:41-49 | The shifting loop counts the set bits |
| `TypeNames.ParseType` | src/parser/oas_schema_parser.c:22-38 | All the bits named |
| `TypeNames.TypeRoundTrip` | src/emitter/oas_emitter.c:51-77 | Printing and parsing a mask keeps its seven type bits |
| `SchemaParser.ParseSchema` | src/parser/oas_schema_parser.c:386-519 | The parser computes `Parse`, for any JSON value; `ParsedForms.ParseReads` says what that is |
| `Readings.KeywordsRead` | src/parser/oas_schema_parser.c:11-519 | Under each keyword's literal name: the first member of that name decides by the kind of its value. Numbers give bounds as real numbers, integers above 2^63 - 1 wrapped; integers give counts, -1 where there is none; strings give texts up to the first NUL; true gives a flag; type names give the bits of the mask; objects give sub-schemas, in lists one cell for each element; anything else gives nothing |
| `Readings.IntegerMinimum` | src/parser/oas_schema_parser.c:11-67 | The document {"minimum": i}: a minimum of i |
| `Readings.ListTypes` | src/parser/oas_schema_parser.c:22-38 | A bit of the mask is set if and only if its type is named in the list |
| `ParsedForms.ParseReads` | src/parser/oas_schema_parser.c:386-519 | Of any JSON object with 64-bit integers the parser makes a schema that can be stored, with no resolved reference; it is in the normal form if and only if the object is `Plain` (no count below -1, no boolean additionalProperties, no unevaluated keyword, a propertyName for every mapping, only objects in sub-schema lists, only strings as names in dependentRequired and as mapping targets, at every level that is read), and what a round trip loses of it counts for nothing (`Steady`) if and only if the object is `Solid`; of anything else it makes nothing |
| `ParsedForms.ParsePropertiesAt` | src/parser/oas_schema_parser.c:160-175 | The properties are the members that hold objects, the last one first, each named by its key and read as a schema; other members are left out |
| `ParsedForms.ParseAllAt` | src/parser/oas_schema_parser.c:312-337 | A sub-schema list has one cell for each element, the schema read from it or null |
| `ParsedForms.ParsePatternsAt` | src/parser/oas_schema_parser.c:226-248 | patternProperties has one cell for each member, in order |
| `ParsedForms.KnownBits` | src/parser/oas_schema_parser.c:22-38 | Type masks that are parsed hold type bits only |
| `SchemaParser.ParsePropertyList` | src/parser/oas_schema_parser.c:160-175 | Each property is put in front of the earlier ones |
| `SchemaParser.ParseSchemaArray` | src/parser/oas_schema_parser.c:312-337 | One cell for each element, null where it is not an object |
| `RoundTrip.RoundTrip` | src/emitter/oas_emitter.c:81-368 | For every storable schema, exactly what parsing its printing gives: null entries, null names in dependentRequired, mapping entries with a null target and unevaluated keywords dropped, negative counts unset, the boolean additionalProperties negated, properties reversed at every level |
| `ParsedForms.DocumentRoundTrip` | src/parser/oas_schema_parser.c:386-519 | A document whose `required` lists hold only strings comes back with its properties reversed at every level and nothing else changed if and only if it is `Plain`; a second round trip then restores it |
| `ParsedForms.DocumentMeaning` | src/emitter/oas_emitter.c:81-368 | The schema of a `Solid` document accepts the same values after a round trip: at every level that has a meaning, nothing but objects in front of an object in prefixItems, only strings as names in dependentRequired, and where no discriminator is in use anyOf lists only objects or none and oneOf only objects or one value; where one is, the list it picks from holds only objects and its targets are strings |
| `ParsedForms.NamelessMapping` | src/parser/oas_schema_parser.c:472-495 | A discriminator with a mapping and no propertyName does not come back |
| `NullNames.NumberRequiredLost` | src/emitter/oas_emitter.c:226-240 | `{"dependentRequired": {"a": [5]}}` is neither `Plain` nor `Solid`; its schema rejects {"a": 1}, and accepts it after a round trip |
| `NullNames.NumberTargetLost` | src/emitter/oas_emitter.c:345-362 | `{"oneOf": [{}], "discriminator": {"propertyName": "t", "mapping": {"a": 5}}}` is neither `Plain` nor `Solid`; its schema rejects 7, and accepts it after a round trip |
| `Reversal.NormalRoundTrip` | src/parser/oas_schema_parser.c:386-519 | The round trip only reverses the properties at every level and forgets where references led, if and only if the schema is in the normal form |
| `Reversal.AgainIsFlip` | src/emitter/oas_emitter.c:81-368 | The result of a round trip is the reversal if and only if the schema is in the normal form |
| `Reversal.TwoRoundTrips` | src/model/oas_schema.c:29-47 | Two round trips give the schema itself with every reference unresolved (`Unlink`), so the schema itself where none was resolved |
| `RoundTripMeanings.AgainMeans` | src/emitter/oas_emitter.c:81-368 | What a round trip makes of a schema without resolved references accepts the same values, whatever its counts, nameless mapping, boolean additionalProperties and unevaluated keywords, if it is `Steady`: no null in front of a schema in prefixItems, no null name in dependentRequired, anyOf without null or all null, oneOf without null or of one entry, and with a discriminator no null branch and no null target. The converse would have to decide what the remaining branches accept: an anyOf of null and a schema that accepts everything is not `Steady` and still means the same afterwards |
| `RoundTripMeanings.RoundTripMeans` | src/emitter/oas_emitter.c:81-368 | So a printed and parsed schema accepts what the original does |
| `RoundTripMeanings.NullBranchLost` | src/emitter/oas_emitter.c:151-161 | With a null branch it may not: anyOf of null and strings accepts 5 before a round trip and rejects it afterwards |
| `Reversal.FlipMeans` | src/model/oas_schema.c:29-47 | Reversing the property lists does not change what a schema accepts |
| `Reversal.FlipKeeps` | src/model/oas_schema.c:29-47 | Reversal keeps storability and the normal form, and reversing twice only unresolves references |
| `Reversal.BooleanAdditionalNegated` | src/emitter/oas_emitter.c:201-204 | Every round trip negates the boolean form of additionalProperties |

## Left out

- `Arena.Extend`: the block list is a sequence in list order, not linked nodes in the heap.
- `Printer.EmitSchema`: objects and arrays are values that the loops extend; the mutable yyjson nodes and their sharing are not modelled.
- `Defaults.ApplyDefaults`: the object tree is a value that is rebuilt along the path; updating yyjson nodes in place is not modelled.
- `SchemaParser.ParseSchema`: where `required` lists something that is no string the code leaves a cell unwritten, and what is read from it later is not determined; the model has an empty string there, and the theorems about documents exclude such lists (`RequiredGiven`).
- `Correctness.CompileCorrect`: the verdict of a run that is not clean is not described beyond where the run stops; it may be right or wrong.
- `Vm.CompileAndValidate`: for a run that is not clean the verdict is said to be that of the run, and nothing about the schema.
- `SchemaCompiler.CompiledSchema.CompileSchema`: the class that emits into the program works on the finite tree; the order and the early returns of the recursion over linked nodes are those of `SchemaGraph.Compile`, a function, and `Unfolding.CompileIsTree` ties the two.
- `RefChain.Context.Resolve`: only references that are fragments; external documents, their cache and their fetching are not followed.
- `Formats.Ipv4`: the octet accumulator is unbounded, while the code's `int` can overflow on more than nine digits before they are refused.
- `Formats.DateAndTime`: the formats email, hostname, ipv6, uri, uuid, byte, int32 and int64 are not modelled; some are simplified on purpose and meet no grammar.
- Regular expressions, `strtod`, `fmod` and `yyjson_equals` are uninterpreted; doubles are reals. The code converts both sides of a comparison to double (src/validator/oas_validator.c:206-252), so there the value 2^53 passes "minimum": 2^53 + 1, which the model rejects.
- Ownership of documents, patterns and arenas beyond what is listed: the destroy and free functions.
- Allocation failures (other than the arena's own `malloc`), null-pointer guards, error texts and JSON pointers inside error messages.
- The FNV-1a hash functions: the cache and the intern pool are proved for every hash function.
- JSON and YAML text, HTTP, TLS and file access, the document parser, the builders, the adapters and the document half of the emitter.
- `oas_uri_resolve` and content negotiation.
- Enforcement of unevaluatedProperties and unevaluatedItems, which the machine does not perform.
