/** The instruction set and the growing program buffer. */
module Instructions {
  import opened Json

  /** The opcodes that test the current value once and go on to the next instruction. */
  datatype Check =
    | CheckType(mask: bv8)
    | CheckMinLen(n: int)
    | CheckMaxLen(n: int)
    | CheckPattern(pattern: string)
    | CheckFormat(format: string)
    | CheckMinimum(x: real)
    | CheckMaximum(x: real)
    | CheckExMinimum(x: real)
    | CheckExMaximum(x: real)
    | CheckMultipleOf(x: real)
    | CheckMinItems(n: int)
    | CheckMaxItems(n: int)
    | CheckUnique
    | CheckRequired(name: string)
    | CheckMinProps(n: int)
    | CheckMaxProps(n: int)
    | CheckEnum(allowed: Value)
    | CheckConst(expected: Value)
    | CheckReadOnly
    | CheckWriteOnly

  /** The opcodes that own exactly one body, ended by its own END. */
  datatype Opener =
    | EnterItems
    | EnterPrefixItem(index: nat)
    | EnterProperty(name: string)
    | EnterAdditional
    | Negate
    | CondIf
    | CondThen
    | CondElse
    | CheckPropNames
    | CheckPatternProps(pattern: string)
    | CheckDepSchema(trigger: string)

  datatype BranchKind = AllOf | AnyOf | OneOf

  /** One instruction. The NOPs that carry an inline operand are told apart by it; `Unused` stands
      for the opcodes the compiler never emits and the machine ignores (JUMP, PUSH_SCOPE, ...). */
  datatype Instr =
    | End
    | Nop
    | NopCount(n: int)
    | NopName(name: Option<string>)
    | Test(check: Check)
    | Open(opener: Opener)
    | Contains(min: int)
    | Branch(kind: BranchKind, count: nat)
    | DepRequired(trigger: string)
    | Dispatch(property: string)
    | Unused

  type Code = seq<Instr>

  /** The opcodes after which `skip_to_end` goes one level deeper. */
  predicate IsNesting(i: Instr) {
    i.Open? || i.Contains?
  }

  /** The inline operands behind position `i` are present and stay inside the code. */
  predicate CountFits(c: Code, i: nat)
    requires i < |c|
  {
    match c[i]
    case Contains(_) => i + 1 < |c| && c[i + 1].NopCount?
    case DepRequired(_) => NamesFit(c, i)
    case Dispatch(_) => NamesFit(c, i)
    case _ => true
  }

  predicate NamesFit(c: Code, i: nat) {
    && i + 1 < |c| && c[i + 1].NopCount? && c[i + 1].n >= 0
    && i + 2 + c[i + 1].n <= |c|
    && forall j | i + 2 <= j < i + 2 + c[i + 1].n :: c[j].NopName?
  }

  predicate WellCounted(c: Code) {
    forall i | 0 <= i < |c| :: CountFits(c, i)
  }

  lemma WellCountedConcat(a: Code, b: Code)
    requires WellCounted(a) && WellCounted(b)
    ensures WellCounted(a + b)
  {
    var c := a + b;
    forall i | 0 <= i < |c| ensures CountFits(c, i) {
      if i < |a| {
        assert CountFits(a, i);
      } else {
        assert CountFits(b, i - |a|);
        assert forall j | |a| <= j < |c| :: c[j] == b[j - |a|];
      }
    }
  }

  const INITIAL_CAPACITY: nat := 32

  /** `oas_program_t`: an array that doubles when it is full, behaving as a sequence. */
  class Program {
    var code: array<Instr>
    var count: nat

    ghost predicate Valid()
      reads this
    {
      count <= code.Length
    }

    ghost function Contents(): Code
      requires Valid()
      reads this, code
    {
      code[..count]
    }

    constructor ()
      ensures Valid() && fresh(code) && Contents() == []
    {
      code := new Instr[0];
      count := 0;
    }

    method Emit(instr: Instr)
      requires Valid()
      modifies this, code
      ensures Valid() && (code == old(code) || fresh(code))
      ensures Contents() == old(Contents()) + [instr]
      ensures code.Length == if old(count) < old(code.Length) then old(code.Length)
                             else if old(code.Length) == 0 then 32
                             else 2 * old(code.Length)
    {
      if count >= code.Length {
        var capacity := if code.Length == 0 then INITIAL_CAPACITY else code.Length * 2;
        var grown := new Instr[capacity];
        forall i | 0 <= i < count {
          grown[i] := code[i];
        }
        code := grown;
      }
      code[count] := instr;
      count := count + 1;
    }
  }
}
