/** What each opcode of `ex` does to the registers and the program counter,
    stated against the dispatch in module Semantics: which register changes,
    to what, and that nothing else does. */
module Opcodes {
  import opened Outcomes
  import opened Registers
  import opened Text
  import opened Bits
  import opened Semantics

  /** Operand i exists and names a register. */
  predicate Resolves(params: seq<string>, i: nat)
  {
    i < |params| && RegisterIndex(params[i]).Ok?
  }

  /** The slot operand i names. */
  function Slot(params: seq<string>, i: nat): (r: nat)
    requires Resolves(params, i)
    ensures r < RegCount
  {
    RegisterIndex(params[i]).value
  }

  /** The value of the register operand i names. */
  function Val(params: seq<string>, i: nat, st: State): int
    requires WellFormed(st) && Resolves(params, i)
  {
    st.regs[Slot(params, i)]
  }

  /** A register written as `$name,` in the listing resolves to that register. */
  lemma SigilOperandResolves(i: nat)
    requires i < RegCount
    ensures RegisterIndex(Strip("$" + RegNames[i] + ",")) == Ok(i)
    ensures RegisterIndex(Strip("$" + RegNames[i])) == Ok(i)
  {
    var name := RegNames[i];
    NamesAreBare(i);
    SigilRoundTrip(name);
    NameResolvesToSlot(i);
  }

  /** A line whose opcode ends in ':' copies the program counter into `ra`, whatever follows it. */
  lemma LabelCapturesPc(code: string, params: seq<string>, st: State)
    requires WellFormed(st) && code != [] && code[|code| - 1] == ':'
    ensures Dispatch(code, params, st) == Ok(SetReg(st, RA, st.pc))
  {
  }

  predicate ThreeRegisters(params: seq<string>)
  {
    Resolves(params, 0) && Resolves(params, 1) && Resolves(params, 2)
  }

  // ---------------------------------------------------------------------
  // The instruction forms
  // ---------------------------------------------------------------------

  /** A three-register form writes `a op b` into the first operand's register,
      and succeeds exactly when all three operands exist and name registers;
      otherwise the error is the missing operand or the first unknown name. */
  lemma RegisterForm3(op: BinaryOp, params: seq<string>, st: State)
    requires WellFormed(st)
    ensures ThreeRegisters(params) ==>
      RegisterStep(op, params, st) == Ok(SetReg(st, Slot(params, 0), Apply(op, Val(params, 1, st), Val(params, 2, st))))
    ensures !ThreeRegisters(params) ==> RegisterStep(op, params, st).Err?
    ensures RegisterStep(op, params, st).Err? ==>
      RegisterStep(op, params, st).error == IndexError
      || exists i :: 0 <= i < |params| && i < 3 && RegisterStep(op, params, st).error == UnknownRegister(params[i])
  {
  }

  // When each form fails. Python evaluates the right-hand side first, left to
  // right, then the destination, so the first operand that does not resolve
  // decides the error.

  /** The error of reading operand i when it is missing or names no register. */
  function ReadError(params: seq<string>, i: nat): Error
  {
    if i < |params| then UnknownRegister(params[i]) else IndexError
  }

  /** `move`, `negu`, `not`, `clo`, `clz` fail exactly when the source or the
      destination does not resolve; the source is read first. */
  lemma UnaryFails(op: UnaryOp, params: seq<string>, st: State)
    requires WellFormed(st)
    ensures UnaryStep(op, params, st).Err? <==> !(Resolves(params, 0) && Resolves(params, 1))
    ensures !Resolves(params, 1) ==> UnaryStep(op, params, st) == Err(ReadError(params, 1))
    ensures Resolves(params, 1) && !Resolves(params, 0) ==> UnaryStep(op, params, st) == Err(ReadError(params, 0))
  {
  }

  /** `li`/`lui` fail exactly when the immediate is missing or malformed or the
      destination does not resolve; the immediate is read first. */
  lemma LoadFails(upper: bool, params: seq<string>, st: State)
    requires WellFormed(st)
    ensures LoadStep(upper, params, st).Err? <==> !(|params| > 1 && ParseInt(params[1]).Ok? && Resolves(params, 0))
    ensures |params| <= 1 ==> LoadStep(upper, params, st) == Err(IndexError)
    ensures |params| > 1 && ParseInt(params[1]).Err? ==> LoadStep(upper, params, st) == Err(MalformedInteger(params[1]))
  {
  }

  /** The register/immediate forms fail exactly when the source, the immediate
      or the destination is missing or bad; the source is read first. */
  lemma ImmediateFails(op: BinaryOp, params: seq<string>, st: State)
    requires WellFormed(st)
    ensures ImmediateStep(op, params, st).Err? <==>
      !(Resolves(params, 1) && |params| > 2 && ParseInt(params[2]).Ok? && Resolves(params, 0))
    ensures !Resolves(params, 1) ==> ImmediateStep(op, params, st) == Err(ReadError(params, 1))
  {
  }

  /** `sll`/`sra`/`srl` fail exactly when an operand is missing or bad or the
      count is negative; the source is read first. */
  lemma ShiftImmediateFails(left: bool, params: seq<string>, st: State)
    requires WellFormed(st)
    ensures ShiftImmediateStep(left, params, st).Err? <==>
      !(Resolves(params, 1) && |params| > 2 && ParseInt(params[2]).Ok? && ParseInt(params[2]).value >= 0
        && Resolves(params, 0))
    ensures !Resolves(params, 1) ==> ShiftImmediateStep(left, params, st) == Err(ReadError(params, 1))
  {
  }

  /** `sllv`/`srav`/`srlv` fail exactly when one of the three registers does
      not resolve; the count register is read first. */
  lemma ShiftRegisterFails(left: bool, params: seq<string>, st: State)
    requires WellFormed(st)
    ensures ShiftRegisterStep(left, params, st).Err? <==> !ThreeRegisters(params)
    ensures !Resolves(params, 2) ==> ShiftRegisterStep(left, params, st) == Err(ReadError(params, 2))
  {
  }

  /** `movn`/`movz` fail when the test register does not resolve, or when the
      move is taken and the source or the destination does not. */
  lemma MoveIfFails(onZero: bool, params: seq<string>, st: State)
    requires WellFormed(st)
    ensures MoveIfStep(onZero, params, st).Err? <==>
      !Resolves(params, 2)
      || ((Val(params, 2, st) == 0) == onZero && !(Resolves(params, 0) && Resolves(params, 1)))
    ensures !Resolves(params, 2) ==> MoveIfStep(onZero, params, st) == Err(ReadError(params, 2))
  {
  }

  /** `slt`/`sltu` fail exactly when one of the three registers does not
      resolve; the first source is read first. */
  lemma SetLessFails(params: seq<string>, st: State)
    requires WellFormed(st)
    ensures Perform(SetLess, params, st).Err? <==> !ThreeRegisters(params)
    ensures !Resolves(params, 1) ==> Perform(SetLess, params, st) == Err(ReadError(params, 1))
  {
  }

  /** `slti`/`sltiu` fail exactly when the source, the immediate or the
      destination is missing or bad; the source is read first. */
  lemma SetLessImmediateFails(params: seq<string>, st: State)
    requires WellFormed(st)
    ensures Perform(SetLessImmediate, params, st).Err? <==>
      !(Resolves(params, 1) && |params| > 2 && ParseInt(params[2]).Ok? && Resolves(params, 0))
    ensures !Resolves(params, 1) ==> Perform(SetLessImmediate, params, st) == Err(ReadError(params, 1))
  {
  }
  /** A register/immediate form writes `a op n` for the literal n. */
  lemma ImmediateFormWrite(op: BinaryOp, params: seq<string>, st: State, n: int)
    requires WellFormed(st) && Resolves(params, 0) && Resolves(params, 1)
    requires |params| > 2 && ParseInt(params[2]) == Ok(n)
    ensures ImmediateStep(op, params, st) == Ok(SetReg(st, Slot(params, 0), Apply(op, Val(params, 1, st), n)))
  {
  }

  /** The one-source forms write `f(a)`. */
  lemma UnaryFormWrite(op: UnaryOp, params: seq<string>, st: State)
    requires WellFormed(st) && Resolves(params, 0) && Resolves(params, 1)
    ensures UnaryStep(op, params, st) == Ok(SetReg(st, Slot(params, 0), ApplyUnary(op, Val(params, 1, st))))
  {
  }

  lemma UnaryValueWrite(op: UnaryOp, params: seq<string>, st: State, v: int)
    requires WellFormed(st) && Resolves(params, 0) && Resolves(params, 1)
    requires ApplyUnary(op, Val(params, 1, st)) == v
    ensures UnaryStep(op, params, st) == Ok(SetReg(st, Slot(params, 0), v))
  {
    UnaryFormWrite(op, params, st);
  }

  /** A literal shift count: a left shift multiplies by 2^n, a right shift
      floor-divides by 2^n, and a negative count fails once the operands are read. */
  lemma ShiftImmediateFormWrite(left: bool, params: seq<string>, st: State, n: int)
    requires WellFormed(st) && Resolves(params, 0) && Resolves(params, 1)
    requires |params| > 2 && ParseInt(params[2]) == Ok(n)
    ensures n < 0 ==> ShiftImmediateStep(left, params, st) == Err(NegativeShiftCount(n))
    ensures n >= 0 ==> var a := Val(params, 1, st);
      ShiftImmediateStep(left, params, st) == Ok(SetReg(st, Slot(params, 0), if left then a * Pow2(n) else a / Pow2(n)))
  {
    if n >= 0 {
      var a := Val(params, 1, st);
      if left {
        assert ShiftLeft(a, n) == Ok(a * Pow2(n));
      } else {
        assert ShiftRight(a, n) == Ok(a / Pow2(n));
      }
    }
  }

  /** A register shift count: the low five bits of the count register's magnitude. */
  lemma ShiftRegisterFormWrite(left: bool, params: seq<string>, st: State)
    requires WellFormed(st) && ThreeRegisters(params)
    ensures var a, s := Val(params, 1, st), Pow2(Abs(Val(params, 2, st)) % 32);
      ShiftRegisterStep(left, params, st) == Ok(SetReg(st, Slot(params, 0), if left then a * s else a / s))
  {
    ShiftAmountIsLowBits(Val(params, 2, st));
  }

  // ---------------------------------------------------------------------
  // Which form each mnemonic selects
  // ---------------------------------------------------------------------

  /** The operator of a three-register mnemonic. */
  function RegisterOp(code: string): BinaryOp
  {
    if code in {"add", "addu"} then Plus else if code in {"sub", "subu"} then Minus
    else if code == "and" then AndBits else if code == "or" then OrBits
    else if code == "xor" then XorBits else NorBits
  }

  /** The operator of a register/immediate mnemonic. */
  function ImmediateOp(code: string): BinaryOp
  {
    if code == "andi" then AndBits else if code == "ori" then OrBits
    else if code == "xori" then XorBits else Plus
  }

  const RegisterOpcodes: set<string> := {"add", "addu", "sub", "subu", "and", "or", "xor", "nor"}
  const ImmediateOpcodes: set<string> := {"addi", "addiu", "andi", "ori", "xori"}

  // ---------------------------------------------------------------------
  // The chain on each mnemonic
  // ---------------------------------------------------------------------

  // One lemma per mnemonic: the branch of the chain it reaches. Reading the
  // chain on one literal at a time, and grouping mnemonics two or four at a
  // time below, keeps every proof about the chain within the solver's budget.

  lemma ClassifyAdd()
    ensures Classify("add") == RegisterForm(Plus)
  {
  }

  lemma ClassifyAddu()
    ensures Classify("addu") == RegisterForm(Plus)
  {
  }

  lemma ClassifySub()
    ensures Classify("sub") == RegisterForm(Minus)
  {
  }

  lemma ClassifySubu()
    ensures Classify("subu") == RegisterForm(Minus)
  {
  }

  lemma ClassifyAnd()
    ensures Classify("and") == RegisterForm(AndBits)
  {
  }

  lemma ClassifyOr()
    ensures Classify("or") == RegisterForm(OrBits)
  {
  }

  lemma ClassifyXor()
    ensures Classify("xor") == RegisterForm(XorBits)
  {
  }

  lemma ClassifyNor()
    ensures Classify("nor") == RegisterForm(NorBits)
  {
  }

  lemma ClassifyAddi()
    ensures Classify("addi") == ImmediateForm(Plus)
  {
  }

  lemma ClassifyAddiu()
    ensures Classify("addiu") == ImmediateForm(Plus)
  {
  }

  lemma ClassifyAndi()
    ensures Classify("andi") == ImmediateForm(AndBits)
  {
  }

  lemma ClassifyOri()
    ensures Classify("ori") == ImmediateForm(OrBits)
  {
  }

  lemma ClassifyXori()
    ensures Classify("xori") == ImmediateForm(XorBits)
  {
  }

  lemma ClassifyMove()
    ensures Classify("move") == UnaryForm(Copy)
  {
  }

  lemma ClassifyNegu()
    ensures Classify("negu") == UnaryForm(Negate)
  {
  }

  lemma ClassifyNot()
    ensures Classify("not") == UnaryForm(Complement)
  {
  }

  lemma ClassifySll()
    ensures Classify("sll") == ShiftByImmediate(true)
  {
  }

  lemma ClassifySra()
    ensures Classify("sra") == ShiftByImmediate(false)
  {
  }

  lemma ClassifySrl()
    ensures Classify("srl") == ShiftByImmediate(false)
  {
  }

  lemma ClassifySllv()
    ensures Classify("sllv") == ShiftByRegister(true)
  {
  }

  lemma ClassifySrav()
    ensures Classify("srav") == ShiftByRegister(false)
  {
  }

  lemma ClassifySrlv()
    ensures Classify("srlv") == ShiftByRegister(false)
  {
  }

  lemma ClassifySlt()
    ensures Classify("slt") == SetLess
  {
  }

  lemma ClassifySltu()
    ensures Classify("sltu") == SetLess
  {
  }

  lemma ClassifySlti()
    ensures Classify("slti") == SetLessImmediate
  {
  }

  lemma ClassifySltiu()
    ensures Classify("sltiu") == SetLessImmediate
  {
  }

  lemma ClassifyLi()
    ensures Classify("li") == LoadImmediate
  {
  }

  lemma ClassifyLui()
    ensures Classify("lui") == LoadUpper
  {
  }

  lemma ClassifyClo()
    ensures Classify("clo") == UnaryForm(OnesCount)
  {
  }

  lemma ClassifyClz()
    ensures Classify("clz") == UnaryForm(ZerosCount)
  {
  }

  lemma ClassifyMovn()
    ensures Classify("movn") == MoveIf(false)
  {
  }

  lemma ClassifyMovz()
    ensures Classify("movz") == MoveIf(true)
  {
  }

  lemma ClassifyJr()
    ensures Classify("jr") == JumpRegister
  {
  }

  lemma ClassifyLa()
    ensures Classify("la") == Reserved
  {
  }

  lemma ClassifySeb()
    ensures Classify("seb") == Reserved
  {
  }

  lemma ClassifySeh()
    ensures Classify("seh") == Reserved
  {
  }

  lemma ClassifyRotr()
    ensures Classify("rotr") == Reserved
  {
  }

  lemma ClassifyRotrv()
    ensures Classify("rotrv") == Reserved
  {
  }

  lemma ClassifyExt()
    ensures Classify("ext") == Reserved
  {
  }

  lemma ClassifyIns()
    ensures Classify("ins") == Reserved
  {
  }

  lemma ClassifyWsbh()
    ensures Classify("wsbh") == Reserved
  {
  }

  /** Each class lemma below reads the mnemonics of one class off the chain. */
  lemma ArithmeticClass(code: string)
    requires code in {"add", "addu", "sub", "subu"}
    ensures Classify(code) == RegisterForm(RegisterOp(code))
  {
    if code == "add" {
      ClassifyAdd();
    } else if code == "addu" {
      ClassifyAddu();
    } else if code == "sub" {
      ClassifySub();
    } else {
      ClassifySubu();
    }
  }

  lemma BitwiseClass(code: string)
    requires code in {"and", "or", "xor", "nor"}
    ensures Classify(code) == RegisterForm(RegisterOp(code))
  {
    if code in {"and", "or"} {
      AndOrClass(code);
    } else {
      XorNorClass(code);
    }
  }

  // AndOrClass, XorNorClass and the two halves of ReservedClass only split the
  // case analysis to stay within the solver's budget.

  lemma AndOrClass(code: string)
    requires code in {"and", "or"}
    ensures Classify(code) == RegisterForm(RegisterOp(code))
  {
    if code == "and" {
      ClassifyAnd();
    } else {
      ClassifyOr();
    }
  }

  lemma XorNorClass(code: string)
    requires code in {"xor", "nor"}
    ensures Classify(code) == RegisterForm(RegisterOp(code))
  {
    if code == "xor" {
      ClassifyXor();
    } else {
      ClassifyNor();
    }
  }

  lemma RegisterClass(code: string)
    requires code in RegisterOpcodes
    ensures Classify(code) == RegisterForm(RegisterOp(code))
  {
    if code in {"add", "addu", "sub", "subu"} {
      ArithmeticClass(code);
    } else {
      BitwiseClass(code);
    }
  }

  lemma ImmediateClass(code: string)
    requires code in ImmediateOpcodes
    ensures Classify(code) == ImmediateForm(ImmediateOp(code))
  {
    if code == "addi" {
      ClassifyAddi();
    } else if code == "addiu" {
      ClassifyAddiu();
    } else if code == "andi" {
      ClassifyAndi();
    } else if code == "ori" {
      ClassifyOri();
    } else {
      ClassifyXori();
    }
  }

  lemma UnaryClass(code: string)
    requires code in {"move", "negu", "not"}
    ensures Classify(code) == UnaryForm(if code == "move" then Copy else if code == "negu" then Negate else Complement)
  {
    if code == "move" {
      ClassifyMove();
    } else if code == "negu" {
      ClassifyNegu();
    } else {
      ClassifyNot();
    }
  }

  lemma ShiftImmediateClass(code: string)
    requires code in {"sll", "sra", "srl"}
    ensures Classify(code) == ShiftByImmediate(code == "sll")
  {
    if code == "sll" {
      ClassifySll();
    } else if code == "sra" {
      ClassifySra();
    } else {
      ClassifySrl();
    }
  }

  lemma ShiftRegisterClass(code: string)
    requires code in {"sllv", "srav", "srlv"}
    ensures Classify(code) == ShiftByRegister(code == "sllv")
  {
    if code == "sllv" {
      ClassifySllv();
    } else if code == "srav" {
      ClassifySrav();
    } else {
      ClassifySrlv();
    }
  }

  lemma SetLessClass(code: string)
    requires code in {"slt", "sltu"}
    ensures Classify(code) == SetLess
  {
    if code == "slt" {
      ClassifySlt();
    } else {
      ClassifySltu();
    }
  }

  lemma SetLessImmediateClass(code: string)
    requires code in {"slti", "sltiu"}
    ensures Classify(code) == SetLessImmediate
  {
    if code == "slti" {
      ClassifySlti();
    } else {
      ClassifySltiu();
    }
  }

  // ---------------------------------------------------------------------
  // The opcodes
  // ---------------------------------------------------------------------

  /** `add`/`addu` and `sub`/`subu` write the exact sum and difference, with no wrap-around. */
  lemma AddSubWrite(code: string, params: seq<string>, st: State)
    requires WellFormed(st) && ThreeRegisters(params)
    requires code in {"add", "addu", "sub", "subu"}
    ensures var a, b := Val(params, 1, st), Val(params, 2, st);
      Dispatch(code, params, st) == Ok(SetReg(st, Slot(params, 0), if code in {"add", "addu"} then a + b else a - b))
  {
    ArithmeticClass(code);
    RegisterForm3(RegisterOp(code), params, st);
  }

  /** `and`, `or`, `xor`, and `nor`, which writes the complement of the AND of its sources. */
  lemma BitwiseWrite(code: string, params: seq<string>, st: State)
    requires WellFormed(st) && ThreeRegisters(params)
    requires code in {"and", "or", "xor", "nor"}
    ensures var a, b := Val(params, 1, st), Val(params, 2, st);
      Dispatch(code, params, st) == Ok(SetReg(st, Slot(params, 0),
        if code == "and" then And(a, b) else if code == "or" then Or(a, b)
        else if code == "xor" then Xor(a, b) else Not(And(a, b))))
  {
    RegisterDispatch(code, params, st);
    RegisterForm3(RegisterOp(code), params, st);
    BitwiseValue(code, Val(params, 1, st), Val(params, 2, st));
  }

  lemma BitwiseValue(code: string, a: int, b: int)
    requires code in {"and", "or", "xor", "nor"}
    ensures Apply(RegisterOp(code), a, b) ==
      if code == "and" then And(a, b) else if code == "or" then Or(a, b)
      else if code == "xor" then Xor(a, b) else Not(And(a, b))
  {
    if code == "nor" {
      NorIsNand(a, b);
    }
  }

  lemma RegisterDispatch(code: string, params: seq<string>, st: State)
    requires WellFormed(st) && code in RegisterOpcodes
    ensures Dispatch(code, params, st) == RegisterStep(RegisterOp(code), params, st)
  {
    RegisterClass(code);
  }

  /** A register form fails on a missing operand or an operand that names no register. */
  lemma RegisterOpcodeNeedsRegisters(code: string, params: seq<string>, st: State)
    requires WellFormed(st) && !ThreeRegisters(params)
    requires code in RegisterOpcodes
    ensures Dispatch(code, params, st).Err?
  {
    RegisterClass(code);
    RegisterForm3(RegisterOp(code), params, st);
  }

  /** `addi`/`addiu` add `int(params[2])`; `andi`, `ori`, `xori` combine it bitwise. */
  lemma ImmediateWrite(code: string, params: seq<string>, st: State, n: int)
    requires WellFormed(st) && Resolves(params, 0) && Resolves(params, 1)
    requires |params| > 2 && ParseInt(params[2]) == Ok(n)
    requires code in {"addi", "addiu", "andi", "ori", "xori"}
    ensures var a := Val(params, 1, st);
      Dispatch(code, params, st) == Ok(SetReg(st, Slot(params, 0),
        if code == "andi" then And(a, n) else if code == "ori" then Or(a, n)
        else if code == "xori" then Xor(a, n) else a + n))
  {
    ImmediateClass(code);
    ImmediateFormWrite(ImmediateOp(code), params, st, n);
  }

  /** An immediate that int() rejects stops the instruction, reporting that
      text: for `li`/`lui` the immediate is `params[1]` and is read first; for
      the others it is `params[2]`, read once the source register is. */
  lemma MalformedImmediateFails(code: string, params: seq<string>, st: State)
    requires WellFormed(st)
    requires code in {"li", "lui", "addi", "addiu", "andi", "ori", "xori", "slti", "sltiu", "sll", "sra", "srl"}
    ensures code in {"li", "lui"} && |params| > 1 && ParseInt(params[1]).Err? ==>
      Dispatch(code, params, st) == Err(MalformedInteger(params[1]))
    ensures code !in {"li", "lui"} && Resolves(params, 1) && |params| > 2 && ParseInt(params[2]).Err? ==>
      Dispatch(code, params, st) == Err(MalformedInteger(params[2]))
  {
    if code in {"li", "lui"} {
      MalformedLoadFails(code, params, st);
    } else {
      MalformedOperandFails(code, params, st);
    }
  }

  lemma MalformedLoadFails(code: string, params: seq<string>, st: State)
    requires WellFormed(st) && code in {"li", "lui"}
    ensures |params| > 1 && ParseInt(params[1]).Err? ==> Dispatch(code, params, st) == Err(MalformedInteger(params[1]))
  {
    if code == "li" {
      ClassifyLi();
    } else {
      ClassifyLui();
    }
  }

  lemma MalformedOperandFails(code: string, params: seq<string>, st: State)
    requires WellFormed(st)
    requires code in {"addi", "addiu", "andi", "ori", "xori", "slti", "sltiu", "sll", "sra", "srl"}
    ensures Resolves(params, 1) && |params| > 2 && ParseInt(params[2]).Err? ==>
      Dispatch(code, params, st) == Err(MalformedInteger(params[2]))
  {
    if code in ImmediateOpcodes {
      ImmediateClass(code);
    } else if code in {"slti", "sltiu"} {
      SetLessImmediateClass(code);
    } else {
      ShiftImmediateClass(code);
    }
  }

  /** `li` loads N; `lui` loads N << 16, that is N * 65536. */
  lemma LoadImmediateWrite(code: string, params: seq<string>, st: State, n: int)
    requires WellFormed(st) && Resolves(params, 0)
    requires |params| > 1 && ParseInt(params[1]) == Ok(n)
    requires code == "li" || code == "lui"
    ensures Dispatch(code, params, st) == Ok(SetReg(st, Slot(params, 0), if code == "li" then n else n * 0x1_0000))
  {
    if code == "li" {
      ClassifyLi();
      LoadFormWrite(false, params, st, n);
    } else {
      ClassifyLui();
      LoadFormWrite(true, params, st, n);
    }
  }

  lemma LoadFormWrite(upper: bool, params: seq<string>, st: State, n: int)
    requires WellFormed(st) && Resolves(params, 0)
    requires |params| > 1 && ParseInt(params[1]) == Ok(n)
    ensures LoadStep(upper, params, st) == Ok(SetReg(st, Slot(params, 0), if upper then n * 0x1_0000 else n))
  {
    Pow2Constants();
  }

  /** `move` copies, `negu` negates and `not` complements the source register. */
  lemma UnaryWrite(code: string, params: seq<string>, st: State)
    requires WellFormed(st) && Resolves(params, 0) && Resolves(params, 1)
    requires code in {"move", "negu", "not"}
    ensures var a := Val(params, 1, st);
      Dispatch(code, params, st) == Ok(SetReg(st, Slot(params, 0),
        if code == "move" then a else if code == "negu" then -a else -a - 1))
  {
    UnaryClass(code);
    UnaryFormWrite(if code == "move" then Copy else if code == "negu" then Negate else Complement, params, st);
  }

  lemma CountClass(code: string)
    requires code in {"clo", "clz"}
    ensures Classify(code) == UnaryForm(if code == "clo" then OnesCount else ZerosCount)
  {
    if code == "clo" {
      ClassifyClo();
    } else {
      ClassifyClz();
    }
  }

  /** `clo` writes the number of 1 bits of the source's magnitude, whatever its sign or width. */
  lemma CountOnesWrite(code: string, params: seq<string>, st: State)
    requires WellFormed(st) && Resolves(params, 0) && Resolves(params, 1)
    requires code == "clo"
    ensures Dispatch(code, params, st) == Ok(SetReg(st, Slot(params, 0), PopCount(Abs(Val(params, 1, st)))))
  {
    CountDispatch(code, params, st);
    OnesStep(params, st);
  }

  lemma OnesStep(params: seq<string>, st: State)
    requires WellFormed(st) && Resolves(params, 0) && Resolves(params, 1)
    ensures UnaryStep(OnesCount, params, st) == Ok(SetReg(st, Slot(params, 0), PopCount(Abs(Val(params, 1, st)))))
  {
    UnaryFormWrite(OnesCount, params, st);
    OnesOfValue(Val(params, 1, st));
  }

  lemma OnesOfValue(a: int)
    ensures ApplyUnary(OnesCount, a) == PopCount(Abs(a))
  {
    CountOnesIsPopCount(a);
  }

  /** On a 32-bit source `clz` writes 32 minus its number of 1 bits: all its
      0 bits, not only the leading ones. */
  lemma CountZerosWrite(code: string, params: seq<string>, st: State)
    requires WellFormed(st) && Resolves(params, 0) && Resolves(params, 1)
    requires code == "clz" && 0 <= Val(params, 1, st) < 0x1_0000_0000
    ensures Dispatch(code, params, st) == Ok(SetReg(st, Slot(params, 0), 32 - PopCount(Val(params, 1, st))))
  {
    CountDispatch(code, params, st);
    ZerosOfWordStep(params, st);
  }

  lemma ZerosOfWordStep(params: seq<string>, st: State)
    requires WellFormed(st) && Resolves(params, 0) && Resolves(params, 1)
    requires 0 <= Val(params, 1, st) < 0x1_0000_0000
    ensures UnaryStep(ZerosCount, params, st) == Ok(SetReg(st, Slot(params, 0), 32 - PopCount(Val(params, 1, st))))
  {
    var a := Val(params, 1, st);
    ZerosOfWord(a);
    UnaryValueWrite(ZerosCount, params, st, 32 - PopCount(a));
  }

  lemma ZerosOfWord(a: int)
    requires 0 <= a < 0x1_0000_0000
    ensures ApplyUnary(ZerosCount, a) == 32 - PopCount(a)
  {
    CountZerosOfWord(a);
  }

  lemma CountDispatch(code: string, params: seq<string>, st: State)
    requires WellFormed(st) && code in {"clo", "clz"}
    ensures Dispatch(code, params, st) == UnaryStep(if code == "clo" then OnesCount else ZerosCount, params, st)
  {
    CountClass(code);
  }

  /** `sll` multiplies by 2^n and `sra`/`srl` floor-divide by 2^n for a literal
      count n >= 0; a negative count fails. */
  lemma ShiftImmediateWrite(code: string, params: seq<string>, st: State, n: int)
    requires WellFormed(st) && Resolves(params, 0) && Resolves(params, 1)
    requires |params| > 2 && ParseInt(params[2]) == Ok(n)
    requires code in {"sll", "sra", "srl"}
    ensures n < 0 ==> Dispatch(code, params, st) == Err(NegativeShiftCount(n))
    ensures n >= 0 ==> var a := Val(params, 1, st);
      Dispatch(code, params, st) == Ok(SetReg(st, Slot(params, 0), if code == "sll" then a * Pow2(n) else a / Pow2(n)))
  {
    ShiftImmediateClass(code);
    ShiftImmediateFormWrite(code == "sll", params, st, n);
  }

  /** `sllv` and `srav`/`srlv` shift by the low five bits of the magnitude of `rt`. */
  lemma ShiftVariableWrite(code: string, params: seq<string>, st: State)
    requires WellFormed(st) && ThreeRegisters(params)
    requires code in {"sllv", "srav", "srlv"}
    ensures var a, s := Val(params, 1, st), Pow2(Abs(Val(params, 2, st)) % 32);
      Dispatch(code, params, st) == Ok(SetReg(st, Slot(params, 0), if code == "sllv" then a * s else a / s))
  {
    ShiftRegisterClass(code);
    ShiftRegisterFormWrite(code == "sllv", params, st);
  }

  /** `movn` copies when `rt` is non-zero and `movz` when it is zero; otherwise
      nothing changes and the other two operands are never looked at. */
  lemma ConditionalMove(code: string, params: seq<string>, st: State)
    requires WellFormed(st) && Resolves(params, 2)
    requires code == "movn" || code == "movz"
    ensures var c := Val(params, 2, st); var moves := if code == "movn" then c != 0 else c == 0;
      (!moves ==> Dispatch(code, params, st) == Ok(st))
      && (moves && Resolves(params, 0) && Resolves(params, 1) ==>
            Dispatch(code, params, st) == Ok(SetReg(st, Slot(params, 0), Val(params, 1, st))))
  {
    MoveClass(code);
  }

  lemma MoveClass(code: string)
    requires code == "movn" || code == "movz"
    ensures Classify(code) == MoveIf(code == "movz")
  {
    if code == "movn" {
      ClassifyMovn();
    } else {
      ClassifyMovz();
    }
  }

  /** `slt`/`sltu` set rd to 1 and bump the program counter when rs < rt, else set rd to 0. */
  lemma SetLessThan(code: string, params: seq<string>, st: State)
    requires WellFormed(st) && ThreeRegisters(params)
    requires code == "slt" || code == "sltu"
    ensures var less := Val(params, 1, st) < Val(params, 2, st);
      Dispatch(code, params, st) == Ok(State(st.regs[Slot(params, 0) := if less then 1 else 0],
                                             if less then st.pc + 1 else st.pc))
  {
    SetLessClass(code);
    SetLessRegisters(params, st);
  }

  lemma SetLessRegisters(params: seq<string>, st: State)
    requires WellFormed(st) && ThreeRegisters(params)
    ensures var less := Val(params, 1, st) < Val(params, 2, st);
      Perform(SetLess, params, st) == Ok(State(st.regs[Slot(params, 0) := if less then 1 else 0],
                                               if less then st.pc + 1 else st.pc))
  {
  }

  /** `slti`/`sltiu`: the same against `int(params[2])`. */
  lemma SetLessThanImmediate(code: string, params: seq<string>, st: State, n: int)
    requires WellFormed(st) && Resolves(params, 0) && Resolves(params, 1)
    requires |params| > 2 && ParseInt(params[2]) == Ok(n)
    requires code == "slti" || code == "sltiu"
    ensures var less := Val(params, 1, st) < n;
      Dispatch(code, params, st) == Ok(State(st.regs[Slot(params, 0) := if less then 1 else 0],
                                             if less then st.pc + 1 else st.pc))
  {
    SetLessImmediateClass(code);
    SetLessLiteral(params, st, n);
  }

  lemma SetLessLiteral(params: seq<string>, st: State, n: int)
    requires WellFormed(st) && Resolves(params, 0) && Resolves(params, 1)
    requires |params| > 2 && ParseInt(params[2]) == Ok(n)
    ensures var less := Val(params, 1, st) < n;
      Perform(SetLessImmediate, params, st) == Ok(State(st.regs[Slot(params, 0) := if less then 1 else 0],
                                                        if less then st.pc + 1 else st.pc))
  {
  }

  /** `jr` sets the program counter to `ra` and touches no register; its operand is ignored. */
  lemma JumpRegisterSetsPc(params: seq<string>, st: State)
    requires WellFormed(st)
    ensures Dispatch("jr", params, st) == Ok(State(st.regs, st.regs[RA]))
  {
    ClassifyJr();
  }

  /** Every opcode `ex` recognises. */
  const KnownOpcodes: set<string> := {
    "add", "addu", "addi", "addiu", "clo", "clz", "la", "li", "lui", "move", "negu",
    "seb", "seh", "sub", "subu", "rotr", "rotrv", "sll", "sllv", "sra", "srl", "srav", "srlv",
    "and", "andi", "ext", "ins", "nor", "not", "or", "ori", "wsbh", "xor", "xori",
    "movn", "movz", "slt", "sltu", "slti", "sltiu", "jr"
  }

  /** An opcode that is not a label falls through to the final `else` exactly
      when it is none of the recognised mnemonics. */
  lemma UnrecognizedIffUnknown(code: string)
    requires code != [] && code[|code| - 1] != ':'
    ensures Classify(code) == Unrecognized <==> code !in KnownOpcodes
  {
    if code in KnownOpcodes {
      KnownIsRecognized(code);
    } else {
      UnknownIsUnrecognized(code);
    }
  }

  lemma KnownIsRecognized(code: string)
    requires code != [] && code[|code| - 1] != ':' && code in KnownOpcodes
    ensures Classify(code) != Unrecognized
  {
    if code in RegisterOpcodes {
      RegisterClass(code);
    } else if code in ImmediateOpcodes {
      ImmediateClass(code);
    } else if code in {"move", "negu", "not"} {
      UnaryClass(code);
    } else if code in {"clo", "clz"} {
      CountClass(code);
    } else if code in ReservedOpcodes {
      ReservedClass(code);
    } else if code in {"sll", "sra", "srl"} {
      ShiftImmediateClass(code);
    } else if code in {"sllv", "srav", "srlv"} {
      ShiftRegisterClass(code);
    } else if code in {"movn", "movz"} {
      MoveClass(code);
    } else if code in {"slt", "sltu"} {
      SetLessClass(code);
    } else if code in {"slti", "sltiu"} {
      SetLessImmediateClass(code);
    } else if code == "li" {
      ClassifyLi();
    } else if code == "lui" {
      ClassifyLui();
    } else {
      ClassifyJr();
    }
  }

  lemma UnknownIsUnrecognized(code: string)
    requires code != [] && code[|code| - 1] != ':' && code !in KnownOpcodes
    ensures Classify(code) == Unrecognized
  {
  }

  /** The reserved opcodes: `la` and the Release 2 placeholders. */
  const ReservedOpcodes: set<string> := {"la", "seb", "seh", "rotr", "rotrv", "ext", "ins", "wsbh"}

  lemma ReservedClass(code: string)
    requires code in ReservedOpcodes
    ensures Classify(code) == Reserved
  {
    if code in {"la", "seb", "seh", "rotr"} {
      EarlyReservedClass(code);
    } else {
      LateReservedClass(code);
    }
  }

  lemma EarlyReservedClass(code: string)
    requires code in {"la", "seb", "seh", "rotr"}
    ensures Classify(code) == Reserved
  {
    if code == "la" {
      ClassifyLa();
    } else if code == "seb" {
      ClassifySeb();
    } else if code == "seh" {
      ClassifySeh();
    } else {
      ClassifyRotr();
    }
  }

  lemma LateReservedClass(code: string)
    requires code in {"rotrv", "ext", "ins", "wsbh"}
    ensures Classify(code) == Reserved
  {
    if code == "rotrv" {
      ClassifyRotrv();
    } else if code == "ext" {
      ClassifyExt();
    } else if code == "ins" {
      ClassifyIns();
    } else {
      ClassifyWsbh();
    }
  }

  /** Reserved opcodes change nothing and never fail, whatever their operands. */
  lemma ReservedDoNothing(code: string, params: seq<string>, st: State)
    requires WellFormed(st) && code in ReservedOpcodes
    ensures Dispatch(code, params, st) == Ok(st)
  {
    ReservedClass(code);
  }

  /** Every opcode `ex` does not know is a no-op, whatever its operands. */
  lemma UnknownDoesNothing(code: string, params: seq<string>, st: State)
    requires WellFormed(st) && code != [] && code[|code| - 1] != ':' && code !in KnownOpcodes
    ensures Dispatch(code, params, st) == Ok(st)
  {
    UnrecognizedIffUnknown(code);
  }
}
