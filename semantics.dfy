/** The reference semantics of the executor `ex` and the loop `start`, as
    functions over an explicit machine state. The imperative machine in
    module Interpreter is proved to compute exactly these. */
module Semantics {
  import opened Outcomes
  import opened Registers
  import opened Text
  import opened Bits

  /** The register file and the program counter. */
  datatype State = State(regs: seq<int>, pc: int)

  predicate WellFormed(st: State) { |st.regs| == RegCount }

  /** `REGS[d] = v`: one register replaced, the program counter kept. */
  function SetReg(st: State, d: nat, v: int): (r: State)
    requires WellFormed(st) && d < RegCount
    ensures WellFormed(r) && r.pc == st.pc && r.regs[d] == v
    ensures forall j :: 0 <= j < RegCount && j != d ==> r.regs[j] == st.regs[j]
  {
    st.(regs := st.regs[d := v])
  }

  // ---------------------------------------------------------------------
  // Operand access, in the order Python evaluates it
  // ---------------------------------------------------------------------

  /** `params[i]`. */
  function Operand(params: seq<string>, i: nat): Result<string>
  {
    if i < |params| then Ok(params[i]) else Err(IndexError)
  }

  /** `REGS_DICT[params[i]]`: the slot an operand names. */
  function Target(params: seq<string>, i: nat): (r: Result<nat>)
    ensures r.Ok? ==> i < |params| && r.value < RegCount && RegNames[r.value] == params[i]
    ensures i >= |params| ==> r == Err(IndexError)
    ensures i < |params| && r.Err? ==> r == Err(UnknownRegister(params[i]))
  {
    var name :- Operand(params, i);
    RegisterIndex(name)
  }

  /** `REGS[REGS_DICT[params[i]]]`: the value of the register an operand names. */
  function Source(params: seq<string>, i: nat, st: State): (r: Result<int>)
    requires WellFormed(st)
    ensures r.Ok? <==> Target(params, i).Ok?
    ensures r.Err? ==> r.error == Target(params, i).error
  {
    var r :- Target(params, i);
    Ok(st.regs[r])
  }

  /** `int(params[i])`. */
  function Immediate(params: seq<string>, i: nat): (r: Result<int>)
    ensures r.Ok? <==> i < |params| && ParseInt(params[i]).Ok?
    ensures i >= |params| ==> r == Err(IndexError)
    ensures i < |params| && r.Err? ==> r == Err(MalformedInteger(params[i]))
  {
    var text :- Operand(params, i);
    ParseInt(text)
  }

  /** The operands `decRegs` hands to `ex`: every token after the opcode, cleaned. */
  function Operands(inst: seq<string>): (params: seq<string>)
    requires inst != []
    ensures |params| == |inst| - 1
    ensures forall k :: 0 <= k < |params| ==> '$' !in params[k] && ',' !in params[k]
  {
    seq(|inst| - 1, k requires 0 <= k < |inst| - 1 => Strip(inst[k + 1]))
  }

  // ---------------------------------------------------------------------
  // One instruction
  // ---------------------------------------------------------------------

  /** The arithmetic and bitwise operators of the two- and three-operand forms. */
  datatype BinaryOp = Plus | Minus | AndBits | OrBits | XorBits | NorBits

  /** Python's operator for each: unbounded integers, no wrap-around;
      `nor` is `~a | ~b` as the program writes it. */
  function Apply(op: BinaryOp, a: int, b: int): int
  {
    match op
    case Plus => a + b
    case Minus => a - b
    case AndBits => And(a, b)
    case OrBits => Or(a, b)
    case XorBits => Xor(a, b)
    case NorBits => Nor(a, b)
  }

  /** The one-source operators: `move`, `negu`, `not`, `clo`, `clz`. */
  datatype UnaryOp = Copy | Negate | Complement | OnesCount | ZerosCount

  function ApplyUnary(op: UnaryOp, a: int): int
  {
    match op
    case Copy => a
    case Negate => -a
    case Complement => Not(a)
    case OnesCount => CountOnes(a)
    case ZerosCount => CountZeros(a)
  }

  /** The instruction classes `ex` tells apart; mnemonics with identical
      behaviour share a class. */
  datatype Opcode =
    | Label
    | RegisterForm(op: BinaryOp)        // add, addu, sub, subu, and, nor, or, xor
    | ImmediateForm(op: BinaryOp)       // addi, addiu, andi, ori, xori
    | UnaryForm(uop: UnaryOp)           // move, negu, not, clo, clz
    | LoadImmediate                     // li
    | LoadUpper                         // lui
    | ShiftByImmediate(left: bool)      // sll; sra, srl
    | ShiftByRegister(left: bool)       // sllv; srav, srlv
    | MoveIf(onZero: bool)              // movn; movz
    | SetLess                           // slt, sltu
    | SetLessImmediate                  // slti, sltiu
    | JumpRegister                      // jr
    | Reserved                          // la, seb, seh, rotr, rotrv, ext, ins, wsbh
    | Unrecognized                      // the final else

  /** The `if`/`elif` chain of `ex`, in the program's order: the label test
      first, then one test per mnemonic. */
  function Classify(code: string): (r: Opcode)
    requires code != []
    ensures r == Label <==> code[|code| - 1] == ':'
    ensures r.RegisterForm? ==> code in {"add", "addu", "sub", "subu", "and", "nor", "or", "xor"}
    ensures r.ImmediateForm? ==> code in {"addi", "addiu", "andi", "ori", "xori"}
    ensures r.UnaryForm? ==> code in {"clo", "clz", "move", "negu", "not"}
    ensures r == LoadImmediate ==> code == "li"
    ensures r == LoadUpper ==> code == "lui"
    ensures r.ShiftByImmediate? ==> code in {"sll", "sra", "srl"}
    ensures r.ShiftByRegister? ==> code in {"sllv", "srav", "srlv"}
    ensures r.MoveIf? ==> code in {"movn", "movz"}
    ensures r == SetLess ==> code in {"slt", "sltu"}
    ensures r == SetLessImmediate ==> code in {"slti", "sltiu"}
    ensures r == JumpRegister ==> code == "jr"
    ensures r == Reserved ==> code in {"la", "seb", "seh", "rotr", "rotrv", "ext", "ins", "wsbh"}
  {
    if code[|code| - 1] == ':' then Label
    else if code == "add" || code == "addu" then RegisterForm(Plus)
    else if code == "addi" || code == "addiu" then ImmediateForm(Plus)
    else if code == "clo" then UnaryForm(OnesCount)
    else if code == "clz" then UnaryForm(ZerosCount)
    else if code == "la" then Reserved
    else if code == "li" then LoadImmediate
    else if code == "lui" then LoadUpper
    else if code == "move" then UnaryForm(Copy)
    else if code == "negu" then UnaryForm(Negate)
    else if code == "seb" || code == "seh" then Reserved
    else if code == "sub" || code == "subu" then RegisterForm(Minus)
    else if code == "rotr" || code == "rotrv" then Reserved
    else if code == "sll" then ShiftByImmediate(true)
    else if code == "sllv" then ShiftByRegister(true)
    else if code == "sra" || code == "srl" then ShiftByImmediate(false)
    else if code == "srav" || code == "srlv" then ShiftByRegister(false)
    else if code == "and" then RegisterForm(AndBits)
    else if code == "andi" then ImmediateForm(AndBits)
    else if code == "ext" || code == "ins" then Reserved
    else if code == "nor" then RegisterForm(NorBits)
    else if code == "not" then UnaryForm(Complement)
    else if code == "or" then RegisterForm(OrBits)
    else if code == "ori" then ImmediateForm(OrBits)
    else if code == "wsbh" then Reserved
    else if code == "xor" then RegisterForm(XorBits)
    else if code == "xori" then ImmediateForm(XorBits)
    else if code == "movn" then MoveIf(false)
    else if code == "movz" then MoveIf(true)
    else if code == "slt" || code == "sltu" then SetLess
    else if code == "slti" || code == "sltiu" then SetLessImmediate
    else if code == "jr" then JumpRegister
    else Unrecognized
  }

  // Each form below reads its operands in the order Python evaluates them:
  // the right-hand side first, left to right, then the destination.

  /** `REGS[d] = REGS[s] op REGS[t]`. */
  function RegisterStep(op: BinaryOp, params: seq<string>, st: State): (r: Result<State>)
    requires WellFormed(st)
    ensures r.Ok? ==> WellFormed(r.value) && r.value.pc == st.pc
  {
    var a :- Source(params, 1, st); var b :- Source(params, 2, st); var d :- Target(params, 0);
    Ok(SetReg(st, d, Apply(op, a, b)))
  }

  /** `REGS[d] = REGS[s] op int(imm)`. */
  function ImmediateStep(op: BinaryOp, params: seq<string>, st: State): (r: Result<State>)
    requires WellFormed(st)
    ensures r.Ok? ==> WellFormed(r.value) && r.value.pc == st.pc
  {
    var a :- Source(params, 1, st); var n :- Immediate(params, 2); var d :- Target(params, 0);
    Ok(SetReg(st, d, Apply(op, a, n)))
  }

  /** `REGS[d] = f(REGS[s])`. */
  function UnaryStep(op: UnaryOp, params: seq<string>, st: State): (r: Result<State>)
    requires WellFormed(st)
    ensures r.Ok? ==> WellFormed(r.value) && r.value.pc == st.pc
  {
    var a :- Source(params, 1, st); var d :- Target(params, 0);
    Ok(SetReg(st, d, ApplyUnary(op, a)))
  }

  /** `li` writes `int(imm)`; `lui` writes `int(imm) << 16`. */
  function LoadStep(upper: bool, params: seq<string>, st: State): (r: Result<State>)
    requires WellFormed(st)
    ensures r.Ok? ==> WellFormed(r.value) && r.value.pc == st.pc
  {
    var n :- Immediate(params, 1); var d :- Target(params, 0);
    Ok(SetReg(st, d, if upper then ShiftLeft(n, 16).value else n))
  }

  /** `sll`: `REGS[s] << int(imm)`; `sra`/`srl`: `REGS[s] >> int(imm)`. */
  function ShiftImmediateStep(left: bool, params: seq<string>, st: State): (r: Result<State>)
    requires WellFormed(st)
    ensures r.Ok? ==> WellFormed(r.value) && r.value.pc == st.pc
  {
    var a :- Source(params, 1, st); var n :- Immediate(params, 2);
    var v :- if left then ShiftLeft(a, n) else ShiftRight(a, n);
    var d :- Target(params, 0);
    Ok(SetReg(st, d, v))
  }

  /** `sllv`/`srav`/`srlv`: the amount is read from the binary text of `REGS[t]` first. */
  function ShiftRegisterStep(left: bool, params: seq<string>, st: State): (r: Result<State>)
    requires WellFormed(st)
    ensures r.Ok? ==> WellFormed(r.value) && r.value.pc == st.pc
  {
    var s :- Source(params, 2, st); var a :- Source(params, 1, st); var d :- Target(params, 0);
    var amount := ShiftAmount(s);
    Ok(SetReg(st, d, if left then ShiftLeft(a, amount).value else ShiftRight(a, amount).value))
  }

  /** `movn`/`movz`: test `REGS[t]`; only when the test passes are the other operands read. */
  function MoveIfStep(onZero: bool, params: seq<string>, st: State): (r: Result<State>)
    requires WellFormed(st)
    ensures r.Ok? ==> WellFormed(r.value) && r.value.pc == st.pc
  {
    var c :- Source(params, 2, st);
    if (c == 0) == onZero then
      var a :- Source(params, 1, st); var d :- Target(params, 0);
      Ok(SetReg(st, d, a))
    else Ok(st)
  }

  /** `slt`-family: rd := 1 and an extra `PC += 1` when less, else rd := 0. */
  function SetLessStep(a: int, b: int, params: seq<string>, st: State): (r: Result<State>)
    requires WellFormed(st)
    ensures r.Ok? ==> WellFormed(r.value)
    ensures r.Ok? ==> r.value.pc == (if a < b then st.pc + 1 else st.pc)
    ensures r.Ok? <==> Target(params, 0).Ok?
    ensures r.Ok? ==> r.value.regs[Target(params, 0).value] == (if a < b then 1 else 0)
  {
    var d :- Target(params, 0);
    if a < b then Ok(SetReg(st, d, 1).(pc := st.pc + 1)) else Ok(SetReg(st, d, 0))
  }

  /** At most one register differs between the two states. */
  predicate OneWrite(before: State, after: State)
    requires WellFormed(before) && WellFormed(after)
  {
    forall j, k :: 0 <= j < k < RegCount && after.regs[j] != before.regs[j] ==> after.regs[k] == before.regs[k]
  }

  /** The branch of `ex` an instruction class runs. */
  function Perform(form: Opcode, params: seq<string>, st: State): (r: Result<State>)
    requires WellFormed(st)
    ensures r.Ok? ==> WellFormed(r.value) && OneWrite(st, r.value)
    ensures form.Label? || form.JumpRegister? || form.Reserved? || form.Unrecognized? ==> r.Ok?
    ensures form.Reserved? || form.Unrecognized? ==> r == Ok(st)
    ensures form.JumpRegister? ==> r.Ok? && r.value.regs == st.regs
    ensures r.Ok? && !(form.SetLess? || form.SetLessImmediate? || form.JumpRegister?) ==> r.value.pc == st.pc
    ensures r.Ok? && (form.SetLess? || form.SetLessImmediate?) ==> st.pc <= r.value.pc <= st.pc + 1
  {
    match form
    case Label => Ok(SetReg(st, RA, st.pc))
    case RegisterForm(op) => RegisterStep(op, params, st)
    case ImmediateForm(op) => ImmediateStep(op, params, st)
    case UnaryForm(op) => UnaryStep(op, params, st)
    case LoadImmediate => LoadStep(false, params, st)
    case LoadUpper => LoadStep(true, params, st)
    case ShiftByImmediate(left) => ShiftImmediateStep(left, params, st)
    case ShiftByRegister(left) => ShiftRegisterStep(left, params, st)
    case MoveIf(onZero) => MoveIfStep(onZero, params, st)
    case SetLess =>
      var a :- Source(params, 1, st); var b :- Source(params, 2, st);
      SetLessStep(a, b, params, st)
    case SetLessImmediate =>
      var a :- Source(params, 1, st); var n :- Immediate(params, 2);
      SetLessStep(a, n, params, st)
    case JumpRegister => Ok(st.(pc := st.regs[RA]))
    case Reserved => Ok(st)
    case Unrecognized => Ok(st)
  }

  /** The mnemonics that move the program counter inside `ex`. */
  const PcOpcodes: set<string> := {"jr", "slt", "sltu", "slti", "sltiu"}

  /** The effect of `ex` on an already decoded instruction. */
  function Dispatch(code: string, params: seq<string>, st: State): (r: Result<State>)
    requires WellFormed(st)
    ensures r.Ok? ==> WellFormed(r.value) && OneWrite(st, r.value)
    ensures code == [] ==> r == Err(IndexError)
    ensures r.Ok? && code !in PcOpcodes ==> r.value.pc == st.pc
  {
    if code == [] then Err(IndexError)   // code[-1] of an empty opcode
    else Perform(Classify(code), params, st)
  }

  /** `ex(inst)`: decode, then dispatch; `inst[0]` of an empty line is an IndexError. */
  function Exec(inst: seq<string>, st: State): (r: Result<State>)
    requires WellFormed(st)
    ensures r.Ok? ==> WellFormed(r.value) && OneWrite(st, r.value)
    ensures r.Ok? ==> inst != [] && inst[0] != []
    ensures r.Ok? && inst[0] !in PcOpcodes ==> r.value.pc == st.pc
  {
    if inst == [] then Err(IndexError) else Dispatch(inst[0], Operands(inst), st)
  }

  // ---------------------------------------------------------------------
  // The fetch/execute loop
  // ---------------------------------------------------------------------

  /** `IM[PC]` with Python's indexing: a negative index counts from the end. */
  function Fetch(im: seq<seq<string>>, pc: int): (r: Result<seq<string>>)
    ensures r.Ok? <==> -|im| <= pc < |im|
    ensures r.Err? ==> r.error == IndexError
    ensures r.Ok? ==> r.value in im
  {
    if 0 <= pc < |im| then Ok(im[pc])
    else if -|im| <= pc < 0 then Ok(im[|im| + pc])
    else Err(IndexError)
  }

  /** One iteration of `start`'s loop body: fetch, execute, then `PC += 1`. */
  function Step(im: seq<seq<string>>, st: State): (r: Result<State>)
    requires WellFormed(st)
    ensures r.Ok? ==> WellFormed(r.value)
    ensures !(-|im| <= st.pc < |im|) ==> r == Err(IndexError)
  {
    var inst :- Fetch(im, st.pc);
    var next :- Exec(inst, st);
    Ok(next.(pc := next.pc + 1))
  }

  datatype Halt = Finished | Crashed(error: Error) | OutOfFuel

  datatype RunResult = RunResult(halt: Halt, state: State)

  /** `start()` for at most `fuel` iterations. */
  function Run(im: seq<seq<string>>, st: State, fuel: nat): (r: RunResult)
    requires WellFormed(st)
    ensures WellFormed(r.state)
    ensures r.halt == Finished ==> r.state.pc >= |im|
    ensures r.halt == OutOfFuel ==> r.state.pc < |im|
    decreases fuel, 0
  {
    if st.pc >= |im| then RunResult(Finished, st)
    else if fuel == 0 then RunResult(OutOfFuel, st)
    else Continue(im, st, Step(im, st), fuel - 1)
  }

  /** What the loop does with the outcome of one iteration from st. */
  function Continue(im: seq<seq<string>>, st: State, outcome: Result<State>, fuel: nat): (r: RunResult)
    requires WellFormed(st) && st.pc < |im|
    requires outcome.Ok? ==> WellFormed(outcome.value)
    ensures WellFormed(r.state)
    ensures r.halt == Finished ==> r.state.pc >= |im|
    ensures r.halt == OutOfFuel ==> r.state.pc < |im|
    decreases fuel, 1
  {
    match outcome
    case Err(e) => RunResult(Crashed(e), st)
    case Ok(next) => Run(im, next, fuel)
  }
}
