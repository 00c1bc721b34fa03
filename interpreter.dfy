/** The interpreter as the program runs it: a register array, a program
    counter and an instruction memory, updated in place. Every method is
    proved to do exactly what the reference semantics in modules Semantics
    and Loader say. */
module Interpreter {
  import opened Outcomes
  import opened Registers
  import opened Text
  import opened Bits
  import opened Semantics
  import opened Loader

  /** An instruction split into its opcode and its cleaned operands. */
  datatype Decoded = Decoded(code: string, params: seq<string>)

  /** `decRegs`: the opcode is the first token; every later token loses its
      sigils and commas. A line with no tokens has no opcode. */
  method DecRegs(inst: seq<string>) returns (r: Result<Decoded>)
    ensures r.Err? <==> inst == []
    ensures r.Err? ==> r.error == IndexError
    ensures r.Ok? ==> r.value.code == inst[0] && r.value.params == Operands(inst)
  {
    if inst == [] {
      return Err(IndexError);
    }
    var code := inst[0];
    var params: seq<string> := [];
    for i := 1 to |inst|
      invariant |params| == i - 1
      invariant forall k :: 0 <= k < i - 1 ==> params[k] == Strip(inst[k + 1])
    {
      params := params + [Strip(inst[i])];
    }
    return Ok(Decoded(code, params));
  }

  /** The counting loops of `clo` and `clz`: how many characters of s are ch. */
  method CountChar(s: string, ch: char) returns (count: nat)
    ensures count == multiset(s)[ch]
  {
    count := 0;
    for i := 0 to |s|
      invariant count == multiset(s[..i])[ch]
    {
      assert s[..i + 1] == s[..i] + [s[i]];
      if s[i] == ch {
        count := count + 1;
      }
    }
    assert s[..|s|] == s;
  }

  /** The value a one-source instruction writes: a copy, `int(a) * -1`,
      `~int(a)`, or the count of '1' or '0' characters of `"{:032b}"`. */
  method UnaryValue(op: UnaryOp, a: int) returns (v: int)
    ensures v == ApplyUnary(op, a)
  {
    match op {
      case Copy => v := a;
      case Negate => v := -a;
      case Complement => v := Not(a);
      case OnesCount => v := CountChar(FormatBin32(a), '1');
      case ZerosCount => v := CountChar(FormatBin32(a), '0');
    }
  }

  class Machine {
    /** `REGS`: 32 cells, written in place. */
    const regs: array<int>
    /** `PC`. */
    var pc: int
    /** `IM`: the loaded program, one token list per line. */
    var im: seq<seq<string>>

    predicate Valid()
      reads this
    {
      regs.Length == RegCount
    }

    /** The registers and the program counter as a value of the reference semantics. */
    function Snapshot(): (st: State)
      reads this, regs
      requires Valid()
      ensures WellFormed(st)
    {
      State(regs[..], pc)
    }

    /** A method's effect agrees with the reference outcome `spec`: on success
        the machine is in the state `spec` names; on failure it reports the
        same error and nothing has changed since `before`. */
    predicate Agrees(spec: Result<State>, before: State, r: Result<()>)
      reads this, regs
      requires Valid()
    {
      match spec
      case Ok(after) => r.Ok? && Snapshot() == after
      case Err(e) => r == Err(e) && Snapshot() == before
    }

    /** The module's initial state: all registers zero, `PC = 0`, `IM = []`. */
    constructor ()
      ensures Valid() && fresh(regs)
      ensures Snapshot() == State(seq(RegCount, _ => 0), 0) && im == []
    {
      regs := new int[RegCount](_ => 0);
      pc := 0;
      im := [];
    }

    /** `REGS[REGS_DICT[params[i]]]`: the operand must exist and be a key of
        the register table; then the value is that register's cell. */
    method Read(params: seq<string>, i: nat) returns (r: Result<int>)
      requires Valid()
      ensures r.Ok? <==> i < |params| && RegisterIndex(params[i]).Ok?
      ensures r.Ok? ==> r.value == regs[RegisterIndex(params[i]).value]
      ensures i >= |params| ==> r == Err(IndexError)
      ensures i < |params| && RegisterIndex(params[i]).Err? ==> r == Err(UnknownRegister(params[i]))
      ensures r == Source(params, i, Snapshot())
    {
      var slot :- Target(params, i);
      return Ok(regs[slot]);
    }

    method ExRegister(op: BinaryOp, params: seq<string>) returns (r: Result<()>)
      requires Valid()
      modifies regs
      ensures Agrees(RegisterStep(op, params, old(Snapshot())), old(Snapshot()), r)
    {
      var a :- Read(params, 1);
      var b :- Read(params, 2);
      var d :- Target(params, 0);
      regs[d] := Apply(op, a, b);
      r := Ok(());
    }

    method ExImmediate(op: BinaryOp, params: seq<string>) returns (r: Result<()>)
      requires Valid()
      modifies regs
      ensures Agrees(ImmediateStep(op, params, old(Snapshot())), old(Snapshot()), r)
    {
      var a :- Read(params, 1);
      var n :- Immediate(params, 2);
      var d :- Target(params, 0);
      regs[d] := Apply(op, a, n);
      r := Ok(());
    }

    /** `move`, `negu`, `not`, and the bit-counting loops of `clo` and `clz`
        over the 32-digit binary text of the source. */
    method ExUnary(op: UnaryOp, params: seq<string>) returns (r: Result<()>)
      requires Valid()
      modifies regs
      ensures Agrees(UnaryStep(op, params, old(Snapshot())), old(Snapshot()), r)
    {
      var a :- Read(params, 1);
      var v := UnaryValue(op, a);
      var d :- Target(params, 0);
      regs[d] := v;
      r := Ok(());
    }

    method ExLoad(upper: bool, params: seq<string>) returns (r: Result<()>)
      requires Valid()
      modifies regs
      ensures Agrees(LoadStep(upper, params, old(Snapshot())), old(Snapshot()), r)
    {
      var n :- Immediate(params, 1);
      var d :- Target(params, 0);
      regs[d] := if upper then ShiftLeft(n, 16).value else n;
      r := Ok(());
    }

    method ExShiftImmediate(left: bool, params: seq<string>) returns (r: Result<()>)
      requires Valid()
      modifies regs
      ensures Agrees(ShiftImmediateStep(left, params, old(Snapshot())), old(Snapshot()), r)
    {
      var a :- Read(params, 1);
      var n :- Immediate(params, 2);
      var v :- if left then ShiftLeft(a, n) else ShiftRight(a, n);
      var d :- Target(params, 0);
      regs[d] := v;
      r := Ok(());
    }

    /** The shift amount: the value of the last five digits of the binary text
        of `s`, which is the magnitude of `s` modulo 32. */
    static method LowFiveDigits(s: int) returns (shift: nat)
      ensures shift == Abs(s) % 32
    {
      var aux := FormatBin32(s);
      shift := ParseBinary(aux[|aux| - 5..]);
      ShiftAmountIsLowBits(s);
    }

    method ExShiftRegister(left: bool, params: seq<string>) returns (r: Result<()>)
      requires Valid()
      modifies regs
      ensures Agrees(ShiftRegisterStep(left, params, old(Snapshot())), old(Snapshot()), r)
    {
      var s :- Read(params, 2);
      var shift := LowFiveDigits(s);
      ShiftAmountIsLowBits(s);
      var a :- Read(params, 1);
      var d :- Target(params, 0);
      regs[d] := if left then ShiftLeft(a, shift).value else ShiftRight(a, shift).value;
      r := Ok(());
    }

    method ExMoveIf(onZero: bool, params: seq<string>) returns (r: Result<()>)
      requires Valid()
      modifies regs
      ensures Agrees(MoveIfStep(onZero, params, old(Snapshot())), old(Snapshot()), r)
    {
      var c :- Read(params, 2);
      if (c == 0) == onZero {
        var a :- Read(params, 1);
        var d :- Target(params, 0);
        regs[d] := a;
      }
      r := Ok(());
    }

    /** `slt`/`sltu` (register) and `slti`/`sltiu` (immediate). */
    method ExSetLess(immediate: bool, params: seq<string>) returns (r: Result<()>)
      requires Valid()
      modifies regs, this`pc
      ensures immediate ==> Agrees(
        (var a :- Source(params, 1, old(Snapshot())); var n :- Immediate(params, 2);
         SetLessStep(a, n, params, old(Snapshot()))), old(Snapshot()), r)
      ensures !immediate ==> Agrees(
        (var a :- Source(params, 1, old(Snapshot())); var b :- Source(params, 2, old(Snapshot()));
         SetLessStep(a, b, params, old(Snapshot()))), old(Snapshot()), r)
    {
      var a :- Read(params, 1);
      var b: int;
      if immediate {
        b :- Immediate(params, 2);
      } else {
        b :- Read(params, 2);
      }
      var d :- Target(params, 0);
      if a < b {
        regs[d] := 1;
        pc := pc + 1;
      } else {
        regs[d] := 0;
      }
      r := Ok(());
    }

    /** The branch of `ex` for one instruction class. */
    method ExForm(form: Opcode, params: seq<string>) returns (r: Result<()>)
      requires Valid()
      modifies regs, this`pc
      ensures Agrees(Perform(form, params, old(Snapshot())), old(Snapshot()), r)
    {
      match form {
        case Label =>
          regs[RA] := pc;
          r := Ok(());
        case RegisterForm(op) => r := ExRegister(op, params);
        case ImmediateForm(op) => r := ExImmediate(op, params);
        case UnaryForm(op) => r := ExUnary(op, params);
        case LoadImmediate => r := ExLoad(false, params);
        case LoadUpper => r := ExLoad(true, params);
        case ShiftByImmediate(left) => r := ExShiftImmediate(left, params);
        case ShiftByRegister(left) => r := ExShiftRegister(left, params);
        case MoveIf(onZero) => r := ExMoveIf(onZero, params);
        case SetLess => r := ExSetLess(false, params);
        case SetLessImmediate => r := ExSetLess(true, params);
        case JumpRegister =>
          pc := regs[RA];
          r := Ok(());
        case Reserved => r := Ok(());
        case Unrecognized => r := Ok(());
      }
    }

    /** `ex(inst)`: decode, then run the branch of the opcode's class. */
    method Ex(inst: seq<string>) returns (r: Result<()>)
      requires Valid()
      modifies regs, this`pc
      ensures Agrees(Exec(inst, old(Snapshot())), old(Snapshot()), r)
    {
      var decoded :- DecRegs(inst);
      var code, params := decoded.code, decoded.params;
      if code == [] {
        return Err(IndexError);
      }
      r := ExForm(Classify(code), params);
    }

    /** One iteration of `start`'s loop body: `ex(IM[PC])`, then `PC += 1`. */
    method Cycle() returns (r: Result<()>)
      requires Valid()
      modifies regs, this`pc
      ensures Agrees(Step(im, old(Snapshot())), old(Snapshot()), r)
    {
      var fetched := Fetch(im, pc);
      if fetched.Err? {
        return Err(fetched.error);
      }
      r := Ex(fetched.value);
      if r.Ok? {
        pc := pc + 1;
      }
    }

    /** `start()`, for at most `fuel` iterations: run the loop body while
        `PC < len(IM)`; the first error ends the run. */
    method Start(fuel: nat) returns (halt: Halt)
      requires Valid()
      modifies regs, this`pc
      ensures Run(im, old(Snapshot()), fuel) == RunResult(halt, Snapshot())
    {
      var remaining: nat := fuel;
      while pc < |im|
        invariant Run(im, old(Snapshot()), fuel) == Run(im, Snapshot(), remaining)
        decreases remaining
      {
        if remaining == 0 {
          return OutOfFuel;
        }
        var r := Cycle();
        if r.Err? {
          return Crashed(r.error);
        }
        remaining := remaining - 1;
      }
      return Finished;
    }

    /** `dump(f)`: after the first marker line, every line that is not a
        marker is split on whitespace and appended to `IM`. */
    method Dump(f: seq<string>)
      modifies this`im
      ensures im == old(im) + Loaded(f)
    {
      var started := false;
      for i := 0 to |f|
        invariant im == old(im) + Loaded(f[..i])
        invariant started == (Marker in f[..i])
      {
        assert f[..i + 1][..i] == f[..i];
        if f[i] == Marker {
          started := true;
        } else if started {
          im := im + [Split(f[i])];
        }
      }
      assert f[..|f|] == f;
    }
  }
}
