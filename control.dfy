/** Control flow of `start`: what one fetch/execute iteration does to the
    program counter, and how bounded runs compose. */
module Control {
  import opened Outcomes
  import opened Registers
  import opened Text
  import opened Bits
  import opened Semantics
  import opened Opcodes

  /** Python's `IM[PC]`: defined exactly for -len(IM) <= PC < len(IM), and then
      it is the instruction at PC modulo the program length. */
  lemma FetchIsModular(im: seq<seq<string>>, pc: int)
    ensures Fetch(im, pc).Ok? <==> -|im| <= pc < |im|
    ensures Fetch(im, pc).Err? ==> Fetch(im, pc).error == IndexError
    ensures Fetch(im, pc).Ok? ==> Fetch(im, pc).value == im[pc % |im|]
  {
    if 0 <= pc < |im| {
      assert pc % |im| == pc;
    } else if -|im| <= pc < 0 {
      EuclidUnique(pc, -1, |im| + pc, |im|);
    }
  }

  /** A label line records its own address in `ra` and falls through. */
  lemma LabelStep(im: seq<seq<string>>, st: State)
    requires WellFormed(st) && 0 <= st.pc < |im|
    requires im[st.pc] != [] && im[st.pc][0] != [] && im[st.pc][0][|im[st.pc][0]| - 1] == ':'
    ensures Step(im, st) == Ok(State(st.regs[RA := st.pc], st.pc + 1))
  {
    LabelCapturesPc(im[st.pc][0], Operands(im[st.pc]), st);
  }

  /** `jr` resumes at the line after the address held in `ra`: with `ra` set by
      a label, that is the line following the label. */
  lemma JumpRegisterStep(im: seq<seq<string>>, st: State)
    requires WellFormed(st) && 0 <= st.pc < |im|
    requires im[st.pc] != [] && im[st.pc][0] == "jr"
    ensures Step(im, st) == Ok(State(st.regs, st.regs[RA] + 1))
  {
    JumpRegisterSetsPc(Operands(im[st.pc]), st);
  }

  /** `slt`/`sltu` skip the next line when the comparison holds: the program
      counter advances by two instead of one. */
  lemma SetLessSkips(im: seq<seq<string>>, st: State)
    requires WellFormed(st) && 0 <= st.pc < |im|
    requires im[st.pc] != [] && im[st.pc][0] in {"slt", "sltu"}
    requires ThreeRegisters(Operands(im[st.pc]))
    ensures var params := Operands(im[st.pc]);
      var less := Val(params, 1, st) < Val(params, 2, st);
      Step(im, st).Ok?
      && Step(im, st).value.pc == (if less then st.pc + 2 else st.pc + 1)
      && Step(im, st).value.regs[Slot(params, 0)] == (if less then 1 else 0)
  {
    SetLessThan(im[st.pc][0], Operands(im[st.pc]), st);
  }

  /** `slti`/`sltiu` skip the next line in the same way when the source is
      below the immediate. */
  lemma SetLessImmediateSkips(im: seq<seq<string>>, st: State, n: int)
    requires WellFormed(st) && 0 <= st.pc < |im|
    requires im[st.pc] != [] && im[st.pc][0] in {"slti", "sltiu"}
    requires var params := Operands(im[st.pc]);
      Resolves(params, 0) && Resolves(params, 1) && |params| > 2 && ParseInt(params[2]) == Ok(n)
    ensures var params := Operands(im[st.pc]);
      var less := Val(params, 1, st) < n;
      Step(im, st).Ok?
      && Step(im, st).value.pc == (if less then st.pc + 2 else st.pc + 1)
      && Step(im, st).value.regs[Slot(params, 0)] == (if less then 1 else 0)
  {
    SetLessThanImmediate(im[st.pc][0], Operands(im[st.pc]), st, n);
  }

  /** One iteration writes at most one register, fails on a `PC` outside
      the program and on an empty line, and, unless the opcode is `jr` or of
      the `slt` family, moves to the next line. */
  lemma StepEffect(im: seq<seq<string>>, st: State)
    requires WellFormed(st)
    ensures Step(im, st).Ok? ==> OneWrite(st, Step(im, st).value)
    ensures Step(im, st).Ok? ==> Fetch(im, st.pc).Ok? && Fetch(im, st.pc).value != []
    ensures Step(im, st).Ok? && Fetch(im, st.pc).value[0] !in PcOpcodes ==> Step(im, st).value.pc == st.pc + 1
  {
  }

  /** A reserved or unknown opcode only advances the program counter. */
  lemma NoOpStep(im: seq<seq<string>>, st: State)
    requires WellFormed(st) && 0 <= st.pc < |im|
    requires im[st.pc] != [] && im[st.pc][0] != [] && im[st.pc][0][|im[st.pc][0]| - 1] != ':'
    requires im[st.pc][0] in ReservedOpcodes || im[st.pc][0] !in KnownOpcodes
    ensures Step(im, st) == Ok(st.(pc := st.pc + 1))
  {
    var code := im[st.pc][0];
    if code in ReservedOpcodes {
      ReservedDoNothing(code, Operands(im[st.pc]), st);
    } else {
      UnknownDoesNothing(code, Operands(im[st.pc]), st);
    }
  }

  /** Running for a + b iterations is running for a, then, if the fuel ran out,
      for b more from where it stopped. */
  lemma {:induction false} RunSplit(im: seq<seq<string>>, st: State, a: nat, b: nat)
    requires WellFormed(st)
    ensures var first := Run(im, st, a);
      Run(im, st, a + b) == if first.halt == OutOfFuel then Run(im, first.state, b) else first
    decreases a, 0
  {
    if st.pc >= |im| {
    } else if a == 0 {
      assert a + b == b;
    } else {
      var outcome := Step(im, st);
      RunUnfold(im, st, a);
      RunUnfold(im, st, a + b);
      assert (a - 1) + b == a + b - 1;
      ContinueSplit(im, st, outcome, a - 1, b);
    }
  }

  /** One unfolding of the loop: a running loop with fuel left takes a step. */
  lemma RunUnfold(im: seq<seq<string>>, st: State, fuel: nat)
    requires WellFormed(st) && st.pc < |im| && fuel > 0
    ensures Run(im, st, fuel) == Continue(im, st, Step(im, st), fuel - 1)
  {
  }

  lemma {:induction false} ContinueSplit(im: seq<seq<string>>, st: State, outcome: Result<State>, a: nat, b: nat)
    requires WellFormed(st) && st.pc < |im|
    requires outcome.Ok? ==> WellFormed(outcome.value)
    ensures var first := Continue(im, st, outcome, a);
      Continue(im, st, outcome, a + b) == if first.halt == OutOfFuel then Run(im, first.state, b) else first
    decreases a, 1
  {
    if outcome.Ok? {
      RunSplit(im, outcome.value, a, b);
    }
  }

  /** Once a run halts, more fuel changes nothing: the outcome is determined. */
  lemma RunMoreFuel(im: seq<seq<string>>, st: State, a: nat, b: nat)
    requires WellFormed(st) && a <= b
    requires Run(im, st, a).halt != OutOfFuel
    ensures Run(im, st, b) == Run(im, st, a)
  {
    RunSplit(im, st, a, b - a);
  }

  /** The two-line program "L:" / "jr" never leaves the loop: the label stores
      0 in `ra`, and `jr` then resumes at line 1, itself. */
  const LabelLoop: seq<seq<string>> := [["L:"], ["jr"]]

  lemma {:induction false} JumpLoopNeverEnds(st: State, fuel: nat)
    requires WellFormed(st) && st.pc == 1 && st.regs[RA] == 0
    ensures Run(LabelLoop, st, fuel).halt == OutOfFuel
    decreases fuel
  {
    if fuel > 0 {
      JumpRegisterStep(LabelLoop, st);
      JumpLoopNeverEnds(State(st.regs, 1), fuel - 1);
    }
  }

  lemma LabelLoopNeverEnds(st: State, fuel: nat)
    requires WellFormed(st) && st.pc == 0
    ensures Run(LabelLoop, st, fuel).halt == OutOfFuel
  {
    if fuel > 0 {
      assert "L:"[1] == ':';
      LabelStep(LabelLoop, st);
      var next := State(st.regs[RA := 0], 1);
      JumpLoopNeverEnds(next, fuel - 1);
    }
  }
}
