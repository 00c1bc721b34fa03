/** A discrepancy between the program as written and its evident intent:
    `sll`, `sra` and `srl` shift the register cell itself, which holds a
    floating-point number, where `sllv`, `srav` and `srlv` first convert
    it with `int()`. */
module Findings {
  import opened Outcomes
  import opened Registers
  import opened Text
  import opened Semantics
  import opened Opcodes

  /** `sll`/`sra`/`srl` as written: the source cell and the count are read,
      then `<<` or `>>` on a floating-point cell raises a type error, so the
      instruction never completes. */
  function ShiftImmediateAsWritten(params: seq<string>, st: State): (r: Result<State>)
    requires WellFormed(st)
    ensures r.Err?
    ensures Source(params, 1, st).Ok? && Immediate(params, 2).Ok? ==> r == Err(FloatShift)
    ensures Source(params, 1, st).Err? ==> r == Err(Source(params, 1, st).error)
  {
    var a :- Source(params, 1, st);
    var n :- Immediate(params, 2);
    Err(FloatShift)
  }

  /** With a valid destination and a count of at least zero, the as-written
      instruction fails where the integer shift the model uses succeeds. */
  lemma AsWrittenShiftFails(code: string, params: seq<string>, st: State, n: int)
    requires WellFormed(st) && Resolves(params, 0) && Resolves(params, 1)
    requires |params| > 2 && ParseInt(params[2]) == Ok(n) && n >= 0
    requires code in {"sll", "sra", "srl"}
    ensures ShiftImmediateAsWritten(params, st) == Err(FloatShift)
    ensures Dispatch(code, params, st).Ok?
  {
    ShiftImmediateWrite(code, params, st, n);
  }

  /** The concrete case: `sll $t0, $t1, 2` on the zeroed register file. */
  lemma ShiftLeftByTwoCounterexample()
    ensures var params := ["t0", "t1", "2"]; var st := State(seq(RegCount, _ => 0), 0);
      ShiftImmediateAsWritten(params, st) == Err(FloatShift)
      && Dispatch("sll", params, st) == Ok(SetReg(st, 8, 0))
  {
    var params := ["t0", "t1", "2"];
    var st := State(seq(RegCount, _ => 0), 0);
    SampleOperands(params);
    ShiftImmediateWrite("sll", params, st, 2);
  }

  /** The operands of `sll $t0, $t1, 2` after decoding: slots 8 and 9 and the count 2. */
  lemma SampleOperands(params: seq<string>)
    requires params == ["t0", "t1", "2"]
    ensures Resolves(params, 0) && Slot(params, 0) == 8
    ensures Resolves(params, 1) && Slot(params, 1) == 9
    ensures |params| > 2 && ParseInt(params[2]) == Ok(2)
  {
    NameResolvesToSlot(8);
    NameResolvesToSlot(9);
    assert RegNames[8] == "t0" && RegNames[9] == "t1";
    ParseShowRoundTrip(2);
    assert ShowInt(2) == "2";
  }
}
