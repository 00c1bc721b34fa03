/** Failures of the interpreter. In the Python program each of these is an
    exception that nothing catches, so the first one ends the run. */
module Outcomes {

  datatype Error =
    | IndexError                      // a missing operand, an empty opcode or a fetch outside the program
    | UnknownRegister(name: string)   // a name that is not a key of the register table
    | MalformedInteger(text: string)  // an immediate that int() rejects
    | NegativeShiftCount(count: int)  // << or >> with a negative count
    | FloatShift                      // << or >> applied to a float register cell (as-written sll/sra/srl)

  /** Either a value or the error that stopped the computation; usable with `:-`. */
  datatype Result<+T> = Ok(value: T) | Err(error: Error) {
    predicate IsFailure() { Err? }

    function PropagateFailure<U>(): Result<U>
      requires Err?
    {
      Err(error)
    }

    function Extract(): T
      requires Ok?
    {
      value
    }
  }
}
