/** The register file's name table: 32 symbolic names and their slots. */
module Registers {
  import opened Outcomes

  const RegCount: nat := 32

  /** Index of the return-address register `ra`. */
  const RA: nat := 31

  /** The names in slot order; slot 30 is keyed by the single string "fp/s8". */
  const RegNames: seq<string> := [
    "zero", "at", "v0", "v1", "a0", "a1", "a2", "a3",
    "t0", "t1", "t2", "t3", "t4", "t5", "t6", "t7",
    "s0", "s1", "s2", "s3", "s4", "s5", "s6", "s7",
    "t8", "t9", "k0", "k1", "gp", "sp", "fp/s8", "ra"
  ]

  /** The dictionary the program looks operands up in. */
  const RegTable: map<string, nat> := map[
    "zero" := 0, "at" := 1, "v0" := 2, "v1" := 3,
    "a0" := 4, "a1" := 5, "a2" := 6, "a3" := 7,
    "t0" := 8, "t1" := 9, "t2" := 10, "t3" := 11,
    "t4" := 12, "t5" := 13, "t6" := 14, "t7" := 15,
    "s0" := 16, "s1" := 17, "s2" := 18, "s3" := 19,
    "s4" := 20, "s5" := 21, "s6" := 22, "s7" := 23,
    "t8" := 24, "t9" := 25, "k0" := 26, "k1" := 27,
    "gp" := 28, "sp" := 29, "fp/s8" := 30, "ra" := 31
  ]

  /** Looking a name up in the table: a slot, or the KeyError the dictionary raises. */
  function RegisterIndex(name: string): (r: Result<nat>)
    ensures r.Ok? ==> r.value < RegCount && RegNames[r.value] == name
    ensures r.Err? ==> r.error == UnknownRegister(name)
  {
    if name in RegTable then Ok(RegTable[name]) else Err(UnknownRegister(name))
  }

  /** Slot i's name resolves to slot i: the table and the name list agree. */
  lemma NameResolvesToSlot(i: nat)
    requires i < RegCount
    ensures RegisterIndex(RegNames[i]) == Ok(i)
  {
    if i < 4 { ValueNamesResolve(i); }
    else if i < 8 { ArgumentNamesResolve(i); }
    else if i < 16 { TemporaryNamesResolve(i); }
    else if i < 24 { SavedNamesResolve(i); }
    else { SystemNamesResolve(i); }
  }

  // The 32 names are checked in groups, and each group's empty branches split
  // its case analysis, so that every proof stays within the solver's budget.

  /** `zero`, `at`, `v0`, `v1`. */
  lemma ValueNamesResolve(i: nat)
    requires i < 4
    ensures RegisterIndex(RegNames[i]) == Ok(i)
  {
    if i < 2 { } else { }
  }

  /** `a0`-`a3`. */
  lemma ArgumentNamesResolve(i: nat)
    requires 4 <= i < 8
    ensures RegisterIndex(RegNames[i]) == Ok(i)
  {
    if i < 6 { } else { }
  }

  /** `t0`-`t7`. */
  lemma TemporaryNamesResolve(i: nat)
    requires 8 <= i < 16
    ensures RegisterIndex(RegNames[i]) == Ok(i)
  {
    if i < 12 { } else { }
  }

  /** `s0`-`s7`. */
  lemma SavedNamesResolve(i: nat)
    requires 16 <= i < 24
    ensures RegisterIndex(RegNames[i]) == Ok(i)
  {
    if i < 20 { } else { }
  }

  /** `t8`, `t9`, `k0`, `k1`, `gp`, `sp`, `fp/s8`, `ra`. */
  lemma SystemNamesResolve(i: nat)
    requires 24 <= i < 32
    ensures RegisterIndex(RegNames[i]) == Ok(i)
  {
    if i < 28 { } else { }
  }

  /** A name resolves exactly when it is one of the 32 names. */
  lemma ResolvesIffListed(name: string)
    ensures RegisterIndex(name).Ok? <==> name in RegNames
  {
    if name in RegNames {
      var i :| 0 <= i < |RegNames| && RegNames[i] == name;
      NameResolvesToSlot(i);
    }
  }

  /** "fp" and "s8" are not keys: slot 30 is reachable only as "fp/s8". */
  lemma FpAndS8DoNotResolve()
    ensures RegisterIndex("fp") == Err(UnknownRegister("fp"))
    ensures RegisterIndex("s8") == Err(UnknownRegister("s8"))
    ensures RegisterIndex("fp/s8") == Ok(30)
  {
    NameResolvesToSlot(30);
  }

  /** No register name contains the characters operand cleaning removes. */
  lemma NamesAreBare(i: nat)
    requires i < RegCount
    ensures '$' !in RegNames[i] && ',' !in RegNames[i]
  {
    if i < 8 { } else if i < 16 { } else if i < 24 { } else { }
  }
}
