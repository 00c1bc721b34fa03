/** A small program, `li`/`li`/`add`, written out as a listing and loaded
    back by `dump` into exactly its instructions; and one opcode the
    interpreter does not know. */
module Scenarios {
  import opened Outcomes
  import opened Registers
  import opened Text
  import opened Semantics
  import opened Opcodes
  import opened Loader

  /** `$name,`: how a destination or first source register appears in a listing. */
  function Sigil(name: string): string
  {
    "$" + name + ","
  }

  /** `li $a, x` / `li $b, y` / `add $d, $a, $b`, tokenised as `dump` leaves them. */
  function SumProgram(a: nat, b: nat, d: nat, x: int, y: int): seq<seq<string>>
    requires a < RegCount && b < RegCount && d < RegCount
  {
    [["li", Sigil(RegNames[a]), ShowInt(x)],
     ["li", Sigil(RegNames[b]), ShowInt(y)],
     ["add", Sigil(RegNames[d]), Sigil(RegNames[a]), "$" + RegNames[b]]]
  }

  /** The listing of that program: a data directive, the marker, then one
      line per instruction. */
  function SumListing(a: nat, b: nat, d: nat, x: int, y: int): seq<string>
    requires a < RegCount && b < RegCount && d < RegCount
  {
    var im := SumProgram(a, b, d, x, y);
    ["\t.data\n", Marker, Line(im[0]), Line(im[1]), Line(im[2])]
  }

  // ---------------------------------------------------------------------
  // Loading
  // ---------------------------------------------------------------------

  lemma NoSpaceConcat(u: string, v: string)
    requires NoSpace(u) && NoSpace(v)
    ensures NoSpace(u + v)
  {
    assert forall j :: 0 <= j < |u + v| ==> (u + v)[j] == if j < |u| then u[j] else v[j - |u|];
  }

  /** The characters register names are written with. */
  predicate NameChar(c: char) { 'a' <= c <= 'z' || '0' <= c <= '9' || c == '/' }

  lemma NameChars(i: nat)
    requires i < RegCount
    ensures RegNames[i] != [] && forall j :: 0 <= j < |RegNames[i]| ==> NameChar(RegNames[i][j])
  {
    if i < 8 { } else if i < 16 { } else if i < 24 { } else { }
  }

  lemma NameIsWord(i: nat)
    requires i < RegCount
    ensures RegNames[i] != [] && NoSpace(RegNames[i])
  {
    NameChars(i);
    forall j | 0 <= j < |RegNames[i]|
      ensures !IsSpace(RegNames[i][j])
    {
      var c := RegNames[i][j];
      assert NameChar(c);
    }
  }

  /** Every token of the program is a non-empty run of non-space characters. */
  lemma TokensAreWords(reg: nat, x: int)
    requires reg < RegCount
    ensures NoSpace(Sigil(RegNames[reg])) && NoSpace("$" + RegNames[reg]) && RegNames[reg] != []
    ensures NoSpace(ShowInt(x))
  {
    NameIsWord(reg);
    NoSpaceConcat("$", RegNames[reg]);
    NoSpaceConcat("$" + RegNames[reg], ",");
    var s := ShowInt(x);
    assert forall j :: 0 <= j < |s| ==> s[j] in s;
  }

  /** A line starts with the first character of its first word. */
  lemma LineStart(words: seq<string>)
    requires words != [] && words[0] != []
    ensures Line(words)[0] == words[0][0]
  {
  }

  /** Three instruction lines after the marker load as their split forms. */
  lemma ThreeLinesLoad(pre: seq<string>, l0: string, l1: string, l2: string)
    requires Marker !in pre && l0 != Marker && l1 != Marker && l2 != Marker
    ensures Loaded(pre + [Marker] + [l0, l1, l2]) == [Split(l0), Split(l1), Split(l2)]
  {
    LoadedAfterMarker(pre, [l0, l1, l2]);
    KeptThree(l0, l1, l2);
  }

  lemma KeptThree(l0: string, l1: string, l2: string)
    requires l0 != Marker && l1 != Marker && l2 != Marker
    ensures Kept([l0, l1, l2]) == [Split(l0), Split(l1), Split(l2)]
  {
    var post := [l0, l1, l2];
    assert Kept(post[2..]) == [Split(l2)] + Kept(post[3..]);
    assert Kept(post[1..]) == [Split(l1)] + Kept(post[2..]);
    assert Kept(post) == [Split(l0)] + Kept(post[1..]);
  }

  /** Each instruction's line splits back into its tokens and is not the marker. */
  lemma InstructionLine(inst: seq<string>)
    requires forall k :: 0 <= k < |inst| ==> inst[k] != [] && NoSpace(inst[k])
    requires inst != [] && inst[0][0] != '\t'
    ensures Split(Line(inst)) == inst && Line(inst) != Marker
  {
    SplitLineRoundTrip(inst);
    LineStart(inst);
  }

  lemma LoadLine(reg: nat, x: int)
    requires reg < RegCount
    ensures var inst := ["li", Sigil(RegNames[reg]), ShowInt(x)];
      Split(Line(inst)) == inst && Line(inst) != Marker
  {
    TokensAreWords(reg, x);
    InstructionLine(["li", Sigil(RegNames[reg]), ShowInt(x)]);
  }

  lemma AddLine(a: nat, b: nat, d: nat)
    requires a < RegCount && b < RegCount && d < RegCount
    ensures var inst := ["add", Sigil(RegNames[d]), Sigil(RegNames[a]), "$" + RegNames[b]];
      Split(Line(inst)) == inst && Line(inst) != Marker
  {
    TokensAreWords(a, 0);
    TokensAreWords(b, 0);
    TokensAreWords(d, 0);
    InstructionLine(["add", Sigil(RegNames[d]), Sigil(RegNames[a]), "$" + RegNames[b]]);
  }

  /** `dump` skips the data directive and the marker and loads the three instructions. */
  lemma SumListingLoads(a: nat, b: nat, d: nat, x: int, y: int)
    requires a < RegCount && b < RegCount && d < RegCount
    ensures Loaded(SumListing(a, b, d, x, y)) == SumProgram(a, b, d, x, y)
  {
    var im := SumProgram(a, b, d, x, y);
    LoadLine(a, x);
    LoadLine(b, y);
    AddLine(a, b, d);
    assert SumListing(a, b, d, x, y) == ["\t.data\n"] + [Marker] + [Line(im[0]), Line(im[1]), Line(im[2])];
    ThreeLinesLoad(["\t.data\n"], Line(im[0]), Line(im[1]), Line(im[2]));
  }

  /** An opcode the interpreter does not know, such as `syscall`, is skipped. */
  lemma SyscallIsSkipped(st: State)
    requires WellFormed(st)
    ensures Step([["syscall"]], st.(pc := 0)) == Ok(st.(pc := 1))
  {
    UnknownDoesNothing("syscall", [], st.(pc := 0));
  }
}
