/** Program loading: which lines of the listing `dump` turns into
    instructions, and how. */
module Loader {
  import opened Text

  /** The line that starts the program: a tab, ".text", and the newline the
      file iterator keeps. */
  const Marker: string := "\t.text\n"

  /** The instructions `dump` appends for `lines`, stated one line at a time
      from the end: the last line is appended, split on whitespace, when it is
      not itself the marker and some earlier line was. */
  function Loaded(lines: seq<string>): (r: seq<seq<string>>)
    ensures |r| <= |lines|
    ensures Marker in lines ==> |r| < |lines|
  {
    if lines == [] then []
    else
      var init, last := lines[..|lines| - 1], lines[|lines| - 1];
      Loaded(init) + (if last != Marker && Marker in init then [Split(last)] else [])
  }

  /** Reference definition: the split form of every line that is not the
      marker, in order. */
  function Kept(lines: seq<string>): seq<seq<string>>
  {
    if lines == [] then []
    else (if lines[0] == Marker then [] else [Split(lines[0])]) + Kept(lines[1..])
  }

  lemma {:induction false} KeptSnoc(lines: seq<string>, x: string)
    ensures Kept(lines + [x]) == Kept(lines) + (if x == Marker then [] else [Split(x)])
  {
    if lines == [] {
      assert Kept([x]) == (if x == Marker then [] else [Split(x)]) + Kept([]);
    } else {
      assert (lines + [x])[1..] == lines[1..] + [x];
      KeptSnoc(lines[1..], x);
    }
  }

  /** A listing without the marker loads nothing. */
  lemma {:induction false} NothingWithoutMarker(lines: seq<string>)
    requires Marker !in lines
    ensures Loaded(lines) == []
  {
    if lines != [] {
      NothingWithoutMarker(lines[..|lines| - 1]);
    }
  }

  /** Everything before the first marker is skipped; after it, every line
      except further markers is loaded, split on whitespace, in order. */
  lemma {:induction false} LoadedAfterMarker(pre: seq<string>, post: seq<string>)
    requires Marker !in pre
    ensures Loaded(pre + [Marker] + post) == Kept(post)
    decreases |post|
  {
    var lines := pre + [Marker] + post;
    if post == [] {
      assert lines[..|lines| - 1] == pre;
      NothingWithoutMarker(pre);
    } else {
      var init, last := post[..|post| - 1], post[|post| - 1];
      var prefix := pre + [Marker] + init;
      assert post == init + [last];
      assert lines == prefix + [last];
      assert prefix[|pre|] == Marker;
      LoadedSnoc(prefix, last);
      LoadedAfterMarker(pre, init);
      KeptSnoc(init, last);
    }
  }

  /** One more line loads on its own terms. */
  lemma LoadedSnoc(lines: seq<string>, x: string)
    ensures Loaded(lines + [x]) == Loaded(lines) + (if x != Marker && Marker in lines then [Split(x)] else [])
  {
    assert (lines + [x])[..|lines|] == lines;
  }

  /** Every loaded instruction is a list of non-empty, whitespace-free tokens. */
  lemma {:induction false} LoadedTokensAreWords(lines: seq<string>)
    ensures forall inst, t :: inst in Loaded(lines) && t in inst ==> t != [] && NoSpace(t)
  {
    if lines != [] {
      LoadedTokensAreWords(lines[..|lines| - 1]);
    }
  }
}
