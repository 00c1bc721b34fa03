/** Text handling the interpreter relies on: cleaning operand tokens
    (`str.replace`), splitting lines on whitespace (`str.split()`) and
    reading decimal immediates (`int(...)`). */
module Text {
  import opened Outcomes

  // ---------------------------------------------------------------------
  // Operand cleaning: token.replace('$', '').replace(',', '')
  // ---------------------------------------------------------------------

  /** `s.replace(c, '')`: every occurrence of c removed. */
  function RemoveAll(s: string, c: char): (r: string)
    ensures c !in r
    ensures forall x :: x in r ==> x in s
    ensures c !in s ==> r == s
    ensures |r| <= |s|
  {
    if s == [] then []
    else (if s[0] == c then [] else [s[0]]) + RemoveAll(s[1..], c)
  }

  /** The operand decoder's cleaning of one token: register sigils first, then commas. */
  function Strip(token: string): (r: string)
    ensures '$' !in r && ',' !in r
    ensures '$' !in token && ',' !in token ==> r == token
  {
    RemoveAll(RemoveAll(token, '$'), ',')
  }

  predicate IsPunctuation(c: char) { c == '$' || c == ',' }

  /** Reference definition: one left-to-right pass keeping every character
      that is neither a sigil nor a comma. */
  function KeepOperandChars(s: string): string
  {
    if s == [] then [] else (if IsPunctuation(s[0]) then [] else [s[0]]) + KeepOperandChars(s[1..])
  }

  lemma {:induction false} KeepOperandCharsAppend(a: string, b: string)
    ensures KeepOperandChars(a + b) == KeepOperandChars(a) + KeepOperandChars(b)
  {
    if a == [] {
      assert a + b == b;
    } else {
      assert (a + b)[1..] == a[1..] + b;
      KeepOperandCharsAppend(a[1..], b);
    }
  }

  /** The two chained replaces drop exactly the sigils and commas and keep
      every other character, in order. */
  lemma {:induction false} StripKeepsOtherChars(token: string)
    ensures Strip(token) == KeepOperandChars(token)
  {
    if token != [] {
      var c, rest := token[0], token[1..];
      StripKeepsOtherChars(rest);
      var inner := RemoveAll(rest, '$');
      assert Strip(rest) == RemoveAll(inner, ',');
      if c == '$' {
        assert RemoveAll(token, '$') == inner;
      } else {
        assert RemoveAll(token, '$') == [c] + inner;
        RemoveAllCons(c, inner, ',');
      }
    }
  }

  lemma RemoveAllCons(c: char, s: string, x: char)
    ensures RemoveAll([c] + s, x) == (if c == x then [] else [c]) + RemoveAll(s, x)
  {
    assert ([c] + s)[1..] == s;
  }

  /** Decoding `$name,` or `$name` gives back `name` for any name without sigils or commas. */
  lemma SigilRoundTrip(name: string)
    requires '$' !in name && ',' !in name
    ensures Strip("$" + name + ",") == name
    ensures Strip("$" + name) == name
  {
    StripKeepsOtherChars("$" + name + ",");
    StripKeepsOtherChars("$" + name);
    KeepOperandCharsAppend("$" + name, ",");
    KeepOperandCharsAppend("$", name);
    KeepOperandCharsNoPunctuation(name);
  }

  lemma {:induction false} KeepOperandCharsNoPunctuation(s: string)
    requires '$' !in s && ',' !in s
    ensures KeepOperandChars(s) == s
  {
    if s != [] {
      KeepOperandCharsNoPunctuation(s[1..]);
    }
  }

  /** Cleaning is idempotent. */
  lemma StripIdempotent(token: string)
    ensures Strip(Strip(token)) == Strip(token)
  {
  }

  // ---------------------------------------------------------------------
  // Whitespace splitting: line.split()
  // ---------------------------------------------------------------------

  /** The characters `str.split()` with no argument splits on (`str.isspace`). */
  predicate IsSpace(c: char)
  {
    c == ' ' || c == '\t' || c == '\n' || c == '\r' || c == '\U{000B}' || c == '\U{000C}'
    || ('\U{001C}' <= c <= '\U{001F}') || c == '\U{0085}' || c == '\U{00A0}' || c == '\U{1680}'
    || ('\U{2000}' <= c <= '\U{200A}') || c == '\U{2028}' || c == '\U{2029}' || c == '\U{202F}'
    || c == '\U{205F}' || c == '\U{3000}'
  }

  predicate NoSpace(s: string)
  {
    forall j :: 0 <= j < |s| ==> !IsSpace(s[j])
  }

  /** The longest prefix of s without whitespace. */
  function Word(s: string): (w: string)
    ensures w <= s && NoSpace(w)
    ensures |w| == |s| || IsSpace(s[|w|])
  {
    if s == [] || IsSpace(s[0]) then [] else [s[0]] + Word(s[1..])
  }

  /** `s.split()`: the maximal whitespace-free runs of s, in order. */
  function Split(s: string): (r: seq<string>)
    ensures forall k :: 0 <= k < |r| ==> r[k] != [] && NoSpace(r[k])
    decreases |s|
  {
    if s == [] then []
    else if IsSpace(s[0]) then Split(s[1..])
    else var w := Word(s); [w] + Split(s[|w|..])
  }

  /** A listing line: the words separated by single spaces, then a newline. */
  function Line(words: seq<string>): string
  {
    if words == [] then "\n"
    else if |words| == 1 then words[0] + "\n"
    else words[0] + " " + Line(words[1..])
  }

  lemma {:induction false} WordBeforeSpace(w: string, c: char, rest: string)
    requires NoSpace(w) && IsSpace(c)
    ensures Word(w + [c] + rest) == w
  {
    if w != [] {
      assert (w + [c] + rest)[1..] == w[1..] + [c] + rest;
      WordBeforeSpace(w[1..], c, rest);
    }
  }

  /** A word followed by any whitespace character is split off as the first token. */
  lemma SplitWordThenSpace(w: string, c: char, rest: string)
    requires w != [] && NoSpace(w) && IsSpace(c)
    ensures Split(w + [c] + rest) == [w] + Split(rest)
  {
    var s := w + [c] + rest;
    WordBeforeSpace(w, c, rest);
    assert s[|w|..] == [c] + rest;
    assert ([c] + rest)[1..] == rest;
  }

  /** Splitting a line written from words gives back the words. */
  lemma {:induction false} SplitLineRoundTrip(words: seq<string>)
    requires forall k :: 0 <= k < |words| ==> words[k] != [] && NoSpace(words[k])
    ensures Split(Line(words)) == words
  {
    if words == [] {
      assert IsSpace('\n');
      assert "\n"[1..] == [];
    } else if |words| == 1 {
      assert words[0] + "\n" == words[0] + ['\n'] + [];
      SplitWordThenSpace(words[0], '\n', []);
    } else {
      assert words[0] + " " + Line(words[1..]) == words[0] + [' '] + Line(words[1..]);
      SplitWordThenSpace(words[0], ' ', Line(words[1..]));
      SplitLineRoundTrip(words[1..]);
    }
  }

  // ---------------------------------------------------------------------
  // Decimal immediates: int(text)
  // ---------------------------------------------------------------------

  predicate IsDigit(c: char) { '0' <= c <= '9' }

  predicate AllDigits(s: string) { forall j :: 0 <= j < |s| ==> IsDigit(s[j]) }

  function DigitValue(c: char): nat
    requires IsDigit(c)
  {
    (c as int) - ('0' as int)
  }

  /** The value of a string of decimal digits, most significant first. */
  function DecimalValue(s: string): nat
    requires AllDigits(s)
  {
    if s == [] then 0 else 10 * DecimalValue(s[..|s| - 1]) + DigitValue(s[|s| - 1])
  }

  /** `int(text)`: an optional sign followed by one or more decimal digits;
      anything else is the ValueError int() raises. */
  function ParseInt(text: string): (r: Result<int>)
    ensures r.Err? ==> r.error == MalformedInteger(text)
    ensures r.Ok? ==> text != [] && (IsDigit(text[0]) || text[0] == '-' || text[0] == '+')
    ensures r.Ok? ==> forall k :: 1 <= k < |text| ==> IsDigit(text[k])
    ensures r.Ok? && r.value < 0 ==> text[0] == '-'
  {
    var negative := |text| > 0 && text[0] == '-';
    var digits := if |text| > 0 && (text[0] == '-' || text[0] == '+') then text[1..] else text;
    if digits != [] && AllDigits(digits) then
      var magnitude: int := DecimalValue(digits);
      Ok(if negative then -magnitude else magnitude)
    else
      Err(MalformedInteger(text))
  }

  /** Decimal text of a natural number, no leading zeros. */
  function ShowNat(n: nat): (s: string)
    ensures s != [] && AllDigits(s)
  {
    if n < 10 then [('0' as int + n) as char] else ShowNat(n / 10) + [('0' as int + n % 10) as char]
  }

  /** `str(n)`: decimal text with a leading '-' for negative numbers. */
  function ShowInt(n: int): (s: string)
    ensures s != [] && forall c :: c in s ==> c == '-' || IsDigit(c)
  {
    if n < 0 then "-" + ShowNat(-n) else ShowNat(n)
  }

  lemma {:induction false} DecimalValueOfShowNat(n: nat)
    ensures DecimalValue(ShowNat(n)) == n
  {
    if n >= 10 {
      var s := ShowNat(n);
      assert s[..|s| - 1] == ShowNat(n / 10);
      DecimalValueOfShowNat(n / 10);
    }
  }

  /** A run of digits parses to its value, with or without a leading minus. */
  lemma ParseDigits(digits: string)
    requires digits != [] && AllDigits(digits)
    ensures ParseInt(digits) == Ok(DecimalValue(digits))
    ensures ParseInt("-" + digits) == Ok(-(DecimalValue(digits) as int))
  {
    assert IsDigit(digits[0]);
    assert ("-" + digits)[1..] == digits;
  }

  /** Every integer's decimal text parses back to it. */
  lemma ParseShowRoundTrip(n: int)
    ensures ParseInt(ShowInt(n)) == Ok(n)
  {
    var m: nat := if n < 0 then -n else n;
    ParseDigits(ShowNat(m));
    DecimalValueOfShowNat(m);
  }
}
