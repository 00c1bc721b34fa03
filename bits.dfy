/** Python's integer operations as the executor uses them: shifts, the
    bitwise operators on unbounded two's-complement integers, and the
    `"{:032b}"` binary text that `clo`, `clz`, `sllv` and `srav` inspect. */
module Bits {
  import opened Outcomes

  function Pow2(n: nat): (r: nat)
    ensures r >= 1
  {
    if n == 0 then 1 else 2 * Pow2(n - 1)
  }

  function Abs(x: int): nat { if x < 0 then -x else x }

  lemma {:induction false} Pow2Add(a: nat, b: nat)
    ensures Pow2(a + b) == Pow2(a) * Pow2(b)
  {
    if a > 0 {
      Pow2Add(a - 1, b);
      var x, y := Pow2(a - 1), Pow2(b);
      assert Pow2(a + b) == 2 * Pow2(a - 1 + b);
      assert Pow2(a) == 2 * x;
      assert 2 * (x * y) == (2 * x) * y;
    }
  }

  /** The powers the executor needs: 2^5 (five low bits), 2^16 (`lui`) and 2^32. */
  lemma Pow2Constants()
    ensures Pow2(5) == 32 && Pow2(16) == 0x1_0000 && Pow2(32) == 0x1_0000_0000
  {
    assert Pow2(2) == 4;
    Pow2Add(2, 2);
    Pow2Add(4, 1);
    Pow2Add(4, 4);
    Pow2Add(8, 8);
    Pow2Add(16, 16);
  }

  lemma MulPositive(a: int, d: int)
    requires a >= 1 && d >= 1
    ensures a * d >= d
  {
    assert a * d == d + (a - 1) * d;
  }

  /** Euclidean division is unique: a quotient and remainder in range are the ones `/` and `%` give. */
  lemma EuclidUnique(n: int, q: int, r: int, d: int)
    requires d >= 1 && 0 <= r < d && n == q * d + r
    ensures n / d == q && n % d == r
  {
    var q', r' := n / d, n % d;
    assert (q - q') * d == r' - r;
    if q > q' {
      MulPositive(q - q', d);
    } else if q < q' {
      MulPositive(q' - q, d);
    }
  }

  // ---------------------------------------------------------------------
  // Shifts
  // ---------------------------------------------------------------------

  /** `x << n`: x times 2^n; a negative count raises ValueError. */
  function ShiftLeft(x: int, n: int): (r: Result<int>)
    ensures r.Err? <==> n < 0
    ensures r.Err? ==> r.error == NegativeShiftCount(n)
    ensures r.Ok? ==> r.value / Pow2(n) == x && r.value % Pow2(n) == 0
  {
    if n < 0 then Err(NegativeShiftCount(n))
    else
      var p := Pow2(n);
      MulDivCancel(x, p);
      Ok(x * p)
  }

  /** `x >> n`: the floor of x / 2^n (Python shifts are arithmetic);
      a negative count raises ValueError. */
  function ShiftRight(x: int, n: int): (r: Result<int>)
    ensures r.Err? <==> n < 0
    ensures r.Err? ==> r.error == NegativeShiftCount(n)
    ensures r.Ok? ==> r.value * Pow2(n) <= x < (r.value + 1) * Pow2(n)
  {
    if n < 0 then Err(NegativeShiftCount(n))
    else
      var p := Pow2(n);
      FloorDivBounds(x, p);
      Ok(x / p)
  }

  lemma MulDivCancel(x: int, p: nat)
    requires p >= 1
    ensures (x * p) / p == x && (x * p) % p == 0
  {
    EuclidUnique(x * p, x, 0, p);
  }

  lemma FloorDivBounds(x: int, p: nat)
    requires p >= 1
    ensures (x / p) * p <= x < (x / p + 1) * p
  {
    assert x == (x / p) * p + x % p;
    assert (x / p + 1) * p == (x / p) * p + p;
  }

  /** Shifting left then right by the same count gives the value back. */
  lemma ShiftRoundTrip(x: int, n: nat)
    ensures ShiftRight(ShiftLeft(x, n).value, n) == Ok(x)
  {
  }

  // ---------------------------------------------------------------------
  // Bitwise operators on unbounded integers
  // ---------------------------------------------------------------------

  /** Bit k of x in infinite two's complement: (x >> k) & 1 == 1. */
  function Bit(x: int, k: nat): bool
    decreases k
  {
    if k == 0 then x % 2 == 1 else Bit(x / 2, k - 1)
  }

  /** `~x`. */
  function Not(x: int): (r: int)
    ensures (r < 0) <==> (x >= 0)
    ensures r % 2 != x % 2
  {
    -x - 1
  }

  /** `a & b`. */
  function And(a: int, b: int): (r: int)
    ensures (r < 0) <==> (a < 0 && b < 0)
    ensures 0 <= a ==> 0 <= r <= a
    ensures 0 <= b ==> 0 <= r <= b
    decreases Abs(a) + Abs(b)
  {
    if a == 0 || b == 0 then 0
    else if a == -1 then b
    else if b == -1 then a
    else 2 * And(a / 2, b / 2) + (if a % 2 == 1 && b % 2 == 1 then 1 else 0)
  }

  /** `a | b`. */
  function Or(a: int, b: int): (r: int)
    ensures (r < 0) <==> (a < 0 || b < 0)
    ensures 0 <= a && 0 <= b ==> a <= r <= a + b && b <= r
    decreases Abs(a) + Abs(b)
  {
    if a == -1 || b == -1 then -1
    else if a == 0 then b
    else if b == 0 then a
    else 2 * Or(a / 2, b / 2) + (if a % 2 == 1 || b % 2 == 1 then 1 else 0)
  }

  /** `a ^ b`. */
  function Xor(a: int, b: int): (r: int)
    ensures (r < 0) <==> ((a < 0) != (b < 0))
    ensures 0 <= a && 0 <= b ==> 0 <= r <= a + b
    decreases Abs(a) + Abs(b)
  {
    if a == 0 then b
    else if b == 0 then a
    else if a == -1 then Not(b)
    else if b == -1 then Not(a)
    else 2 * Xor(a / 2, b / 2) + (if a % 2 != b % 2 then 1 else 0)
  }

  /** What the program's `nor` computes: `~a | ~b`. */
  function Nor(a: int, b: int): (r: int)
    ensures (r < 0) <==> (a >= 0 || b >= 0)
  {
    Or(Not(a), Not(b))
  }

  lemma {:induction false} BitOfZero(k: nat)
    ensures !Bit(0, k)
  {
    if k > 0 { BitOfZero(k - 1); }
  }

  lemma {:induction false} BitOfMinusOne(k: nat)
    ensures Bit(-1, k)
  {
    if k > 0 { BitOfMinusOne(k - 1); }
  }

  /** x = 2q + r splits into its low bit r and the rest q. */
  lemma HalfOf(q: int, r: int)
    requires r == 0 || r == 1
    ensures (2 * q + r) / 2 == q && (2 * q + r) % 2 == r
  {
  }

  lemma NotHalf(x: int)
    ensures Not(x) / 2 == Not(x / 2) && Not(x) % 2 == 1 - x % 2
  {
    HalfOf(Not(x / 2), 1 - x % 2);
  }

  /** `~` flips every bit. */
  lemma {:induction false} BitNot(x: int, k: nat)
    ensures Bit(Not(x), k) == !Bit(x, k)
    decreases k
  {
    NotHalf(x);
    if k > 0 { BitNot(x / 2, k - 1); }
  }

  /** `&` is bitwise conjunction. */
  lemma {:induction false} BitAnd(a: int, b: int, k: nat)
    ensures Bit(And(a, b), k) == (Bit(a, k) && Bit(b, k))
    decreases Abs(a) + Abs(b)
  {
    if a == 0 || b == 0 {
      BitOfZero(k);
    } else if a == -1 || b == -1 {
      BitOfMinusOne(k);
    } else {
      var r := if a % 2 == 1 && b % 2 == 1 then 1 else 0;
      HalfOf(And(a / 2, b / 2), r);
      if k > 0 { BitAnd(a / 2, b / 2, k - 1); }
    }
  }

  /** `|` is bitwise disjunction. */
  lemma {:induction false} BitOr(a: int, b: int, k: nat)
    ensures Bit(Or(a, b), k) == (Bit(a, k) || Bit(b, k))
    decreases Abs(a) + Abs(b)
  {
    if a == -1 || b == -1 {
      BitOfMinusOne(k);
    } else if a == 0 || b == 0 {
      BitOfZero(k);
    } else {
      var r := if a % 2 == 1 || b % 2 == 1 then 1 else 0;
      HalfOf(Or(a / 2, b / 2), r);
      if k > 0 { BitOr(a / 2, b / 2, k - 1); }
    }
  }

  /** `^` is bitwise exclusive or. */
  lemma {:induction false} BitXor(a: int, b: int, k: nat)
    ensures Bit(Xor(a, b), k) == (Bit(a, k) != Bit(b, k))
    decreases Abs(a) + Abs(b)
  {
    if a == 0 || b == 0 {
      BitOfZero(k);
    } else if a == -1 {
      BitOfMinusOne(k);
      BitNot(b, k);
    } else if b == -1 {
      BitOfMinusOne(k);
      BitNot(a, k);
    } else {
      var r := if a % 2 != b % 2 then 1 else 0;
      HalfOf(Xor(a / 2, b / 2), r);
      if k > 0 { BitXor(a / 2, b / 2, k - 1); }
    }
  }

  /** The program's `nor` is the complement of `&` (a NAND), not of `|`. */
  lemma {:induction false} NorIsNand(a: int, b: int)
    ensures Nor(a, b) == Not(And(a, b))
    decreases Abs(a) + Abs(b)
  {
    if a == 0 || b == 0 || a == -1 || b == -1 {
    } else {
      NotHalf(a);
      NotHalf(b);
      NorIsNand(a / 2, b / 2);
      var r := if a % 2 == 1 && b % 2 == 1 then 1 else 0;
      HalfOf(And(a / 2, b / 2), r);
    }
  }

  /** An input on which `~a | ~b` and MIPS NOR, `~(a | b)`, differ. */
  lemma NorDiffersFromMipsNor()
    ensures Nor(1, 0) == -1 && Not(Or(1, 0)) == -2
  {
  }

  // ---------------------------------------------------------------------
  // "{:032b}".format(v) and what is read back from it
  // ---------------------------------------------------------------------

  predicate IsBinaryDigits(s: string) { forall j :: 0 <= j < |s| ==> s[j] == '0' || s[j] == '1' }

  function BinaryDigit(b: nat): char
    requires b < 2
  {
    if b == 0 then '0' else '1'
  }

  /** Python's binary digits of n, most significant first, no leading zeros. */
  function Binary(n: nat): (s: string)
    ensures |s| >= 1 && IsBinaryDigits(s)
  {
    if n < 2 then [BinaryDigit(n)] else Binary(n / 2) + [BinaryDigit(n % 2)]
  }

  function Zeros(k: nat): (s: string)
    ensures |s| == k && IsBinaryDigits(s)
  {
    seq(k, _ => '0')
  }

  /** Zero fill on the left up to the given width. */
  function PadLeft(s: string, width: nat): (r: string)
    ensures |r| >= width && |r| >= |s|
    ensures IsBinaryDigits(s) ==> IsBinaryDigits(r)
  {
    if |s| < width then Zeros(width - |s|) + s else s
  }

  /** `"{:032b}".format(v)`: zero-filled to width 32, the sign counted in the width. */
  function FormatBin32(v: int): (s: string)
    ensures |s| >= 32
    ensures (s[0] == '-') <==> (v < 0)
    ensures IsBinaryDigits(s[1..])
  {
    if v >= 0 then PadLeft(Binary(v), 32) else "-" + PadLeft(Binary(-v), 31)
  }

  /** `int(s, 2)` on a string of binary digits. */
  function ParseBinary(s: string): nat
  {
    if s == [] then 0 else 2 * ParseBinary(s[..|s| - 1]) + (if s[|s| - 1] == '1' then 1 else 0)
  }

  /** The shift amount `sllv` and `srav` read: `int(aux[len(aux)-5:len(aux)], 2)`. */
  function ShiftAmount(v: int): (r: nat)
    ensures r < 32
  {
    var aux := FormatBin32(v);
    ParseBinaryBound(aux[|aux| - 5..]);
    Pow2Constants();
    ParseBinary(aux[|aux| - 5..])
  }

  /** What `clo` writes: the number of '1' characters of the formatted value. */
  function CountOnes(v: int): (r: nat)
    ensures r <= |FormatBin32(v)|
  {
    multiset(FormatBin32(v))['1']
  }

  /** What `clz` writes: the number of '0' characters of the formatted value. */
  function CountZeros(v: int): (r: nat)
    ensures r <= |FormatBin32(v)|
  {
    multiset(FormatBin32(v))['0']
  }

  /** Reference definition of the number of 1 bits of a natural number. */
  function PopCount(n: nat): nat
  {
    if n == 0 then 0 else n % 2 + PopCount(n / 2)
  }

  lemma ParseBinarySnoc(s: string, c: char)
    ensures ParseBinary(s + [c]) == 2 * ParseBinary(s) + (if c == '1' then 1 else 0)
  {
    assert (s + [c])[..|s|] == s;
  }

  lemma {:induction false} ParseBinaryAppend(a: string, b: string)
    ensures ParseBinary(a + b) == ParseBinary(a) * Pow2(|b|) + ParseBinary(b)
    decreases |b|
  {
    if b == [] {
      assert a + b == a;
    } else {
      var c, b' := b[|b| - 1], b[..|b| - 1];
      assert b == b' + [c];
      assert a + b == (a + b') + [c];
      ParseBinaryAppend(a, b');
      ParseBinarySnoc(a + b', c);
      ParseBinarySnoc(b', c);
      var x, y, p := ParseBinary(a), ParseBinary(b'), Pow2(|b'|);
      var d := if c == '1' then 1 else 0;
      assert ParseBinary(a + b) == 2 * (x * p + y) + d;
      assert ParseBinary(b) == 2 * y + d;
      assert Pow2(|b|) == 2 * p;
      DoubleShift(x, y, p, d);
    }
  }

  lemma DoubleShift(x: int, y: int, p: int, d: int)
    ensures 2 * (x * p + y) + d == x * (2 * p) + (2 * y + d)
  {
  }

  lemma {:induction false} ParseBinaryBound(s: string)
    ensures ParseBinary(s) < Pow2(|s|)
  {
    if s != [] { ParseBinaryBound(s[..|s| - 1]); }
  }

  lemma {:induction false} ParseBinaryZeros(k: nat)
    ensures ParseBinary(Zeros(k)) == 0
  {
    if k > 0 {
      assert Zeros(k)[..k - 1] == Zeros(k - 1);
      ParseBinaryZeros(k - 1);
    }
  }

  lemma {:induction false} ParseBinaryOfBinary(n: nat)
    ensures ParseBinary(Binary(n)) == n
  {
    if n >= 2 {
      var s := Binary(n);
      assert s[..|s| - 1] == Binary(n / 2);
      ParseBinaryOfBinary(n / 2);
    }
  }

  /** Reading back a zero-filled binary text gives the number. */
  lemma ParseBinaryOfPadded(n: nat, width: nat)
    ensures ParseBinary(PadLeft(Binary(n), width)) == n
  {
    ParseBinaryOfBinary(n);
    PaddingKeepsValue(Binary(n), width);
  }

  /** Leading zeros do not change the value of a binary text. */
  lemma PaddingKeepsValue(b: string, width: nat)
    ensures ParseBinary(PadLeft(b, width)) == ParseBinary(b)
  {
    if |b| < width {
      var z := Zeros(width - |b|);
      assert PadLeft(b, width) == z + b;
      ParseBinaryAppend(z, b);
      ParseBinaryZeros(width - |b|);
      assert ParseBinary(z) * Pow2(|b|) == 0;
    }
  }

  /** The last k digits of a binary text are its value modulo 2^k. */
  lemma LastDigits(s: string, k: nat)
    requires k <= |s|
    ensures ParseBinary(s[|s| - k..]) == ParseBinary(s) % Pow2(k)
  {
    var hi, lo := s[..|s| - k], s[|s| - k..];
    assert s == hi + lo;
    ParseBinaryAppend(hi, lo);
    ParseBinaryBound(lo);
    EuclidUnique(ParseBinary(s), ParseBinary(hi), ParseBinary(lo), Pow2(k));
  }

  lemma LastFiveOfPadded(n: nat, width: nat)
    requires width >= 5
    ensures var p := PadLeft(Binary(n), width); ParseBinary(p[|p| - 5..]) == n % 32
  {
    var p := PadLeft(Binary(n), width);
    LastDigits(p, 5);
    ParseBinaryOfPadded(n, width);
    assert Pow2(5) == 32;
  }

  /** `sllv`/`srav` shift by the magnitude of the register modulo 32, its low five bits. */
  lemma ShiftAmountIsLowBits(v: int)
    ensures ShiftAmount(v) == Abs(v) % 32
  {
    if v >= 0 {
      LastFiveOfPadded(v, 32);
    } else {
      NegativeShiftAmount(v);
    }
  }

  lemma NegativeShiftAmount(v: int)
    requires v < 0
    ensures ShiftAmount(v) == Abs(v) % 32
  {
    var n := Abs(v);
    var p := PadLeft(Binary(n), 31);
    NegativeTail(v, n);
    LastFiveOfPadded(n, 31);
    assert ShiftAmount(v) == ParseBinary(p[|p| - 5..]) == n % 32;
  }

  /** A negative value's shift amount is read from the zero-filled text of its magnitude n. */
  lemma NegativeTail(v: int, n: nat)
    requires v < 0 && n == -v
    ensures var p := PadLeft(Binary(n), 31); ShiftAmount(v) == ParseBinary(p[|p| - 5..])
  {
    var p := PadLeft(Binary(n), 31);
    var aux := FormatBin32(v);
    assert aux == "-" + p;
    LastFiveAfterSign(p);
    assert aux[|aux| - 5..] == p[|p| - 5..];
  }

  /** The sign does not reach the last five characters of a long text. */
  lemma LastFiveAfterSign(p: string)
    requires |p| >= 5
    ensures var s := "-" + p; s[|s| - 5..] == p[|p| - 5..]
  {
    var s := "-" + p;
    assert s[1..] == p;
    assert s[|s| - 5..] == s[1..][|p| - 5..];
  }

  lemma {:induction false} BinaryCounts(n: nat)
    ensures multiset(Binary(n))['1'] == PopCount(n)
    ensures multiset(Binary(n))['0'] == |Binary(n)| - PopCount(n)
  {
    if n >= 2 {
      BinaryCounts(n / 2);
      assert Binary(n) == Binary(n / 2) + [BinaryDigit(n % 2)];
    }
  }

  lemma {:induction false} BinaryLength(n: nat, w: nat)
    requires n < Pow2(w)
    ensures |Binary(n)| <= w || (n == 0 && w == 0)
  {
    if n >= 2 {
      BinaryLength(n / 2, w - 1);
    }
  }

  lemma ZerosCounts(k: nat)
    ensures multiset(Zeros(k))['0'] == k && multiset(Zeros(k))['1'] == 0
  {
    assert multiset(Zeros(k)) == multiset{} [ '0' := k ] by {
      ZerosMultiset(k);
    }
  }

  lemma {:induction false} ZerosMultiset(k: nat)
    ensures multiset(Zeros(k)) == multiset{} [ '0' := k ]
  {
    if k > 0 {
      assert Zeros(k) == Zeros(k - 1) + ['0'];
      ZerosMultiset(k - 1);
    }
  }

  /** `clo` writes the number of 1 bits of the magnitude, whatever the sign or width. */
  lemma CountOnesIsPopCount(v: int)
    ensures CountOnes(v) == PopCount(Abs(v))
  {
    var b := Binary(Abs(v));
    BinaryCounts(Abs(v));
    var w := if v >= 0 then 32 else 31;
    if |b| < w {
      ZerosCounts(w - |b|);
    }
  }

  /** On a 32-bit value, `clz` writes 32 minus the number of 1 bits (all zero bits, not leading ones). */
  lemma CountZerosOfWord(v: int)
    requires 0 <= v < 0x1_0000_0000
    ensures CountZeros(v) == 32 - PopCount(v)
    ensures CountOnes(v) + CountZeros(v) == 32
  {
    var b := Binary(v);
    Pow2Constants();
    BinaryLength(v, 32);
    BinaryCounts(v);
    ZerosCounts(32 - |b|);
    CountOnesIsPopCount(v);
  }

  lemma {:induction false} PopCountAllOnes(n: nat)
    ensures PopCount(Pow2(n) - 1) == n
  {
    if n > 0 {
      assert (Pow2(n) - 1) / 2 == Pow2(n - 1) - 1;
      PopCountAllOnes(n - 1);
    }
  }

  /** A word whose low n bits are set, n <= 32, has n ones and 32 - n zeros:
      n = 32 is 0xFFFFFFFF, where `clo` writes 32, and n = 0 is 0, where `clz`
      writes 32. */
  lemma AllOnesCounts(n: nat)
    requires n <= 32
    ensures CountOnes(Pow2(n) - 1) == n
    ensures CountZeros(Pow2(n) - 1) == 32 - n
  {
    var v: nat := Pow2(n) - 1;
    Pow2AtMostWord(n);
    PopCountAllOnes(n);
    CountOnesIsPopCount(v);
    CountZerosOfWord(v);
  }

  lemma Pow2AtMostWord(n: nat)
    requires n <= 32
    ensures Pow2(n) <= 0x1_0000_0000
  {
    var p, q := Pow2(n), Pow2(32 - n);
    Pow2Add(n, 32 - n);
    assert n + (32 - n) == 32;
    Pow2Constants();
    MulPositive(q, p);
    assert q * p == p * q;
  }
}
