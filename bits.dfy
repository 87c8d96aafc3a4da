/** Binary formatting as the programmer does it: `'{0:0Nb}'.format(x)` turned into a
    list of digits (most significant first), and the reversal that puts the bit of
    weight 2^i at list index i before it is driven onto the bus. */
module Bits {

  function Pow2(n: nat): (r: nat)
    ensures r >= 1
  {
    if n == 0 then 1 else 2 * Pow2(n - 1)
  }

  /** Every element is a logic level, 0 or 1. */
  predicate IsBits(b: seq<int>) {
    forall i :: 0 <= i < |b| ==> b[i] == 0 || b[i] == 1
  }

  predicate IsDigit(c: char) {
    '0' <= c <= '9'
  }

  predicate IsDigitString(s: string) {
    forall i :: 0 <= i < |s| ==> IsDigit(s[i])
  }

  /** `int(c)` of one decimal digit character. */
  function DigitValue(c: char): int
    requires IsDigit(c)
  {
    c as int - '0' as int
  }

  /** The character the binary format writes for a bit. */
  function DigitChar(b: int): char
    requires b == 0 || b == 1
  {
    if b == 0 then '0' else '1'
  }

  /** The binary digits of `x` with no leading zeros ("0" for zero). */
  function Bin(x: nat): string
    decreases x
  {
    if x < 2 then [DigitChar(x)] else Bin(x / 2) + [DigitChar(x % 2)]
  }

  function Zeros(n: nat): string {
    seq(n, _ => '0')
  }

  /** `'{0:0<width>b}'.format(x)`: the binary digits of `x`, left-padded with '0' to at
      least `width` characters (a wider number keeps all its digits). */
  function Format(x: nat, width: nat): string {
    var d := Bin(x);
    if |d| >= width then d else Zeros(width - |d|) + d
  }

  /** The argument of `_tolist`: a digit string, or a list that is already numbers. */
  datatype Word = Text(s: string) | List(l: seq<int>)

  predicate Convertible(w: Word) {
    w.Text? ==> IsDigitString(w.s)
  }

  /** `_tolist`: a string becomes the list of its digits' values; a list is returned as it is. */
  function ToList(w: Word): seq<int>
    requires Convertible(w)
  {
    match w
    case Text(s) => seq(|s|, i requires 0 <= i < |s| => DigitValue(s[i]))
    case List(l) => l
  }

  /** `_tobinary(x, size)`: ten digits when `size` is 10, eight otherwise. */
  function ToBinary(x: nat, size: int): seq<int> {
    var s := if size == 10 then Format(x, 10) else Format(x, 8);
    assert IsDigitString(s) by { FormatDigits(x, if size == 10 then 10 else 8); }
    ToList(Text(s))
  }

  /** `l[::-1]`. */
  function Reverse<T>(s: seq<T>): (r: seq<T>)
    ensures |r| == |s|
  {
    if s == [] then [] else [s[|s| - 1]] + Reverse(s[..|s| - 1])
  }

  /** The lowest `w` bits of `x`, most significant first. */
  function MsbFirst(x: nat, w: nat): (r: seq<int>)
    ensures |r| == w
  {
    if w == 0 then [] else MsbFirst(x / 2, w - 1) + [x % 2]
  }

  /** The lowest `w` bits of `x`, least significant first: index i has weight 2^i. */
  function LsbFirst(x: nat, w: nat): (r: seq<int>)
    ensures |r| == w
  {
    if w == 0 then [] else [x % 2] + LsbFirst(x / 2, w - 1)
  }

  /** The number a bit list denotes when index i has weight 2^i. */
  function ValueLsb(b: seq<int>): int {
    if b == [] then 0 else b[0] + 2 * ValueLsb(b[1..])
  }

  /** The number a bit list denotes when it is written most significant first. */
  function ValueMsb(b: seq<int>): int {
    if b == [] then 0 else 2 * ValueMsb(b[..|b| - 1]) + b[|b| - 1]
  }

  /** `0 if not bit else 1`: any nonzero value is driven as a high level. */
  function Truth(v: int): (b: int)
    ensures b == 0 || b == 1
    ensures b == 0 <==> v == 0
  {
    if v == 0 then 0 else 1
  }

  // ---------------------------------------------------------------------------
  // Lemmas about the binary format
  // ---------------------------------------------------------------------------

  lemma {:induction false} BinDigits(x: nat)
    ensures |Bin(x)| >= 1
    ensures forall i :: 0 <= i < |Bin(x)| ==> Bin(x)[i] == '0' || Bin(x)[i] == '1'
    decreases x
  {
    if x >= 2 {
      BinDigits(x / 2);
    }
  }

  lemma FormatDigits(x: nat, width: nat)
    ensures forall i :: 0 <= i < |Format(x, width)| ==> Format(x, width)[i] == '0' || Format(x, width)[i] == '1'
  {
    BinDigits(x);
  }

  /** A number below 2^w has at most w binary digits. */
  lemma {:induction false} BinLength(x: nat, w: nat)
    requires w >= 1 && x < Pow2(w)
    ensures |Bin(x)| <= w
    decreases w
  {
    if x >= 2 {
      BinLength(x / 2, w - 1);
    }
  }

  lemma {:induction false} MsbFirstOfZero(w: nat)
    ensures MsbFirst(0, w) == seq(w, _ => 0)
  {
    if w > 0 {
      MsbFirstOfZero(w - 1);
    }
  }

  /** The digit characters the padded format writes are those of the w-bit list. */
  lemma {:induction false} FormatIsMsbFirst(x: nat, w: nat)
    requires w >= 1 && x < Pow2(w)
    ensures |MsbFirst(x, w)| == w && IsBits(MsbFirst(x, w))
    ensures |Format(x, w)| == w
    ensures forall i :: 0 <= i < w ==> Format(x, w)[i] == DigitChar(MsbFirst(x, w)[i])
    decreases w
  {
    MsbFirstBits(x, w);
    if x < 2 {
      MsbFirstOfZero(w - 1);
      assert MsbFirst(x, w) == MsbFirst(0, w - 1) + [x];
    } else {
      BinLength(x / 2, w - 1);
      FormatIsMsbFirst(x / 2, w - 1);
      var d := Bin(x / 2);
      assert Bin(x) == d + [DigitChar(x % 2)];
      assert Format(x / 2, w - 1) == Zeros(w - 1 - |d|) + d;
      assert Format(x, w) == Format(x / 2, w - 1) + [DigitChar(x % 2)];
    }
  }

  /** For 0 <= x < 2^w, `_tobinary` yields w digits in {0,1}, most significant first. */
  lemma ToBinaryIsMsbFirst(x: nat, size: int)
    requires size == 10 ==> x < 1024
    requires size != 10 ==> x < 256
    ensures ToBinary(x, size) == MsbFirst(x, if size == 10 then 10 else 8)
  {
    var w := if size == 10 then 10 else 8;
    Pow2Widths();
    FormatIsMsbFirst(x, w);
    MsbFirstBits(x, w);
  }

  lemma {:induction false} MsbFirstBits(x: nat, w: nat)
    ensures |MsbFirst(x, w)| == w && IsBits(MsbFirst(x, w))
  {
    if w > 0 {
      MsbFirstBits(x / 2, w - 1);
    }
  }

  lemma {:induction false} LsbFirstBits(x: nat, w: nat)
    ensures |LsbFirst(x, w)| == w && IsBits(LsbFirst(x, w))
  {
    if w > 0 {
      LsbFirstBits(x / 2, w - 1);
    }
  }

  /** `_tobinary` then the reversal yields the least-significant-first list. */
  lemma {:induction false} ReverseMsbFirst(x: nat, w: nat)
    ensures Reverse(MsbFirst(x, w)) == LsbFirst(x, w)
  {
    if w > 0 {
      var m := MsbFirst(x / 2, w - 1);
      assert (m + [x % 2])[..|m|] == m;
      ReverseMsbFirst(x / 2, w - 1);
    }
  }

  lemma {:induction false} ReverseLength<T>(s: seq<T>)
    ensures |Reverse(s)| == |s|
    ensures forall i :: 0 <= i < |s| ==> Reverse(s)[i] == s[|s| - 1 - i]
    decreases |s|
  {
    if s != [] {
      ReverseLength(s[..|s| - 1]);
    }
  }

  lemma Pow2Widths()
    ensures Pow2(8) == 256 && Pow2(10) == 1024
  {
    assert Pow2(4) == 16;
    assert Pow2(8) == 256;
  }

  /** Euclidean division is determined by quotient and remainder. */
  lemma DivUnique(x: int, m: int, q: int, r: int)
    requires m > 0 && 0 <= r < m && x == m * q + r
    ensures x / m == q
  {
    var q', r' := x / m, x % m;
    assert x == m * q' + r';
    if q' > q {
      MulAtLeast(m, q' - q);
      assert false;
    } else if q' < q {
      MulAtLeast(m, q - q');
      assert false;
    }
  }

  lemma MulAtLeast(m: int, d: int)
    requires m > 0 && d >= 1
    ensures m * d >= m
  {
  }

  lemma DivTwice(x: nat, k: nat)
    requires k >= 1
    ensures (x / 2) / k == x / (2 * k)
  {
    var h := x / 2;
    var q, r1 := h / k, h % k;
    assert h == k * q + r1;
    assert x == 2 * h + x % 2;
    assert x == (2 * k) * q + (2 * r1 + x % 2);
    DivUnique(x, 2 * k, q, 2 * r1 + x % 2);
  }

  /** Index i of the least-significant-first list holds the bit of weight 2^i. */
  lemma {:induction false} LsbFirstAt(x: nat, w: nat, i: nat)
    requires i < w
    ensures |LsbFirst(x, w)| == w
    ensures LsbFirst(x, w)[i] == (x / Pow2(i)) % 2
    decreases i
  {
    LsbFirstBits(x, w);
    if i > 0 {
      LsbFirstAt(x / 2, w - 1, i - 1);
      DivTwice(x, Pow2(i - 1));
    }
  }

  /** Decoding the w-bit list of a number below 2^w gives the number back. */
  lemma {:induction false} ValueOfLsbFirst(x: nat, w: nat)
    requires x < Pow2(w)
    ensures ValueLsb(LsbFirst(x, w)) == x
    decreases w
  {
    if w > 0 {
      ValueOfLsbFirst(x / 2, w - 1);
    }
  }

  /** Encoding the value of a bit list at its own width gives the list back. */
  lemma {:induction false} LsbFirstOfValue(b: seq<int>)
    requires IsBits(b)
    ensures 0 <= ValueLsb(b) < Pow2(|b|)
    ensures LsbFirst(ValueLsb(b), |b|) == b
    decreases |b|
  {
    if b != [] {
      LsbFirstOfValue(b[1..]);
      var v := ValueLsb(b);
      assert v % 2 == b[0] && v / 2 == ValueLsb(b[1..]);
      assert b == [b[0]] + b[1..];
    }
  }

  lemma {:induction false} ValueOfMsbFirst(x: nat, w: nat)
    requires x < Pow2(w)
    ensures ValueMsb(MsbFirst(x, w)) == x
    decreases w
  {
    if w > 0 {
      var m := MsbFirst(x / 2, w - 1);
      assert (m + [x % 2])[..|m|] == m;
      ValueOfMsbFirst(x / 2, w - 1);
    }
  }

  /** For 0 <= x <= 1023 `_tobinary(x, size=10)` is ten digits in {0,1}, most significant
      first, whose binary value is x; for 0 <= x <= 255 the default size gives eight. */
  lemma ToBinaryCorrect(x: nat, size: int)
    requires size == 10 ==> x < 1024
    requires size != 10 ==> x < 256
    ensures var w := if size == 10 then 10 else 8;
      |ToBinary(x, size)| == w && IsBits(ToBinary(x, size)) && ValueMsb(ToBinary(x, size)) == x
  {
    var w := if size == 10 then 10 else 8;
    Pow2Widths();
    ToBinaryIsMsbFirst(x, size);
    MsbFirstBits(x, w);
    ValueOfMsbFirst(x, w);
  }

  /** `ToList` of a '0'/'1' string written from a bit list returns that list. */
  lemma ToListOfTextBits(s: string)
    requires forall i :: 0 <= i < |s| ==> s[i] == '0' || s[i] == '1'
    ensures IsDigitString(s) && IsBits(ToList(Text(s)))
    ensures forall i :: 0 <= i < |s| ==> ToList(Text(s))[i] == (if s[i] == '0' then 0 else 1)
  {
  }

  /** What the address setter stores for 0 <= a <= 1023: `_tobinary(a, size=10)`
      reversed is the ten bits of a with the bit of weight 2^i at index i, and they
      read back as a. */
  lemma AddressEncoding(a: nat)
    requires a < 1024
    ensures Reverse(ToBinary(a, 10)) == LsbFirst(a, 10)
    ensures IsBits(LsbFirst(a, 10))
    ensures forall i :: 0 <= i < 10 ==> LsbFirst(a, 10)[i] == (a / Pow2(i)) % 2
    ensures ValueLsb(LsbFirst(a, 10)) == a
  {
    ToBinaryIsMsbFirst(a, 10);
    ReverseMsbFirst(a, 10);
    LsbFirstBits(a, 10);
    forall i | 0 <= i < 10
      ensures LsbFirst(a, 10)[i] == (a / Pow2(i)) % 2
    {
      LsbFirstAt(a, 10, i);
    }
    Pow2Widths();
    ValueOfLsbFirst(a, 10);
  }

  /** The last address of the device, 1023, is ten ones. */
  lemma LastAddressAllOnes()
    ensures forall i :: 0 <= i < 10 ==> LsbFirst(1023, 10)[i] == 1
  {
    assert LsbFirst(1023, 10) == [1, 1, 1, 1, 1, 1, 1, 1, 1, 1];
  }
}
