/** Unsigned 32-bit words as bounded naturals, and the bit operations the code applies to them. */
module Words {

  const WORD_LIMIT: nat := 0x1_0000_0000
  type Word = x: nat | x < 0x1_0000_0000

  /** Unsigned addition, wrapping at 32 bits. */
  function Add(x: nat, y: nat): Word {
    (x + y) % WORD_LIMIT
  }

  function Pow2(k: nat): nat {
    if k == 0 then 1 else 2 * Pow2(k - 1)
  }

  predicate Bit(x: nat, k: nat) {
    if k == 0 then x % 2 == 1 else Bit(x / 2, k - 1)
  }

  function And(x: nat, y: nat): nat {
    if x == 0 || y == 0 then 0 else 2 * And(x / 2, y / 2) + (if x % 2 == 1 && y % 2 == 1 then 1 else 0)
  }

  function Or(x: nat, y: nat): nat {
    if x == 0 then y else if y == 0 then x else
      2 * Or(x / 2, y / 2) + (if x % 2 == 1 || y % 2 == 1 then 1 else 0)
  }

  lemma {:induction false} ZeroBits(k: nat)
    ensures !Bit(0, k)
  {
    if k > 0 { ZeroBits(k - 1); }
  }

  lemma {:induction false} AndBits(x: nat, y: nat, k: nat)
    ensures Bit(And(x, y), k) <==> Bit(x, k) && Bit(y, k)
  {
    ZeroBits(k);
    if x != 0 && y != 0 && k > 0 { AndBits(x / 2, y / 2, k - 1); }
  }

  lemma {:induction false} OrBits(x: nat, y: nat, k: nat)
    ensures Bit(Or(x, y), k) <==> Bit(x, k) || Bit(y, k)
  {
    ZeroBits(k);
    if x != 0 && y != 0 && k > 0 { OrBits(x / 2, y / 2, k - 1); }
  }

  /** A word is its bits. */
  lemma {:induction false} SameBits(x: nat, y: nat)
    requires forall k: nat :: Bit(x, k) <==> Bit(y, k)
    ensures x == y
    decreases x + y
  {
    assert Bit(x, 0) <==> Bit(y, 0);
    if x != 0 || y != 0 {
      forall k: nat ensures Bit(x / 2, k) <==> Bit(y / 2, k) {
        assert Bit(x, k + 1) <==> Bit(y, k + 1);
      }
      SameBits(x / 2, y / 2);
    }
  }

  lemma {:induction false} Pow2Bits(n: nat, k: nat)
    ensures Pow2(n) > 0
    ensures Bit(Pow2(n), k) <==> k == n
  {
    if n == 0 {
      if k > 0 { ZeroBits(k - 1); }
    } else {
      Pow2Bits(n - 1, if k == 0 then 0 else k - 1);
    }
  }

  /** (1 << n) - 1 has exactly the n lowest bits set. */
  lemma {:induction false} LowMaskBits(n: nat, k: nat)
    ensures Pow2(n) > 0
    ensures Bit(Pow2(n) - 1, k) <==> k < n
  {
    Pow2Bits(n, 0);
    if n == 0 {
      ZeroBits(k);
    } else {
      LowMaskBits(n - 1, if k == 0 then 0 else k - 1);
      assert (Pow2(n) - 1) / 2 == Pow2(n - 1) - 1;
    }
  }

  lemma AndOddMask(x: nat, y: nat)
    ensures And(x, 2 * y + 1) == 2 * And(x / 2, y) + x % 2
  {
    assert (2 * y + 1) / 2 == y;
    if x == 0 { assert And(0, y) == 0; }
  }

  /** Masking with (1 << n) - 1 is reduction modulo 1 << n. */
  lemma {:induction false} AndLowMask(x: nat, n: nat)
    ensures Pow2(n) > 0
    ensures And(x, Pow2(n) - 1) == x % Pow2(n)
  {
    Pow2Bits(n, 0);
    if n > 0 {
      var half := Pow2(n - 1);
      AndLowMask(x / 2, n - 1);
      calc {
        And(x, 2 * half - 1);
      == { AndOddMask(x, half - 1); }
        2 * ((x / 2) % half) + x % 2;
      == { ModHalf(x, half); }
        x % (2 * half);
      }
    }
  }

  lemma ModHalf(x: nat, m: nat)
    requires m > 0
    ensures x % (2 * m) == 2 * ((x / 2) % m) + x % 2
  {
    var h := x / 2;
    var q, r := h / m, h % m;
    assert x == 2 * h + x % 2 && h == q * m + r;
    assert x == (2 * m) * q + (2 * r + x % 2);
    ModUnique(x, 2 * m, q, 2 * r + x % 2);
  }

  lemma ModUnique(x: int, m: nat, q: int, r: int)
    requires m > 0 && x == m * q + r && 0 <= r < m
    ensures x % m == r && x / m == q
  {
    var d := x / m - q;
    assert m * d == r - x % m by { assert x == m * (x / m) + x % m; assert m * d == m * (x / m) - m * q; }
    assert d >= 1 ==> m * d >= m;
    assert d <= -1 ==> m * d + m <= 0;
  }

  // ----- ready-to-send flag words -----

  const COMPUTE_FLAG: nat := 0x8000_0000

  /** The output pins that want to send: flags & 0x7FFFFFFF. */
  function SendBits(flags: Word): Word {
    flags % COMPUTE_FLAG
  }

  predicate WantsSend(flags: Word) {
    SendBits(flags) != 0
  }

  /** Bit 31 of the flags: the device wants to compute. */
  predicate WantsCompute(flags: Word) {
    flags >= COMPUTE_FLAG
  }

  lemma Pow2Values()
    ensures Pow2(31) == COMPUTE_FLAG && Pow2(32) == WORD_LIMIT
  {
    assert Pow2(8) == 0x100;
    assert Pow2(16) == 0x1_0000;
    assert Pow2(24) == 0x100_0000;
    assert Pow2(31) == COMPUTE_FLAG;
  }

  /** SendBits and WantsCompute are the two masks of the code. */
  lemma FlagMasks(flags: Word)
    ensures SendBits(flags) == And(flags, 0x7FFF_FFFF)
    ensures WantsCompute(flags) <==> And(flags, 0x8000_0000) != 0
  {
    Pow2Values();
    AndLowMask(flags, 31);
    TopBit(flags, 31);
    var masked := And(flags, Pow2(31));
    if WantsCompute(flags) {
      AndBits(flags, Pow2(31), 31);
      Pow2Bits(31, 31);
      ZeroBits(31);
    } else {
      forall k: nat ensures Bit(masked, k) <==> Bit(0, k) {
        AndBits(flags, Pow2(31), k);
        Pow2Bits(31, k);
        ZeroBits(k);
      }
      SameBits(masked, 0);
    }
  }

  lemma {:induction false} TopBit(x: nat, k: nat)
    requires x < Pow2(k + 1)
    ensures Bit(x, k) <==> x >= Pow2(k)
  {
    if k > 0 { TopBit(x / 2, k - 1); }
  }

  // ----- the lowest set bit -----

  function LowestOne(x: nat): nat
    requires x > 0
  {
    if x % 2 == 1 then 0 else 1 + LowestOne(x / 2)
  }

  lemma {:induction false} LowestOneIsLowest(x: nat, j: nat)
    requires x > 0
    ensures Bit(x, LowestOne(x))
    ensures j < LowestOne(x) ==> !Bit(x, j)
  {
    if x % 2 == 0 { LowestOneIsLowest(x / 2, if j == 0 then 0 else j - 1); }
  }

  /** When some send bit is set the lowest set bit is a send bit, whatever the compute bit is. */
  lemma {:induction false} LowestOneOfMasked(x: nat, n: nat)
    requires Pow2(n) > 0 && x % Pow2(n) != 0
    ensures x > 0 && LowestOne(x) == LowestOne(x % Pow2(n))
    ensures LowestOne(x) < n
  {
    if n > 0 {
      Pow2Bits(n - 1, 0);
      ModHalf(x, Pow2(n - 1));
      if x % 2 == 0 { LowestOneOfMasked(x / 2, n - 1); }
    }
  }

  lemma {:induction false} LowestOneBelow(x: nat, n: nat)
    requires 0 < x < Pow2(n)
    ensures LowestOne(x) < n
  {
    if x % 2 == 0 { LowestOneBelow(x / 2, n - 1); }
  }

  /** right_most_one: shift right until the lowest bit is set. */
  method RightMostOne(word: Word) returns (index: nat)
    requires word > 0
    ensures Bit(word, index)
    ensures forall j: nat :: j < index ==> !Bit(word, j)
    ensures index == LowestOne(word)
  {
    var x := word;
    index := 0;
    while x % 2 == 0
      invariant x > 0
      invariant LowestOne(word) == index + LowestOne(x)
      decreases x
    {
      index := index + 1;
      x := x / 2;
    }
    forall j: nat ensures j < index ==> !Bit(word, j) {
      LowestOneIsLowest(word, j);
    }
    LowestOneIsLowest(word, 0);
  }
}
