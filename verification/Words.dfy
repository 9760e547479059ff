/** Machine words of the C source.

    A 64-bit word is the sequence of its bits, bit `i` having weight `2^i`, and the operators
    `<<`, `>>`, `&`, `|` and `~` are defined bit by bit.  `Val` and `Bits` go between words and
    the numbers they stand for. */
module Words {

  datatype Option<+T> = None | Some(value: T)

  type Word = w: seq<bool> | |w| == 64 witness seq(64, i => false)
  type Byte = x: int | 0 <= x < 256
  type UInt32 = x: int | 0 <= x < 0x1_0000_0000
  type Int32 = x: int | -0x8000_0000 <= x < 0x8000_0000

  const ZERO: Word := seq(64, i => false)

  function And(a: Word, b: Word): Word {
    seq(64, i requires 0 <= i < 64 => a[i] && b[i])
  }

  function Or(a: Word, b: Word): Word {
    seq(64, i requires 0 <= i < 64 => a[i] || b[i])
  }

  function Not(a: Word): Word {
    seq(64, i requires 0 <= i < 64 => !a[i])
  }

  function Shl(a: Word, n: nat): Word {
    seq(64, i requires 0 <= i < 64 => n <= i && a[i - n])
  }

  function Shr(a: Word, n: nat): Word {
    seq(64, i requires 0 <= i < 64 => i + n < 64 && a[i + n])
  }

  function Pow2(n: nat): (p: nat)
    ensures p > 0
  {
    if n == 0 then 1 else 2 * Pow2(n - 1)
  }

  /** The number a bit sequence stands for, least significant bit first. */
  function Val(s: seq<bool>): nat {
    if s == [] then 0 else (if s[0] then 1 else 0) + 2 * Val(s[1..])
  }

  /** The `n` low bits of `v`. */
  function Bits(v: nat, n: nat): (s: seq<bool>)
    ensures |s| == n
  {
    if n == 0 then [] else [v % 2 == 1] + Bits(v / 2, n - 1)
  }

  /** The word `(1ULL << n) - 1`. */
  function Mask(n: nat): Word {
    seq(64, i => i < n)
  }

  lemma {:induction false} ValBound(s: seq<bool>)
    ensures Val(s) < Pow2(|s|)
  {
    if s != [] {
      ValBound(s[1..]);
    }
  }

  lemma {:induction false} BitsOfVal(s: seq<bool>)
    ensures Bits(Val(s), |s|) == s
  {
    if s != [] {
      BitsOfVal(s[1..]);
      assert Val(s) / 2 == Val(s[1..]);
    }
  }

  /** `v` splits into its `n` low bits and the rest. */
  lemma {:induction false} BitsSplit(v: nat, n: nat) returns (high: nat)
    ensures v == Val(Bits(v, n)) + high * Pow2(n)
  {
    if n == 0 {
      high := v;
    } else {
      high := BitsSplit(v / 2, n - 1);
      assert Bits(v, n)[1..] == Bits(v / 2, n - 1);
      assert 2 * (high * Pow2(n - 1)) == high * Pow2(n);
    }
  }

  lemma ModUnique(v: nat, r: nat, q: nat, m: nat)
    requires 0 < m && r < m && v == r + q * m
    ensures v % m == r
  {
    var d := q - v / m;
    assert d * m == q * m - (v / m) * m;
    assert d <= -1 ==> d * m <= -1 * m;
    assert d >= 1 ==> d * m >= 1 * m;
  }

  lemma DivUnique(v: nat, r: nat, q: nat, m: nat)
    requires 0 < m && r < m && v == r + q * m
    ensures v / m == q
  {
    ModUnique(v, r, q, m);
    var d := q - v / m;
    assert d * m == q * m - (v / m) * m;
    assert d <= -1 ==> d * m <= -1 * m;
    assert d >= 1 ==> d * m >= 1 * m;
  }

  lemma {:induction false} ValConcat(a: seq<bool>, b: seq<bool>)
    ensures Val(a + b) == Val(a) + Val(b) * Pow2(|a|)
  {
    if a == [] {
      assert a + b == b;
    } else {
      ValConcat(a[1..], b);
      assert (a + b)[1..] == a[1..] + b;
      assert Val(b) * Pow2(|a|) == 2 * (Val(b) * Pow2(|a| - 1));
    }
  }

  /** The low bits are the remainder and the high bits the quotient. */
  lemma ValSplit(s: seq<bool>, n: nat)
    requires n <= |s|
    ensures Val(s[..n]) == Val(s) % Pow2(n)
    ensures Val(s[n..]) == Val(s) / Pow2(n)
  {
    hide Val, Pow2;
    assert s == s[..n] + s[n..];
    ValConcat(s[..n], s[n..]);
    ValBound(s[..n]);
    ModUnique(Val(s), Val(s[..n]), Val(s[n..]), Pow2(n));
    DivUnique(Val(s), Val(s[..n]), Val(s[n..]), Pow2(n));
  }

  /** Keeping the `n` low bits is reduction modulo `2^n`. */
  lemma {:induction false} ValOfBits(v: nat, n: nat)
    ensures Val(Bits(v, n)) == v % Pow2(n)
  {
    var high := BitsSplit(v, n);
    ValBound(Bits(v, n));
    ModUnique(v, Val(Bits(v, n)), high, Pow2(n));
  }

  lemma {:induction false} BitsAgree(v: nat, n: nat, m: nat, i: nat)
    requires i < n <= m
    ensures Bits(v, n)[i] == Bits(v, m)[i]
  {
    if i > 0 {
      BitsAgree(v / 2, n - 1, m - 1, i - 1);
    }
  }

  /** Leading zero bits do not count. */
  lemma {:induction false} ValPadded(s: seq<bool>, n: nat)
    requires n <= |s| && forall i :: n <= i < |s| ==> !s[i]
    ensures Val(s) == Val(s[..n])
  {
    if s != [] {
      if n == 0 {
        ValPadded(s[1..], 0);
      } else {
        ValPadded(s[1..], n - 1);
        assert s[..n][1..] == s[1..][..n - 1];
      }
    }
  }

  lemma ModSmall(a: nat, m: nat)
    requires a < m
    ensures a % m == a
  {
  }

  /** The mask is what the source computes: one shifted left, minus one. */
  lemma {:induction false} MaskIsPow2Minus1(n: nat)
    requires n < 64
    ensures Val(Mask(n)) == Pow2(n) - 1
  {
    ValPadded(Mask(n), n);
    AllOnes(Mask(n)[..n]);
  }

  lemma {:induction false} AllOnes(s: seq<bool>)
    requires forall i :: 0 <= i < |s| ==> s[i]
    ensures Val(s) == Pow2(|s|) - 1
  {
    if s != [] {
      AllOnes(s[1..]);
    }
  }

  lemma Pow2Values()
    ensures Pow2(8) == 0x100 && Pow2(16) == 0x1_0000 && Pow2(32) == 0x1_0000_0000
  {
    assert Pow2(8) == 0x100;
    assert Pow2(16) == 0x100 * Pow2(8);
    assert Pow2(24) == 0x100 * Pow2(16);
    assert Pow2(32) == 0x100 * Pow2(24);
  }
}
