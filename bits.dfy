/**
 * Words as bit arrays.  The set-index schemes unpack an unsigned word into
 * an array of 0/1 entries (`A[i] = a >> i & 1`), combine entries with XOR,
 * and pack an array back into a word (`the sum of b[i] << i`).  Here a word
 * is a `nat` and a bit array a `seq<bool>` with bit 0 first; unpacking
 * halves the word once per bit, which is what `a >> i & 1` reads for
 * i = 0, 1, 2, ...
 */
module Bits {

  function Pow2(n: nat): (r: nat)
    ensures r >= 1
  {
    if n == 0 then 1 else 2 * Pow2(n - 1)
  }

  /** The low n bits of x, bit 0 first. */
  function ToBits(x: nat, n: nat): (b: seq<bool>)
    ensures |b| == n
  {
    if n == 0 then [] else [x % 2 == 1] + ToBits(x / 2, n - 1)
  }

  /** Packs a bit array into a word: the sum of b[i] << i. */
  function Val(b: seq<bool>): (v: nat)
    ensures v < Pow2(|b|)
  {
    if b == [] then 0 else (if b[0] then 1 else 0) + 2 * Val(b[1..])
  }

  /** The n-bit field of x starting at bit lo: `(x >> lo) & ((1 << n) - 1)`. */
  function Field(x: nat, lo: nat, n: nat): (v: nat)
    ensures v < Pow2(n)
  {
    Val(ToBits(x, lo + n)[lo..])
  }

  /** Unpacking a packed array gives the array back. */
  lemma {:induction false} ToBitsVal(b: seq<bool>)
    ensures ToBits(Val(b), |b|) == b
  {
    if b != [] {
      ToBitsVal(b[1..]);
      assert b == [b[0]] + b[1..];
    }
  }

  /** Packing the low n bits of a word below 2^n gives the word back. */
  lemma {:induction false} ValToBits(x: nat, n: nat)
    requires x < Pow2(n)
    ensures Val(ToBits(x, n)) == x
  {
    if n > 0 {
      ValToBits(x / 2, n - 1);
    }
  }

  /** The low m bits are a prefix of the low n bits, for m <= n. */
  lemma {:induction false} ToBitsPrefix(x: nat, n: nat, m: nat)
    requires m <= n
    ensures ToBits(x, n)[..m] == ToBits(x, m)
  {
    if m > 0 {
      ToBitsPrefix(x / 2, n - 1, m - 1);
    }
  }

  /** Packing is injective on arrays of one length. */
  lemma ValInjective(b: seq<bool>, c: seq<bool>)
    requires |b| == |c| && Val(b) == Val(c)
    ensures b == c
  {
    ToBitsVal(b);
    ToBitsVal(c);
  }

  /** The low bits of a packed array are its first entries. */
  lemma LowBitsOfVal(b: seq<bool>, m: nat)
    requires m <= |b|
    ensures ToBits(Val(b), m) == b[..m]
  {
    ToBitsVal(b);
    ToBitsPrefix(Val(b), |b|, m);
  }

  function Falses(n: nat): (b: seq<bool>)
    ensures |b| == n && forall i :: 0 <= i < n ==> !b[i]
  {
    seq(n, _ => false)
  }

  /** Trailing zero bits do not change a packed value. */
  lemma {:induction false} ValPadded(b: seq<bool>, n: nat)
    ensures Val(b + Falses(n)) == Val(b)
  {
    if b == [] {
      ValFalses(n);
      assert b + Falses(n) == Falses(n);
    } else {
      ValPadded(b[1..], n);
      assert (b + Falses(n))[1..] == b[1..] + Falses(n);
    }
  }

  lemma {:induction false} ValFalses(n: nat)
    ensures Val(Falses(n)) == 0
  {
    if n > 0 {
      ValFalses(n - 1);
      assert Falses(n)[1..] == Falses(n - 1);
    }
  }

  /** Entry i of b, and false past its end. */
  function At(b: seq<bool>, i: nat): bool
  {
    i < |b| && b[i]
  }

  /** XOR of the entries of b at the listed positions. */
  function XorAt(b: seq<bool>, ps: seq<nat>): bool
  {
    if ps == [] then false else At(b, ps[0]) != XorAt(b, ps[1..])
  }

  /** Arrays that agree at every listed position have the same XOR over those positions. */
  lemma {:induction false} XorAtDependsOnListed(b: seq<bool>, c: seq<bool>, ps: seq<nat>)
    requires forall k :: 0 <= k < |ps| ==> At(b, ps[k]) == At(c, ps[k])
    ensures XorAt(b, ps) == XorAt(c, ps)
  {
    if ps != [] {
      XorAtDependsOnListed(b, c, ps[1..]);
    }
  }

  /** Entry-wise XOR of two bit arrays of equal length (the C `^` on words of that width). */
  function XorSeq(a: seq<bool>, b: seq<bool>): (r: seq<bool>)
    requires |a| == |b|
    ensures |r| == |a|
    ensures forall i :: 0 <= i < |a| ==> r[i] == (a[i] != b[i])
  {
    seq(|a|, i requires 0 <= i < |a| => a[i] != b[i])
  }

  /** XORing the same array twice cancels. */
  lemma XorSeqCancel(a: seq<bool>, b: seq<bool>)
    requires |a| == |b|
    ensures XorSeq(XorSeq(a, b), b) == a
  {
  }

  /** The C `x ^ y` on n-bit words. */
  function Xor(x: nat, y: nat, n: nat): (r: nat)
    ensures r < Pow2(n)
  {
    Val(XorSeq(ToBits(x, n), ToBits(y, n)))
  }

  /** XOR with a fixed word is its own inverse on n-bit words. */
  lemma XorCancel(x: nat, y: nat, n: nat)
    requires x < Pow2(n)
    ensures Xor(Xor(x, y, n), y, n) == x
  {
    ToBitsVal(XorSeq(ToBits(x, n), ToBits(y, n)));
    XorSeqCancel(ToBits(x, n), ToBits(y, n));
    ValToBits(x, n);
  }

  /** Bit i of an n-bit XOR is the XOR of the operands' bits i. */
  lemma XorBits(x: nat, y: nat, n: nat, i: nat)
    requires i < n
    ensures ToBits(Xor(x, y, n), n)[i] == (ToBits(x, n)[i] != ToBits(y, n)[i])
  {
    ToBitsVal(XorSeq(ToBits(x, n), ToBits(y, n)));
  }

  function Trues(n: nat): (b: seq<bool>)
    ensures |b| == n && forall i :: 0 <= i < n ==> b[i]
  {
    seq(n, _ => true)
  }

  /** Entry-wise AND of two bit arrays of equal length. */
  function AndSeq(a: seq<bool>, b: seq<bool>): (r: seq<bool>)
    requires |a| == |b|
    ensures |r| == |a|
    ensures forall i :: 0 <= i < |a| ==> r[i] == (a[i] && b[i])
  {
    seq(|a|, i requires 0 <= i < |a| => a[i] && b[i])
  }

  /** The C `x & y` on w-bit words: only the low w bits of either operand count. */
  function And(x: nat, y: nat, w: nat): (r: nat)
    ensures r < Pow2(w)
  {
    Val(AndSeq(ToBits(x, w), ToBits(y, w)))
  }

  /** `y << k` on a word wide enough to hold the result. */
  function Shl(y: nat, k: nat): nat
  {
    if k == 0 then y else 2 * Shl(y, k - 1)
  }

  /** A shift by k is a multiplication by 2^k. */
  lemma {:induction false} ShlIsMul(y: nat, k: nat)
    ensures Shl(y, k) == y * Pow2(k)
  {
    if k > 0 {
      ShlIsMul(y, k - 1);
      Twice(y, Pow2(k - 1));
    }
  }

  /** Zero has no bit set. */
  lemma {:induction false} ZeroBits(w: nat)
    ensures ToBits(0, w) == Falses(w)
  {
    if w > 0 {
      ZeroBits(w - 1);
      assert Falses(w) == [false] + Falses(w - 1);
    }
  }

  /** `(1 << n) - 1` has exactly its low n bits set. */
  lemma {:induction false} OnesBits(n: nat, w: nat)
    requires n <= w
    ensures ToBits(Pow2(n) - 1, w) == Trues(n) + Falses(w - n)
  {
    if n == 0 {
      ZeroBits(w);
      assert Trues(0) + Falses(w) == Falses(w);
    } else {
      OnesBits(n - 1, w - 1);
      assert (Pow2(n) - 1) / 2 == Pow2(n - 1) - 1;
      assert Trues(n) + Falses(w - n) == [true] + (Trues(n - 1) + Falses(w - n));
    }
  }

  /** `y << k`: k zero bits, then the bits of y. */
  lemma {:induction false} ShlBits(y: nat, k: nat, w: nat)
    requires k <= w
    ensures ToBits(Shl(y, k), w) == Falses(k) + ToBits(y, w - k)
  {
    if k == 0 {
      assert Falses(0) + ToBits(y, w) == ToBits(y, w);
    } else {
      ShlBits(y, k - 1, w - 1);
      assert Falses(k) + ToBits(y, w - k) == [false] + (Falses(k - 1) + ToBits(y, w - k));
    }
  }

  /** Leading zero bits multiply the packed value by a power of two. */
  lemma {:induction false} ValShl(c: seq<bool>, k: nat)
    ensures Val(Falses(k) + c) == Shl(Val(c), k)
  {
    if k == 0 {
      assert Falses(0) + c == c;
    } else {
      ValShl(c, k - 1);
      var d := Falses(k) + c;
      assert d[1..] == Falses(k - 1) + c && !d[0];
      assert Val(d) == 2 * Val(d[1..]);
    }
  }

  lemma Twice(v: nat, p: nat)
    ensures v * (2 * p) == 2 * (v * p)
  {
  }

  /** Some bit set: the packed value is positive. */
  lemma {:induction false} ValPositive(b: seq<bool>, i: nat)
    requires i < |b| && b[i]
    ensures Val(b) >= 1
  {
    if i > 0 {
      ValPositive(b[1..], i - 1);
    }
  }

  /** A word in [2^k, 2^(k+1)) has bit k set. */
  lemma {:induction false} TopBit(y: nat, k: nat, w: nat)
    requires Pow2(k) <= y < 2 * Pow2(k) && k < w
    ensures ToBits(y, w)[k]
  {
    if k > 0 {
      TopBit(y / 2, k - 1, w - 1);
    }
  }
}
