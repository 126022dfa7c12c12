/**
 * The set-index schemes: the functions that map a line address to the set
 * it is cached in, selected by a scheme id.  Words are `nat`s; `set_lines`
 * is the power of two 2^setBits, so `x & (set_lines - 1)` is the low
 * setBits-bit field of x.
 */
module Schemes {
  import opened Bits
  import Ceaser

  datatype Option<T> = None | Some(value: T)

  /**
   * rotr: rotate the low num_bits bits of n right by c, for an n of at most
   * num_bits bits.  Bit j of the result is bit (j + c) mod num_bits of n.
   */
  function Rotr(n: nat, numBits: nat, c: nat): (r: nat)
    requires n < Pow2(numBits) && c <= numBits
    ensures r < Pow2(numBits)
  {
    if c == 0 then n
    else
      var b := ToBits(n, numBits);
      Val(b[c..] + b[..c])
  }

  /** rotl: rotate the low num_bits bits of n left by c. */
  function Rotl(n: nat, numBits: nat, c: nat): (r: nat)
    requires n < Pow2(numBits) && c <= numBits
    ensures r < Pow2(numBits)
  {
    if c == 0 then n
    else
      var b := ToBits(n, numBits);
      Val(b[numBits - c..] + b[..numBits - c])
  }

  /** Bit j of rotr(n, num_bits, c) is bit j + c of n, wrapping around at num_bits. */
  lemma RotrBits(n: nat, numBits: nat, c: nat, j: nat)
    requires n < Pow2(numBits) && c <= numBits && j < numBits
    ensures j + c < numBits ==> ToBits(Rotr(n, numBits, c), numBits)[j] == ToBits(n, numBits)[j + c]
    ensures j + c >= numBits ==> ToBits(Rotr(n, numBits, c), numBits)[j] == ToBits(n, numBits)[j + c - numBits]
  {
    var b := ToBits(n, numBits);
    if c == 0 {
      ToBitsVal(b);
      ValToBits(n, numBits);
    } else {
      var r := b[c..] + b[..c];
      assert |r| == numBits;
      assert Rotr(n, numBits, c) == Val(r);
      ToBitsVal(r);
      if j + c < numBits {
        assert r[j] == b[c..][j];
      } else {
        assert r[j] == b[..c][j - (numBits - c)];
      }
    }
  }

  /** rotl undoes rotr. */
  lemma RotlRotr(n: nat, numBits: nat, c: nat)
    requires n < Pow2(numBits) && c <= numBits
    ensures Rotl(Rotr(n, numBits, c), numBits, c) == n
  {
    if c > 0 {
      var b := ToBits(n, numBits);
      ToBitsVal(b[c..] + b[..c]);
      assert (b[c..] + b[..c])[numBits - c..] + (b[c..] + b[..c])[..numBits - c] == b;
      ValToBits(n, numBits);
    }
  }

  /** rotr undoes rotl, so both are bijections on num_bits-bit words. */
  lemma RotrRotl(n: nat, numBits: nat, c: nat)
    requires n < Pow2(numBits) && c <= numBits
    ensures Rotr(Rotl(n, numBits, c), numBits, c) == n
  {
    if c > 0 {
      var b := ToBits(n, numBits);
      ToBitsVal(b[numBits - c..] + b[..numBits - c]);
      assert (b[numBits - c..] + b[..numBits - c])[c..] + (b[numBits - c..] + b[..numBits - c])[..c] == b;
      ValToBits(n, numBits);
    }
  }

  /** The address bits each F output of the IvyBridge slice hash XORs. */
  const SLICE_TAPS: seq<seq<nat>> := [
      [6, 12, 17, 18, 22, 24, 27, 29, 30, 32],
      [7, 12, 13, 17, 19, 22, 23, 24, 25, 27, 28, 31, 32, 33],
      [8, 13, 14, 18, 20, 23, 24, 25, 26, 28, 32, 33, 34],
      [9, 14, 15, 19, 21, 24, 25, 26, 27, 29, 33, 34],
      [10, 15, 16, 20, 22, 25, 26, 27, 28, 30, 34],
      [11, 16, 17, 21, 23, 26, 27, 28, 29, 31],
      [12, 13, 14, 15, 16, 18, 19, 20, 21, 24, 25, 26, 28, 30, 31]
    ]

  /** F[j] of intel_slide_case on the bits A of the address. */
  function SliceF(a: nat, j: nat): bool
    requires j < 7
  {
    XorAt(ToBits(a, 35), SLICE_TAPS[j])
  }

  /** intel_slide_case: the 3-bit slice number S2 S1 S0 of the address. */
  function IntelSlide(a: nat): (s: nat)
    ensures s < 8
  {
    var f := seq(7, j requires 0 <= j < 7 => SliceF(a, j));
    var s2 := (f[0] != f[5]) && (f[2] || f[3]) && (f[4] || f[5]);
    var s1 := f[1] && !s2;
    var s0 := XorAt(f, [0, 1, 2, 3, 4, 5, 6]);
    Val([s0, s1, s2])
  }

  lemma SliceTapsAbove6()
    ensures forall j, k :: 0 <= j < 7 && 0 <= k < |SLICE_TAPS[j]| ==> 6 <= SLICE_TAPS[j][k] < 35
  {
  }

  /** The slice number depends only on address bits 6..34. */
  lemma IntelSlideDependsOnBits6To34(a1: nat, a2: nat)
    requires ToBits(a1, 35)[6..] == ToBits(a2, 35)[6..]
    ensures IntelSlide(a1) == IntelSlide(a2)
  {
    SliceTapsAbove6();
    var b1, b2 := ToBits(a1, 35), ToBits(a2, 35);
    forall j | 0 <= j < 7
      ensures SliceF(a1, j) == SliceF(a2, j)
    {
      forall k | 0 <= k < |SLICE_TAPS[j]|
        ensures At(b1, SLICE_TAPS[j][k]) == At(b2, SLICE_TAPS[j][k])
      {
        var p := SLICE_TAPS[j][k];
        assert b1[p] == b1[6..][p - 6] && b2[p] == b2[6..][p - 6];
      }
      XorAtDependsOnListed(b1, b2, SLICE_TAPS[j]);
    }
    var f1 := seq(7, j requires 0 <= j < 7 => SliceF(a1, j));
    var f2 := seq(7, j requires 0 <= j < 7 => SliceF(a2, j));
    assert f1 == f2;
  }

  /**
   * permutation_tag: keep bit 0, move bits 2..n-1 down by one, and move
   * bit 1 to the top (n = set_bits >= 2).
   */
  function PermutationTag(tag: nat, setBits: nat): (r: nat)
    requires setBits >= 2
    ensures r < Pow2(setBits)
  {
    var t := ToBits(tag, setBits);
    Val([t[0]] + t[2..] + [t[1]])
  }

  /** The inverse permutation: bit 0 stays, the top bit goes to bit 1, bits 1..n-2 move up. */
  function UnpermutationTag(v: nat, setBits: nat): (r: nat)
    requires setBits >= 2
    ensures r < Pow2(setBits)
  {
    var p := ToBits(v, setBits);
    Val([p[0], p[setBits - 1]] + p[1..setBits - 1])
  }

  /** Moving bit 1 to the top and back restores a bit array. */
  lemma UnpermuteBits(t: seq<bool>)
    requires |t| >= 2
    ensures var p := [t[0]] + t[2..] + [t[1]]; [p[0], p[|t| - 1]] + p[1..|t| - 1] == t
  {
    var p := [t[0]] + t[2..] + [t[1]];
    assert p[1..|t| - 1] == t[2..];
    assert t == [t[0], t[1]] + t[2..];
  }

  /** Moving the top bit to bit 1 and back restores a bit array. */
  lemma PermuteBits(p: seq<bool>)
    requires |p| >= 2
    ensures var t := [p[0], p[|p| - 1]] + p[1..|p| - 1]; [t[0]] + t[2..] + [t[1]] == p
  {
    var t := [p[0], p[|p| - 1]] + p[1..|p| - 1];
    assert t[2..] == p[1..|p| - 1];
    assert p == [p[0]] + p[1..|p| - 1] + [p[|p| - 1]];
  }

  lemma UnpermutePermute(tag: nat, setBits: nat)
    requires setBits >= 2 && tag < Pow2(setBits)
    ensures UnpermutationTag(PermutationTag(tag, setBits), setBits) == tag
  {
    var n := setBits;
    var t := ToBits(tag, n);
    var p := [t[0]] + t[2..] + [t[1]];
    assert PermutationTag(tag, n) == Val(p);
    ToBitsVal(p);
    assert UnpermutationTag(Val(p), n) == Val([p[0], p[n - 1]] + p[1..n - 1]);
    UnpermuteBits(t);
    ValToBits(tag, n);
  }

  lemma PermuteUnpermute(v: nat, setBits: nat)
    requires setBits >= 2 && v < Pow2(setBits)
    ensures PermutationTag(UnpermutationTag(v, setBits), setBits) == v
  {
    var n := setBits;
    var p := ToBits(v, n);
    var t := [p[0], p[n - 1]] + p[1..n - 1];
    assert UnpermutationTag(v, n) == Val(t);
    ToBitsVal(t);
    assert PermutationTag(Val(t), n) == Val([t[0]] + t[2..] + [t[1]]);
    PermuteBits(p);
    ValToBits(v, n);
  }

  /** Distinct tags of set_bits bits are permuted to distinct values. */
  lemma PermutationTagInjective(t1: nat, t2: nat, setBits: nat)
    requires setBits >= 2 && t1 < Pow2(setBits) && t2 < Pow2(setBits)
    requires PermutationTag(t1, setBits) == PermutationTag(t2, setBits)
    ensures t1 == t2
  {
    UnpermutePermute(t1, setBits);
    UnpermutePermute(t2, setBits);
  }

  /** The CEASER round keys compute_set hard-codes. */
  const CEASER_KEYS: Ceaser.Keys := Ceaser.Keys(0xababa, 0xcdcdc, 0xbabab, 0xdcdcd)

  /** Scheme 8: the low set_bits bits of the enciphered low 40 address bits. */
  function CeaserSet(a: nat, setBits: nat): (r: nat)
    ensures r < Pow2(setBits)
  {
    Field(Ceaser.CeaserAddress40(Field(a, 0, 40), CEASER_KEYS), 0, setBits)
  }

  /** The schemes whose bit arithmetic is defined for this many set bits. */
  predicate SchemeDefined(scheme: int, setBits: nat)
  {
    && (scheme == 1 || scheme == 6 ==> setBits >= 3)
    && (scheme == 3 ==> setBits >= 1)
    && (scheme == 9 ==> setBits >= 2)
  }

  /**
   * compute_set for set_lines = 2^setBits.  desOut is the DES encryption
   * of the address under the run's key, used by scheme 7.  A scheme id
   * outside 0..9 falls off the end of the switch: None.
   */
  function ComputeSet(a: nat, scheme: int, setBits: nat, desOut: nat): (r: Option<nat>)
    requires SchemeDefined(scheme, setBits)
    ensures r.Some? <==> 0 <= scheme <= 9
    ensures r.Some? ==> r.value < Pow2(setBits)
  {
    if 0 <= scheme < 5 then Some(PlainSet(a, scheme, setBits))
    else if 5 <= scheme <= 9 then Some(MixedSet(a, scheme, setBits, desOut))
    else None
  }

  /** Schemes 0 to 4: the low set_bits bits, rotated and/or xored with the tag or its square. */
  function PlainSet(a: nat, scheme: int, setBits: nat): (r: nat)
    requires 0 <= scheme < 5 && SchemeDefined(scheme, setBits)
    ensures r < Pow2(setBits)
  {
    var k := setBits;
    var s := Field(a, 0, k);
    var tag := Field(a, k, k);
    match scheme
    case 0 => s
    case 1 => Rotr(s, k, 3)
    case 2 => Xor(s, tag, k)
    case 3 => Xor(Rotr(s, k, 1), tag, k)
    case 4 => Xor(s, Field(tag * tag, k / 2, k), k)
  }

  /** Schemes 5 to 9: 7 * tag + set, the Intel slice, DES, CEASER and the tag permutation. */
  function MixedSet(a: nat, scheme: int, setBits: nat, desOut: nat): (r: nat)
    requires 5 <= scheme <= 9 && SchemeDefined(scheme, setBits)
    ensures r < Pow2(setBits)
  {
    var k := setBits;
    var s := Field(a, 0, k);
    var tag := Field(a, k, k);
    match scheme
    case 5 => (7 * tag + s) % Pow2(k)
    case 6 => Val(ToBits(s, k - 3) + ToBits(IntelSlide(a), 3))
    case 7 => desOut % Pow2(k)
    case 8 => CeaserSet(a, k)
    case 9 => Xor(s, PermutationTag(tag, k), k)
  }

  /** Scheme 0 is the low set_bits bits of the address. */
  lemma Scheme0IsLowBits(a: nat, setBits: nat, desOut: nat)
    ensures ComputeSet(a, 0, setBits, desOut) == Some(Val(ToBits(a, setBits)))
  {
  }

  /** Scheme 6 keeps the low set_bits-3 address bits and puts the slice number above them. */
  lemma Scheme6Layout(a: nat, setBits: nat, desOut: nat)
    requires setBits >= 3
    ensures ToBits(ComputeSet(a, 6, setBits, desOut).value, setBits)
         == ToBits(a, setBits - 3) + ToBits(IntelSlide(a), 3)
  {
    var s := Field(a, 0, setBits);
    ToBitsVal(ToBits(s, setBits - 3) + ToBits(IntelSlide(a), 3));
    ToBitsPrefix(a, setBits, setBits - 3);
    assert ToBits(a, setBits)[0..] == ToBits(a, setBits);
    LowBitsOfVal(ToBits(a, setBits), setBits - 3);
  }

  /** Scheme 8 is the low set_bits bits of the enciphered address, as ceaser_address writes it. */
  lemma Scheme8IsCeaserLowBits(a: nat, setBits: nat)
    requires setBits <= 32
    ensures CeaserSet(a, setBits) == Val(ToBits(Ceaser.CeaserAddress(Field(a, 0, 40), CEASER_KEYS), setBits))
  {
    var x := Ceaser.CeaserAddress40(Field(a, 0, 40), CEASER_KEYS);
    Ceaser.LowBitsAgree(Field(a, 0, 40), CEASER_KEYS, setBits);
    assert ToBits(x, setBits)[0..] == ToBits(x, setBits);
  }

  /** With up to 20 set bits scheme 8 is the low bits of r3, the final right half. */
  lemma Scheme8IsR3(a: nat, setBits: nat)
    requires setBits <= 20
    ensures ToBits(CeaserSet(a, setBits), setBits)
         == Ceaser.Encrypt(Ceaser.Split(Field(a, 0, 40)), CEASER_KEYS).r[..setBits]
  {
    var x := Ceaser.CeaserAddress40(Field(a, 0, 40), CEASER_KEYS);
    Ceaser.LowBitsAreR3(Field(a, 0, 40), CEASER_KEYS);
    ToBitsPrefix(x, 20, setBits);
    assert ToBits(x, setBits)[0..] == ToBits(x, setBits);
    ToBitsVal(ToBits(x, setBits));
  }

  /** For a fixed tag, scheme 2 sends distinct sets to distinct indices. */
  lemma Scheme2Injective(a1: nat, a2: nat, setBits: nat, desOut: nat)
    requires Field(a1, setBits, setBits) == Field(a2, setBits, setBits)
    requires ComputeSet(a1, 2, setBits, desOut) == ComputeSet(a2, 2, setBits, desOut)
    ensures Field(a1, 0, setBits) == Field(a2, 0, setBits)
  {
    var k := setBits;
    var t := Field(a1, k, k);
    XorCancel(Field(a1, 0, k), t, k);
    XorCancel(Field(a2, 0, k), t, k);
  }

  /** For a fixed tag, scheme 3 sends distinct sets to distinct indices. */
  lemma Scheme3Injective(a1: nat, a2: nat, setBits: nat, desOut: nat)
    requires setBits >= 1
    requires Field(a1, setBits, setBits) == Field(a2, setBits, setBits)
    requires ComputeSet(a1, 3, setBits, desOut) == ComputeSet(a2, 3, setBits, desOut)
    ensures Field(a1, 0, setBits) == Field(a2, 0, setBits)
  {
    var k := setBits;
    var s1, s2 := Field(a1, 0, k), Field(a2, 0, k);
    var t := Field(a1, k, k);
    XorCancel(Rotr(s1, k, 1), t, k);
    XorCancel(Rotr(s2, k, 1), t, k);
    RotlRotr(s1, k, 1);
    RotlRotr(s2, k, 1);
  }

  /** For a fixed tag, scheme 9 sends distinct sets to distinct indices. */
  lemma Scheme9Injective(a1: nat, a2: nat, setBits: nat, desOut: nat)
    requires setBits >= 2
    requires Field(a1, setBits, setBits) == Field(a2, setBits, setBits)
    requires ComputeSet(a1, 9, setBits, desOut) == ComputeSet(a2, 9, setBits, desOut)
    ensures Field(a1, 0, setBits) == Field(a2, 0, setBits)
  {
    var k := setBits;
    var t := Field(a1, k, k);
    XorCancel(Field(a1, 0, k), PermutationTag(t, k), k);
    XorCancel(Field(a2, 0, k), PermutationTag(t, k), k);
  }
}
