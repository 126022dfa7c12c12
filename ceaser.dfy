/**
 * The CEASER address cipher of scheme 8: a four-round Feistel network on
 * the two 20-bit halves of a 40-bit line address.  Each round computes a
 * 20-bit S-box output from one half and a 20-bit round key, permutes it
 * with a P-box, and XORs it into the other half.
 *
 * Every S-box output bit is the XOR of ten bits of the half and ten bits of
 * the key.  The four S-boxes use the same twenty equations, rotated: output
 * bit i of box j is equation (i + Offset(j)) mod 20, except that box 4 has
 * no equation for bit 2 (its assignment is written to bit 3, which the
 * next line assigns again), so that bit stays 0.
 */
module Ceaser {
  import opened Bits

  /** One S-box equation: the positions of the half and of the key it XORs. */
  datatype Equation = Equation(half: seq<nat>, key: seq<nat>)

  const EQUATIONS: seq<Equation> := [
      Equation([0, 1, 2, 3, 4, 5, 6, 7, 8, 9], [0, 1, 2, 3, 4, 5, 6, 7, 8, 9]),
      Equation([0, 1, 2, 4, 5, 7, 9, 11, 18, 19], [1, 3, 5, 7, 9, 11, 13, 15, 17, 19]),
      Equation([1, 3, 5, 7, 9, 11, 13, 15, 17, 19], [0, 1, 2, 3, 4, 5, 6, 7, 8, 9]),
      Equation([0, 2, 4, 6, 8, 10, 12, 14, 16, 18], [0, 1, 2, 3, 7, 9, 11, 12, 14, 17]),
      Equation([1, 3, 8, 9, 11, 12, 14, 17, 18, 19], [2, 4, 6, 7, 9, 11, 12, 15, 17, 18]),
      Equation([8, 9, 10, 11, 14, 15, 16, 17, 18, 19], [3, 4, 5, 7, 9, 12, 13, 14, 16, 17]),
      Equation([1, 4, 6, 7, 8, 10, 11, 14, 15, 19], [2, 5, 7, 8, 12, 13, 16, 17, 18, 19]),
      Equation([4, 5, 6, 7, 8, 9, 11, 13, 16, 17], [3, 5, 6, 8, 9, 11, 12, 15, 16, 17]),
      Equation([5, 6, 7, 9, 12, 14, 15, 16, 18, 19], [6, 7, 8, 9, 11, 12, 13, 14, 16, 17]),
      Equation([6, 7, 8, 9, 12, 13, 14, 15, 17, 19], [4, 5, 6, 7, 9, 11, 12, 13, 14, 15]),
      Equation([7, 8, 9, 10, 11, 13, 14, 15, 16, 17], [10, 11, 12, 13, 14, 15, 16, 17, 18, 19]),
      Equation([8, 9, 10, 11, 12, 13, 14, 15, 16, 17], [0, 3, 5, 7, 9, 12, 13, 16, 17, 19]),
      Equation([9, 10, 11, 12, 13, 14, 15, 16, 17, 18], [0, 1, 2, 3, 4, 5, 8, 9, 11, 13]),
      Equation([3, 5, 7, 8, 9, 10, 13, 14, 16, 18], [0, 1, 2, 4, 7, 9, 11, 12, 13, 17]),
      Equation([1, 3, 7, 9, 11, 13, 14, 15, 18, 19], [2, 4, 6, 7, 8, 11, 13, 15, 17, 18]),
      Equation([8, 9, 10, 11, 13, 14, 16, 17, 18, 19], [3, 4, 5, 7, 9, 12, 13, 14, 16, 17]),
      Equation([1, 3, 6, 7, 8, 9, 11, 14, 15, 16], [2, 3, 7, 8, 12, 14, 16, 17, 18, 19]),
      Equation([4, 5, 6, 7, 8, 9, 14, 15, 16, 19], [3, 4, 6, 8, 9, 10, 12, 13, 16, 17]),
      Equation([5, 6, 7, 8, 12, 14, 15, 16, 18, 19], [6, 7, 8, 9, 10, 11, 13, 14, 16, 17]),
      Equation([6, 7, 8, 9, 11, 12, 14, 15, 17, 18], [4, 5, 6, 8, 9, 11, 12, 14, 15, 18])
    ]

  /** The rotation of the equation table each S-box uses. */
  function Offset(box: nat): nat
  {
    if box == 1 then 0 else if box == 2 then 18 else if box == 3 then 15 else 14
  }

  /** Output bit i of S-box `box` on a half and a round key. */
  function SBoxBit(box: nat, half: seq<bool>, key: seq<bool>, i: nat): bool
  {
    if box == 4 && i == 2 then false
    else
      var e := EQUATIONS[(i + Offset(box)) % 20];
      XorAt(half, e.half) != XorAt(key, e.key)
  }

  function SBox(box: nat, half: seq<bool>, key: seq<bool>): (s: seq<bool>)
    ensures |s| == 20
  {
    seq(20, i requires 0 <= i < 20 => SBoxBit(box, half, key, i))
  }

  /** A bit position within a 20-bit half. */
  type HalfIndex = i: int | 0 <= i < 20

  /** P-box j: y[i] = s[PBox(j)[i]]. */
  function PBox(box: nat): (p: seq<HalfIndex>)
    ensures |p| == 20
  {
    if box == 1 then [0, 2, 3, 4, 5, 6, 7, 8, 9, 10, 11, 12, 13, 14, 15, 16, 17, 18, 19, 1]
    else if box == 2 then [2, 3, 4, 5, 6, 7, 8, 9, 10, 11, 12, 13, 14, 15, 16, 17, 18, 19, 1, 2]
    else if box == 3 then [10, 11, 12, 13, 14, 15, 16, 17, 18, 0, 1, 2, 3, 4, 5, 6, 7, 8, 9, 19]
    else [4, 5, 6, 7, 8, 9, 10, 11, 12, 13, 14, 15, 16, 17, 18, 19, 0, 1, 2, 3]
  }

  /** The value one round XORs into the other half. */
  function RoundOutput(box: nat, half: seq<bool>, key: seq<bool>): (y: seq<bool>)
    ensures |y| == 20
  {
    var s := SBox(box, half, key);
    var p := PBox(box);
    seq(20, i requires 0 <= i < 20 => s[p[i]])
  }

  /** The four 20-bit round keys, as words (only their low 20 bits are read). */
  datatype Keys = Keys(k1: nat, k2: nat, k3: nat, k4: nat)

  /** The left and right halves of a block. */
  datatype Block = Block(l: seq<bool>, r: seq<bool>)

  predicate IsBlock(b: Block) { |b.l| == 20 && |b.r| == 20 }

  /** The four rounds: (l1, r1) to (l3, r3). */
  function Encrypt(b: Block, k: Keys): (c: Block)
    requires IsBlock(b)
    ensures IsBlock(c)
  {
    var r2 := XorSeq(b.r, RoundOutput(1, b.l, ToBits(k.k1, 20)));
    var l2 := XorSeq(b.l, RoundOutput(2, r2, ToBits(k.k2, 20)));
    var l3 := XorSeq(r2, RoundOutput(3, l2, ToBits(k.k3, 20)));
    var r3 := XorSeq(l2, RoundOutput(4, l3, ToBits(k.k4, 20)));
    Block(l3, r3)
  }

  /** The rounds undone in reverse order. */
  function Decrypt(c: Block, k: Keys): (b: Block)
    requires IsBlock(c)
    ensures IsBlock(b)
  {
    var l2 := XorSeq(c.r, RoundOutput(4, c.l, ToBits(k.k4, 20)));
    var r2 := XorSeq(c.l, RoundOutput(3, l2, ToBits(k.k3, 20)));
    var l1 := XorSeq(l2, RoundOutput(2, r2, ToBits(k.k2, 20)));
    var r1 := XorSeq(r2, RoundOutput(1, l1, ToBits(k.k1, 20)));
    Block(l1, r1)
  }

  lemma DecryptEncrypt(b: Block, k: Keys)
    requires IsBlock(b)
    ensures Decrypt(Encrypt(b, k), k) == b
  {
    var r2 := XorSeq(b.r, RoundOutput(1, b.l, ToBits(k.k1, 20)));
    var l2 := XorSeq(b.l, RoundOutput(2, r2, ToBits(k.k2, 20)));
    var l3 := XorSeq(r2, RoundOutput(3, l2, ToBits(k.k3, 20)));
    XorSeqCancel(l2, RoundOutput(4, l3, ToBits(k.k4, 20)));
    XorSeqCancel(r2, RoundOutput(3, l2, ToBits(k.k3, 20)));
    XorSeqCancel(b.l, RoundOutput(2, r2, ToBits(k.k2, 20)));
    XorSeqCancel(b.r, RoundOutput(1, b.l, ToBits(k.k1, 20)));
  }

  lemma EncryptDecrypt(c: Block, k: Keys)
    requires IsBlock(c)
    ensures Encrypt(Decrypt(c, k), k) == c
  {
    var l2 := XorSeq(c.r, RoundOutput(4, c.l, ToBits(k.k4, 20)));
    var r2 := XorSeq(c.l, RoundOutput(3, l2, ToBits(k.k3, 20)));
    var l1 := XorSeq(l2, RoundOutput(2, r2, ToBits(k.k2, 20)));
    XorSeqCancel(r2, RoundOutput(1, l1, ToBits(k.k1, 20)));
    XorSeqCancel(l2, RoundOutput(2, r2, ToBits(k.k2, 20)));
    XorSeqCancel(c.l, RoundOutput(3, l2, ToBits(k.k3, 20)));
    XorSeqCancel(c.r, RoundOutput(4, c.l, ToBits(k.k4, 20)));
  }

  /** For fixed keys the four rounds are injective. */
  lemma EncryptInjective(b1: Block, b2: Block, k: Keys)
    requires IsBlock(b1) && IsBlock(b2)
    requires Encrypt(b1, k) == Encrypt(b2, k)
    ensures b1 == b2
  {
    DecryptEncrypt(b1, k);
    DecryptEncrypt(b2, k);
  }

  /** The input block: R is bits 0..19 of the address, L bits 20..39. */
  function Split(a: nat): (b: Block)
    ensures IsBlock(b)
  {
    var bits := ToBits(a, 40);
    Block(bits[20..], bits[..20])
  }

  /**
   * ceaser_address as written: final_L << 20 is evaluated in 32 bits, so
   * the result is R' in bits 0..19 and only the low 12 bits of L' above it.
   */
  function CeaserAddress(a: nat, k: Keys): (r: nat)
    ensures r < Pow2(32)
  {
    var c := Encrypt(Split(a), k);
    Val(c.r + c.l[..12])
  }

  /** The evidently intended result: all 40 bits, L' above R'. */
  function CeaserAddress40(a: nat, k: Keys): (r: nat)
    ensures r < Pow2(40)
  {
    var c := Encrypt(Split(a), k);
    Val(c.r + c.l)
  }

  /** The low 20 bits of both results are r3, the final right half. */
  lemma LowBitsAreR3(a: nat, k: Keys)
    ensures ToBits(CeaserAddress(a, k), 20) == Encrypt(Split(a), k).r
    ensures ToBits(CeaserAddress40(a, k), 20) == Encrypt(Split(a), k).r
  {
    var c := Encrypt(Split(a), k);
    LowBitsOfVal(c.r + c.l[..12], 20);
    LowBitsOfVal(c.r + c.l, 20);
    assert (c.r + c.l[..12])[..20] == c.r;
    assert (c.r + c.l)[..20] == c.r;
  }

  /** Up to bit 31 the two results agree, so every set index of at most 32 bits is unaffected. */
  lemma LowBitsAgree(a: nat, k: Keys, n: nat)
    requires n <= 32
    ensures ToBits(CeaserAddress(a, k), n) == ToBits(CeaserAddress40(a, k), n)
  {
    var c := Encrypt(Split(a), k);
    TruncatedLowBits(c.r, c.l, n);
  }

  /** Dropping the top 8 bits of L' leaves the low 32 bits of the value as they are. */
  lemma TruncatedLowBits(r: seq<bool>, l: seq<bool>, n: nat)
    requires |r| == 20 && |l| == 20 && n <= 32
    ensures ToBits(Val(r + l[..12]), n) == ToBits(Val(r + l), n)
  {
    LowBitsOfVal(r + l[..12], n);
    LowBitsOfVal(r + l, n);
    assert (r + l[..12])[..n] == (r + l)[..n];
  }

  /** Splitting a 40-bit address and joining it back gives the address. */
  lemma SplitJoin(a: nat)
    requires a < Pow2(40)
    ensures Val(Split(a).r + Split(a).l) == a
  {
    var bits := ToBits(a, 40);
    assert Split(a).r + Split(a).l == bits;
    ValToBits(a, 40);
  }

  /** Joining two halves and splitting the result gives the halves back. */
  lemma JoinSplit(b: Block)
    requires IsBlock(b)
    ensures Split(Val(b.r + b.l)) == b
  {
    ToBitsVal(b.r + b.l);
  }

  /** The corrected cipher is injective on 40-bit addresses. */
  lemma CeaserAddress40Injective(a1: nat, a2: nat, k: Keys)
    requires a1 < Pow2(40) && a2 < Pow2(40)
    requires CeaserAddress40(a1, k) == CeaserAddress40(a2, k)
    ensures a1 == a2
  {
    var c1 := Encrypt(Split(a1), k);
    var c2 := Encrypt(Split(a2), k);
    ValInjective(c1.r + c1.l, c2.r + c2.l);
    assert c1.r == (c1.r + c1.l)[..20] && c2.r == (c2.r + c2.l)[..20];
    assert c1.l == (c1.r + c1.l)[20..] && c2.l == (c2.r + c2.l)[20..];
    EncryptInjective(Split(a1), Split(a2), k);
    SplitJoin(a1);
    SplitJoin(a2);
  }

  /** The corrected cipher reaches every 40-bit value: it is a permutation of them. */
  lemma CeaserAddress40Onto(v: nat, k: Keys)
    requires v < Pow2(40)
    ensures exists a: nat :: a < Pow2(40) && CeaserAddress40(a, k) == v
  {
    var c := Split(v);
    var b := Decrypt(c, k);
    var a := Val(b.r + b.l);
    JoinSplit(b);
    EncryptDecrypt(c, k);
    SplitJoin(v);
    assert CeaserAddress40(a, k) == v;
  }

  /** Joining a block into an address and enciphering it enciphers the block. */
  lemma CeaserAddressOfJoin(b: Block, k: Keys)
    requires IsBlock(b)
    ensures CeaserAddress(Val(b.r + b.l), k) == Val(Encrypt(b, k).r + Encrypt(b, k).l[..12])
  {
    JoinSplit(b);
  }

  /** The address whose encipherment is the block c. */
  function Preimage(c: Block, k: Keys): (a: nat)
    requires IsBlock(c)
    ensures a < Pow2(40)
  {
    var b := Decrypt(c, k);
    Val(b.r + b.l)
  }

  /** Blocks that differ only above bit 11 of L' come from different addresses with one result. */
  lemma {:induction false} PreimagesCollide(c1: Block, c2: Block, k: Keys)
    requires IsBlock(c1) && IsBlock(c2) && c1 != c2
    requires c1.r == c2.r && c1.l[..12] == c2.l[..12]
    ensures Preimage(c1, k) != Preimage(c2, k)
    ensures CeaserAddress(Preimage(c1, k), k) == CeaserAddress(Preimage(c2, k), k)
  {
    var b1 := Decrypt(c1, k);
    var b2 := Decrypt(c2, k);
    EncryptDecrypt(c1, k);
    EncryptDecrypt(c2, k);
    CeaserAddressOfJoin(b1, k);
    CeaserAddressOfJoin(b2, k);
    if Preimage(c1, k) == Preimage(c2, k) {
      JoinSplit(b1);
      JoinSplit(b2);
      assert false;
    }
  }

  /**
   * As written the cipher is not injective: two 40-bit addresses whose
   * encryptions differ only in bit 19 of L' give the same result.
   */
  lemma CeaserAddressCollides(k: Keys)
    ensures exists a1: nat, a2: nat ::
      a1 < Pow2(40) && a2 < Pow2(40) && a1 != a2 && CeaserAddress(a1, k) == CeaserAddress(a2, k)
  {
    var c1, c2 := CollidingBlocks();
    PreimagesCollide(c1, c2, k);
    var a1, a2 := Preimage(c1, k), Preimage(c2, k);
    assert a1 != a2 && CeaserAddress(a1, k) == CeaserAddress(a2, k);
  }

  /** Two blocks that differ only in bit 19 of L'. */
  lemma CollidingBlocks() returns (c1: Block, c2: Block)
    ensures IsBlock(c1) && IsBlock(c2) && c1 != c2
    ensures c1.r == c2.r && c1.l[..12] == c2.l[..12]
  {
    c1 := Block(Falses(20), Falses(20));
    c2 := Block(Falses(20)[19 := true], Falses(20));
    assert c1.l[19] != c2.l[19];
    assert c1.l[..12] == c2.l[..12];
  }

  /** S-box 4 has no bit 2, and P-box 4 routes it to y4[18]: bit 18 of R' is bit 18 of l2. */
  lemma Round4Bit18(l3: seq<bool>, key: seq<bool>)
    ensures RoundOutput(4, l3, key)[18] == false
  {
  }

  /** P-box 2 reads s2[2] twice and never reads s2[0]. */
  lemma PBox2Duplicates()
    ensures PBox(2)[0] == 2 && PBox(2)[19] == 2
    ensures forall i :: 0 <= i < 20 ==> PBox(2)[i] != 0
  {
  }
}
