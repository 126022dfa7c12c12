/**
 * The integer half of the set-index leakage analyzer.  For every cache set
 * it keeps, over the addresses mapped to that set, how many there were,
 * how many had each of the low 42 address bits set, and for every pair of
 * bits how many addresses had the two bits equal (sum_S) or different
 * (sum_D).  The counters are unsigned: elements and num_1 are 64-bit,
 * sum_S and sum_D 32-bit, and each increment wraps at that width.
 */
module Leakage {
  import opened Bits
  import Defs

  const NBITS: nat := Defs.ADDR_BITS
  const U32: nat := 0x1_0000_0000
  const U64: nat := 0x1_0000_0000_0000_0000

  /** The 42 address bits estimatePs reads: bit b is `a >> b & 1`. */
  function AddrBits(a: nat): (b: seq<bool>)
    ensures |b| == NBITS
  {
    ToBits(a, NBITS)
  }

  /** Add c to an unsigned counter of modulus w, wrapping to 0 past w - 1. */
  function Inc(x: int, w: nat, c: bool): int
  {
    if !c then x else if x + 1 >= w then 0 else x + 1
  }

  /** The length of the global table `mysets`: one record per set. */
  const SETS: nat := 16384

  /** The integer fields of one `struct sets` record as a value. */
  datatype StatsValue = StatsValue(elements: int, num1: seq<int>, p1: seq<int>, sumS: seq<seq<int>>, sumD: seq<seq<int>>)

  /** The fields have their declared dimensions: 42 entries, 42 x 42 for the pair counters. */
  predicate Shaped(c: StatsValue)
  {
    && |c.num1| == NBITS && |c.p1| == NBITS && |c.sumS| == NBITS && |c.sumD| == NBITS
    && (forall i :: 0 <= i < NBITS ==> |c.sumS[i]| == NBITS && |c.sumD[i]| == NBITS)
  }

  /** A zeroed record, as the global table starts. */
  const ZERO: StatsValue :=
    StatsValue(0, seq(NBITS, _ => 0), seq(NBITS, _ => 0),
              seq(NBITS, _ => seq(NBITS, _ => 0)), seq(NBITS, _ => seq(NBITS, _ => 0)))

  type Stats = c: StatsValue | Shaped(c) witness ZERO

  /** The global table `mysets[SETS]`. */
  type Table = t: seq<Stats> | |t| == SETS witness seq(SETS, _ => ZERO)

  /** estimatePs on a record value: the element, its bits and its pairs of bits counted. */
  function Recorded(c: Stats, a: nat): (r: Stats)
  {
    var bits := AddrBits(a);
    StatsValue(
      Inc(c.elements, U64, true),
      seq(NBITS, b requires 0 <= b < NBITS => Inc(c.num1[b], U64, bits[b])),
      seq(NBITS, b requires 0 <= b < NBITS => if bits[b] then 1 else 0),
      seq(NBITS, i requires 0 <= i < NBITS =>
        seq(NBITS, j requires 0 <= j < NBITS => Inc(c.sumS[i][j], U32, bits[i] == bits[j]))),
      seq(NBITS, i requires 0 <= i < NBITS =>
        seq(NBITS, j requires 0 <= j < NBITS => Inc(c.sumD[i][j], U32, bits[i] != bits[j]))))
  }

  /** estimatePs(&mysets[s], a): record a in entry s, when the table has one. */
  function Recording(t: Table, s: nat, a: nat): (r: Table)
    ensures forall k :: 0 <= k < SETS && k != s ==> r[k] == t[k]
    ensures s < SETS ==> r[s] == Recorded(t[s], a)
  {
    if s < SETS then t[s := Recorded(t[s], a)] else t
  }

  /**
   * The record of n addresses while no counter has wrapped: n elements, at
   * most n of them with any one bit set, and every pair of bits counted
   * once per element, as equal or as different, symmetrically.
   */
  predicate Balanced(c: Stats, n: nat)
  {
    && c.elements == n
    && (forall b :: 0 <= b < NBITS ==> 0 <= c.num1[b] <= n)
    && PairsBalanced(c.sumS, c.sumD, n)
  }

  /** Every pair of bits counted n times, as equal or as different, symmetrically; no bit differs from itself. */
  predicate PairsBalanced(s: seq<seq<int>>, d: seq<seq<int>>, n: nat)
    requires |s| == NBITS && |d| == NBITS
    requires forall i :: 0 <= i < NBITS ==> |s[i]| == NBITS && |d[i]| == NBITS
  {
    && (forall i, j :: 0 <= i < NBITS && 0 <= j < NBITS ==> PairOk(s, d, n, i, j))
    && (forall i :: 0 <= i < NBITS ==> d[i][i] == 0)
  }

  /** The pair (i, j) is counted n times, as equal or as different, as the pair (j, i) is. */
  predicate PairOk(s: seq<seq<int>>, d: seq<seq<int>>, n: nat, i: int, j: int)
    requires |s| == NBITS && |d| == NBITS && 0 <= i < NBITS && 0 <= j < NBITS
    requires forall k :: 0 <= k < NBITS ==> |s[k]| == NBITS && |d[k]| == NBITS
  {
    && 0 <= s[i][j] && 0 <= d[i][j] && s[i][j] + d[i][j] == n
    && s[i][j] == s[j][i] && d[i][j] == d[j][i]
  }

  /** The zeroed record holds no address. */
  lemma ZeroBalanced()
    ensures Balanced(ZERO, 0)
  {
  }

  /** Recording one more address keeps a record balanced while its counts stay below 2^32. */
  lemma RecordedBalance(c: Stats, a: nat, n: nat)
    requires Balanced(c, n) && n + 1 < U32
    ensures Balanced(Recorded(c, a), n + 1)
  {
    var r, m := Recorded(c, a), n + 1;
    forall i, j | 0 <= i < NBITS && 0 <= j < NBITS
      ensures PairOk(r.sumS, r.sumD, m, i, j)
    {
      RecordedPair(c, a, n, i, j);
    }
    assert forall i :: 0 <= i < NBITS ==> r.sumD[i][i] == Inc(c.sumD[i][i], U32, false);
    assert PairsBalanced(r.sumS, r.sumD, n + 1);
    assert forall b :: 0 <= b < NBITS ==> r.num1[b] == Inc(c.num1[b], U64, AddrBits(a)[b]);
  }

  /** The pair (i, j) after one more address: counted once more, symmetrically. */
  lemma RecordedPair(c: Stats, a: nat, n: nat, i: int, j: int)
    requires Balanced(c, n) && n + 1 < U32 && 0 <= i < NBITS && 0 <= j < NBITS
    ensures PairOk(Recorded(c, a).sumS, Recorded(c, a).sumD, n + 1, i, j)
  {
    var r, bits := Recorded(c, a), AddrBits(a);
    assert PairsBalanced(c.sumS, c.sumD, n);
    assert PairOk(c.sumS, c.sumD, n, i, j);
    PairBalance(c.sumS[i][j], c.sumD[i][j], bits[i] == bits[j], n);
    assert r.sumS[i][j] == Inc(c.sumS[i][j], U32, bits[i] == bits[j]);
    assert r.sumD[i][j] == Inc(c.sumD[i][j], U32, bits[i] != bits[j]);
    assert r.sumS[j][i] == Inc(c.sumS[j][i], U32, bits[j] == bits[i]);
    assert r.sumD[j][i] == Inc(c.sumD[j][i], U32, bits[j] != bits[i]);
  }

  /** One pair of bits: exactly one of its two counters gains 1, and neither wraps below 2^32. */
  lemma PairBalance(s: int, d: int, same: bool, n: nat)
    requires 0 <= s && 0 <= d && s + d == n && n + 1 < U32
    ensures Inc(s, U32, same) + Inc(d, U32, !same) == n + 1
    ensures 0 <= Inc(s, U32, same) && 0 <= Inc(d, U32, !same)
  {
  }

  /** One `struct sets` record: the statistics of one cache set. */
  class SetStats {
    var elements: int
    var num1: array<int>
    var p1: array<int>
    var sumS: array2<int>
    var sumD: array2<int>

    /** Addresses recorded, and those among them with bit b set, without wrap-around. */
    ghost var count: nat
    ghost var ones: seq<nat>

    ghost predicate Valid()
      reads this, num1, p1, sumS, sumD
    {
      && num1.Length == NBITS && p1.Length == NBITS
      && sumS.Length0 == NBITS && sumS.Length1 == NBITS
      && sumD.Length0 == NBITS && sumD.Length1 == NBITS
      && num1 != p1
      && sumS != sumD
      && |ones| == NBITS
      && 0 <= elements < U64
      && (count < U64 ==> elements == count)
      && (forall b :: 0 <= b < NBITS ==> ones[b] <= count && 0 <= num1[b] < U64 && (count < U64 ==> num1[b] == ones[b]))
      && (forall i, j :: 0 <= i < NBITS && 0 <= j < NBITS ==>
            (count < U32 ==> sumS[i, j] + sumD[i, j] == count)
            && 0 <= sumS[i, j] < U32 && 0 <= sumD[i, j] < U32
            && sumS[i, j] == sumS[j, i] && sumD[i, j] == sumD[j, i])
      && (forall i :: 0 <= i < NBITS ==> sumD[i, i] == 0)
    }

    /** The arrays are still the given ones, with their shapes. */
    ghost predicate Frame(n1: array<int>, pp: array<int>, s: array2<int>, d: array2<int>)
      reads this
    {
      && num1 == n1 && p1 == pp && sumS == s && sumD == d
      && num1.Length == NBITS && p1.Length == NBITS && num1 != p1 && sumS != sumD
      && sumS.Length0 == NBITS && sumS.Length1 == NBITS
      && sumD.Length0 == NBITS && sumD.Length1 == NBITS
    }

    /** The arrays have their declared dimensions. */
    ghost predicate Shape()
      reads this
    {
      && num1.Length == NBITS && p1.Length == NBITS
      && sumS.Length0 == NBITS && sumS.Length1 == NBITS
      && sumD.Length0 == NBITS && sumD.Length1 == NBITS
    }

    /** The record's integer fields as a value. */
    ghost function Snapshot(): Stats
      requires Shape()
      reads this, num1, p1, sumS, sumD
    {
      var s, d := sumS, sumD;
      StatsValue(elements, num1[..], p1[..],
        seq(NBITS, i requires 0 <= i < NBITS reads s => seq(NBITS, j requires 0 <= j < NBITS reads s => s[i, j])),
        seq(NBITS, i requires 0 <= i < NBITS reads d => seq(NBITS, j requires 0 <= j < NBITS reads d => d[i, j])))
    }

    /** The arrays hold the fields of c. */
    ghost predicate Holds(c: Stats)
      requires Shape()
      reads this, num1, p1, sumS, sumD
    {
      && elements == c.elements
      && (forall b :: 0 <= b < NBITS ==> num1[b] == c.num1[b] && p1[b] == c.p1[b])
      && (forall i, j :: 0 <= i < NBITS && 0 <= j < NBITS ==> sumS[i, j] == c.sumS[i][j] && sumD[i, j] == c.sumD[i][j])
    }

    /** Arrays holding c snapshot to c. */
    lemma SnapshotIs(c: Stats)
      requires Shape() && Holds(c)
      ensures Snapshot() == c
    {
      var r := Snapshot();
      forall i | 0 <= i < NBITS
        ensures r.sumS[i] == c.sumS[i] && r.sumD[i] == c.sumD[i]
      {
      }
      assert r.num1 == c.num1 && r.p1 == c.p1 && r.sumS == c.sumS && r.sumD == c.sumD;
    }

    /** A zeroed record, as the global array starts. */
    constructor ()
      ensures Valid() && count == 0 && Shape() && Holds(ZERO)
      ensures fresh(num1) && fresh(p1) && fresh(sumS) && fresh(sumD)
    {
      elements := 0;
      num1 := new int[NBITS](_ => 0);
      p1 := new int[NBITS](_ => 0);
      sumS := new int[NBITS, NBITS]((_, _) => 0);
      sumD := new int[NBITS, NBITS]((_, _) => 0);
      count := 0;
      ones := seq(NBITS, _ => 0);
    }

    /** estimatePs: record one address. */
    method EstimatePs(a: nat)
      requires Valid()
      modifies this, num1, p1, sumS, sumD
      ensures Valid()
      ensures num1 == old(num1) && p1 == old(p1) && sumS == old(sumS) && sumD == old(sumD)
      ensures count == old(count) + 1
      ensures elements == Inc(old(elements), U64, true)
      ensures forall b :: 0 <= b < NBITS ==>
        num1[b] == Inc(old(num1[b]), U64, AddrBits(a)[b])
        && p1[b] == (if AddrBits(a)[b] then 1 else 0)
        && ones[b] == old(ones[b]) + (if AddrBits(a)[b] then 1 else 0)
      ensures forall i, j :: 0 <= i < NBITS && 0 <= j < NBITS ==>
        sumD[i, j] == Inc(old(sumD[i, j]), U32, AddrBits(a)[i] != AddrBits(a)[j])
        && sumS[i, j] == Inc(old(sumS[i, j]), U32, AddrBits(a)[i] == AddrBits(a)[j])
    {
      var bits := AddrBits(a);
      RecordBits(num1, p1, bits);
      elements := if elements + 1 >= U64 then 0 else elements + 1;
      count := count + 1;
      var before := ones;
      ones := seq(NBITS, b requires 0 <= b < NBITS => before[b] + (if bits[b] then 1 else 0));
      TallyPairs(sumS, sumD, bits);
    }

    /** What EstimatePs leaves in the arrays is the value Recorded computes from what they held. */
    twostate lemma EstimatePsRecords(a: nat)
      requires old(Shape()) && num1 == old(num1) && p1 == old(p1) && sumS == old(sumS) && sumD == old(sumD)
      requires elements == Inc(old(elements), U64, true)
      requires forall b :: 0 <= b < NBITS ==>
        num1[b] == Inc(old(num1[b]), U64, AddrBits(a)[b]) && p1[b] == (if AddrBits(a)[b] then 1 else 0)
      requires forall i, j :: 0 <= i < NBITS && 0 <= j < NBITS ==>
        sumD[i, j] == Inc(old(sumD[i, j]), U32, AddrBits(a)[i] != AddrBits(a)[j])
        && sumS[i, j] == Inc(old(sumS[i, j]), U32, AddrBits(a)[i] == AddrBits(a)[j])
      ensures Shape() && Snapshot() == Recorded(old(Snapshot()), a)
    {
      RecordedIs(old(Snapshot()), a);
    }

    /** Arrays holding the counts of c0 with a recorded snapshot to Recorded(c0, a). */
    lemma RecordedIs(c0: Stats, a: nat)
      requires Shape()
      requires elements == Inc(c0.elements, U64, true)
      requires forall b :: 0 <= b < NBITS ==>
        num1[b] == Inc(c0.num1[b], U64, AddrBits(a)[b]) && p1[b] == (if AddrBits(a)[b] then 1 else 0)
      requires forall i, j :: 0 <= i < NBITS && 0 <= j < NBITS ==>
        sumD[i, j] == Inc(c0.sumD[i][j], U32, AddrBits(a)[i] != AddrBits(a)[j])
        && sumS[i, j] == Inc(c0.sumS[i][j], U32, AddrBits(a)[i] == AddrBits(a)[j])
      ensures Snapshot() == Recorded(c0, a)
    {
      SnapshotIs(Recorded(c0, a));
    }

    /** While nothing has wrapped, num_1[b] <= elements and sum_S + sum_D == elements. */
    lemma ExactWhileSmall()
      requires Valid() && count < U32
      ensures forall b :: 0 <= b < NBITS ==> num1[b] <= elements
      ensures forall i, j :: 0 <= i < NBITS && 0 <= j < NBITS ==> sumS[i, j] + sumD[i, j] == elements
    {
    }
  }

  /** The per-bit loop of estimatePs: p1[b] is bit b and num_1[b] counts it. */
  method RecordBits(num1: array<int>, p1: array<int>, bits: seq<bool>)
    requires num1.Length == NBITS && p1.Length == NBITS && |bits| == NBITS && num1 != p1
    modifies num1, p1
    ensures forall b :: 0 <= b < NBITS ==>
      num1[b] == Inc(old(num1[b]), U64, bits[b]) && p1[b] == (if bits[b] then 1 else 0)
  {
    var nbit := 0;
    while nbit < NBITS
      invariant 0 <= nbit <= NBITS
      invariant forall b :: 0 <= b < nbit ==>
        num1[b] == Inc(old(num1[b]), U64, bits[b]) && p1[b] == (if bits[b] then 1 else 0)
      invariant forall b :: nbit <= b < NBITS ==> num1[b] == old(num1[b])
    {
      if bits[nbit] {
        p1[nbit] := 1;
        num1[nbit] := if num1[nbit] + 1 >= U64 then 0 else num1[nbit] + 1;
      } else {
        p1[nbit] := 0;
      }
      nbit := nbit + 1;
    }
  }

  /** The pair loops of estimatePs: one of sum_D, sum_S gains 1 for every (i, j). */
  method TallyPairs(sumS: array2<int>, sumD: array2<int>, bits: seq<bool>)
    requires sumS.Length0 == NBITS && sumS.Length1 == NBITS && sumS != sumD
    requires sumD.Length0 == NBITS && sumD.Length1 == NBITS && |bits| == NBITS
    modifies sumS, sumD
    ensures forall r, c :: 0 <= r < NBITS && 0 <= c < NBITS ==>
      sumD[r, c] == Inc(old(sumD[r, c]), U32, bits[r] != bits[c])
      && sumS[r, c] == Inc(old(sumS[r, c]), U32, bits[r] == bits[c])
  {
    var i := 0;
    while i < NBITS
      invariant 0 <= i <= NBITS
      invariant forall r, c :: 0 <= r < i && 0 <= c < NBITS ==>
        sumD[r, c] == Inc(old(sumD[r, c]), U32, bits[r] != bits[c])
        && sumS[r, c] == Inc(old(sumS[r, c]), U32, bits[r] == bits[c])
      invariant forall r, c :: i <= r < NBITS && 0 <= c < NBITS ==>
        sumD[r, c] == old(sumD[r, c]) && sumS[r, c] == old(sumS[r, c])
    {
      var j := 0;
      while j < NBITS
        invariant 0 <= j <= NBITS
        invariant forall r, c :: 0 <= r < i && 0 <= c < NBITS ==>
          sumD[r, c] == Inc(old(sumD[r, c]), U32, bits[r] != bits[c])
          && sumS[r, c] == Inc(old(sumS[r, c]), U32, bits[r] == bits[c])
        invariant forall c :: 0 <= c < j ==>
          sumD[i, c] == Inc(old(sumD[i, c]), U32, bits[i] != bits[c])
          && sumS[i, c] == Inc(old(sumS[i, c]), U32, bits[i] == bits[c])
        invariant forall r, c :: (i < r < NBITS || (r == i && j <= c < NBITS)) && 0 <= c < NBITS ==>
          sumD[r, c] == old(sumD[r, c]) && sumS[r, c] == old(sumS[r, c])
      {
        if bits[i] != bits[j] {
          sumD[i, j] := if sumD[i, j] + 1 >= U32 then 0 else sumD[i, j] + 1;
        } else {
          sumS[i, j] := if sumS[i, j] + 1 >= U32 then 0 else sumS[i, j] + 1;
        }
        j := j + 1;
      }
      i := i + 1;
    }
  }
}
