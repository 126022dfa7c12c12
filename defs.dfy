/**
 * The shared data model of the Moola cache simulator: operation codes,
 * memory segments, the cache-line byte status bits, the counter indices,
 * the memory-reference record, and the fixed-width integer conversions
 * the C code performs implicitly.
 */
module Defs {

  // ---------------------------------------------------------------------
  // Capacities
  // ---------------------------------------------------------------------

  /** Bytes of data a memory reference can carry. */
  const MAX_MR_DATA: nat := 32
  /** Processor cores (and trace queues) supported. */
  const MAX_PIDS: nat := 32
  /** Timing banks per cache. */
  const MAX_DISTR_BLKS: nat := 64
  /** Capacity the Gleipnir parser assumes for a function or variable name. */
  const FSIZE: nat := 256
  const VSIZE: nat := 256
  /** Bytes the memory-reference record actually reserves for each name. */
  const NAME_BYTES: nat := 128
  /** Sets the leakage analyzer keeps statistics for, and address bits per set. */
  const SETS: nat := 16384
  const ADDR_BITS: nat := 42

  // ---------------------------------------------------------------------
  // Memory segments
  // ---------------------------------------------------------------------

  const GLOBAL: int := 0
  const HEAP: int := 1
  const INSTR: int := 2
  const STACK: int := 3
  const OTHER: int := 4
  const NSEGMENTS: nat := 5

  predicate IsSegment(s: int) { 0 <= s < NSEGMENTS }

  // ---------------------------------------------------------------------
  // Operation codes
  // ---------------------------------------------------------------------

  const MRREAD: int := 0
  const MRWRITE: int := 1
  const MRMODFY: int := 2
  const MRINSTR: int := 3
  const PRREAD: int := 4
  const PRINSTR: int := 7
  const XALLOC: int := 8
  const XFREE: int := 9
  const XSTACK: int := 10
  const XNULL: int := 11
  const CLNVALD: int := 12
  const CLCLEAN: int := 13
  /** The prefetch flag inside an operation code. */
  const MRPREF: bv8 := 4

  /** An operation that moves data through the caches: a code below XALLOC. */
  predicate IsAccessOp(op: int) { 0 <= op < XALLOC }

  /** The operation codes a cache reference can carry. */
  predicate IsCacheOp(op: int) { IsAccessOp(op) || op == CLNVALD || op == CLCLEAN }

  /** MRBASE: strip the prefetch flag (and every bit above bit 3). */
  function MrBase(op: int): (r: int)
    requires 0 <= op < 256
    ensures 0 <= r < 16
    ensures r < 4 ==> r == op % 4
  {
    ((op as bv8) & 0xb) as int
  }

  /** IS_PREF: the prefetch flag of an operation code. */
  function IsPref(op: int): (r: bool)
    requires 0 <= op < 256
  {
    (op as bv8) & MRPREF != 0
  }

  /** MRBASE maps each prefetch code onto its demand code and leaves the demand codes alone. */
  lemma MrBaseCodes()
    ensures MrBase(PRREAD) == MRREAD && MrBase(PRINSTR) == MRINSTR
    ensures forall op :: MRREAD <= op <= MRINSTR ==> MrBase(op) == op
  {
  }

  /** The prefetch flag is set exactly for the two prefetch codes among 0..7. */
  lemma IsPrefCodes()
    ensures forall op :: 0 <= op < 8 ==> (IsPref(op) <==> op == PRREAD || op == PRINSTR || op == 5 || op == 6)
    ensures forall op :: MRREAD <= op <= MRINSTR ==> !IsPref(op)
  {
  }

  /** Whether an access writes, as `reference` decides it from MRBASE. */
  predicate IsWriteOp(op: int)
    requires 0 <= op < 256
  {
    MrBase(op) == MRWRITE || MrBase(op) == MRMODFY
  }

  // ---------------------------------------------------------------------
  // Status bits kept for every byte of a cache line
  // ---------------------------------------------------------------------

  const CBVALID: bv8 := 1
  const CBDIRTY: bv8 := 2
  const CBTOUCH: bv8 := 4
  const CBLSTRD: bv8 := 8
  const CBLSTWR: bv8 := 16
  const CBFEMNT: bv8 := 32
  const CBLEMNT: bv8 := 64
  const CBLSTMSK: bv8 := 0xe7
  const CBLMNTMSK: bv8 := 0x9f
  const MRRDSTAT: bv8 := CBVALID | CBTOUCH | CBLSTRD
  const MRWRSTAT: bv8 := CBVALID | CBDIRTY | CBTOUCH | CBLSTWR

  /** The two masks clear exactly the last-access bits and the element-boundary bits. */
  lemma StatusMasks()
    ensures CBLSTMSK == !(CBLSTRD | CBLSTWR)
    ensures CBLMNTMSK == !(CBFEMNT | CBLEMNT)
    ensures MRRDSTAT & CBVALID != 0 && MRRDSTAT & CBTOUCH != 0
    ensures MRWRSTAT & CBVALID != 0 && MRWRSTAT & CBTOUCH != 0
    ensures MRWRSTAT & CBDIRTY != 0 && MRWRSTAT & CBLSTWR != 0 && MRWRSTAT & CBLSTRD == 0
    ensures MRRDSTAT & CBDIRTY == 0 && MRRDSTAT & CBLSTWR == 0 && MRRDSTAT & CBLSTRD != 0
  {
  }

  // ---------------------------------------------------------------------
  // Indices of the byte-classification counters cntrs[segment][resolution][outcome]
  // ---------------------------------------------------------------------

  const BYT_RES: nat := 0
  const LMT_RES: nat := 1
  const SUB_RES: nat := 2
  const BLK_RES: nat := 3
  const NRES: nat := 4

  const READ_ACS: nat := 0
  const UNTOUCH: nat := 1
  const LIVE_WR: nat := 2
  const USLS_WR: nat := 3
  const DUST_WR: nat := 4
  const DEAD_WR: nat := 5
  const MIXD_WR: nat := 6
  const NOUTCOMES: nat := 7

  /** Every segment, resolution and outcome code is a valid index of cntrs[5][4][7]. */
  lemma CounterDimensions()
    ensures forall s :: IsSegment(s) ==> 0 <= s < NSEGMENTS
    ensures GLOBAL < NSEGMENTS && HEAP < NSEGMENTS && INSTR < NSEGMENTS && STACK < NSEGMENTS && OTHER < NSEGMENTS
    ensures BYT_RES < NRES && LMT_RES < NRES && SUB_RES < NRES && BLK_RES < NRES
    ensures READ_ACS < NOUTCOMES && UNTOUCH < NOUTCOMES && LIVE_WR < NOUTCOMES && USLS_WR < NOUTCOMES
    ensures DUST_WR < NOUTCOMES && DEAD_WR < NOUTCOMES && MIXD_WR < NOUTCOMES
  {
  }

  // ---------------------------------------------------------------------
  // Fixed-width integers
  // ---------------------------------------------------------------------

  /** Two's-complement reduction of x modulo m (an even modulus) into [-m/2, m/2). */
  function Wrap(x: int, m: nat): (r: int)
    requires m >= 2
    ensures -(m / 2) <= r < m - m / 2
  {
    var u := x % m;
    if u < m - m / 2 then u else u - m
  }

  function Int8(x: int): int { Wrap(x, 0x100) }
  function Int16(x: int): int { Wrap(x, 0x1_0000) }
  function Int32(x: int): int { Wrap(x, 0x1_0000_0000) }
  function Int64(x: int): int { Wrap(x, 0x1_0000_0000_0000_0000) }

  /** A value already representable is left unchanged by each reduction. */
  lemma WrapInRange(x: int)
    ensures -0x80 <= x < 0x80 ==> Int8(x) == x
    ensures -0x8000 <= x < 0x8000 ==> Int16(x) == x
    ensures -0x8000_0000 <= x < 0x8000_0000 ==> Int32(x) == x
    ensures -0x8000_0000_0000_0000 <= x < 0x8000_0000_0000_0000 ==> Int64(x) == x
  {
  }

  /** C integer division, which truncates toward zero. */
  function CDiv(a: int, b: int): (q: int)
    requires b != 0
    ensures b > 0 && a >= 0 ==> q == a / b
  {
    if (a >= 0) == (b > 0) then (if a >= 0 then a / b else (-a) / (-b))
    else -((if a >= 0 then a else -a) / (if b > 0 then b else -b))
  }

  /** C remainder, whose sign follows the dividend. */
  function CRem(a: int, b: int): (r: int)
    requires b != 0
    ensures a == CDiv(a, b) * b + r
    ensures a >= 0 ==> 0 <= r < (if b > 0 then b else -b)
    ensures a < 0 ==> -(if b > 0 then b else -b) < r <= 0
  {
    a - CDiv(a, b) * b
  }

  // ---------------------------------------------------------------------
  // The memory-reference record
  // ---------------------------------------------------------------------

  /**
   * A memory transaction as it travels from a trace file through the
   * processor queues into the caches.  The queue links of the C record are
   * modelled by the queue itself (module Utils).
   */
  datatype Memref = Memref(
    adrs: int,
    time: int,
    linenmbr: int,
    size: int,
    data: seq<bv8>,
    oper: int,
    segmnt: int,
    pid: int,
    asid: int,
    split: int,
    virtAdrs: int,
    hEnum: int,
    fname: seq<char>,
    vname: seq<char>,
    scope: seq<char>)

  /** n copies of x. */
  function Repeat<T>(n: nat, x: T): (r: seq<T>)
    ensures |r| == n && forall i :: 0 <= i < n ==> r[i] == x
  {
    seq(n, _ => x)
  }

  function Zeros(n: nat): (r: seq<bv8>)
    ensures |r| == n && forall i :: 0 <= i < n ==> r[i] == 0
  {
    seq(n, _ => 0)
  }

  /** A record whose data buffer has the C record's capacity. */
  predicate WellFormed(mr: Memref) { |mr.data| == MAX_MR_DATA }
}
