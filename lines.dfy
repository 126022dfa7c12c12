/**
 * A cache line and the per-byte bookkeeping of `update_cl`: how each byte of
 * a transaction is classified (read, untouched, live, useless, dusty, dead
 * write), how the classes roll up to element, sub-block and block level,
 * and how the destination line's data, original data and status bytes are
 * rewritten.
 *
 * A line is a value here; the cache that owns it keeps it in a sequence and
 * passes it by value to the level below, which hands back the updated line
 * (module Engine).
 */
module Lines {
  import opened Defs

  /** `struct cline_rec` without its ring links (kept by the owning cache) and owner pointer. */
  datatype Line = Line(
    adrs: int,
    alloctime: int,
    time: int,
    data: seq<bv8>,
    orig: seq<bv8>,
    stat: seq<bv8>,
    valid: bool,
    referncd: bool,
    dirty: bool,
    shared: bool,
    exclusiv: bool,
    oper: int,
    segment: int)

  /** The three byte arrays of a line hold `n` bytes each. */
  predicate Sized(l: Line, n: nat) { |l.data| == n && |l.orig| == n && |l.stat| == n }

  /** A line as calloc leaves it: every field and byte zero. */
  function ZeroLine(n: nat): (l: Line)
    ensures Sized(l, n) && !l.valid && !l.dirty && l.adrs == 0 && l.time == 0
  {
    Line(0, 0, 0, Zeros(n), Zeros(n), Zeros(n), false, false, false, false, false, 0, 0)
  }

  /**
   * What `cl_init` leaves in a line of `n`-byte blocks: address, bytes, status
   * flags, operation and allocation time cleared; time and segment kept.
   */
  function Cleared(l: Line, n: nat): (r: Line)
    ensures Sized(r, n)
    ensures r.adrs == 0 && r.alloctime == 0 && r.oper == 0
    ensures !r.valid && !r.referncd && !r.dirty && !r.shared && !r.exclusiv
    ensures forall j :: 0 <= j < n ==> r.data[j] == 0 && r.orig[j] == 0 && r.stat[j] == 0
    ensures r.time == l.time && r.segment == l.segment
  {
    l.(adrs := 0, data := Zeros(n), orig := Zeros(n), stat := Zeros(n),
       valid := false, referncd := false, dirty := false, shared := false, exclusiv := false,
       oper := 0, alloctime := 0)
  }

  /** Reading byte j of a buffer; a position outside it reads as 0. */
  function Get(s: seq<bv8>, j: int): bv8
  {
    if 0 <= j < |s| then s[j] else 0
  }

  /** Writing byte j of a buffer; a position outside it is not written. */
  function Put(s: seq<bv8>, j: int, v: bv8): (r: seq<bv8>)
    ensures |r| == |s|
    ensures forall k :: 0 <= k < |s| ==> r[k] == (if k == j then v else s[k])
  {
    if 0 <= j < |s| then s[j := v] else s
  }

  // ---------------------------------------------------------------------
  // The source of an update
  // ---------------------------------------------------------------------

  /**
   * What `update_cl` reads from its source, a memory reference or a line of
   * the cache above: the bytes, their original values and status, the
   * operation, the byte count, the start address and the validity.
   */
  datatype Src = Src(data: seq<bv8>, orig: seq<bv8>, stat: seq<bv8>, oper: int, size: int, adrs: int, valid: bool)

  /**
   * Entry k of the static `mr_rdstat`/`mr_wrstat` tables: the element-start
   * tag on entry 0, the plain read or write status on entries 1 to 15, and 0
   * on every later entry, which the initialiser leaves out.
   */
  function StatTable(write: bool, k: int): (b: bv8)
    ensures k == 0 ==> b & CBLEMNT != 0 && b & CBVALID != 0
    ensures 1 <= k < 16 ==> b & CBLEMNT == 0 && b & CBVALID != 0
    ensures !(0 <= k < 16) ==> b == 0
  {
    var st := if write then MRWRSTAT else MRRDSTAT;
    if k == 0 then st | CBLEMNT else if 1 <= k < 16 then st else 0
  }

  /** Whether update_cl treats an operation as a write (it does not strip the prefetch flag). */
  predicate UpdWrite(oper: int) { oper == MRWRITE || oper == MRMODFY }

  /**
   * The source seen from a memory reference: its data serves as both current
   * and original bytes, and the status of byte i is table entry i, or i + 1
   * for the second part of a split reference.
   */
  function FromMemref(mr: Memref): (s: Src)
    ensures s.size == mr.size && s.adrs == mr.adrs && s.valid && s.oper == mr.oper
    ensures |s.stat| == MAX_MR_DATA
    ensures forall i :: 0 <= i < MAX_MR_DATA ==>
      s.stat[i] == StatTable(UpdWrite(mr.oper), if mr.split != 0 then i + 1 else i)
  {
    var skip := if mr.split != 0 then 1 else 0;
    Src(mr.data, mr.data, seq(MAX_MR_DATA, i => StatTable(UpdWrite(mr.oper), i + skip)),
        mr.oper, mr.size, mr.adrs, true)
  }

  /** The source seen from a line of a cache whose blocks are `linSiz` bytes. */
  function FromLine(cl: Line, linSiz: int): (s: Src)
    ensures s.data == cl.data && s.orig == cl.orig && s.stat == cl.stat && s.size == linSiz
    ensures s.oper == cl.oper && s.adrs == cl.adrs && s.valid == cl.valid
  {
    Src(cl.data, cl.orig, cl.stat, cl.oper, linSiz, cl.adrs, cl.valid)
  }

  /** The byte offset of the source within the destination, as the int16 arithmetic computes it. */
  function Offset(src: Src, dst: Line): int
  {
    Int16(Int16(src.adrs) - dst.adrs)
  }

  // ---------------------------------------------------------------------
  // One byte
  // ---------------------------------------------------------------------

  predicate ValidByte(st: bv8) { st & CBVALID != 0 }
  predicate ElemStart(st: bv8) { st & CBLEMNT != 0 }

  /** is_dead is a stub that never reports an address as dead. */
  predicate IsDead(adrs: int, segment: int) { false }

  /**
   * The class of one written byte, by priority: an invalid source byte is
   * untouched; below L1 a dead address is a dead write; a valid byte written
   * over the same valid value is dusty; a byte whose last access was a write
   * is a useless write; anything else is live.
   */
  function WriteClass(srcValid: bool, dead: bool, dusty: bool, lastWr: bool): (o: nat)
    ensures o == UNTOUCH <==> !srcValid
    ensures o == DEAD_WR <==> srcValid && dead
    ensures o == DUST_WR <==> srcValid && !dead && dusty
    ensures o == USLS_WR <==> srcValid && !dead && !dusty && lastWr
    ensures o == LIVE_WR <==> srcValid && !dead && !dusty && !lastWr
  {
    if !srcValid then UNTOUCH
    else if dead then DEAD_WR
    else if dusty then DUST_WR
    else if lastWr then USLS_WR
    else LIVE_WR
  }

  /**
   * The class of byte i of the transaction, from the source byte and the
   * destination byte as it was before the update.  Each destination byte is
   * visited once, so its state before the update is the state the loop sees.
   */
  function ByteClass(src: Src, dst0: Line, level: int, segment: int, i: int): (o: nat)
    ensures o < NOUTCOMES && o != MIXD_WR
    ensures !UpdWrite(src.oper) ==> o == READ_ACS
    ensures UpdWrite(src.oper) ==> o != READ_ACS
  {
    if !UpdWrite(src.oper) then READ_ACS
    else
      var j := i + Offset(src, dst0);
      var sst := Get(src.stat, i);
      var dst := Get(dst0.stat, j);
      WriteClass(ValidByte(sst), level != 1 && IsDead(src.adrs + i, segment),
                 ValidByte(sst) && ValidByte(dst) && Get(src.data, i) == Get(dst0.data, j),
                 dst & CBLSTWR != 0)
  }

  /**
   * The destination status byte after an update: the element-start bit
   * copied from the source (clearing both element bits otherwise), the
   * last-access bits set to the operation, and the valid bit added when the
   * source byte is valid.
   */
  function NewStat(srcStat: bv8, dstStat: bv8, write: bool): bv8
  {
    var s1 := if ElemStart(srcStat) then dstStat | CBLEMNT else dstStat & CBLMNTMSK;
    var s2 := (s1 & CBLSTMSK) | (if write then CBLSTWR else CBLSTRD);
    if !ValidByte(dstStat) && ValidByte(srcStat) then s2 | CBVALID else s2
  }

  /** The status rewrite keeps every bit it promises and no other meaning. */
  lemma NewStatBits(srcStat: bv8, dstStat: bv8, write: bool)
    ensures ValidByte(NewStat(srcStat, dstStat, write)) <==> ValidByte(dstStat) || ValidByte(srcStat)
    ensures ElemStart(NewStat(srcStat, dstStat, write)) <==> ElemStart(srcStat)
    ensures NewStat(srcStat, dstStat, write) & CBFEMNT == 0 <==> !ElemStart(srcStat) || dstStat & CBFEMNT == 0
    ensures write ==> NewStat(srcStat, dstStat, write) & CBLSTWR != 0 && NewStat(srcStat, dstStat, write) & CBLSTRD == 0
    ensures !write ==> NewStat(srcStat, dstStat, write) & CBLSTRD != 0 && NewStat(srcStat, dstStat, write) & CBLSTWR == 0
    ensures NewStat(srcStat, dstStat, write) & (CBDIRTY | CBTOUCH) == dstStat & (CBDIRTY | CBTOUCH)
  {
  }

  /** The original value is taken from the source only for an invalid destination byte and a valid source byte. */
  function NewOrig(srcOrig: bv8, dstOrig: bv8, srcStat: bv8, dstStat: bv8): bv8
  {
    if !ValidByte(dstStat) && ValidByte(srcStat) then srcOrig else dstOrig
  }

  // ---------------------------------------------------------------------
  // Roll-ups
  // ---------------------------------------------------------------------

  /** The sticky flags update_cl keeps per element, sub-block and block. */
  datatype Flags = Flags(read: bool, dead: bool, dusty: bool, live: bool, untouch: bool, usls: bool)

  const NoFlags: Flags := Flags(false, false, false, false, false, false)

  /** Raise the flag of outcome o. */
  function Mark(f: Flags, o: nat): Flags
  {
    if o == READ_ACS then f.(read := true)
    else if o == UNTOUCH then f.(untouch := true)
    else if o == DEAD_WR then f.(dead := true)
    else if o == DUST_WR then f.(dusty := true)
    else if o == USLS_WR then f.(usls := true)
    else if o == LIVE_WR then f.(live := true)
    else f
  }

  /**
   * The sub-block and block roll-up.  The mixed test comes first and already
   * catches every dead and every dusty write, so the two branches after it
   * are never taken.
   */
  function RollUp(f: Flags): (o: nat)
    ensures o < NOUTCOMES
    ensures o == READ_ACS <==> f.read
    ensures o == MIXD_WR <==> !f.read && (f.dead || f.dusty || f.untouch)
    ensures o != DEAD_WR && o != DUST_WR
  {
    if f.read then READ_ACS
    else if f.dead || f.dusty || f.untouch then MIXD_WR
    else if f.dead then DEAD_WR
    else if f.dusty then DUST_WR
    else if f.live then LIVE_WR
    else if f.usls then USLS_WR
    else UNTOUCH
  }

  /** The element roll-up, by priority read, dead, live, dusty, useless, untouched; possibly none. */
  function ElemRollUp(f: Flags): (o: int)
    ensures o == -1 || (0 <= o < NOUTCOMES && o != MIXD_WR)
    ensures o == -1 <==> f == NoFlags
    ensures o == DEAD_WR ==> f.dead
  {
    if f.read then READ_ACS
    else if f.dead then DEAD_WR
    else if f.live then LIVE_WR
    else if f.dusty then DUST_WR
    else if f.usls then USLS_WR
    else if f.untouch then UNTOUCH
    else -1
  }

  // ---------------------------------------------------------------------
  // Counters
  // ---------------------------------------------------------------------

  /** A cache's cntrs[segment][resolution][outcome] block. */
  type Cntrs = seq<seq<seq<int>>>

  /** One segment's four rows of seven counters. */
  predicate Shaped4(x: seq<seq<int>>)
  {
    |x| == NRES && forall r :: 0 <= r < NRES ==> |x[r]| == NOUTCOMES
  }

  /** The block has the 5 x 4 x 7 shape of the C array. */
  predicate Shaped(c: Cntrs)
  {
    |c| == NSEGMENTS && forall s :: 0 <= s < NSEGMENTS ==> Shaped4(c[s])
  }

  /** The all-zero block. */
  function ZeroCntrs(): (c: Cntrs)
    ensures Shaped(c)
    ensures forall s, r, o :: 0 <= s < NSEGMENTS && 0 <= r < NRES && 0 <= o < NOUTCOMES ==> c[s][r][o] == 0
  {
    seq(NSEGMENTS, _ => seq(NRES, _ => seq(NOUTCOMES, _ => 0)))
  }

  /** row[o]++; an index outside the row is not written. */
  function Inc(row: seq<int>, o: int): (r: seq<int>)
    ensures |r| == |row|
    ensures forall k :: 0 <= k < |row| ==> r[k] == row[k] + (if k == o then 1 else 0)
  {
    if 0 <= o < |row| then row[o := row[o] + 1] else row
  }

  /** The seven outcome counters of one row, added up. */
  function RowSum(row: seq<int>): int
    requires |row| == NOUTCOMES
  {
    row[0] + row[1] + row[2] + row[3] + row[4] + row[5] + row[6]
  }

  /** Incrementing one outcome adds one to the row. */
  lemma RowSumInc(row: seq<int>, o: int)
    requires |row| == NOUTCOMES && 0 <= o < NOUTCOMES
    ensures RowSum(Inc(row, o)) == RowSum(row) + 1
  {
  }

  /**
   * The running state of update_cl for the destination segment: its byte,
   * element, sub-block and block counter rows, and the element, sub-block
   * and block flags.
   */
  datatype Tally = Tally(byt: seq<int>, lmtRow: seq<int>, subRow: seq<int>, blkRow: seq<int>,
                         blk: Flags, lmt: Flags, lmtFlag: bool, sub: Flags)

  /** Every row of the tally holds seven counters. */
  predicate TallyShaped(t: Tally)
  {
    |t.byt| == NOUTCOMES && |t.lmtRow| == NOUTCOMES && |t.subRow| == NOUTCOMES && |t.blkRow| == NOUTCOMES
  }

  /** The state before the first byte; lmt_read and blk_read start from whatever the stack held. */
  function StartTally(rows: seq<seq<int>>, lmtRead0: bool, blkRead0: bool): (t: Tally)
    requires Shaped4(rows)
    ensures TallyShaped(t)
  {
    Tally(rows[BYT_RES], rows[LMT_RES], rows[SUB_RES], rows[BLK_RES],
          NoFlags.(read := blkRead0), NoFlags.(read := lmtRead0), false, NoFlags)
  }

  /** Whether byte i ends a sub-block (by its address) or the transaction. */
  predicate SubEnd(src: Src, subSize: int, i: int)
    requires subSize != 0
  {
    CRem(src.adrs + i, subSize) == subSize - 1 || i + 1 == src.size
  }

  /** Whether byte i ends an element: the last byte, or the next byte starts one. */
  predicate ElemEnd(src: Src, i: int)
  {
    i + 1 == src.size || (i + 1 < src.size && ElemStart(Get(src.stat, i + 1)))
  }

  /**
   * The effect of one byte of class o on the counters and flags: element
   * restart at an element-start byte (lmt_read is never reset), the
   * byte-resolution counter, the element roll-up at an element end, and the
   * sub-block roll-up at a sub-block end.
   */
  function TallyByte(t: Tally, o: nat, elemStart: bool, elemEnd: bool, subEnd: bool): (r: Tally)
  {
    var lmt1 := Mark(if elemStart then NoFlags.(read := t.lmt.read) else t.lmt, o);
    var flag0 := t.lmtFlag || elemStart;
    var sub1 := Mark(t.sub, o);
    Tally(Inc(t.byt, o),
          if flag0 && elemEnd then Inc(t.lmtRow, ElemRollUp(lmt1)) else t.lmtRow,
          if subEnd then Inc(t.subRow, RollUp(sub1)) else t.subRow,
          t.blkRow,
          Mark(t.blk, o), lmt1, flag0 && !elemEnd, if subEnd then NoFlags else sub1)
  }

  /** Byte i's effect on the counters, from the source and the destination before the update. */
  function TallyAt(t: Tally, src: Src, dst0: Line, level: int, seg: int, subSize: int, i: int): Tally
    requires subSize != 0
  {
    TallyByte(t, ByteClass(src, dst0, level, seg, i), ElemStart(Get(src.stat, i)), ElemEnd(src, i),
              SubEnd(src, subSize, i))
  }

  /** The state after the first n bytes. */
  ghost function TallyUpTo(t0: Tally, src: Src, dst0: Line, level: int, seg: int, subSize: int, n: nat): Tally
    requires subSize != 0
  {
    if n == 0 then t0
    else TallyAt(TallyUpTo(t0, src, dst0, level, seg, subSize, n - 1), src, dst0, level, seg, subSize, n - 1)
  }

  /** The segment's four counter rows once the block roll-up is added. */
  function Finish(t: Tally): (rows: seq<seq<int>>)
  {
    [t.byt, t.lmtRow, t.subRow, Inc(t.blkRow, RollUp(t.blk))]
  }

  /** Number of bytes among the first n whose class is o. */
  ghost function CountClass(src: Src, dst0: Line, level: int, seg: int, o: nat, n: nat): nat
  {
    if n == 0 then 0
    else CountClass(src, dst0, level, seg, o, n - 1) + (if ByteClass(src, dst0, level, seg, n - 1) == o then 1 else 0)
  }

  /** Number of sub-block ends among the first n bytes. */
  ghost function CountSubEnds(src: Src, subSize: int, n: nat): nat
    requires subSize != 0
  {
    if n == 0 then 0 else CountSubEnds(src, subSize, n - 1) + (if SubEnd(src, subSize, n - 1) then 1 else 0)
  }

  /**
   * One byte of class o: its byte counter goes up by one, the sub-block row
   * by one exactly at a sub-block end, no dead counter and no sub-block
   * dusty counter moves, and the element stays free of dead writes.
   */
  lemma StepCounts(t: Tally, o: nat, elemStart: bool, elemEnd: bool, subEnd: bool)
    requires TallyShaped(t) && o < NOUTCOMES && o != DEAD_WR && !t.lmt.dead
    ensures TallyShaped(TallyByte(t, o, elemStart, elemEnd, subEnd))
    ensures TallyByte(t, o, elemStart, elemEnd, subEnd).byt == Inc(t.byt, o)
    ensures RowSum(TallyByte(t, o, elemStart, elemEnd, subEnd).subRow) == RowSum(t.subRow) + (if subEnd then 1 else 0)
    ensures TallyByte(t, o, elemStart, elemEnd, subEnd).byt[DEAD_WR] == t.byt[DEAD_WR]
    ensures TallyByte(t, o, elemStart, elemEnd, subEnd).lmtRow[DEAD_WR] == t.lmtRow[DEAD_WR]
    ensures TallyByte(t, o, elemStart, elemEnd, subEnd).subRow[DEAD_WR] == t.subRow[DEAD_WR]
    ensures TallyByte(t, o, elemStart, elemEnd, subEnd).subRow[DUST_WR] == t.subRow[DUST_WR]
    ensures TallyByte(t, o, elemStart, elemEnd, subEnd).blkRow == t.blkRow
    ensures !TallyByte(t, o, elemStart, elemEnd, subEnd).lmt.dead
  {
    StepElement(t, o, elemStart, elemEnd);
    StepSubBlock(t, o, subEnd);
  }

  /** The element half of StepCounts: an element roll-up is never a dead write. */
  lemma StepElement(t: Tally, o: nat, elemStart: bool, elemEnd: bool)
    requires TallyShaped(t) && o < NOUTCOMES && o != DEAD_WR && !t.lmt.dead
    ensures |TallyByte(t, o, elemStart, elemEnd, false).lmtRow| == NOUTCOMES
    ensures TallyByte(t, o, elemStart, elemEnd, false).lmtRow[DEAD_WR] == t.lmtRow[DEAD_WR]
    ensures !TallyByte(t, o, elemStart, elemEnd, false).lmt.dead
  {
    var lmt1 := Mark(if elemStart then NoFlags.(read := t.lmt.read) else t.lmt, o);
    assert !lmt1.dead;
  }

  /** The sub-block half of StepCounts: one count per sub-block end, never dead or dusty. */
  lemma StepSubBlock(t: Tally, o: nat, subEnd: bool)
    requires TallyShaped(t) && o < NOUTCOMES
    ensures |TallyByte(t, o, false, false, subEnd).subRow| == NOUTCOMES
    ensures RowSum(TallyByte(t, o, false, false, subEnd).subRow) == RowSum(t.subRow) + (if subEnd then 1 else 0)
    ensures TallyByte(t, o, false, false, subEnd).subRow[DEAD_WR] == t.subRow[DEAD_WR]
    ensures TallyByte(t, o, false, false, subEnd).subRow[DUST_WR] == t.subRow[DUST_WR]
  {
    if subEnd {
      RowSumInc(t.subRow, RollUp(Mark(t.sub, o)));
    }
  }

  /** StepCounts for byte i of a transaction. */
  lemma StepAt(t: Tally, src: Src, dst0: Line, level: int, seg: int, subSize: int, i: int)
    requires subSize != 0 && TallyShaped(t) && !t.lmt.dead
    ensures TallyShaped(TallyAt(t, src, dst0, level, seg, subSize, i))
    ensures TallyAt(t, src, dst0, level, seg, subSize, i).byt == Inc(t.byt, ByteClass(src, dst0, level, seg, i))
    ensures RowSum(TallyAt(t, src, dst0, level, seg, subSize, i).subRow)
      == RowSum(t.subRow) + (if SubEnd(src, subSize, i) then 1 else 0)
    ensures TallyAt(t, src, dst0, level, seg, subSize, i).byt[DEAD_WR] == t.byt[DEAD_WR]
    ensures TallyAt(t, src, dst0, level, seg, subSize, i).lmtRow[DEAD_WR] == t.lmtRow[DEAD_WR]
    ensures TallyAt(t, src, dst0, level, seg, subSize, i).subRow[DEAD_WR] == t.subRow[DEAD_WR]
    ensures TallyAt(t, src, dst0, level, seg, subSize, i).subRow[DUST_WR] == t.subRow[DUST_WR]
    ensures TallyAt(t, src, dst0, level, seg, subSize, i).blkRow == t.blkRow
    ensures !TallyAt(t, src, dst0, level, seg, subSize, i).lmt.dead
  {
    StepCounts(t, ByteClass(src, dst0, level, seg, i), ElemStart(Get(src.stat, i)), ElemEnd(src, i),
               SubEnd(src, subSize, i));
  }

  /**
   * After n bytes: counter o of the byte row has grown by the number of
   * bytes of class o, the sub-block row by the number of sub-block ends, no
   * dead counter and no sub-block dusty counter at all (is_dead never fires
   * and the mixed test hides the pure dead and dusty roll-ups), and the
   * block row waits for the final roll-up.
   */
  lemma {:induction false} TallyCounts(t0: Tally, src: Src, dst0: Line, level: int, seg: int, subSize: int, n: nat)
    requires subSize != 0 && TallyShaped(t0) && !t0.lmt.dead
    ensures TallyShaped(TallyUpTo(t0, src, dst0, level, seg, subSize, n))
    ensures forall o :: 0 <= o < NOUTCOMES ==>
      TallyUpTo(t0, src, dst0, level, seg, subSize, n).byt[o] == t0.byt[o] + CountClass(src, dst0, level, seg, o, n)
    ensures RowSum(TallyUpTo(t0, src, dst0, level, seg, subSize, n).subRow) == RowSum(t0.subRow) + CountSubEnds(src, subSize, n)
    ensures TallyUpTo(t0, src, dst0, level, seg, subSize, n).lmtRow[DEAD_WR] == t0.lmtRow[DEAD_WR]
    ensures TallyUpTo(t0, src, dst0, level, seg, subSize, n).subRow[DEAD_WR] == t0.subRow[DEAD_WR]
    ensures TallyUpTo(t0, src, dst0, level, seg, subSize, n).subRow[DUST_WR] == t0.subRow[DUST_WR]
    ensures TallyUpTo(t0, src, dst0, level, seg, subSize, n).blkRow == t0.blkRow
    ensures !TallyUpTo(t0, src, dst0, level, seg, subSize, n).lmt.dead
  {
    if n > 0 {
      TallyCounts(t0, src, dst0, level, seg, subSize, n - 1);
      CountsStep(t0, TallyUpTo(t0, src, dst0, level, seg, subSize, n - 1), TallyUpTo(t0, src, dst0, level, seg, subSize, n),
                 src, dst0, level, seg, subSize, n);
    }
  }

  /** The facts of TallyCounts carried over one more byte. */
  lemma CountsStep(t0: Tally, t: Tally, tn: Tally, src: Src, dst0: Line, level: int, seg: int, subSize: int, n: nat)
    requires subSize != 0 && n > 0 && TallyShaped(t0) && TallyShaped(t) && !t.lmt.dead
    requires tn == TallyAt(t, src, dst0, level, seg, subSize, n - 1)
    requires forall o :: 0 <= o < NOUTCOMES ==> t.byt[o] == t0.byt[o] + CountClass(src, dst0, level, seg, o, n - 1)
    requires RowSum(t.subRow) == RowSum(t0.subRow) + CountSubEnds(src, subSize, n - 1)
    requires t.lmtRow[DEAD_WR] == t0.lmtRow[DEAD_WR] && t.subRow[DEAD_WR] == t0.subRow[DEAD_WR]
    requires t.subRow[DUST_WR] == t0.subRow[DUST_WR] && t.blkRow == t0.blkRow
    ensures TallyShaped(tn)
    ensures forall o :: 0 <= o < NOUTCOMES ==> tn.byt[o] == t0.byt[o] + CountClass(src, dst0, level, seg, o, n)
    ensures RowSum(tn.subRow) == RowSum(t0.subRow) + CountSubEnds(src, subSize, n)
    ensures tn.lmtRow[DEAD_WR] == t0.lmtRow[DEAD_WR] && tn.subRow[DEAD_WR] == t0.subRow[DEAD_WR]
    ensures tn.subRow[DUST_WR] == t0.subRow[DUST_WR] && tn.blkRow == t0.blkRow && !tn.lmt.dead
  {
    var c := ByteClass(src, dst0, level, seg, n - 1);
    StepAt(t, src, dst0, level, seg, subSize, n - 1);
    assert CountSubEnds(src, subSize, n)
      == CountSubEnds(src, subSize, n - 1) + (if SubEnd(src, subSize, n - 1) then 1 else 0);
    forall o | 0 <= o < NOUTCOMES
      ensures tn.byt[o] == t0.byt[o] + CountClass(src, dst0, level, seg, o, n)
    {
      assert tn.byt[o] == t.byt[o] + (if o == c then 1 else 0);
      assert CountClass(src, dst0, level, seg, o, n)
        == CountClass(src, dst0, level, seg, o, n - 1) + (if c == o then 1 else 0);
    }
  }

  /** The classes partition the bytes: their counts add up to n. */
  lemma {:induction false} CountClassesSum(src: Src, dst0: Line, level: int, seg: int, n: nat)
    ensures CountClass(src, dst0, level, seg, 0, n) + CountClass(src, dst0, level, seg, 1, n)
      + CountClass(src, dst0, level, seg, 2, n) + CountClass(src, dst0, level, seg, 3, n)
      + CountClass(src, dst0, level, seg, 4, n) + CountClass(src, dst0, level, seg, 5, n)
      + CountClass(src, dst0, level, seg, 6, n) == n
  {
    if n > 0 {
      CountClassesSum(src, dst0, level, seg, n - 1);
    }
  }

  /** Exactly one byte counter per byte: the byte row grows by n in all. */
  lemma ByteRowGrowsBySize(t0: Tally, src: Src, dst0: Line, level: int, seg: int, subSize: int, n: nat)
    requires subSize != 0 && TallyShaped(t0) && !t0.lmt.dead
    ensures TallyShaped(TallyUpTo(t0, src, dst0, level, seg, subSize, n))
    ensures RowSum(TallyUpTo(t0, src, dst0, level, seg, subSize, n).byt) == RowSum(t0.byt) + n
  {
    TallyCounts(t0, src, dst0, level, seg, subSize, n);
    CountClassesSum(src, dst0, level, seg, n);
  }

  /**
   * The block roll-up adds exactly one to the block row, never to its dead
   * or dusty counter, and leaves the other rows as they are.
   */
  lemma FinishOneBlock(t: Tally)
    requires TallyShaped(t)
    ensures Shaped4(Finish(t))
    ensures RowSum(Finish(t)[BLK_RES]) == RowSum(t.blkRow) + 1
    ensures Finish(t)[BLK_RES][DEAD_WR] == t.blkRow[DEAD_WR] && Finish(t)[BLK_RES][DUST_WR] == t.blkRow[DUST_WR]
    ensures Finish(t)[BYT_RES] == t.byt && Finish(t)[LMT_RES] == t.lmtRow && Finish(t)[SUB_RES] == t.subRow
  {
    RowSumInc(t.blkRow, RollUp(t.blk));
  }

  /** The counters update_cl leaves: the rows of segment seg tallied over the bytes of the source. */
  ghost function CntrsAfter(cntrs0: Cntrs, src: Src, dst0: Line, level: int, seg: int, subSize: int,
                            lmtRead0: bool, blkRead0: bool): Cntrs
    requires subSize != 0 && Shaped(cntrs0) && IsSegment(seg)
  {
    cntrs0[seg := Finish(TallyUpTo(StartTally(cntrs0[seg], lmtRead0, blkRead0), src, dst0, level, seg, subSize, Count(src)))]
  }

  /**
   * The counters after update_cl, in all: the byte row has one count per
   * byte, split by class; the sub-block row one per sub-block end; the block
   * row exactly one; no dead counter and no sub-block or block dusty counter
   * grows; and every other segment keeps its counters.
   */
  lemma UpdateCounts(cntrs0: Cntrs, src: Src, dst0: Line, level: int, seg: int, subSize: int,
                     lmtRead0: bool, blkRead0: bool)
    requires subSize != 0 && Shaped(cntrs0) && IsSegment(seg)
    ensures Shaped(CntrsAfter(cntrs0, src, dst0, level, seg, subSize, lmtRead0, blkRead0))
    ensures forall o :: 0 <= o < NOUTCOMES ==>
      CntrsAfter(cntrs0, src, dst0, level, seg, subSize, lmtRead0, blkRead0)[seg][BYT_RES][o]
      == cntrs0[seg][BYT_RES][o] + CountClass(src, dst0, level, seg, o, Count(src))
    ensures RowSum(CntrsAfter(cntrs0, src, dst0, level, seg, subSize, lmtRead0, blkRead0)[seg][BYT_RES])
      == RowSum(cntrs0[seg][BYT_RES]) + Count(src)
    ensures RowSum(CntrsAfter(cntrs0, src, dst0, level, seg, subSize, lmtRead0, blkRead0)[seg][SUB_RES])
      == RowSum(cntrs0[seg][SUB_RES]) + CountSubEnds(src, subSize, Count(src))
    ensures RowSum(CntrsAfter(cntrs0, src, dst0, level, seg, subSize, lmtRead0, blkRead0)[seg][BLK_RES])
      == RowSum(cntrs0[seg][BLK_RES]) + 1
    ensures forall r :: 0 <= r < NRES ==>
      CntrsAfter(cntrs0, src, dst0, level, seg, subSize, lmtRead0, blkRead0)[seg][r][DEAD_WR] == cntrs0[seg][r][DEAD_WR]
    ensures CntrsAfter(cntrs0, src, dst0, level, seg, subSize, lmtRead0, blkRead0)[seg][SUB_RES][DUST_WR]
      == cntrs0[seg][SUB_RES][DUST_WR]
    ensures CntrsAfter(cntrs0, src, dst0, level, seg, subSize, lmtRead0, blkRead0)[seg][BLK_RES][DUST_WR]
      == cntrs0[seg][BLK_RES][DUST_WR]
    ensures forall s :: 0 <= s < NSEGMENTS && s != seg ==>
      CntrsAfter(cntrs0, src, dst0, level, seg, subSize, lmtRead0, blkRead0)[s] == cntrs0[s]
  {
    var n := Count(src);
    var rows := Finish(TallyUpTo(StartTally(cntrs0[seg], lmtRead0, blkRead0), src, dst0, level, seg, subSize, n));
    FinishedRows(cntrs0[seg], rows, lmtRead0, blkRead0, src, dst0, level, seg, subSize, n);
    var c := cntrs0[seg := rows];
    assert c == CntrsAfter(cntrs0, src, dst0, level, seg, subSize, lmtRead0, blkRead0);
  }

  /** The rows of the destination segment after the bytes and the block roll-up, against the rows before. */
  lemma FinishedRows(rows0: seq<seq<int>>, rows: seq<seq<int>>, lmtRead0: bool, blkRead0: bool, src: Src, dst0: Line,
                     level: int, seg: int, subSize: int, n: nat)
    requires subSize != 0 && Shaped4(rows0)
    requires rows == Finish(TallyUpTo(StartTally(rows0, lmtRead0, blkRead0), src, dst0, level, seg, subSize, n))
    ensures Shaped4(rows)
    ensures forall o :: 0 <= o < NOUTCOMES ==> rows[BYT_RES][o] == rows0[BYT_RES][o] + CountClass(src, dst0, level, seg, o, n)
    ensures RowSum(rows[BYT_RES]) == RowSum(rows0[BYT_RES]) + n
    ensures RowSum(rows[SUB_RES]) == RowSum(rows0[SUB_RES]) + CountSubEnds(src, subSize, n)
    ensures RowSum(rows[BLK_RES]) == RowSum(rows0[BLK_RES]) + 1
    ensures forall r :: 0 <= r < NRES ==> rows[r][DEAD_WR] == rows0[r][DEAD_WR]
    ensures rows[SUB_RES][DUST_WR] == rows0[SUB_RES][DUST_WR] && rows[BLK_RES][DUST_WR] == rows0[BLK_RES][DUST_WR]
  {
    var t0 := StartTally(rows0, lmtRead0, blkRead0);
    var t := TallyUpTo(t0, src, dst0, level, seg, subSize, n);
    TallyCounts(t0, src, dst0, level, seg, subSize, n);
    ByteRowGrowsBySize(t0, src, dst0, level, seg, subSize, n);
    FinishOneBlock(t);
    assert t.byt[DEAD_WR] == t0.byt[DEAD_WR] + CountClass(src, dst0, level, seg, DEAD_WR, n);
    NoDeadBytes(src, dst0, level, seg, n);
  }

  /** No byte is ever a dead write, since is_dead never fires. */
  lemma {:induction false} NoDeadBytes(src: Src, dst0: Line, level: int, seg: int, n: nat)
    ensures CountClass(src, dst0, level, seg, DEAD_WR, n) == 0
  {
    if n > 0 {
      NoDeadBytes(src, dst0, level, seg, n - 1);
    }
  }

  // ---------------------------------------------------------------------
  // update_cl
  // ---------------------------------------------------------------------

  /** The number of bytes the loop over a source visits. */
  function Count(src: Src): nat { if src.size < 0 then 0 else src.size }

  /** The data bytes after the bytes below n are stored from position off on. */
  ghost predicate DataDone(src: Src, dst0: Line, data: seq<bv8>, off: int, n: int)
  {
    |data| == |dst0.data| &&
    forall j :: 0 <= j < |data| ==> data[j] == if off <= j < off + n then Get(src.data, j - off) else dst0.data[j]
  }

  /** The original bytes after the bytes below n are stored from position off on. */
  ghost predicate OrigDone(src: Src, dst0: Line, orig: seq<bv8>, off: int, n: int)
  {
    |orig| == |dst0.orig| &&
    forall j :: 0 <= j < |orig| ==>
      orig[j] == if off <= j < off + n && j < |dst0.stat|
        then NewOrig(Get(src.orig, j - off), dst0.orig[j], Get(src.stat, j - off), dst0.stat[j])
        else dst0.orig[j]
  }

  /** The status bytes after the bytes below n are stored from position off on. */
  ghost predicate StatDone(src: Src, dst0: Line, stat: seq<bv8>, off: int, n: int)
  {
    |stat| == |dst0.stat| &&
    forall j :: 0 <= j < |stat| ==>
      stat[j] == if off <= j < off + n then NewStat(Get(src.stat, j - off), dst0.stat[j], UpdWrite(src.oper)) else dst0.stat[j]
  }

  /** The destination line after byte i's data, original and status writes, for all bytes below n. */
  ghost predicate BytesDone(src: Src, dst0: Line, data: seq<bv8>, orig: seq<bv8>, stat: seq<bv8>, off: int, n: int)
  {
    DataDone(src, dst0, data, off, n) && OrigDone(src, dst0, orig, off, n) && StatDone(src, dst0, stat, off, n)
  }

  /**
   * The status byte update_cl writes: the element-start bit taken from the
   * source (both element bits cleared otherwise), the last-access bits set to
   * the operation, and the valid bit added when an invalid byte receives a
   * valid one; `fill` says whether the original byte is taken over too.
   */
  method ByteStatus(sst: bv8, dstStat: bv8, write: bool) returns (st: bv8, fill: bool)
    ensures st == NewStat(sst, dstStat, write)
    ensures fill == (!ValidByte(dstStat) && ValidByte(sst))
  {
    st := if ElemStart(sst) then dstStat | CBLEMNT else dstStat & CBLMNTMSK;
    st := (st & CBLSTMSK) | (if write then CBLSTWR else CBLSTRD);
    fill := !ValidByte(dstStat) && ValidByte(sst);
    if fill {
      st := st | CBVALID;
    }
  }

  /** The body of update_cl's byte loop for one byte: status, original and data bytes. */
  method StoreByte(src: Src, data: seq<bv8>, orig: seq<bv8>, stat: seq<bv8>, j: int, i: int, write: bool)
      returns (data': seq<bv8>, orig': seq<bv8>, stat': seq<bv8>)
    ensures data' == Put(data, j, Get(src.data, i))
    ensures orig' == Put(orig, j, NewOrig(Get(src.orig, i), Get(orig, j), Get(src.stat, i), Get(stat, j)))
    ensures stat' == Put(stat, j, NewStat(Get(src.stat, i), Get(stat, j), write))
  {
    var st, fill := ByteStatus(Get(src.stat, i), Get(stat, j), write);
    orig' := orig;
    if fill {
      orig' := Put(orig', j, Get(src.orig, i));
    } else {
      assert Put(orig, j, Get(orig, j)) == orig;
    }
    stat' := Put(stat, j, st);
    data' := Put(data, j, Get(src.data, i));
  }

  /** Storing data byte n at position n + off extends DataDone by one byte. */
  lemma DataStep(src: Src, dst0: Line, data: seq<bv8>, off: int, n: nat)
    requires DataDone(src, dst0, data, off, n)
    ensures DataDone(src, dst0, Put(data, n + off, Get(src.data, n)), off, n + 1)
  {
  }

  /** Storing original byte n at position n + off extends OrigDone by one byte. */
  lemma OrigStep(src: Src, dst0: Line, orig: seq<bv8>, stat: seq<bv8>, off: int, n: nat)
    requires |dst0.orig| == |dst0.stat|
    requires OrigDone(src, dst0, orig, off, n) && StatDone(src, dst0, stat, off, n)
    ensures OrigDone(src, dst0, Put(orig, n + off, NewOrig(Get(src.orig, n), Get(orig, n + off), Get(src.stat, n), Get(stat, n + off))), off, n + 1)
  {
    var j := n + off;
    assert 0 <= j < |stat| ==> stat[j] == dst0.stat[j] && orig[j] == dst0.orig[j];
  }

  /** Storing status byte n at position n + off extends StatDone by one byte. */
  lemma StatStep(src: Src, dst0: Line, stat: seq<bv8>, off: int, n: nat)
    requires StatDone(src, dst0, stat, off, n)
    ensures StatDone(src, dst0, Put(stat, n + off, NewStat(Get(src.stat, n), Get(stat, n + off), UpdWrite(src.oper))), off, n + 1)
  {
    var j := n + off;
    assert 0 <= j < |stat| ==> stat[j] == dst0.stat[j];
  }

  /**
   * The body of the byte loop for byte i: store it at position i + off and
   * tally it, which extends both the stored prefix and the tally by one byte.
   */
  method ByteStep(src: Src, dst0: Line, t0: Tally, level: int, seg: int, subSize: int, off: int,
                  data: seq<bv8>, orig: seq<bv8>, stat: seq<bv8>, t: Tally, i: nat)
      returns (data': seq<bv8>, orig': seq<bv8>, stat': seq<bv8>, t': Tally)
    requires subSize != 0 && |dst0.orig| == |dst0.stat|
    requires BytesDone(src, dst0, data, orig, stat, off, i)
    requires t == TallyUpTo(t0, src, dst0, level, seg, subSize, i)
    ensures BytesDone(src, dst0, data', orig', stat', off, i + 1)
    ensures t' == TallyUpTo(t0, src, dst0, level, seg, subSize, i + 1)
  {
    DataStep(src, dst0, data, off, i);
    OrigStep(src, dst0, orig, stat, off, i);
    StatStep(src, dst0, stat, off, i);
    data', orig', stat' := StoreByte(src, data, orig, stat, i + off, i, UpdWrite(src.oper));
    t' := TallyAt(t, src, dst0, level, seg, subSize, i);
  }

  /**
   * update_cl's loop over the bytes of the transaction: store each byte at
   * position i + off of the line and tally its class.  Only the data,
   * original and status bytes of the line change.
   */
  method ByteLoop(src: Src, dst0: Line, t0: Tally, level: int, seg: int, subSize: int, off: int)
      returns (data: seq<bv8>, orig: seq<bv8>, stat: seq<bv8>, t: Tally)
    requires subSize != 0 && |dst0.orig| == |dst0.stat|
    ensures BytesDone(src, dst0, data, orig, stat, off, Count(src))
    ensures t == TallyUpTo(t0, src, dst0, level, seg, subSize, Count(src))
  {
    t := t0;
    data, orig, stat := dst0.data, dst0.orig, dst0.stat;
    var i := 0;
    while i < src.size
      invariant 0 <= i <= Count(src)
      invariant BytesDone(src, dst0, data, orig, stat, off, i)
      invariant t == TallyUpTo(t0, src, dst0, level, seg, subSize, i)
    {
      data, orig, stat, t := ByteStep(src, dst0, t0, level, seg, subSize, off, data, orig, stat, t, i);
      i := i + 1;
    }
  }

  /**
   * update_cl: apply a transaction to the destination line byte by byte and
   * count it in the destination cache's counters.  Byte i lands at position
   * i + offset of the line; the data byte is always copied, the original
   * byte only into an invalid byte from a valid one, and the status byte is
   * rewritten by NewStat.  The counters end as the tally of all bytes plus
   * the block roll-up (UpdateCounts says what that adds up to).  Finally the
   * line becomes valid if the source was, and a plain write marks it dirty
   * while everything else (including a modify) marks it referenced.
   * `lmtRead0`/`blkRead0` stand for the values the never-initialised
   * lmt_read and blk_read happen to hold.
   */
  method UpdateCl(src: Src, dst0: Line, cntrs0: Cntrs, level: int, seg: int, subSize: int,
                  lmtRead0: bool, blkRead0: bool)
      returns (dst: Line, cntrs: Cntrs)
    requires subSize != 0 && Shaped(cntrs0) && IsSegment(seg)
    requires |dst0.orig| == |dst0.stat|
    ensures BytesDone(src, dst0, dst.data, dst.orig, dst.stat, Offset(src, dst0), Count(src))
    ensures cntrs == CntrsAfter(cntrs0, src, dst0, level, seg, subSize, lmtRead0, blkRead0)
    ensures dst.valid == (dst0.valid || src.valid)
    ensures dst.dirty == (dst0.dirty || src.oper == MRWRITE)
    ensures dst.referncd == (dst0.referncd || src.oper != MRWRITE)
    ensures dst.adrs == dst0.adrs && dst.time == dst0.time && dst.oper == dst0.oper && dst.segment == dst0.segment
    ensures dst.alloctime == dst0.alloctime && dst.shared == dst0.shared && dst.exclusiv == dst0.exclusiv
    ensures Shaped(cntrs)
  {
    var data, orig, stat, t := ByteLoop(src, dst0, StartTally(cntrs0[seg], lmtRead0, blkRead0), level, seg, subSize, Offset(src, dst0));
    TallyCounts(StartTally(cntrs0[seg], lmtRead0, blkRead0), src, dst0, level, seg, subSize, Count(src));
    FinishOneBlock(t);
    cntrs := cntrs0[seg := Finish(t)];
    dst := dst0.(data := data, orig := orig, stat := stat, valid := dst0.valid || src.valid);
    if src.oper == MRWRITE {
      dst := dst.(dirty := true);
    } else {
      dst := dst.(referncd := true);
    }
  }
}
