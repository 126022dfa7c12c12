/**
 * The cache reference engine of `reference.c`, in both versions: the
 * original model, and the modified one whose instrumented cache level
 * chooses its set through a set-index scheme, is flushed periodically and
 * varies the number of ways it searches.
 *
 * A cache stores its lines in a sequence indexed by line number; the set
 * rings are two link maps indexed by line (module Ring).  Lines move between
 * levels by value: the level below receives a copy, and the caller stores
 * the copy it gets back.  The hierarchy is the chain of `lower` links, each
 * level holding the footprint of the levels below it.
 */
module Engine {
  import opened Defs
  import opened Lines
  import opened Ring
  import opened Bits
  import opened Split
  import Schemes
  import Fill
  import Leakage

  datatype Option<T> = None | Some(value: T)

  /** `struct cache_cfg_rec`: the fields the engine reads. */
  datatype Config = Config(size: int, linSiz: int, sbSiz: int, access: int, control: int, assoc: int, arch: char)

  /** The integer part of log2 n, as `log2` assigned to an int8_t gives it for n >= 1. */
  function Log2(n: nat): (k: nat)
    requires n >= 1
    ensures Pow2(k) <= n < 2 * Pow2(k)
  {
    if n == 1 then 0 else 1 + Log2(n / 2)
  }

  /**
   * The set of an address: `((int32_t) adrs & setmask) >> log2blksize`
   * with setmask = (2^setBits - 1) << blkBits, that is address bits
   * blkBits .. blkBits + setBits - 1 (all below bit 31).
   */
  function SetOf(x: int, blkBits: nat, setBits: nat): (s: nat)
    ensures s < Pow2(setBits)
  {
    (x / Pow2(blkBits)) % Pow2(setBits)
  }

  // ---------------------------------------------------------------------
  // Per-set counters
  // ---------------------------------------------------------------------

  /** The eight per-segment counters of `struct cacheset_rec`. */
  datatype SetCounts = SetCounts(
    access: seq<int>, clean: seq<int>, evict: seq<int>, fetch: seq<int>,
    hits: seq<int>, misses: seq<int>, nvalid: seq<int>, wrback: seq<int>)

  predicate CountsShaped(c: SetCounts)
  {
    && |c.access| == NSEGMENTS && |c.clean| == NSEGMENTS && |c.evict| == NSEGMENTS && |c.fetch| == NSEGMENTS
    && |c.hits| == NSEGMENTS && |c.misses| == NSEGMENTS && |c.nvalid| == NSEGMENTS && |c.wrback| == NSEGMENTS
  }

  predicate AllShaped(sets: seq<SetCounts>)
  {
    forall s :: 0 <= s < |sets| ==> CountsShaped(sets[s])
  }

  /** The zeroed counters calloc gives a set. */
  function ZeroCounts(): (c: SetCounts)
    ensures CountsShaped(c)
  {
    var z := seq(NSEGMENTS, _ => 0);
    SetCounts(z, z, z, z, z, z, z, z)
  }

  /** Every line holds `n` bytes and a segment code. */
  predicate LinesOk(lines: seq<Line>, nLines: nat, n: nat)
  {
    |lines| == nLines && forall l :: 0 <= l < |lines| ==> LineOk(lines[l], n)
  }

  /** A line holds `n` bytes and a segment code. */
  predicate LineOk(l: Line, n: nat)
  {
    Sized(l, n) && IsSegment(l.segment)
  }

  /** Storing a good line keeps every line good. */
  lemma StoreOk(lines: seq<Line>, nLines: nat, n: nat, x: int, l: Line)
    requires LinesOk(lines, nLines, n) && 0 <= x < |lines| && LineOk(l, n)
    ensures LinesOk(lines[x := l], nLines, n)
  {
  }

  // ---------------------------------------------------------------------
  // Lookup
  // ---------------------------------------------------------------------

  /** Line x is valid and holds line address tag. */
  predicate Matches(lines: seq<Line>, x: int, tag: int)
  {
    0 <= x < |lines| && lines[x].valid && lines[x].adrs == tag
  }

  /**
   * The walk of `search`: from position pos of the ring, look at n lines
   * following `lru` links and answer the first matching one, or -1.
   */
  function Scan(o: seq<int>, pos: nat, n: int, lines: seq<Line>, tag: int): (r: int)
    requires pos < |o|
    decreases if n < 0 then 0 else n
  {
    if n <= 0 then -1
    else if Matches(lines, o[pos], tag) then o[pos]
    else Scan(o, Nx(pos, |o|), n - 1, lines, tag)
  }

  /**
   * Walking n <= |o| lines from the most recent one answers the first line of
   * o[..n] that matches, and -1 exactly when none of them does.
   */
  lemma {:induction false} ScanFirst(o: seq<int>, pos: nat, n: int, lines: seq<Line>, tag: int)
    requires pos < |o| && pos + n <= |o|
    ensures var r := Scan(o, pos, n, lines, tag);
      && (r == -1 <==> forall k :: pos <= k < pos + n ==> !Matches(lines, o[k], tag))
      && (r != -1 ==> exists k :: pos <= k < pos + n && r == o[k] && Matches(lines, r, tag) &&
                        forall j :: pos <= j < k ==> !Matches(lines, o[j], tag))
    decreases if n < 0 then 0 else n
  {
    if n > 0 {
      if !Matches(lines, o[pos], tag) && n > 1 {
        assert Nx(pos, |o|) == pos + 1;
        ScanFirst(o, pos + 1, n - 1, lines, tag);
      }
    }
  }

  // ---------------------------------------------------------------------
  // Timing
  // ---------------------------------------------------------------------

  /**
   * The stall of a reference starting at refTime: none when the cache is
   * free (acss <= refTime); otherwise until the outstanding miss completes
   * for a blocking cache, a miss or the line being fetched, and until the
   * current access completes for any other hit.
   */
  function Stall(acss: int, missT: int, missTag: int, refTime: int, blocking: bool, hit: bool, tag: int): int
  {
    if acss > refTime then
      if blocking || !hit || tag == missTag then missT - refTime else acss - refTime
    else 0
  }

  /**
   * While the miss time is never before the access time, a reference never
   * starts before it is issued nor before the cache is free, and it starts at
   * one of the three: its issue time, the access time, the miss time.
   */
  lemma StallBounds(acss: int, missT: int, missTag: int, refTime: int, blocking: bool, hit: bool, tag: int)
    requires acss <= missT
    ensures var start := refTime + Stall(acss, missT, missTag, refTime, blocking, hit, tag);
      && start >= refTime && start >= acss
      && (start == refTime || start == acss || start == missT)
      && (acss <= refTime <==> start == refTime && Stall(acss, missT, missTag, refTime, blocking, hit, tag) == 0)
      && (!blocking && hit && tag != missTag ==> start == if acss > refTime then acss else refTime)
  {
  }

  // ---------------------------------------------------------------------
  // Relinking
  // ---------------------------------------------------------------------

  /**
   * The statements of move2_mru, applied to the link maps of a set whose
   * most and least recent lines are m and l, for a line cl other than m.
   */
  lemma MruRelinkIsFront(o: seq<int>, p: nat, lru0: seq<int>, mru0: seq<int>)
    requires 1 <= p < |o| && Distinct(o) && InRange(o, |lru0|) && |mru0| == |lru0|
    requires Linked(o, lru0, mru0)
    ensures lru0[o[p]] == o[Nx(p, |o|)] && mru0[o[p]] == o[Pv(p, |o|)]
    ensures var cl, m, l := o[p], o[0], o[|o| - 1];
      var a, b := lru0[cl], mru0[cl];
      var mruA := mru0[a := b];
      var lruA := lru0[b := a];
      var l' := if l == cl then mruA[cl] else l;
      var mruB := mruA[cl := l'];
      var lruB := lruA[cl := m];
      FrontLinks(o, p, lru0, mru0, lruB[l' := cl], mruB[m := cl])
  {
    var n := |o|;
    MruStepsBack(o, lru0, mru0, p);
    assert lru0[o[p]] == o[Nx(p, n)] && mru0[o[Nx(p - 1, n)]] == o[p - 1];
    assert Nx(p - 1, n) == p;
    assert p + 1 < n ==> Nx(p, n) == p + 1;
    assert p == n - 1 ==> Nx(p, n) == 0;
  }

  /** The statements of move2_lru, for a line cl other than the least recent one l. */
  lemma LruRelinkIsBack(o: seq<int>, p: nat, lru0: seq<int>, mru0: seq<int>)
    requires p + 1 < |o| && Distinct(o) && InRange(o, |lru0|) && |mru0| == |lru0|
    requires Linked(o, lru0, mru0)
    ensures lru0[o[p]] == o[Nx(p, |o|)] && mru0[o[p]] == o[Pv(p, |o|)]
    ensures var cl, m, l := o[p], o[0], o[|o| - 1];
      var a, b := lru0[cl], mru0[cl];
      var mruA := mru0[a := b];
      var lruA := lru0[b := a];
      var m' := if m == cl then lruA[cl] else m;
      var mruB := mruA[cl := l];
      var lruB := lruA[cl := m'];
      BackLinks(o, p, lru0, mru0, lruB[l := cl], mruB[m' := cl])
  {
    var n := |o|;
    MruStepsBack(o, lru0, mru0, p);
    assert lru0[o[p]] == o[Nx(p, n)] && Nx(p, n) == p + 1;
    assert mru0[o[Nx(Pv(p, n), n)]] == o[Pv(p, n)];
    assert Nx(Pv(p, n), n) == p;
    assert p == 0 ==> Pv(p, n) == n - 1;
    assert p > 0 ==> Pv(p, n) == p - 1;
  }

  /**
   * The pointer statements of move2_mru on the link maps, for the line cl at
   * position p >= 1 of a ring whose most and least recent lines are sm and
   * sl: cl is unhooked, then put between the least and the most recent line.
   * Answers the new links and the new least recent line.
   */
  method RelinkFront(lru0: seq<int>, mru0: seq<int>, sm: int, sl: int, cl: int, ghost o: seq<int>, ghost p: nat)
      returns (lru: seq<int>, mru: seq<int>, sl': int)
    requires 1 <= p < |o| && Distinct(o) && InRange(o, |lru0|) && |mru0| == |lru0| && Linked(o, lru0, mru0)
    requires cl == o[p] && sm == o[0] && sl == o[|o| - 1]
    ensures |lru| == |lru0| && |mru| == |lru0|
    ensures FrontLinks(o, p, lru0, mru0, lru, mru)
    ensures sl' == ToFront(o, p)[|o| - 1]
  {
    MruRelinkIsFront(o, p, lru0, mru0);
    lru, mru, sl' := lru0, mru0, sl;
    mru := mru[lru[cl] := mru[cl]];
    lru := lru[mru[cl] := lru[cl]];
    if sl' == cl {
      sl' := mru[cl];
    }
    mru := mru[cl := sl'];
    lru := lru[cl := sm];
    lru := lru[sl' := cl];
    mru := mru[sm := cl];
  }

  /** The pointer statements of move2_lru, for the line cl at position p < |o| - 1; answers the new most recent line. */
  method RelinkBack(lru0: seq<int>, mru0: seq<int>, sm: int, sl: int, cl: int, ghost o: seq<int>, ghost p: nat)
      returns (lru: seq<int>, mru: seq<int>, sm': int)
    requires p + 1 < |o| && Distinct(o) && InRange(o, |lru0|) && |mru0| == |lru0| && Linked(o, lru0, mru0)
    requires cl == o[p] && sm == o[0] && sl == o[|o| - 1]
    ensures |lru| == |lru0| && |mru| == |lru0|
    ensures BackLinks(o, p, lru0, mru0, lru, mru)
    ensures sm' == ToBack(o, p)[0]
  {
    LruRelinkIsBack(o, p, lru0, mru0);
    lru, mru, sm' := lru0, mru0, sm;
    mru := mru[lru[cl] := mru[cl]];
    lru := lru[mru[cl] := lru[cl]];
    if sm' == cl {
      sm' := lru[cl];
    }
    mru := mru[cl := sl];
    lru := lru[cl := sm'];
    lru := lru[sl := cl];
    mru := mru[sm' := cl];
  }

  /**
   * The relinking of move2_mru on the link maps of a whole cache: line cl,
   * not yet the most recent line of set s, becomes it; every other set keeps
   * its lines and links.
   */
  method MoveToFront(assoc: nat, nLines: nat, lru0: seq<int>, mru0: seq<int>, setMru0: seq<int>, setLru0: seq<int>,
                     ghost order0: seq<seq<int>>, ghost owner: seq<int>, s: nat, cl: int)
      returns (lru: seq<int>, mru: seq<int>, setMru: seq<int>, setLru: seq<int>, ghost order: seq<seq<int>>)
    requires RingsOk(assoc, nLines, lru0, mru0, setMru0, setLru0, order0, owner)
    requires s < |order0| && cl in order0[s] && setMru0[s] != cl
    ensures RingsOk(assoc, nLines, lru, mru, setMru, setLru, order, owner)
    ensures order == order0[s := ToFront(order0[s], IndexOf(order0[s], cl))]
    ensures setMru == setMru0[s := cl] && setLru[s] == order[s][assoc - 1]
    ensures forall t :: 0 <= t < |order0| && t != s ==> setLru[t] == setLru0[t]
    ensures forall x :: 0 <= x < nLines && owner[x] != s ==> lru[x] == lru0[x] && mru[x] == mru0[x]
  {
    var o := order0[s];
    var p := IndexOf(o, cl);
    assert SetOk(s, o, setMru0[s], setLru0[s], lru0, mru0, owner);
    assert p >= 1;
    var sl;
    lru, mru, sl := RelinkFront(lru0, mru0, setMru0[s], setLru0[s], cl, o, p);
    assert |o| == assoc;
    order := order0[s := ToFront(o, p)];
    setMru, setLru := setMru0[s := cl], setLru0[s := sl];
    FrontPreserves(assoc, nLines, lru0, mru0, setMru0, setLru0, order0, owner, s, p, lru, mru);
  }

  /**
   * The relinking of move2_lru on the link maps of a whole cache: line cl,
   * not yet the least recent line of set s, becomes it; every other set keeps
   * its lines and links.
   */
  method MoveToBack(assoc: nat, nLines: nat, lru0: seq<int>, mru0: seq<int>, setMru0: seq<int>, setLru0: seq<int>,
                    ghost order0: seq<seq<int>>, ghost owner: seq<int>, s: nat, cl: int)
      returns (lru: seq<int>, mru: seq<int>, setMru: seq<int>, setLru: seq<int>, ghost order: seq<seq<int>>)
    requires RingsOk(assoc, nLines, lru0, mru0, setMru0, setLru0, order0, owner)
    requires s < |order0| && cl in order0[s] && setLru0[s] != cl
    ensures RingsOk(assoc, nLines, lru, mru, setMru, setLru, order, owner)
    ensures order == order0[s := ToBack(order0[s], IndexOf(order0[s], cl))]
    ensures setLru == setLru0[s := cl] && setMru[s] == order[s][0]
    ensures forall t :: 0 <= t < |order0| && t != s ==> setMru[t] == setMru0[t]
    ensures forall x :: 0 <= x < nLines && owner[x] != s ==> lru[x] == lru0[x] && mru[x] == mru0[x]
  {
    var o := order0[s];
    var p := IndexOf(o, cl);
    assert SetOk(s, o, setMru0[s], setLru0[s], lru0, mru0, owner);
    assert p + 1 < assoc;
    var sm;
    lru, mru, sm := RelinkBack(lru0, mru0, setMru0[s], setLru0[s], cl, o, p);
    order := order0[s := ToBack(o, p)];
    setMru, setLru := setMru0[s := sm], setLru0[s := cl];
    BackPreserves(assoc, nLines, lru0, mru0, setMru0, setLru0, order0, owner, s, p, lru, mru);
  }

  // ---------------------------------------------------------------------
  // The walk of `search` over the links themselves
  // ---------------------------------------------------------------------

  /**
   * search: from line x, look at n lines following `lru` links and answer
   * the first valid one holding tag, or -1.  A link leaving the line array
   * ends the walk.
   */
  function Walk(lru: seq<int>, x: int, n: int, lines: seq<Line>, tag: int): (r: int)
    decreases if n < 0 then 0 else n
  {
    if n <= 0 then -1
    else if Matches(lines, x, tag) then x
    else if 0 <= x < |lru| then Walk(lru, lru[x], n - 1, lines, tag)
    else -1
  }

  /** On a closed ring the walk along the links is the walk along the recency order. */
  lemma {:induction false} WalkIsScan(o: seq<int>, pos: nat, n: int, lru: seq<int>, mru: seq<int>, lines: seq<Line>, tag: int)
    requires |o| >= 2 && pos < |o| && InRange(o, |lru|) && |mru| == |lru| && Linked(o, lru, mru)
    ensures Walk(lru, o[pos], n, lines, tag) == Scan(o, pos, n, lines, tag)
    decreases if n < 0 then 0 else n
  {
    if n > 0 && !Matches(lines, o[pos], tag) {
      var q := Nx(pos, |o|);
      assert lru[o[pos]] == o[q];
      WalkIsScan(o, q, n - 1, lru, mru, lines, tag);
      assert Walk(lru, o[pos], n, lines, tag) == Walk(lru, o[q], n - 1, lines, tag);
      assert Scan(o, pos, n, lines, tag) == Scan(o, q, n - 1, lines, tag);
    }
  }

  /** The walk along a closed ring answers -1 or a line of the ring. */
  lemma {:induction false} ScanInRing(o: seq<int>, pos: nat, n: int, lines: seq<Line>, tag: int)
    requires pos < |o|
    ensures var r := Scan(o, pos, n, lines, tag); r == -1 || (r in o && Matches(lines, r, tag))
    decreases if n < 0 then 0 else n
  {
    if n > 0 && !Matches(lines, o[pos], tag) {
      ScanInRing(o, Nx(pos, |o|), n - 1, lines, tag);
    }
  }

  /**
   * The line search answers is in the searched set, however many ways it
   * looks at, when the set has two or more lines, or when it looks at one.
   */
  lemma WalkInSet(assoc: nat, nLines: nat, lru: seq<int>, mru: seq<int>, setMru: seq<int>, setLru: seq<int>,
                  order: seq<seq<int>>, owner: seq<int>, s: nat, n: int, lines: seq<Line>, tag: int)
    requires RingsOk(assoc, nLines, lru, mru, setMru, setLru, order, owner)
    requires s < |order| && (assoc >= 2 || n <= 1)
    ensures var r := Walk(lru, setMru[s], n, lines, tag); r == -1 || (r in order[s] && Matches(lines, r, tag))
  {
    var o := order[s];
    assert SetOk(s, o, setMru[s], setLru[s], lru, mru, owner);
    if assoc >= 2 {
      WalkIsScan(o, 0, n, lru, mru, lines, tag);
      ScanInRing(o, 0, n, lines, tag);
    } else if n == 1 {
      assert Walk(lru, setMru[s], n, lines, tag) == (if Matches(lines, o[0], tag) then o[0] else -1);
    }
  }

  /**
   * search over the rings: for a set of two or more lines and at most assoc
   * ways, the walk answers the first matching line in recency order among
   * the first n, and -1 exactly when none of them matches.
   */
  lemma SearchFindsFirst(assoc: nat, nLines: nat, lru: seq<int>, mru: seq<int>, setMru: seq<int>, setLru: seq<int>,
                         order: seq<seq<int>>, owner: seq<int>, s: nat, n: int, lines: seq<Line>, tag: int)
    requires RingsOk(assoc, nLines, lru, mru, setMru, setLru, order, owner)
    requires s < |order| && assoc >= 2 && n <= assoc
    ensures var r := Walk(lru, setMru[s], n, lines, tag); var o := order[s];
      && (r == -1 <==> forall k :: 0 <= k < n ==> !Matches(lines, o[k], tag))
      && (r != -1 ==> exists k :: 0 <= k < n && r == o[k] && Matches(lines, r, tag) &&
                        forall j :: 0 <= j < k ==> !Matches(lines, o[j], tag))
  {
    var o := order[s];
    assert SetOk(s, o, setMru[s], setLru[s], lru, mru, owner);
    WalkIsScan(o, 0, n, lru, mru, lines, tag);
    if n > 0 {
      ScanFirst(o, 0, n, lines, tag);
    }
  }

  // ---------------------------------------------------------------------
  // Run-wide state of the modified simulator
  // ---------------------------------------------------------------------

  const U64: nat := 0x1_0000_0000_0000_0000

  /** An increment of a uint64_t counter, wrapping to 0. */
  function Incr64(x: nat): (r: nat)
    ensures x + 1 < U64 ==> r == x + 1
    ensures r < U64
  {
    (x + 1) % U64
  }

  /** Whether a counter advanced from count reaches a period > 0 (and so fires and restarts). */
  predicate Fires(count: nat, period: nat)
  {
    Incr64(count) == period && period > 0
  }

  /**
   * The global counters `reference` keeps (all uint64_t, zero at start) and
   * the int direction flag of the associativity changes.
   */
  /** The run-wide state only the instrumented level changes. */
  type DefenceState = (nat, nat, nat, nat, int, Leakage.Table)

  /** The defence counters: flush, dynamic step, flushes done, and the direction of the ways. */
  datatype Clocks = Clocks(reflash: nat, dynamic: nat, counter: nat, increase: int)

  class Globals {
    var counterReflash: nat
    var counterDynamic: nat
    var counter: nat
    var aNumber: nat
    var minAddr: nat
    var maxAddr: nat
    var increaseWay: int
    /** The leakage statistics `mysets`, one record per set of the instrumented level. */
    var mysets: Leakage.Table

    /** The counters and statistics only the instrumented level changes. */
    function Defence(): DefenceState
      reads this
    {
      (counterReflash, counterDynamic, counter, aNumber, increaseWay, mysets)
    }

    function Clock(): Clocks
      reads this
    {
      Clocks(counterReflash, counterDynamic, counter, increaseWay)
    }

    /** The extreme line addresses seen: a replaces the minimum if below it and the maximum if above it. */
    method Record(a: nat)
      modifies this`minAddr, this`maxAddr
      ensures minAddr == (if a < old(minAddr) then a else old(minAddr))
      ensures maxAddr == (if a > old(maxAddr) then a else old(maxAddr))
    {
      if a < minAddr { minAddr := a; }
      if a > maxAddr { maxAddr := a; }
    }

    constructor ()
      ensures counterReflash == 0 && counterDynamic == 0 && counter == 0 && aNumber == 0
      ensures minAddr == 0 && maxAddr == 0 && increaseWay == 0
      ensures forall k :: 0 <= k < Leakage.SETS ==> mysets[k] == Leakage.ZERO
    {
      counterReflash, counterDynamic, counter, aNumber := 0, 0, 0, 0;
      minAddr, maxAddr, increaseWay := 0, 0, 0;
      mysets := seq(Leakage.SETS, _ => Leakage.ZERO);
    }
  }

  /**
   * What the engine reads that no code shown here determines: the values the
   * never-initialised lmt_read, blk_read and clean_all's `segment` hold, and
   * the DES encryption of a line address under the run's key (scheme 7).
   */
  datatype Env = Env(lmtRead0: bool, blkRead0: bool, cleanSeg: int, des: nat -> nat)

  // ---------------------------------------------------------------------
  // Flushing
  // ---------------------------------------------------------------------

  /** Line b is line a flushed: invalid and clean, with only its operation and time possibly changed. */
  predicate Flushed(a: Line, b: Line)
  {
    b == a.(valid := false, dirty := false, oper := b.oper, time := b.time)
  }

  /** Flushing a flushed line leaves it flushed. */
  lemma FlushedTrans(a: Line, b: Line, c: Line)
    requires Flushed(a, b) && Flushed(b, c)
    ensures Flushed(a, c)
  {
  }

  /**
   * Whether position j of a ring of n lines is reached by k steps that start
   * at the least recent position n - 1 and follow the `mru` links.
   */
  predicate Swept(n: nat, k: int, j: int)
  {
    k >= n || n - k <= j
  }

  /**
   * A sweep of k victims per set over the rings `order` of n lines that has
   * done the sets below i: their swept positions hold flushed lines, their
   * other positions and all positions of the later sets are as in L0.
   */
  ghost predicate SweptSets(order: seq<seq<int>>, n: nat, k: int, i: int, L0: seq<Line>, L: seq<Line>)
  {
    forall u, j :: 0 <= u < |order| && 0 <= j < n && j < |order[u]| && 0 <= order[u][j] < |L0| && order[u][j] < |L| ==>
      if u < i && Swept(n, k, j) then Flushed(L0[order[u][j]], L[order[u][j]]) else L[order[u][j]] == L0[order[u][j]]
  }

  /** Each of the rings `order` holds n positions, each a line below len owned by that ring's set. */
  ghost predicate RingsShape(order: seq<seq<int>>, owner: seq<int>, n: nat, len: nat)
  {
    && |owner| == len
    && (forall u :: 0 <= u < |order| ==> |order[u]| == n)
    && (forall u, j :: 0 <= u < |order| && 0 <= j < n && j < |order[u]| ==> 0 <= order[u][j] < len && owner[order[u][j]] == u)
  }

  /**
   * One more set of a sweep over all sets: flushing the swept positions of
   * set i, and touching no line of another set, extends the sweep to i + 1.
   */
  lemma SetsStep(order: seq<seq<int>>, owner: seq<int>, n: nat, k: int, i: nat,
                 L0: seq<Line>, L1: seq<Line>, L2: seq<Line>)
    requires i < |order| && |L0| == |L1| && |L2| == |L1| && RingsShape(order, owner, n, |L1|)
    requires SweptSets(order, n, k, i, L0, L1)
    requires RingSwept(order[i], n, k, L1, L2) && OthersKept(owner, i, L1, L2)
    ensures SweptSets(order, n, k, i + 1, L0, L2)
  {
  }

  /** A sweep that has done every set, stated position by position. */
  lemma SweptAll(order: seq<seq<int>>, owner: seq<int>, n: nat, k: int, L0: seq<Line>, L: seq<Line>)
    requires SweptSets(order, n, k, |order|, L0, L)
    requires |L| == |L0| && RingsShape(order, owner, n, |L0|)
    ensures forall u, j :: 0 <= u < |order| && 0 <= j < n ==>
      if Swept(n, k, j) then Flushed(L0[order[u][j]], L[order[u][j]]) else L[order[u][j]] == L0[order[u][j]]
  {
  }

  /**
   * The ring o of n lines after k victims of a sweep: the lines at swept
   * positions are flushed versions of those in L0, the others as in L0.
   */
  ghost predicate RingSwept(o: seq<int>, n: nat, k: int, L0: seq<Line>, L: seq<Line>)
  {
    forall j :: 0 <= j < n && j < |o| && 0 <= o[j] < |L0| && o[j] < |L| ==>
      if Swept(n, k, j) then Flushed(L0[o[j]], L[o[j]]) else L[o[j]] == L0[o[j]]
  }

  /** No line outside set s differs between L0 and L. */
  ghost predicate OthersKept(owner: seq<int>, s: int, L0: seq<Line>, L: seq<Line>)
  {
    forall y :: 0 <= y < |L0| && y < |L| && y < |owner| && owner[y] != s ==> L[y] == L0[y]
  }

  /** The set counters S differ from S0 at most in their write-back counters. */
  predicate WrbackOnly(S0: seq<SetCounts>, S: seq<SetCounts>)
  {
    |S| == |S0| && forall u :: 0 <= u < |S0| ==> S[u] == S0[u].(wrback := S[u].wrback)
  }

  lemma WrbackOnlyTrans(S0: seq<SetCounts>, S1: seq<SetCounts>, S2: seq<SetCounts>)
    requires WrbackOnly(S0, S1) && WrbackOnly(S1, S2)
    ensures WrbackOnly(S0, S2)
  {
  }

  /**
   * One more victim of a sweep over the ring o of n lines: flushing the line
   * at the next position (n - 1 - k while k < n, any position after a full
   * turn) extends the sweep from k to k + 1 victims.
   */
  lemma SweepStep(o: seq<int>, n: nat, k: nat, pos: nat, L0: seq<Line>, L1: seq<Line>, L2: seq<Line>)
    requires |o| == n && pos < n && (k < n ==> pos == n - 1 - k) && Distinct(o) && InRange(o, |L1|)
    requires |L0| == |L1| && |L2| == |L1|
    requires RingSwept(o, n, k, L0, L1)
    requires L2 == L1[o[pos] := L2[o[pos]]] && Flushed(L1[o[pos]], L2[o[pos]])
    ensures RingSwept(o, n, k + 1, L0, L2)
  {
    forall j | 0 <= j < n
      ensures if Swept(n, k + 1, j) then Flushed(L0[o[j]], L2[o[j]]) else L2[o[j]] == L0[o[j]]
    {
      if j == pos {
        if Swept(n, k, j) {
          FlushedTrans(L0[o[j]], L1[o[j]], L2[o[j]]);
        }
      } else {
        assert o[j] != o[pos];
      }
    }
  }

  /** Flushing a line of set s keeps the lines of the other sets. */
  lemma KeptStep(owner: seq<int>, s: int, x: int, L0: seq<Line>, L1: seq<Line>, L2: seq<Line>)
    requires OthersKept(owner, s, L0, L1) && 0 <= x < |L1| && x < |owner| && owner[x] == s
    requires |L0| == |L1| && |L2| == |L1| && L2 == L1[x := L2[x]]
    ensures OthersKept(owner, s, L0, L2)
  {
  }

  // ---------------------------------------------------------------------
  // The associativity changes
  // ---------------------------------------------------------------------

  /** One change of the number of ways searched: the new count, the new direction, and whether it flushed. */
  datatype WayStep = WayStep(way: int, inc: int, flush: bool)

  /**
   * The dynamic step: from 2 turn upward and add 2; at assoc turn downward,
   * flush the two top ways and take 2 away; in between keep going in the
   * direction held (0 is downward, with the flush).  The count is an int8_t.
   */
  function NextWay(way: int, assoc: int, inc: int): (r: WayStep)
    ensures r.flush <==> way != 2 && (way == assoc || inc == 0)
    ensures r.flush ==> r.way == Int8(way - 2)
    ensures !r.flush ==> r.way == Int8(way + 2)
  {
    if way == 2 then WayStep(Int8(way + 2), 1, false)
    else if way == assoc then WayStep(Int8(way - 2), 0, true)
    else if inc == 0 then WayStep(Int8(way - 2), inc, true)
    else WayStep(Int8(way + 2), inc, false)
  }

  /** n dynamic steps from (way, inc). */
  function Steps(n: nat, way: int, assoc: int, inc: int): (r: WayStep)
  {
    if n == 0 then WayStep(way, inc, false)
    else var r := NextWay(way, assoc, inc); Steps(n - 1, r.way, assoc, r.inc)
  }

  /** An even count in [2, assoc], for an even assoc >= 4 below the int8_t limit. */
  predicate WayOk(way: int, assoc: int)
  {
    2 <= way <= assoc && way % 2 == 0
  }

  /** A step keeps an even count within [2, assoc]. */
  lemma NextWayInRange(way: int, assoc: int, inc: int)
    requires 4 <= assoc < 128 && assoc % 2 == 0 && WayOk(way, assoc)
    ensures WayOk(NextWay(way, assoc, inc).way, assoc)
  {
    WrapInRange(way + 2);
    WrapInRange(way - 2);
  }

  /** So does any number of steps. */
  lemma {:induction false} StepsInRange(n: nat, way: int, assoc: int, inc: int)
    requires 4 <= assoc < 128 && assoc % 2 == 0 && WayOk(way, assoc)
    ensures WayOk(Steps(n, way, assoc, inc).way, assoc)
  {
    if n > 0 {
      NextWayInRange(way, assoc, inc);
      var r := NextWay(way, assoc, inc);
      StepsInRange(n - 1, r.way, assoc, r.inc);
    }
  }

  /** Going upward from an even count below assoc reaches assoc, 2 at a time. */
  lemma {:induction false} StepsUp(way: int, assoc: int, inc: int)
    requires 4 <= assoc < 128 && assoc % 2 == 0 && WayOk(way, assoc) && (inc != 0 || way == 2)
    ensures var r := Steps((assoc - way) / 2, way, assoc, inc); r.way == assoc && r.inc != 0
    decreases assoc - way
  {
    if way < assoc {
      WrapInRange(way + 2);
      var r := NextWay(way, assoc, inc);
      assert r.way == way + 2 && r.inc != 0;
      StepsUp(way + 2, assoc, r.inc);
      assert (assoc - way) / 2 == (assoc - (way + 2)) / 2 + 1;
    }
  }

  /** Going downward from an even count above 2 reaches 2, 2 at a time. */
  lemma {:induction false} StepsDown(way: int, assoc: int)
    requires 4 <= assoc < 128 && assoc % 2 == 0 && WayOk(way, assoc) && way > 2
    ensures Steps((way - 2) / 2, way, assoc, 0) == WayStep(2, 0, false)
    decreases way
  {
    WrapInRange(way - 2);
    var r := NextWay(way, assoc, 0);
    assert r.way == way - 2 && r.inc == 0;
    if way > 4 {
      StepsDown(way - 2, assoc);
      assert (way - 2) / 2 == (way - 4) / 2 + 1;
    }
  }

  /**
   * From 2 searched ways the count climbs to assoc and comes back down to 2
   * in assoc - 2 steps, whatever the direction held at the start.
   */
  lemma StepsCycle(assoc: int, inc: int)
    requires 4 <= assoc < 128 && assoc % 2 == 0
    ensures Steps((assoc - 2) / 2, 2, assoc, inc).way == assoc
    ensures Steps(assoc - 2, 2, assoc, inc) == WayStep(2, 0, false)
  {
    StepsUp(2, assoc, inc);
    StepsSplit((assoc - 2) / 2, (assoc - 2) / 2, 2, assoc, inc);
    WrapInRange(assoc - 2);
    StepsDown(assoc, assoc);
  }

  /** Steps compose. */
  lemma {:induction false} StepsSplit(m: nat, n: nat, way: int, assoc: int, inc: int)
    ensures var r := Steps(m, way, assoc, inc); Steps(m + n, way, assoc, inc) == Steps(n, r.way, assoc, r.inc)
  {
    if m > 0 {
      var r := NextWay(way, assoc, inc);
      StepsSplit(m - 1, n, r.way, assoc, r.inc);
    }
  }

  /** With two ways the count never turns: from 2 it climbs past assoc. */
  lemma TwoWaysOvershoot(inc: int)
    ensures Steps(1, 2, 2, inc).way == 4 && Steps(2, 2, 2, inc).way == 6
  {
  }

  /** The run-wide settings of the modified simulator: scheme, cache_test, cache_flash, dynamic_flash. */
  datatype RunConfig = RunConfig(scheme: int, cacheTest: int, cacheFlash: nat, dynamicFlash: nat)

  /**
   * One cache level (`struct cache_rec` with its sets and lines).  Lines are
   * numbered set by set; the set rings are the link maps lruLink/mruLink and
   * the per-set setMru/setLru; `order` and `owner` are the ghost view of the
   * rings as recency orders.  Only timing bank 0 is ever used.
   */
  class Cache {
    const cfg: Config
    const level: int
    const insOrData: int
    const lower: Cache?
    /** Which of the two versions of the engine this level runs. */
    const modified: bool
    const run: RunConfig
    const assoc: nat
    const nmbrLines: nat
    const nmbrSets: nat
    const linSiz: nat
    const log2blk: nat
    const setBits: nat
    ghost const Repr: set<object>

    var lines: seq<Line>
    var lruLink: seq<int>
    var mruLink: seq<int>
    var setMru: seq<int>
    var setLru: seq<int>
    var sets: seq<SetCounts>
    var acssTime: seq<int>
    var missTime: seq<int>
    var missTag: seq<int>
    var lastBusy: int
    var idleTime: int
    var waitTime: int
    var fetch: seq<int>
    var miss: seq<int>
    var splitBlk: int
    var cntrs: Cntrs
    var actualWay: int
    ghost var order: seq<seq<int>>
    ghost var owner: seq<int>

    /** The level whose set index comes from the scheme and which runs the defences. */
    predicate Instrumented()
    {
      modified && insOrData == 1 && level == run.cacheTest && run.cacheTest > 0
    }

    /** The geometry init_cache derives, and what the engine needs of the configuration. */
    predicate ConfigOk()
    {
      && linSiz == cfg.linSiz && linSiz >= 1 && assoc == cfg.assoc && assoc >= 1 && nmbrSets >= 1
      && log2blk == Log2(linSiz) && setBits == Log2(nmbrSets)
      && cfg.sbSiz != 0 && cfg.access >= 0 && cfg.control >= 0
      && (Instrumented() ==> 0 <= run.scheme <= 9 && Schemes.SchemeDefined(run.scheme, setBits))
      && (modified ==> assoc >= 2) && log2blk + setBits <= 31
    }

    /** Every line holds a block of linSiz bytes and a segment code. */
    ghost predicate LinesPart()
      reads this`lines
    {
      LinesOk(lines, nmbrLines, linSiz)
    }

    /** Every set is a closed ring of assoc lines. */
    ghost predicate RingsPart()
      reads this`lruLink, this`mruLink, this`setMru, this`setLru, this`order, this`owner
    {
      RingsOk(assoc, nmbrLines, lruLink, mruLink, setMru, setLru, order, owner) && |order| == nmbrSets
    }

    /** The shapes of the counters and of the timing banks. */
    ghost predicate CountsPart()
      reads this`sets, this`acssTime, this`missTime, this`missTag, this`fetch, this`miss, this`cntrs
    {
      && |sets| == nmbrSets && AllShaped(sets)
      && |acssTime| == MAX_DISTR_BLKS && |missTime| == MAX_DISTR_BLKS && |missTag| == MAX_DISTR_BLKS
      && acssTime[0] <= missTime[0]
      && |fetch| == XALLOC && |miss| == XALLOC && Shaped(cntrs)
    }

    /** The state of this level alone. */
    ghost predicate Local()
      reads this
    {
      ConfigOk() && LinesPart() && RingsPart() && CountsPart()
    }

    /** This level and every level below it. */
    ghost predicate Valid()
      reads this, Repr
      decreases Repr, 1
    {
      this in Repr && Local() && LowerOk()
    }

    /**
     * The level below, if any, is a valid cache whose objects are all outside
     * this one, one level further down, running the same engine and settings.
     */
    ghost predicate LowerOk()
      reads Repr - {this}
      decreases Repr, 0
    {
      lower != null ==>
        && this in Repr && lower in Repr && lower.Repr <= Repr && this !in lower.Repr
        && lower.level > level && lower.run == run && lower.modified == modified
        && lower.Valid()
    }

    /**
     * The level init_cache leaves (`moola_src/configure.c`): the geometry it
     * accepted, the rings it built, every line and set counter zero, the
     * timing banks and the fetch/miss counters zero.  `cntrs`, `last_busy`
     * and `actual_way` are not set there and keep what the record held.
     */
    constructor Init(cfg: Config, level: int, insOrData: int, lower: Cache?, modified: bool, run: RunConfig,
                     nSets: nat, nLines: nat, lru: seq<int>, mru: seq<int>, setMru: seq<int>, setLru: seq<int>,
                     ghost order: seq<seq<int>>, ghost owner: seq<int>,
                     lastBusy0: int, cntrs0: Cntrs, actualWay0: int)
      requires cfg.linSiz >= 1 && cfg.assoc >= 1 && nSets >= 1
      requires Log2(cfg.linSiz) + Log2(nSets) <= 31 && cfg.sbSiz != 0 && cfg.access >= 0 && cfg.control >= 0
      requires modified && insOrData == 1 && level == run.cacheTest && run.cacheTest > 0 ==>
                 0 <= run.scheme <= 9 && Schemes.SchemeDefined(run.scheme, Log2(nSets))
      requires modified ==> cfg.assoc >= 2
      requires nLines == nSets * cfg.assoc
      requires RingsOk(cfg.assoc, nLines, lru, mru, setMru, setLru, order, owner) && |order| == nSets
      requires Shaped(cntrs0)
      requires lower != null ==> lower.Valid() && lower.level > level && lower.run == run && lower.modified == modified
      ensures this.cfg == cfg && this.level == level && this.insOrData == insOrData && this.lower == lower
      ensures this.modified == modified && this.run == run
      ensures assoc == cfg.assoc && linSiz == cfg.linSiz && nmbrSets == nSets && nmbrLines == nLines
      ensures log2blk == Log2(cfg.linSiz) && setBits == Log2(nSets)
      ensures lruLink == lru && mruLink == mru && this.setMru == setMru && this.setLru == setLru
      ensures this.order == order && this.owner == owner && Blank()
      ensures lastBusy == lastBusy0 && cntrs == cntrs0 && actualWay == actualWay0
      ensures Valid() && Repr == {this} + (if lower != null then lower.Repr else {})
    {
      this.cfg, this.level, this.insOrData, this.lower, this.modified, this.run := cfg, level, insOrData, lower, modified, run;
      assoc, linSiz, nmbrSets, nmbrLines := cfg.assoc, cfg.linSiz, nSets, nLines;
      log2blk, setBits := Log2(cfg.linSiz), Log2(nSets);
      Repr := {this} + (if lower != null then lower.Repr else {});
      lines := Repeat(nLines, ZeroLine(cfg.linSiz));
      lruLink, mruLink, this.setMru, this.setLru := lru, mru, setMru, setLru;
      sets := Repeat(nSets, ZeroCounts());
      acssTime, missTime, missTag := Repeat(MAX_DISTR_BLKS, 0), Repeat(MAX_DISTR_BLKS, 0), Repeat(MAX_DISTR_BLKS, 0);
      lastBusy, idleTime, waitTime := lastBusy0, 0, 0;
      fetch, miss := Repeat(XALLOC, 0), Repeat(XALLOC, 0);
      splitBlk, cntrs, actualWay := 0, cntrs0, actualWay0;
      this.order, this.owner := order, owner;
      new;
      assert LinesPart() && RingsPart() && CountsPart();
    }

    /**
     * A level as init_cache leaves it: every line zero and invalid, every
     * set counter, timing bank and fetch/miss counter zero.
     */
    predicate Blank()
      reads this
    {
      && lines == Repeat(nmbrLines, ZeroLine(linSiz)) && sets == Repeat(nmbrSets, ZeroCounts())
      && acssTime == Repeat(MAX_DISTR_BLKS, 0) && missTime == acssTime && missTag == acssTime
      && idleTime == 0 && waitTime == 0 && splitBlk == 0
      && fetch == Repeat(XALLOC, 0) && miss == fetch
    }

    /** The number of lines `search` examines. */
    function Ways(): int
      reads this
    {
      if modified then actualWay else assoc
    }

    // -------------------------------------------------------------------
    // Ring operations
    // -------------------------------------------------------------------

    /**
     * move2_mru: make line cl of set s its most recent line.  Already most
     * recent, nothing changes; otherwise cl moves to the front of the recency
     * order, the others keep their relative order, and no other set changes.
     */
    method Move2Mru(s: nat, cl: int)
      requires Valid() && s < nmbrSets && cl in order[s]
      modifies this`lruLink, this`mruLink, this`setMru, this`setLru, this`order
      ensures Valid()
      ensures old(setMru)[s] == cl ==> order == old(order) && lruLink == old(lruLink) && mruLink == old(mruLink) && setLru == old(setLru)
      ensures old(setMru)[s] != cl ==> order == old(order)[s := ToFront(old(order)[s], IndexOf(old(order)[s], cl))]
      ensures setMru == old(setMru)[s := cl] && setLru[s] == order[s][assoc - 1]
      ensures forall t :: 0 <= t < nmbrSets && t != s ==> setLru[t] == old(setLru)[t]
      ensures forall x :: 0 <= x < nmbrLines && owner[x] != s ==> lruLink[x] == old(lruLink)[x] && mruLink[x] == old(mruLink)[x]
    {
      assert RingsPart();
      if setMru[s] == cl {
        return;
      }
      ghost var ow := owner;
      var lru, mru, sm, sl;
      ghost var or;
      lru, mru, sm, sl, or := MoveToFront(assoc, nmbrLines, lruLink, mruLink, setMru, setLru, order, owner, s, cl);
      lruLink, mruLink, setMru, setLru := lru, mru, sm, sl;
      order := or;
      assert owner == ow;
    }

    /**
     * move2_lru: make line cl of set s its least recent line.  Already least
     * recent, nothing changes; otherwise cl moves to the back of the recency
     * order, the others keep their relative order, and no other set changes.
     */
    method Move2Lru(s: nat, cl: int)
      requires Valid() && s < nmbrSets && cl in order[s]
      modifies this`lruLink, this`mruLink, this`setMru, this`setLru, this`order
      ensures Valid()
      ensures old(setLru)[s] == cl ==> order == old(order) && lruLink == old(lruLink) && mruLink == old(mruLink) && setMru == old(setMru)
      ensures old(setLru)[s] != cl ==> order == old(order)[s := ToBack(old(order)[s], IndexOf(old(order)[s], cl))]
      ensures setLru == old(setLru)[s := cl] && setMru[s] == order[s][0]
      ensures forall t :: 0 <= t < nmbrSets && t != s ==> setMru[t] == old(setMru)[t]
      ensures forall x :: 0 <= x < nmbrLines && owner[x] != s ==> lruLink[x] == old(lruLink)[x] && mruLink[x] == old(mruLink)[x]
    {
      assert RingsPart();
      if setLru[s] == cl {
        return;
      }
      ghost var ow := owner;
      var lru, mru, sm, sl;
      ghost var or;
      lru, mru, sm, sl, or := MoveToBack(assoc, nmbrLines, lruLink, mruLink, setMru, setLru, order, owner, s, cl);
      lruLink, mruLink, setMru, setLru := lru, mru, sm, sl;
      order := or;
      assert owner == ow;
    }

    // -------------------------------------------------------------------
    // Lookup and line reset
    // -------------------------------------------------------------------

    /**
     * search: look at Ways() lines of set s, from its most recent line along
     * the `lru` links, and answer the first valid one holding tag, or -1.
     */
    method Search(tag: int, s: nat) returns (hit: int)
      requires Valid() && s < nmbrSets
      ensures hit == Walk(lruLink, setMru[s], Ways(), lines, tag)
      ensures hit == -1 || (hit in order[s] && Matches(lines, hit, tag))
    {
      assert RingsPart() && LinesPart();
      WalkInSet(assoc, nmbrLines, lruLink, mruLink, setMru, setLru, order, owner, s, Ways(), lines, tag);
      var n := Ways();
      var cl := setMru[s];
      var way := 0;
      while way < n
        invariant 0 <= way && (n >= 0 ==> way <= n)
        invariant Walk(lruLink, cl, n - way, lines, tag) == Walk(lruLink, setMru[s], n, lines, tag)
      {
        if 0 <= cl < |lines| && lines[cl].valid && lines[cl].adrs == tag {
          return cl;
        }
        if !(0 <= cl < |lruLink|) {
          return -1;
        }
        cl := lruLink[cl];
        way := way + 1;
      }
      return -1;
    }

    /** cl_init: clear line x for reuse, byte by byte; its time and segment stay. */
    method ClInit(x: nat)
      requires Valid() && x < nmbrLines
      modifies this`lines
      ensures Valid()
      ensures lines == old(lines)[x := Cleared(old(lines)[x], linSiz)]
    {
      assert LinesPart();
      var l := lines[x];
      var data, orig, stat := l.data, l.orig, l.stat;
      var i := 0;
      while i < linSiz
        invariant 0 <= i <= linSiz && |data| == linSiz && |orig| == linSiz && |stat| == linSiz
        invariant forall j :: 0 <= j < i ==> data[j] == 0 && orig[j] == 0 && stat[j] == 0
      {
        data, orig, stat := data[i := 0], orig[i := 0], stat[i := 0];
        i := i + 1;
      }
      assert data == Zeros(linSiz) && orig == Zeros(linSiz) && stat == Zeros(linSiz);
      l := l.(adrs := 0, data := data, orig := orig, stat := stat);
      l := l.(valid := false, referncd := false, dirty := false, shared := false, exclusiv := false);
      l := l.(oper := 0, alloctime := 0);
      lines := lines[x := l];
      assert LinesPart();
    }

    // -------------------------------------------------------------------
    // Timing and counters
    // -------------------------------------------------------------------

    /**
     * The timing of a reference issued at refTime: a busy cache stalls it
     * (Stall) and the stall is added to the wait time, a free cache adds the
     * time since it was last busy to the idle time; the reference completes
     * `access` after it starts, and that completion time becomes the access
     * time, the miss time and (as an int16_t) the last busy time.
     */
    method Timing(refTime: int, hit: bool, tag: int) returns (start: int, crnt: int)
      requires Valid()
      modifies this`acssTime, this`missTime, this`lastBusy, this`idleTime, this`waitTime
      ensures Valid()
      ensures start == refTime + Stall(old(acssTime)[0], old(missTime)[0], missTag[0], refTime, cfg.arch == 'b', hit, tag)
      ensures crnt == start + cfg.access && start >= refTime
      ensures acssTime == old(acssTime)[0 := crnt] && missTime == old(missTime)[0 := crnt] && lastBusy == Int16(crnt)
      ensures old(acssTime)[0] > refTime ==> waitTime == old(waitTime) + (start - refTime) && idleTime == old(idleTime)
      ensures old(acssTime)[0] <= refTime ==> idleTime == old(idleTime) + (refTime - old(lastBusy)) && waitTime == old(waitTime)
    {
      assert CountsPart();
      var stall;
      if acssTime[0] > refTime {
        if cfg.arch == 'b' || !hit || tag == missTag[0] {
          stall := missTime[0] - refTime;
        } else {
          stall := acssTime[0] - refTime;
        }
        waitTime := waitTime + stall;
      } else {
        idleTime := idleTime + (refTime - lastBusy);
        stall := 0;
      }
      start := refTime + stall;
      crnt := start + cfg.access;
      acssTime := acssTime[0 := crnt];
      missTime := missTime[0 := crnt];
      lastBusy := Int16(crnt);
      assert CountsPart();
    }

    /**
     * The outcome counters of a reference: hits or misses of its segment in
     * set s, and the cache-wide count of its operation.
     */
    method CountOutcome(s: nat, seg: int, hit: bool, oper: int)
      requires Valid() && s < nmbrSets
      modifies this`sets, this`fetch
      ensures Valid()
      ensures sets == old(sets)[s := if hit then old(sets)[s].(hits := Inc(old(sets)[s].hits, seg))
                                           else old(sets)[s].(misses := Inc(old(sets)[s].misses, seg))]
      ensures fetch == Inc(old(fetch), oper)
    {
      assert CountsPart();
      var c := sets[s];
      if hit {
        c := c.(hits := Inc(c.hits, seg));
      } else {
        c := c.(misses := Inc(c.misses, seg));
      }
      sets := sets[s := c];
      fetch := Inc(fetch, oper);
      assert CountsPart();
    }
  
    // -------------------------------------------------------------------
    // Control operations
    // -------------------------------------------------------------------

    /** The objects of the levels below this one. */
    ghost function Below(): set<object>
    {
      if lower != null then lower.Repr else {}
    }

    /**
     * A clean or invalidate at a level that has a level below it: on a hit
     * the line is cleared (clean) or marked invalid (invalidate), made least
     * recent, and counted for its segment in set s; a miss changes nothing.
     * The level is busy for `control` from refTime, and the answer is the
     * time of the caller's line (clean) or refTime (invalidate), plus `control`.
     */
    method Control(oper: int, s: nat, seg: int, hit: int, refTime: int, clTime: int) returns (t: int)
      requires Valid() && s < nmbrSets && (oper == CLCLEAN || oper == CLNVALD)
      requires hit == -1 || (hit in order[s] && 0 <= hit < nmbrLines)
      modifies this`lines, this`lruLink, this`mruLink, this`setMru, this`setLru, this`order, this`sets, this`lastBusy
      ensures Valid()
      ensures t == (if oper == CLCLEAN then clTime else refTime) + cfg.control
      ensures lastBusy == Int16(refTime + cfg.control)
      ensures hit == -1 ==> lines == old(lines) && order == old(order) && sets == old(sets)
      ensures hit == -1 ==> lruLink == old(lruLink) && mruLink == old(mruLink) && setMru == old(setMru) && setLru == old(setLru)
      ensures hit != -1 && oper == CLCLEAN ==> lines == old(lines)[hit := Cleared(old(lines)[hit], linSiz)]
      ensures hit != -1 && oper == CLNVALD ==> lines == old(lines)[hit := old(lines)[hit].(valid := false)]
      ensures hit != -1 ==> setLru[s] == hit && order[s][assoc - 1] == hit
      ensures hit != -1 ==> forall u :: 0 <= u < nmbrSets && u != s ==> order[u] == old(order)[u]
      ensures hit != -1 && oper == CLCLEAN ==> sets == old(sets)[s := old(sets)[s].(clean := Inc(old(sets)[s].clean, seg))]
      ensures hit != -1 && oper == CLNVALD ==> sets == old(sets)[s := old(sets)[s].(nvalid := Inc(old(sets)[s].nvalid, seg))]
    {
      if hit != -1 {
        ControlLine(oper, s, hit);
        CountControl(oper, s, seg);
      }
      lastBusy := Int16(refTime + cfg.control);
      t := (if oper == CLCLEAN then clTime else refTime) + cfg.control;
    }

    /** The line part of a control hit: clear or invalidate line hit, then make it least recent. */
    method ControlLine(oper: int, s: nat, hit: int)
      requires Valid() && s < nmbrSets && (oper == CLCLEAN || oper == CLNVALD)
      requires hit in order[s] && 0 <= hit < nmbrLines
      modifies this`lines, this`lruLink, this`mruLink, this`setMru, this`setLru, this`order
      ensures Valid()
      ensures oper == CLCLEAN ==> lines == old(lines)[hit := Cleared(old(lines)[hit], linSiz)]
      ensures oper == CLNVALD ==> lines == old(lines)[hit := old(lines)[hit].(valid := false)]
      ensures setLru[s] == hit && order[s][assoc - 1] == hit
      ensures forall u :: 0 <= u < nmbrSets && u != s ==> order[u] == old(order)[u]
    {
      if oper == CLCLEAN {
        ClInit(hit);
      } else {
        assert LinesPart();
        lines := lines[hit := lines[hit].(valid := false)];
        assert LinesPart();
      }
      Move2Lru(s, hit);
      assert RingsPart();
    }

    /** The counter of a control hit: clean or nvalid of segment seg in set s. */
    method CountControl(oper: int, s: nat, seg: int)
      requires Valid() && s < nmbrSets
      modifies this`sets
      ensures Valid()
      ensures oper == CLCLEAN ==> sets == old(sets)[s := old(sets)[s].(clean := Inc(old(sets)[s].clean, seg))]
      ensures oper != CLCLEAN ==> sets == old(sets)[s := old(sets)[s].(nvalid := Inc(old(sets)[s].nvalid, seg))]
    {
      assert CountsPart();
      var c := sets[s];
      if oper == CLCLEAN {
        c := c.(clean := Inc(c.clean, seg));
      } else {
        c := c.(nvalid := Inc(c.nvalid, seg));
      }
      sets := sets[s := c];
      assert CountsPart();
    }

    // -------------------------------------------------------------------
    // Write-back and flushing
    // -------------------------------------------------------------------

    /**
     * A reference to the level below on behalf of line x: the line v goes
     * down (with mr for a fill, alone for a write-back) issued at v's time,
     * and the line it comes back as replaces x.  The level below changes at
     * most the line's time, bytes and validity, and only its time for a
     * write-back; x keeps its place and no other line changes.
     */
    method Down(x: nat, mr: Option<Memref>, v: Line, g: Globals, env: Env) returns (t: int, mrOut: Option<Memref>)
      requires Valid() && g !in Repr && lower != null && x < nmbrLines && LineOk(v, linSiz) && IsCacheOp(v.oper)
      requires mr.Some? ==> mr.value.time == v.time
      modifies this`lines, Below(), g
      ensures g.minAddr <= old(g.minAddr) && g.maxAddr >= old(g.maxAddr)
      decreases Repr, 0, 0
      ensures Valid()
      ensures lines == old(lines)[x := lines[x]] && t >= v.time
      ensures lines[x] == v.(time := lines[x].time, data := lines[x].data, orig := lines[x].orig,
                               stat := lines[x].stat, valid := lines[x].valid)
      ensures mr.None? ==> lines[x] == v.(time := lines[x].time)
      ensures mrOut.Some? == mr.Some? && (mr.Some? ==> mrOut == Some(mr.value.(time := mrOut.value.time)))
      ensures level >= run.cacheTest ==> g.Defence() == old(g.Defence())
    {
      assert LinesPart();
      var co, fault;
      t, mrOut, co, fault := lower.Reference(mr, Some(v), g, env);
      StoreOk(lines, nmbrLines, linSiz, x, co.value);
      lines := lines[x := co.value];
    }

    /**
     * The write-back of line x of set s: the line, already marked as a write
     * (v), goes to the level below as a write-back reference, which may only
     * change its time, and the level is busy until that completes; at main
     * memory nothing is sent.  Either way the set counts a write-back for seg.
     */
    method WriteBack(x: nat, s: nat, seg: int, v: Line, now: int, g: Globals, env: Env) returns (t: int)
      requires Valid() && g !in Repr && x < nmbrLines && s < nmbrSets
      requires v == lines[x].(oper := MRWRITE, time := v.time)
      modifies this`lines, this`sets, this`lastBusy, Below(), g
      ensures g.minAddr <= old(g.minAddr) && g.maxAddr >= old(g.maxAddr)
      decreases Repr, 0, 1
      ensures Valid()
      ensures lines == old(lines)[x := lines[x]] && lines[x] == v.(time := lines[x].time)
      ensures lower == null ==> lines[x] == v && t == now && lastBusy == old(lastBusy)
      ensures lower != null ==> t >= v.time && lastBusy == Int16(t)
      ensures sets == old(sets)[s := old(sets)[s].(wrback := Inc(old(sets)[s].wrback, seg))]
      ensures level >= run.cacheTest ==> g.Defence() == old(g.Defence())
    {
      assert LinesPart();
      assert LineOk(lines[x], linSiz);
      Store(x, v);
      t := now;
      if lower != null {
        var mo;
        t, mo := Down(x, None, v, g, env);
        lastBusy := Int16(t);
      }
      CountWrback(s, seg);
    }

    /** Line x becomes v. */
    method Store(x: nat, v: Line)
      requires Valid() && x < nmbrLines && LineOk(v, linSiz)
      modifies this`lines
      ensures Valid() && lines == old(lines)[x := v]
    {
      assert LinesPart();
      StoreOk(lines, nmbrLines, linSiz, x, v);
      lines := lines[x := v];
    }

    /** The write-back counter of segment seg in set s. */
    method CountWrback(s: nat, seg: int)
      requires Valid() && s < nmbrSets
      modifies this`sets
      ensures Valid()
      ensures sets == old(sets)[s := old(sets)[s].(wrback := Inc(old(sets)[s].wrback, seg))]
    {
      assert CountsPart();
      var c := sets[s];
      sets := sets[s := c.(wrback := Inc(c.wrback, seg))];
      assert CountsPart();
    }

    /** The eviction counter of segment seg in set s. */
    method CountEvict(s: nat, seg: int)
      requires Valid() && s < nmbrSets
      modifies this`sets
      ensures Valid()
      ensures sets == old(sets)[s := old(sets)[s].(evict := Inc(old(sets)[s].evict, seg))]
    {
      assert CountsPart();
      var c := sets[s];
      sets := sets[s := c.(evict := Inc(c.evict, seg))];
      assert CountsPart();
    }

    /**
     * One victim of clean_all: a valid dirty line is written back (marked as
     * a write, its time unchanged), with the write-back counted for the
     * segment clean_all happens to read; then the line is invalid and clean.
     */
    method FlushLine(x: nat, s: nat, g: Globals, env: Env)
      requires Valid() && g !in Repr && x < nmbrLines && s < nmbrSets
      modifies this`lines, this`sets, this`lastBusy, Below(), g
      ensures g.minAddr <= old(g.minAddr) && g.maxAddr >= old(g.maxAddr)
      decreases Repr, 0, 2
      ensures Valid()
      ensures lines == old(lines)[x := lines[x]] && Flushed(old(lines)[x], lines[x])
      ensures old(lines)[x].valid && old(lines)[x].dirty ==>
        sets == old(sets)[s := old(sets)[s].(wrback := Inc(old(sets)[s].wrback, env.cleanSeg))]
      ensures !(old(lines)[x].valid && old(lines)[x].dirty) ==> sets == old(sets)
      ensures level >= run.cacheTest ==> g.Defence() == old(g.Defence())
    {
      assert LinesPart();
      var v := lines[x];
      if v.valid && v.dirty {
        var _ := WriteBack(x, s, env.cleanSeg, v.(oper := MRWRITE), v.time, g, env);
      }
      assert LinesPart();
      lines := lines[x := lines[x].(valid := false, dirty := false)];
      assert LinesPart();
    }

    /**
     * The sweep of clean_all over set s: k victims, starting at the least
     * recent line and following the `mru` links, are flushed; no other line
     * and no other counter than write-backs of set s changes.
     */
    method CleanSet(s: nat, k: int, g: Globals, env: Env)
      requires Valid() && g !in Repr && s < nmbrSets && assoc >= 2
      modifies this`lines, this`sets, this`lastBusy, Below(), g
      ensures g.minAddr <= old(g.minAddr) && g.maxAddr >= old(g.maxAddr)
      decreases Repr, 0, 3
      ensures Valid()
      ensures RingSwept(order[s], assoc, k, old(lines), lines)
      ensures OthersKept(owner, s, old(lines), lines)
      ensures WrbackOnly(old(sets), sets) && forall u :: 0 <= u < nmbrSets && u != s ==> sets[u] == old(sets)[u]
      ensures level >= run.cacheTest ==> g.Defence() == old(g.Defence())
    {
      assert RingsPart();
      ghost var o := order[s];
      ghost var L0 := lines;
      ghost var S0 := sets;
      ghost var D0 := g.Defence();
      assert SetOk(s, o, setMru[s], setLru[s], lruLink, mruLink, owner);
      var victim := setLru[s];
      ghost var pos: nat := assoc - 1;
      var way := 0;
      assert SweepAt(s, k, way, pos, victim, L0, S0, D0, g);
      while way < k
        invariant Valid() && g !in Repr && SweepAt(s, k, way, pos, victim, L0, S0, D0, g)
        invariant g.minAddr <= old(g.minAddr) && g.maxAddr >= old(g.maxAddr)
      {
        victim := FlushVictim(s, k, victim, pos, way, L0, S0, D0, g, env);
        pos := Pv(pos, assoc);
        way := way + 1;
      }
    }

    /**
     * The sweep of set s of k victims after `way` of them, the next victim
     * at position pos of the ring.
     */
    ghost predicate SweepAt(s: nat, k: int, way: int, pos: nat, victim: int, L0: seq<Line>, S0: seq<SetCounts>,
                            D0: DefenceState, g: Globals)
      reads this, g
    {
      && 0 <= way && (k >= 0 ==> way <= k) && (k < 0 ==> way == 0)
      && s < |order| && pos < assoc && pos < |order[s]| && victim == order[s][pos] && (way < assoc ==> pos == assoc - 1 - way)
      && SetSweeping(s, way, L0, S0, D0, g)
    }

    /**
     * The state of the sweep of set s after `way` victims, against the lines
     * L0, the counters S0 and the counters D0 of g at the start.
     */
    ghost predicate SetSweeping(s: nat, way: int, L0: seq<Line>, S0: seq<SetCounts>, D0: DefenceState, g: Globals)
      reads this, g
    {
      && s < |order| && |lines| == |L0|
      && RingSwept(order[s], assoc, way, L0, lines) && OthersKept(owner, s, L0, lines)
      && WrbackOnly(S0, sets) && (forall u :: 0 <= u < |sets| && u != s ==> sets[u] == S0[u])
      && (level >= run.cacheTest ==> g.Defence() == D0)
    }

    /** One victim of the sweep of set s: the line at position pos of the ring. */
    method FlushVictim(s: nat, k: int, victim: nat, ghost pos: nat, ghost way: nat, ghost L0: seq<Line>, ghost S0: seq<SetCounts>,
                       ghost D0: DefenceState, g: Globals, env: Env) returns (next: nat)
      requires Valid() && g !in Repr && s < nmbrSets && assoc >= 2 && way < k
      requires SweepAt(s, k, way, pos, victim, L0, S0, D0, g)
      modifies this`lines, this`sets, this`lastBusy, Below(), g
      ensures g.minAddr <= old(g.minAddr) && g.maxAddr >= old(g.maxAddr)
      decreases Repr, 0, 3, 0
      ensures Valid() && SweepAt(s, k, way + 1, Pv(pos, assoc), next, L0, S0, D0, g)
    {
      assert RingsPart() && LinesPart();
      ghost var o := order[s];
      assert SetOk(s, o, setMru[s], setLru[s], lruLink, mruLink, owner);
      MruStepsBack(o, lruLink, mruLink, pos);
      ghost var L1 := lines;
      FlushLine(victim, s, g, env);
      SweepStep(o, assoc, way, pos, L0, L1, lines);
      KeptStep(owner, s, victim, L0, L1, lines);
      next := mruLink[victim];
    }

    /**
     * clean_all(initial, final): in every set, final - initial lines counted
     * from the least recent one (whatever `initial` is) are flushed; nothing
     * outside the rings moves and only write-back counters change.
     */
    method CleanAll(initial: int, final: int, g: Globals, env: Env)
      requires Valid() && g !in Repr && assoc >= 2
      modifies this`lines, this`sets, this`lastBusy, Below(), g
      ensures g.minAddr <= old(g.minAddr) && g.maxAddr >= old(g.maxAddr)
      decreases Repr, 0, 5
      ensures Valid()
      ensures SweptSets(order, assoc, final - initial, nmbrSets, old(lines), lines)
      ensures WrbackOnly(old(sets), sets)
      ensures level >= run.cacheTest ==> g.Defence() == old(g.Defence())
    {
      ghost var L0 := lines;
      ghost var S0 := sets;
      ghost var D0 := g.Defence();
      var i := 0;
      while i < nmbrSets
        invariant Valid() && g !in Repr && i <= nmbrSets && Sweeping(final - initial, i, L0, S0, D0, g)
        invariant g.minAddr <= old(g.minAddr) && g.maxAddr >= old(g.maxAddr)
      {
        SweepNext(i, final - initial, L0, S0, D0, g, env);
        i := i + 1;
      }
    }

    /**
     * The state of clean_all after i sets of a sweep of k victims each,
     * against the lines L0, the counters S0 and the counters D0 of g at the start.
     */
    ghost predicate Sweeping(k: int, i: int, L0: seq<Line>, S0: seq<SetCounts>, D0: DefenceState, g: Globals)
      reads this, g
    {
      && |lines| == |L0| && SweptSets(order, assoc, k, i, L0, lines) && WrbackOnly(S0, sets)
      && (level >= run.cacheTest ==> g.Defence() == D0)
    }

    /** Set i's turn in clean_all, with the sweep of the sets below it done. */
    method SweepNext(i: nat, k: int, ghost L0: seq<Line>, ghost S0: seq<SetCounts>, ghost D0: DefenceState,
                     g: Globals, env: Env)
      requires Valid() && g !in Repr && i < nmbrSets && assoc >= 2 && Sweeping(k, i, L0, S0, D0, g)
      modifies this`lines, this`sets, this`lastBusy, Below(), g
      ensures g.minAddr <= old(g.minAddr) && g.maxAddr >= old(g.maxAddr)
      decreases Repr, 0, 4
      ensures Valid() && Sweeping(k, i + 1, L0, S0, D0, g)
    {
      ghost var L1 := lines;
      ghost var S1 := sets;
      Owners();
      CleanSet(i, k, g, env);
      SetsStep(order, owner, assoc, k, i, L0, L1, lines);
      WrbackOnlyTrans(S0, S1, sets);
    }

    /** Every position of every ring holds a line of the cache that the ring's set owns. */
    lemma Owners()
      requires Valid()
      ensures |order| == nmbrSets && RingsShape(order, owner, assoc, |lines|)
    {
      assert RingsPart() && LinesPart();
      forall u, j | 0 <= u < nmbrSets && 0 <= j < assoc
        ensures 0 <= order[u][j] < |lines| && owner[order[u][j]] == u
      {
        OwnerOf(u, j);
      }
    }

    /** The line at position j of set u is a line of the cache that set u owns. */
    lemma OwnerOf(u: int, j: int)
      requires Valid() && 0 <= u < nmbrSets && 0 <= j < assoc
      ensures 0 <= order[u][j] < nmbrLines && owner[order[u][j]] == u
    {
      assert RingsPart();
      assert SetOk(u, order[u], setMru[u], setLru[u], lruLink, mruLink, owner);
    }

    // -------------------------------------------------------------------
    // The defences and the choice of set
    // -------------------------------------------------------------------

    /**
     * What the defences leave, from the clocks c0, w0 ways searched and the
     * lines L0: each counter advanced or restarted, the number of ways
     * searched stepped when the dynamic counter fires, and a line flushed
     * exactly when the periodic flush fires or the dynamic step sweeps it.
     */
    ghost predicate Defended(c0: Clocks, w0: int, L0: seq<Line>, g: Globals)
      requires Local() && |L0| == nmbrLines
      reads this, g
    {
      var fl := Fires(c0.reflash, run.cacheFlash);
      var dy := Fires(c0.dynamic, run.dynamicFlash);
      var st := NextWay(w0, assoc, c0.increase);
      var c1 := if fl then Incr64(c0.counter) else c0.counter;
      && g.counterReflash == (if fl then 0 else Incr64(c0.reflash))
      && g.counterDynamic == (if dy then 0 else Incr64(c0.dynamic))
      && g.counter == (if dy then Incr64(c1) else c1)
      && actualWay == (if dy then st.way else w0)
      && g.increaseWay == (if dy then st.inc else c0.increase)
      && (forall u, j {:trigger order[u][j]} :: 0 <= u < nmbrSets && 0 <= j < assoc ==>
            if fl || (dy && st.flush && Swept(assoc, 2, j))
            then Flushed(L0[order[u][j]], lines[order[u][j]])
            else lines[order[u][j]] == L0[order[u][j]])
    }

    /**
     * The defences run on each reference to the instrumented level: the
     * periodic flush, then the dynamic change of the number of ways searched
     * (Reflash, then Dynamic).  Each counter advances; a counter reaching its
     * period (> 0) restarts, adds one to `counter` and acts.  A line is
     * flushed when the periodic flush fires, or when the dynamic step fires
     * with a flush and the line is one of the two least recent of its set.
     */
    method Defences(g: Globals, env: Env)
      requires Valid() && g !in Repr && Instrumented()
      modifies this`lines, this`sets, this`lastBusy, this`actualWay, Below(), g
      ensures g.minAddr <= old(g.minAddr) && g.maxAddr >= old(g.maxAddr)
      decreases Repr, 1, 2
      ensures Valid() && Defended(old(g.Clock()), old(actualWay), old(lines), g)
      ensures g.aNumber == old(g.aNumber) && g.mysets == old(g.mysets)
      ensures WrbackOnly(old(sets), sets)
    {
      ghost var L0, S0 := lines, sets;
      Reflash(g, env);
      ghost var L1, S1 := lines, sets;
      Dynamic(g, env);
      WrbackOnlyTrans(S0, S1, sets);
      forall u, j | 0 <= u < nmbrSets && 0 <= j < assoc && L1[order[u][j]] != L0[order[u][j]] && lines[order[u][j]] != L1[order[u][j]]
        ensures Flushed(L0[order[u][j]], lines[order[u][j]])
      {
        FlushedTrans(L0[order[u][j]], L1[order[u][j]], lines[order[u][j]]);
      }
    }

    /**
     * The periodic flush: the flush counter advances, and on reaching
     * cacheFlash (> 0) restarts, the whole cache is flushed (clean_all(0,
     * assoc)) and `counter` advances.
     */
    method Reflash(g: Globals, env: Env)
      requires Valid() && g !in Repr && Instrumented()
      modifies this`lines, this`sets, this`lastBusy, Below(), g
      ensures g.minAddr <= old(g.minAddr) && g.maxAddr >= old(g.maxAddr)
      decreases Repr, 1, 0
      ensures Valid()
      ensures var fl := Fires(old(g.counterReflash), run.cacheFlash);
        && g.counterReflash == (if fl then 0 else Incr64(old(g.counterReflash)))
        && g.counter == (if fl then Incr64(old(g.counter)) else old(g.counter))
        && (!fl ==> lines == old(lines) && sets == old(sets))
      ensures Fires(old(g.counterReflash), run.cacheFlash) ==>
        forall u, j :: 0 <= u < nmbrSets && 0 <= j < assoc ==> Flushed(old(lines)[order[u][j]], lines[order[u][j]])
      ensures g.counterDynamic == old(g.counterDynamic) && g.aNumber == old(g.aNumber) && g.increaseWay == old(g.increaseWay)
      ensures g.mysets == old(g.mysets)
      ensures WrbackOnly(old(sets), sets)
    {
      g.counterReflash := Incr64(g.counterReflash);
      if g.counterReflash == run.cacheFlash && run.cacheFlash > 0 {
        FlushAll(g, env);
        g.counterReflash := 0;
        g.counter := Incr64(g.counter);
      }
    }

    /** clean_all(0, assoc): every line of every set is flushed. */
    method FlushAll(g: Globals, env: Env)
      requires Valid() && g !in Repr && assoc >= 2
      modifies this`lines, this`sets, this`lastBusy, Below(), g
      ensures g.minAddr <= old(g.minAddr) && g.maxAddr >= old(g.maxAddr)
      decreases Repr, 0, 7
      ensures Valid()
      ensures forall u, j :: 0 <= u < nmbrSets && 0 <= j < assoc ==> Flushed(old(lines)[order[u][j]], lines[order[u][j]])
      ensures WrbackOnly(old(sets), sets)
      ensures level >= run.cacheTest ==> g.Defence() == old(g.Defence())
    {
      ghost var L0 := lines;
      CleanAll(0, assoc, g, env);
      Owners();
      SweptAll(order, owner, assoc, assoc - 0, L0, lines);
      forall u, j | 0 <= u < nmbrSets && 0 <= j < assoc
        ensures Flushed(L0[order[u][j]], lines[order[u][j]])
      {
        assert Swept(assoc, assoc - 0, j);
      }
    }

    /**
     * The dynamic step: the dynamic counter advances, and on reaching
     * dynamicFlash (> 0) restarts, `counter` advances and the number of ways
     * searched takes a NextWay step; a downward step first flushes with
     * clean_all(actual_way - 2, actual_way), which sweeps the two least
     * recent lines of every set.
     */
    method Dynamic(g: Globals, env: Env)
      requires Valid() && g !in Repr && Instrumented()
      modifies this`lines, this`sets, this`lastBusy, this`actualWay, Below(), g
      ensures g.minAddr <= old(g.minAddr) && g.maxAddr >= old(g.maxAddr)
      decreases Repr, 1, 1
      ensures Valid()
      ensures var dy := Fires(old(g.counterDynamic), run.dynamicFlash);
        var st := NextWay(old(actualWay), assoc, old(g.increaseWay));
        && g.counterDynamic == (if dy then 0 else Incr64(old(g.counterDynamic)))
        && g.counter == (if dy then Incr64(old(g.counter)) else old(g.counter))
        && actualWay == (if dy then st.way else old(actualWay))
        && g.increaseWay == (if dy then st.inc else old(g.increaseWay))
      ensures forall u, j {:trigger order[u][j]} :: 0 <= u < nmbrSets && 0 <= j < assoc ==>
        if Fires(old(g.counterDynamic), run.dynamicFlash) && NextWay(old(actualWay), assoc, old(g.increaseWay)).flush
           && Swept(assoc, 2, j)
        then Flushed(old(lines)[order[u][j]], lines[order[u][j]])
        else lines[order[u][j]] == old(lines)[order[u][j]]
      ensures g.counterReflash == old(g.counterReflash) && g.aNumber == old(g.aNumber) && g.mysets == old(g.mysets)
      ensures WrbackOnly(old(sets), sets)
    {
      g.counterDynamic := Incr64(g.counterDynamic);
      if g.counterDynamic == run.dynamicFlash && run.dynamicFlash > 0 {
        g.counterDynamic := 0;
        g.counter := Incr64(g.counter);
        Turn(g, env);
      }
    }

    /**
     * The change of the number of ways searched once the dynamic counter
     * fires: a NextWay step, whose flush is clean_all(actual_way - 2,
     * actual_way) done before the count goes down.
     */
    method Turn(g: Globals, env: Env)
      requires Valid() && g !in Repr && Instrumented()
      modifies this`lines, this`sets, this`lastBusy, this`actualWay, Below(), g
      ensures g.minAddr <= old(g.minAddr) && g.maxAddr >= old(g.maxAddr)
      decreases Repr, 1, 0
      ensures Valid()
      ensures var st := NextWay(old(actualWay), assoc, old(g.increaseWay));
        actualWay == st.way && g.increaseWay == st.inc
      ensures forall u, j {:trigger order[u][j]} :: 0 <= u < nmbrSets && 0 <= j < assoc ==>
        if NextWay(old(actualWay), assoc, old(g.increaseWay)).flush && Swept(assoc, 2, j)
        then Flushed(old(lines)[order[u][j]], lines[order[u][j]])
        else lines[order[u][j]] == old(lines)[order[u][j]]
      ensures g.counterReflash == old(g.counterReflash) && g.counterDynamic == old(g.counterDynamic)
      ensures g.counter == old(g.counter) && g.aNumber == old(g.aNumber) && g.mysets == old(g.mysets)
      ensures WrbackOnly(old(sets), sets)
    {
      ghost var st := NextWay(actualWay, assoc, g.increaseWay);
      if actualWay == 2 {
        g.increaseWay := 1;
        actualWay := Int8(actualWay + 2);
      } else if actualWay == assoc {
        g.increaseWay := 0;
        Shrink(g, env);
      } else if g.increaseWay == 0 {
        Shrink(g, env);
      } else {
        actualWay := Int8(actualWay + 2);
      }
      assert actualWay == st.way && g.increaseWay == st.inc;
    }

    /** A downward step: clean_all(actual_way - 2, actual_way), then two ways fewer. */
    method Shrink(g: Globals, env: Env)
      requires Valid() && g !in Repr && Instrumented()
      modifies this`lines, this`sets, this`lastBusy, this`actualWay, Below(), g
      ensures g.minAddr <= old(g.minAddr) && g.maxAddr >= old(g.maxAddr)
      decreases Repr, 0, 6
      ensures Valid()
      ensures actualWay == Int8(old(actualWay) - 2) && g.Defence() == old(g.Defence())
      ensures forall u, j {:trigger order[u][j]} :: 0 <= u < nmbrSets && 0 <= j < assoc ==>
        if Swept(assoc, 2, j) then Flushed(old(lines)[order[u][j]], lines[order[u][j]])
        else lines[order[u][j]] == old(lines)[order[u][j]]
      ensures WrbackOnly(old(sets), sets)
    {
      ghost var L0 := lines;
      CleanAll(actualWay - 2, actualWay, g, env);
      Owners();
      SweptAll(order, owner, assoc, 2, L0, lines);
      actualWay := Int8(actualWay - 2);
    }

    /** The line address the instrumented level works on: the address shifted right by 6, as a uint64_t. */
    function LineAddress(adrsIn: int): (a: nat)
      ensures a < U64
    {
      (adrsIn / 64) % U64
    }

    /**
     * The set of a reference, and the access count of its segment there.
     * The modified engine first records the extreme line addresses (the
     * minimum starts at 0, so it never moves); the instrumented level counts
     * the address, takes its set from the scheme, records the address in the
     * set's statistics, and runs the defences after counting the access;
     * every other level takes address bits log2blk ..
     * log2blk + setBits - 1.
     */
    method SelectSet(adrsIn: int, seg: int, g: Globals, env: Env) returns (s: nat)
      requires Valid() && g !in Repr
      modifies this`lines, this`sets, this`lastBusy, this`actualWay, Below(), g
      ensures g.minAddr <= old(g.minAddr) && g.maxAddr >= old(g.maxAddr)
      decreases Repr, 2, 0
      ensures Valid() && s < nmbrSets
      ensures Instrumented() ==>
        Schemes.ComputeSet(LineAddress(adrsIn), run.scheme, setBits, env.des(LineAddress(adrsIn))) == Schemes.Some(s)
      ensures !Instrumented() ==> s == SetOf(adrsIn, log2blk, setBits)
      ensures forall u :: 0 <= u < nmbrSets ==>
        sets[u] == old(sets)[u].(wrback := sets[u].wrback, access := if u == s then Inc(old(sets)[u].access, seg) else old(sets)[u].access)
      ensures !Instrumented() ==> lines == old(lines) && sets == old(sets)[s := old(sets)[s].(access := Inc(old(sets)[s].access, seg))]
      ensures !Instrumented() ==> actualWay == old(actualWay) && lastBusy == old(lastBusy) && g.Defence() == old(g.Defence())
      ensures !Instrumented() && modified ==> var a := LineAddress(adrsIn);
        && g.minAddr == (if a < old(g.minAddr) then a else old(g.minAddr))
        && g.maxAddr == (if a > old(g.maxAddr) then a else old(g.maxAddr))
      ensures Instrumented() ==> g.minAddr <= LineAddress(adrsIn) <= g.maxAddr
      ensures !modified ==> g.minAddr == old(g.minAddr) && g.maxAddr == old(g.maxAddr)
      ensures Instrumented() ==> g.aNumber == Incr64(old(g.aNumber))
      ensures Instrumented() ==> Leakage.Recording(old(g.mysets), s, LineAddress(adrsIn)) == g.mysets
      ensures Instrumented() ==> Defended(old(g.Clock()), old(actualWay), old(lines), g)
      ensures level > run.cacheTest ==> g.Defence() == old(g.Defence())
    {
      if modified {
        g.Record(LineAddress(adrsIn));
      }
      if Instrumented() {
        s := SchemeSet(adrsIn, seg, g, env);
      } else {
        assert CountsPart();
        s := SetOf(adrsIn, log2blk, setBits);
        CountAccess(s, seg);
      }
    }

    /**
     * The set at the instrumented level: the address is counted, the set
     * comes from the scheme, estimatePs records the line address in the
     * set's statistics, its access is counted, and the defences run.
     */
    method SchemeSet(adrsIn: int, seg: int, g: Globals, env: Env) returns (s: nat)
      requires Valid() && g !in Repr && Instrumented()
      modifies this`lines, this`sets, this`lastBusy, this`actualWay, Below(), g
      ensures g.minAddr <= old(g.minAddr) && g.maxAddr >= old(g.maxAddr)
      decreases Repr, 1, 3
      ensures Valid() && s < nmbrSets
      ensures Schemes.ComputeSet(LineAddress(adrsIn), run.scheme, setBits, env.des(LineAddress(adrsIn))) == Schemes.Some(s)
      ensures forall u :: 0 <= u < nmbrSets ==>
        sets[u] == old(sets)[u].(wrback := sets[u].wrback, access := if u == s then Inc(old(sets)[u].access, seg) else old(sets)[u].access)
      ensures g.aNumber == Incr64(old(g.aNumber))
      ensures Leakage.Recording(old(g.mysets), s, LineAddress(adrsIn)) == g.mysets
      ensures Defended(old(g.Clock()), old(actualWay), old(lines), g)
    {
      assert CountsPart();
      ghost var C0, W0, L0 := g.Clock(), actualWay, lines;
      var a := LineAddress(adrsIn);
      g.aNumber := Incr64(g.aNumber);
      var r := Schemes.ComputeSet(a, run.scheme, setBits, env.des(a));
      s := r.value;
      if s < Leakage.SETS {
        g.mysets := g.mysets[s := Leakage.Recorded(g.mysets[s], a)];
      }
      CountAccess(s, seg);
      assert g.Clock() == C0 && actualWay == W0 && lines == L0;
      Defences(g, env);
    }

    /** The access counter of segment seg in set s. */
    method CountAccess(s: nat, seg: int)
      requires Valid() && s < nmbrSets
      modifies this`sets
      ensures Valid()
      ensures sets == old(sets)[s := old(sets)[s].(access := Inc(old(sets)[s].access, seg))]
    {
      assert CountsPart();
      var c := sets[s];
      sets := sets[s := c.(access := Inc(c.access, seg))];
      assert CountsPart();
    }

    // -------------------------------------------------------------------
    // The miss path
    // -------------------------------------------------------------------

    /**
     * The victim of a miss in set s: the miss is counted for the operation;
     * the least recent line x is the victim; a valid dirty victim is written
     * back at time crnt and the level waits for it; the original engine
     * counts a valid victim as evicted; then x is cleared, takes the time
     * reached, becomes most recent and takes the tag, operation and segment.
     */
    method Evict(s: nat, tag: int, oper: int, seg: int, crnt: int, g: Globals, env: Env) returns (x: int, t: int)
      requires Valid() && g !in Repr && s < nmbrSets && IsSegment(seg)
      modifies this`miss, this`lines, this`sets, this`lastBusy, this`lruLink, this`mruLink, this`setMru, this`setLru,
        this`order, Below(), g
      ensures g.minAddr <= old(g.minAddr) && g.maxAddr >= old(g.maxAddr)
      decreases Repr, 1, 1
      ensures Valid()
      ensures x == old(setLru)[s] && 0 <= x < nmbrLines && setMru[s] == x && order[s][0] == x
      ensures forall u :: 0 <= u < nmbrSets && u != s ==> order[u] == old(order)[u]
      ensures t >= crnt
      ensures lines == old(lines)[x := lines[x]]
      ensures lines[x] == Cleared(old(lines)[x], linSiz).(time := t, adrs := tag, oper := oper, segment := seg)
      ensures miss == Inc(old(miss), oper)
      ensures var v := old(lines)[x]; var c := old(sets)[s];
        sets == old(sets)[s := c.(wrback := if v.valid && v.dirty then Inc(c.wrback, seg) else c.wrback,
                                  evict := if !modified && v.valid then Inc(c.evict, seg) else c.evict)]
      ensures level >= run.cacheTest ==> g.Defence() == old(g.Defence())
    {
      miss := Inc(miss, oper);
      x, t := Victim(s, seg, crnt, g, env);
      Reuse(s, x, t, tag, oper, seg);
    }

    /**
     * The victim of set s is its least recent line: written back at crnt
     * when valid and dirty (the level waits for it), and counted as evicted
     * by the original engine when valid.  Only the victim's operation and
     * time change.
     */
    method Victim(s: nat, seg: int, crnt: int, g: Globals, env: Env) returns (x: int, t: int)
      requires Valid() && g !in Repr && s < nmbrSets
      modifies this`lines, this`sets, this`lastBusy, Below(), g
      ensures g.minAddr <= old(g.minAddr) && g.maxAddr >= old(g.maxAddr)
      decreases Repr, 1, 0
      ensures Valid()
      ensures x == setLru[s] && x in order[s] && 0 <= x < nmbrLines && t >= crnt
      ensures lines == old(lines)[x := lines[x]] && lines[x] == old(lines)[x].(oper := lines[x].oper, time := lines[x].time)
      ensures var v := old(lines)[x]; var c := old(sets)[s];
        sets == old(sets)[s := c.(wrback := if v.valid && v.dirty then Inc(c.wrback, seg) else c.wrback,
                                  evict := if !modified && v.valid then Inc(c.evict, seg) else c.evict)]
      ensures level >= run.cacheTest ==> g.Defence() == old(g.Defence())
    {
      assert CountsPart() && RingsPart() && LinesPart();
      assert SetOk(s, order[s], setMru[s], setLru[s], lruLink, mruLink, owner);
      x := setLru[s];
      t := crnt;
      var v := lines[x];
      if v.valid && v.dirty {
        t := WriteBack(x, s, seg, v.(oper := MRWRITE, time := crnt), crnt, g, env);
      }
      if !modified && v.valid {
        CountEvict(s, seg);
      }
    }

    /** The victim x of set s reused: cleared, made most recent, and retagged. */
    method Reuse(s: nat, x: int, t: int, tag: int, oper: int, seg: int)
      requires Valid() && s < nmbrSets && x in order[s] && 0 <= x < nmbrLines && IsSegment(seg)
      modifies this`lines, this`lruLink, this`mruLink, this`setMru, this`setLru, this`order
      ensures Valid()
      ensures setMru[s] == x && order[s][0] == x
      ensures forall u :: 0 <= u < nmbrSets && u != s ==> order[u] == old(order)[u]
      ensures lines == old(lines)[x := Cleared(old(lines)[x], linSiz).(time := t, adrs := tag, oper := oper, segment := seg)]
    {
      ClInit(x);
      Move2Mru(s, x);
      assert RingsPart();
      assert SetOk(s, order[s], setMru[s], setLru[s], lruLink, mruLink, owner);
      Retag(x, t, tag, oper, seg);
    }

    /**
     * The victim's new identity: time t, the reference's operation and
     * segment, and as address `adrs_in & tagadrs`, which is the tag for each
     * kind of reference (the tag is the address with its offset bits cleared,
     * or the address itself).
     */
    method Retag(x: int, t: int, tag: int, oper: int, seg: int)
      requires Valid() && 0 <= x < nmbrLines && IsSegment(seg)
      modifies this`lines
      ensures Valid()
      ensures lines == old(lines)[x := old(lines)[x].(time := t, adrs := tag, oper := oper, segment := seg)]
    {
      assert LinesPart();
      lines := lines[x := lines[x].(time := t, adrs := tag, oper := oper, segment := seg)];
      assert LinesPart();
    }

    /**
     * The fill of victim x: from the level below, as a fill reference at the
     * time reached (the tag becomes the one being fetched), or at main memory
     * from the reference's bytes directly.
     */
    method Fetch(x: int, tag: int, m: Memref, oper: int, t0: int, g: Globals, env: Env) returns (t: int, mOut: Memref)
      requires Valid() && g !in Repr && 0 <= x < nmbrLines && IsCacheOp(oper)
      requires lines[x].oper == oper && lines[x].time == t0
      modifies this`lines, this`missTag, Below(), g
      ensures g.minAddr <= old(g.minAddr) && g.maxAddr >= old(g.maxAddr)
      decreases Repr, 1, 0
      ensures Valid()
      ensures lines == old(lines)[x := lines[x]]
      ensures lower != null ==> t >= t0 && missTag == old(missTag)[0 := tag] && mOut == m.(time := mOut.time)
      ensures lower != null ==> lines[x] == old(lines)[x].(time := lines[x].time, data := lines[x].data,
        orig := lines[x].orig, stat := lines[x].stat, valid := lines[x].valid)
      ensures lower == null ==> t == t0 && mOut == m && missTag == old(missTag) && lines[x] == Fill.MemFill(old(lines)[x], m, oper)
      ensures level >= run.cacheTest ==> g.Defence() == old(g.Defence())
    {
      assert LinesPart() && CountsPart();
      if lower != null {
        var mo;
        t, mo := Down(x, Some(m.(time := t0)), lines[x], g, env);
        mOut := mo.value;
        missTag := missTag[0 := tag];
        assert CountsPart();
      } else {
        t, mOut := t0, m;
        var f := Fill.FillFromMemref(lines[x], m, oper);
        lines := lines[x := f];
        assert LinesPart();
      }
    }

    /** The end of a miss: the set counts a fetch for the segment, and the miss time becomes t. */
    method CountFetch(s: nat, seg: int, t: int)
      requires Valid() && s < nmbrSets && t >= acssTime[0]
      modifies this`sets, this`missTime
      ensures Valid()
      ensures sets == old(sets)[s := old(sets)[s].(fetch := Inc(old(sets)[s].fetch, seg))]
      ensures missTime == old(missTime)[0 := t]
    {
      assert CountsPart();
      var c := sets[s];
      sets := sets[s := c.(fetch := Inc(c.fetch, seg))];
      missTime := missTime[0 := t];
      assert CountsPart();
    }

    /**
     * A miss in set s at time crnt: the victim is evicted and retagged, then
     * filled unless the reference is a write-back, and the fetch is counted.
     * The answer is the victim and the time the miss completes.
     */
    method Miss(s: nat, tag: int, oper: int, seg: int, crnt: int, mr: Option<Memref>, wb: bool, g: Globals, env: Env)
      returns (x: int, t: int, mrOut: Option<Memref>)
      requires Valid() && g !in Repr && s < nmbrSets && IsCacheOp(oper) && IsSegment(seg) && acssTime[0] <= crnt
      requires !wb ==> mr.Some?
      modifies this`miss, this`lines, this`sets, this`lastBusy, this`lruLink, this`mruLink, this`setMru, this`setLru,
        this`order, this`missTag, this`missTime, Below(), g
      ensures g.minAddr <= old(g.minAddr) && g.maxAddr >= old(g.maxAddr)
      decreases Repr, 2, 0
      ensures Valid()
      ensures 0 <= x < nmbrLines && x == old(setLru)[s] && order[s][0] == x && lines[x].adrs == tag && lines[x].segment == seg
      ensures t >= crnt && missTime[0] == t
      ensures mrOut.Some? == mr.Some? && (mr.Some? ==> mrOut == Some(mr.value.(time := mrOut.value.time)))
      ensures level >= run.cacheTest ==> g.Defence() == old(g.Defence())
    {
      x, t := Evict(s, tag, oper, seg, crnt, g, env);
      mrOut := mr;
      if !wb {
        var m;
        t, m := Fetch(x, tag, mr.value, oper, t, g, env);
        mrOut := Some(m);
      }
      CountFetch(s, seg, t);
    }

    // -------------------------------------------------------------------
    // reference
    // -------------------------------------------------------------------

    /**
     * What `reference` needs of a call: a memory reference, a line, or both.
     * An access from the processor (a reference alone) carries a cache
     * operation and a segment, and if it crosses a line boundary has at least
     * one byte.  A given line has its three byte arrays of one size and
     * carries a cache operation and a segment.
     */
    predicate RefOk(mr: Option<Memref>, cl: Option<Line>)
    {
      && (mr.Some? || cl.Some?)
      && (cl.None? ==> var m := mr.value;
            IsCacheOp(m.oper) && IsSegment(m.segmnt) && (m.size >= 1 || !Crosses(m, log2blk)))
      && (cl.Some? ==> var c := cl.value; IsCacheOp(c.oper) && IsSegment(c.segment) && Sized(c, |c.data|))
    }

    /**
     * A clean from the processor (a reference alone) at a level with a level
     * below: after the clean is done, its answer reads the time of the line
     * that was not given, and the run ends there.
     */
    predicate Faults(mr: Option<Memref>, cl: Option<Line>)
    {
      cl.None? && mr.Some? && mr.value.oper == CLCLEAN && lower != null
    }

    /** The time a reference is issued: its own, or the written-back line's. */
    static function Issued(mr: Option<Memref>, cl: Option<Line>): int
      requires mr.Some? || cl.Some?
    {
      if mr.Some? then mr.value.time else cl.value.time
    }

    /**
     * The data step once the line x holds the block: an access updates x
     * from the reference's bytes, a write-back from the written line (both as
     * update_cl, with x's segment and this level's sub-block size); a fill
     * copies the window of x into the caller's line.
     */
    method DataPhase(x: int, mr: Option<Memref>, cl: Option<Line>, env: Env) returns (clOut: Option<Line>)
      requires Valid() && 0 <= x < nmbrLines && (mr.Some? || cl.Some?)
      requires cl.Some? ==> Sized(cl.value, |cl.value.data|)
      modifies this`lines, this`cntrs
      ensures Valid()
      ensures cl.None? ==> clOut.None?
      ensures mr.Some? && cl.Some? ==>
        clOut == Some(Fill.FillFrom(cl.value, old(lines)[x])) && lines == old(lines) && cntrs == old(cntrs)
      ensures mr.None? ==> clOut == cl
      ensures mr.None? || cl.None? ==> var src := if cl.None? then FromMemref(mr.value) else FromLine(cl.value, |cl.value.data|);
        var d := old(lines)[x];
        && lines == old(lines)[x := lines[x]]
        && BytesDone(src, d, lines[x].data, lines[x].orig, lines[x].stat, Offset(src, d), Count(src))
        && lines[x].valid == (d.valid || src.valid) && lines[x].adrs == d.adrs && lines[x].segment == d.segment
        && cntrs == CntrsAfter(old(cntrs), src, d, level, d.segment, cfg.sbSiz, env.lmtRead0, env.blkRead0)
    {
      if mr.Some? && cl.Some? {
        var f := Fill.CopyFill(cl.value, lines[x]);
        clOut := Some(f);
      } else {
        var src := if cl.None? then FromMemref(mr.value) else FromLine(cl.value, |cl.value.data|);
        UpdateLine(x, src, env);
        clOut := cl;
      }
    }

    /**
     * update_cl on line x from src, with x's segment and this level's
     * sub-block size: the bytes are stored and tallied, everything else of
     * x but its validity and use flags stays.
     */
    method UpdateLine(x: int, src: Src, env: Env)
      requires Valid() && 0 <= x < nmbrLines
      modifies this`lines, this`cntrs
      ensures Valid()
      ensures var d := old(lines)[x];
        && lines == old(lines)[x := lines[x]]
        && BytesDone(src, d, lines[x].data, lines[x].orig, lines[x].stat, Offset(src, d), Count(src))
        && lines[x].valid == (d.valid || src.valid) && lines[x].adrs == d.adrs && lines[x].segment == d.segment
        && lines[x].time == d.time && lines[x].oper == d.oper
        && lines[x].dirty == (d.dirty || src.oper == MRWRITE) && lines[x].referncd == (d.referncd || src.oper != MRWRITE)
        && cntrs == CntrsAfter(old(cntrs), src, d, level, d.segment, cfg.sbSiz, env.lmtRead0, env.blkRead0)
    {
      assert LinesPart() && CountsPart();
      var d := lines[x];
      var dst, c := UpdateCl(src, d, cntrs, level, d.segment, cfg.sbSiz, env.lmtRead0, env.blkRead0);
      lines := lines[x := dst];
      cntrs := c;
      assert LinesPart() && CountsPart();
    }

    /**
     * A reference that does not cross a line, issued at refTime: choose the
     * set and search it; a control operation at a level with a level below
     * stops there; otherwise time the reference, count it, on a miss evict
     * and fill a victim, and do the data step.  The level is busy until the
     * access part completes, and the answer is the time the whole reference
     * completes.  Only the times of the reference and of the line passed in,
     * and the bytes and validity of a filled line, change.  A clean with no
     * line at a level with a level below is a fault: no time is answered
     * (t is then the issue time).
     */
    method Access(mr: Option<Memref>, cl: Option<Line>, refTime: int, g: Globals, env: Env)
      returns (t: int, mrOut: Option<Memref>, clOut: Option<Line>, fault: bool)
      requires Valid() && g !in Repr && RefOk(mr, cl)
      requires cl.None? ==> !Crosses(mr.value, log2blk)
      requires mr.None? ==> refTime == cl.value.time
      modifies Repr, g
      ensures g.minAddr <= old(g.minAddr) && g.maxAddr >= old(g.maxAddr)
      decreases Repr, 3, 0
      ensures Valid()
      ensures mrOut.Some? == mr.Some? && (mr.Some? ==> mrOut == Some(mr.value.(time := mrOut.value.time)))
      ensures cl.None? ==> clOut.None?
      ensures cl.Some? ==> (clOut.Some? && Sized(clOut.value, |cl.value.data|) &&
         clOut.value == cl.value.(time := clOut.value.time, data := clOut.value.data, orig := clOut.value.orig,
                                     stat := clOut.value.stat, valid := clOut.value.valid))
      ensures mr.None? ==> clOut == Some(cl.value.(time := clOut.value.time))
      ensures t >= refTime || (mr.Some? && cl.Some? && t >= cl.value.time)
      ensures fault == Faults(mr, cl) && (fault ==> t == refTime)
      ensures level > run.cacheTest ==> g.Defence() == old(g.Defence())
    {
      fault := false;
      var adrsIn, tag, oper, seg;
      if cl.None? {
        adrsIn, tag, oper, seg := mr.value.adrs, TagOf(mr.value.adrs, log2blk), mr.value.oper, mr.value.segmnt;
      } else {
        adrsIn, tag, oper, seg := cl.value.adrs, cl.value.adrs, cl.value.oper, cl.value.segment;
      }
      var s, hit := Lookup(adrsIn, tag, seg, g, env);
      if (oper == CLCLEAN || oper == CLNVALD) && lower != null {
        assert RingsPart();
        t := Control(oper, s, seg, hit, refTime, if cl.Some? then cl.value.time else 0);
        if cl.None? && oper == CLCLEAN {
          return refTime, mr, cl, true;
        }
        return t, mr, cl, false;
      }
      t, mrOut, clOut := Serve(s, hit, tag, oper, seg, mr, cl, refTime, g, env);
    }

    /** The set of a reference (SelectSet) and the line of it that search finds (Search). */
    method Lookup(adrsIn: int, tag: int, seg: int, g: Globals, env: Env) returns (s: nat, hit: int)
      requires Valid() && g !in Repr
      modifies this`lines, this`sets, this`lastBusy, this`actualWay, Below(), g
      ensures g.minAddr <= old(g.minAddr) && g.maxAddr >= old(g.maxAddr)
      decreases Repr, 2, 1
      ensures Valid() && s < nmbrSets
      ensures hit == -1 || (hit in order[s] && 0 <= hit < nmbrLines && Matches(lines, hit, tag))
      ensures level > run.cacheTest ==> g.Defence() == old(g.Defence())
    {
      s := SelectSet(adrsIn, seg, g, env);
      hit := Search(tag, s);
      assert LinesPart();
    }

    /**
     * The part of a reference after the search of set s found hit: time it,
     * count it, on a miss evict and fill a victim, and do the data step.  The
     * level is busy until the access part completes; the answer is the time
     * the whole reference completes.
     */
    method Serve(s: nat, hit: int, tag: int, oper: int, seg: int, mr: Option<Memref>, cl: Option<Line>,
                 refTime: int, g: Globals, env: Env)
      returns (t: int, mrOut: Option<Memref>, clOut: Option<Line>)
      requires Valid() && g !in Repr && s < nmbrSets && (hit == -1 || 0 <= hit < nmbrLines)
      requires IsCacheOp(oper) && IsSegment(seg) && (mr.Some? || cl.Some?)
      requires cl.Some? ==> Sized(cl.value, |cl.value.data|)
      modifies Repr, g
      ensures g.minAddr <= old(g.minAddr) && g.maxAddr >= old(g.maxAddr)
      decreases Repr, 2, 2
      ensures Valid()
      ensures mrOut.Some? == mr.Some? && (mr.Some? ==> mrOut == Some(mr.value.(time := mrOut.value.time)))
      ensures cl.None? ==> clOut.None?
      ensures cl.Some? ==> (clOut.Some? && Sized(clOut.value, |cl.value.data|) &&
         clOut.value == cl.value.(time := clOut.value.time, data := clOut.value.data, orig := clOut.value.orig,
                                     stat := clOut.value.stat, valid := clOut.value.valid))
      ensures mr.None? ==> clOut == Some(cl.value.(time := clOut.value.time))
      ensures t >= refTime
      ensures level >= run.cacheTest ==> g.Defence() == old(g.Defence())
    {
      var start, crnt := Timing(refTime, hit != -1, tag);
      var m := if mr.Some? then Some(mr.value.(time := crnt)) else None;
      var c := if cl.Some? then Some(cl.value.(time := crnt)) else None;
      CountOutcome(s, seg, hit != -1, oper);
      t, mrOut, clOut := Complete(s, hit, tag, oper, seg, m, c, crnt, start + cfg.access, g, env);
    }

    /**
     * A timed and counted reference at time crnt: on a miss a victim is
     * evicted and filled, then the data step, and the level is busy until
     * `busy` (the end of the access part).  The answer is when the reference
     * completes.
     */
    method Complete(s: nat, hit: int, tag: int, oper: int, seg: int, m: Option<Memref>, c: Option<Line>,
                    crnt: int, busy: int, g: Globals, env: Env)
      returns (t: int, mOut: Option<Memref>, clOut: Option<Line>)
      requires Valid() && g !in Repr && s < nmbrSets && (hit == -1 || 0 <= hit < nmbrLines)
      requires IsCacheOp(oper) && IsSegment(seg) && (m.Some? || c.Some?)
      requires c.Some? ==> Sized(c.value, |c.value.data|)
      requires acssTime[0] <= crnt && busy <= crnt && missTime[0] == crnt
      modifies Repr, g
      ensures g.minAddr <= old(g.minAddr) && g.maxAddr >= old(g.maxAddr)
      decreases Repr, 2, 1
      ensures Valid()
      ensures mOut.Some? == m.Some? && (m.Some? ==> mOut == Some(m.value.(time := mOut.value.time)))
      ensures c.None? ==> clOut.None?
      ensures c.Some? ==> (clOut.Some? && Sized(clOut.value, |c.value.data|) &&
         clOut.value == c.value.(data := clOut.value.data, orig := clOut.value.orig,
                                    stat := clOut.value.stat, valid := clOut.value.valid))
      ensures m.None? ==> clOut == c
      ensures t >= crnt && acssTime[0] == busy && lastBusy == Int16(t)
      ensures level >= run.cacheTest ==> g.Defence() == old(g.Defence())
    {
      var x := hit;
      t, mOut := crnt, m;
      if hit == -1 {
        x, t, mOut := Miss(s, tag, oper, seg, crnt, m, c.Some? && m.None?, g, env);
      }
      clOut := DataPhase(x, mOut, c, env);
      Finish(busy, t);
    }

    /** The end of a reference: the level is busy from its start for `access`, and last busy at t. */
    method Finish(busy: int, t: int)
      requires Valid() && busy <= missTime[0]
      modifies this`acssTime, this`lastBusy
      ensures Valid()
      ensures acssTime == old(acssTime)[0 := busy] && lastBusy == Int16(t)
    {
      assert CountsPart();
      acssTime := acssTime[0 := busy];
      lastBusy := Int16(t);
      assert CountsPart();
    }

    /**
     * reference(cash, mr, cl) for an access (mr alone), a fill (both) or a
     * write-back (cl alone).  An access whose first and last bytes lie in
     * different lines is split: the split is counted, the first part is a
     * reference of its own, and the remainder, carrying the first part's
     * completion as its time, is then done with the original issue time.
     * mrOut and clOut are the reference record and the line as the call
     * leaves them.  A fault (Faults) of the reference, or of its first part,
     * ends the call there.
     */
    method Reference(mr: Option<Memref>, cl: Option<Line>, g: Globals, env: Env)
      returns (t: int, mrOut: Option<Memref>, clOut: Option<Line>, fault: bool)
      requires Valid() && g !in Repr && RefOk(mr, cl)
      modifies Repr, g
      ensures g.minAddr <= old(g.minAddr) && g.maxAddr >= old(g.maxAddr)
      decreases Repr, 4, if mr.Some? && cl.None? && mr.value.size >= 1 && Span(mr.value, log2blk) >= 0 then Span(mr.value, log2blk) else 0
      ensures Valid()
      ensures mrOut.Some? == mr.Some?
      ensures mr.Some? && (cl.Some? || !Crosses(mr.value, log2blk)) ==> mrOut == Some(mr.value.(time := mrOut.value.time))
      ensures mr.Some? && cl.None? && Crosses(mr.value, log2blk) ==>
        mrOut == Some(Rest(mr.value, FirstSize(mr.value, log2blk)).(time := mrOut.value.time))
      ensures cl.None? ==> clOut.None?
      ensures cl.Some? ==> (clOut.Some? && Sized(clOut.value, |cl.value.data|) &&
         clOut.value == cl.value.(time := clOut.value.time, data := clOut.value.data, orig := clOut.value.orig,
                                     stat := clOut.value.stat, valid := clOut.value.valid))
      ensures mr.None? ==> clOut == Some(cl.value.(time := clOut.value.time))
      ensures t >= Issued(mr, cl) || (mr.Some? && cl.Some? && t >= cl.value.time)
      ensures fault == Faults(mr, cl)
      ensures level > run.cacheTest ==> g.Defence() == old(g.Defence())
    {
      var refTime := Issued(mr, cl);
      var m := mr;
      if mr.Some? && cl.None? && Crosses(mr.value, log2blk) {
        SplitGeometry(mr.value, log2blk);
        var ref1, rest := RefSplit(mr.value, log2blk);
        SplitBlock();
        var t1, _, _, f1 := Reference(Some(ref1), None, g, env);
        m := Some(rest.(time := t1));
        if f1 {
          return t1, m, cl, true;
        }
      }
      t, mrOut, clOut, fault := Access(m, cl, refTime, g, env);
    }

    /** The split counter. */
    method SplitBlock()
      requires Valid()
      modifies this`splitBlk
      ensures Valid() && splitBlk == old(splitBlk) + 1
    {
      splitBlk := splitBlk + 1;
    }
}
}
