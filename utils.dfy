/**
 * The utility layer of the simulator: bit arrays packed into bytes, the
 * free list that recycles memory-reference records, the per-core FIFO
 * queues of pending references, and the comma-grouped decimal formatting
 * used by the statistics output.
 */
module Utils {
  import opened Defs

  // ---------------------------------------------------------------------
  // The free list of memory-reference records
  // ---------------------------------------------------------------------

  /**
   * The record get_memref hands out: address, line number, operation,
   * processor, segment, size, split flag, time and all data bytes are
   * zero; the remaining fields keep whatever the recycled record held.
   */
  function Cleared(mr: Memref): (r: Memref)
  {
    mr.(adrs := 0, linenmbr := 0, oper := 0, pid := 0, segmnt := 0, size := 0, split := 0, time := 0,
        data := Zeros(MAX_MR_DATA))
  }

  /** A cleared record is well formed, carries only zero data, and clearing it again changes nothing. */
  lemma ClearedProperties(mr: Memref)
    ensures WellFormed(Cleared(mr)) && forall i :: 0 <= i < MAX_MR_DATA ==> Cleared(mr).data[i] == 0
    ensures Cleared(mr).adrs == 0 && Cleared(mr).size == 0 && Cleared(mr).oper == 0 && Cleared(mr).split == 0
    ensures Cleared(Cleared(mr)) == Cleared(mr)
    ensures Cleared(mr).fname == mr.fname && Cleared(mr).asid == mr.asid && Cleared(mr).virtAdrs == mr.virtAdrs
  {
  }

  /** The pool of released records, most recently released first. */
  class Pool {
    var free: seq<Memref>

    ghost predicate Valid()
      reads this
    {
      forall i :: 0 <= i < |free| ==> WellFormed(free[i])
    }

    constructor ()
      ensures Valid() && free == []
    {
      free := [];
    }

    /** free_memref: the record becomes the head of the free list. */
    method Release(mr: Memref)
      requires Valid() && WellFormed(mr)
      modifies this
      ensures Valid() && free == [mr] + old(free)
    {
      free := [mr] + free;
    }

    /**
     * get_memref: the head of the free list if there is one, otherwise a
     * newly allocated record whose prior contents are `blank`; either way
     * the listed fields and the data bytes are zeroed.
     */
    method Acquire(blank: Memref) returns (mr: Memref)
      requires Valid() && WellFormed(blank)
      modifies this
      ensures Valid()
      ensures old(free) == [] ==> mr == Cleared(blank) && free == []
      ensures old(free) != [] ==> mr == Cleared(old(free)[0]) && free == old(free)[1..]
    {
      if free == [] {
        mr := blank;
      } else {
        mr := free[0];
        free := free[1..];
      }
      mr := mr.(adrs := 0, linenmbr := 0, oper := 0, pid := 0, segmnt := 0, size := 0, split := 0, time := 0);
      var data := mr.data;
      var i := 0;
      while i < MAX_MR_DATA
        invariant 0 <= i <= MAX_MR_DATA && |data| == MAX_MR_DATA
        invariant forall j :: 0 <= j < i ==> data[j] == 0
      {
        data := data[i := 0];
        i := i + 1;
      }
      assert data == Zeros(MAX_MR_DATA);
      mr := mr.(data := data);
    }
  }

  /** Releasing a record and acquiring one gives that record back, cleared, and leaves the pool as it was. */
  method ReleaseThenAcquire(p: Pool, mr: Memref, blank: Memref) returns (r: Memref)
    requires p.Valid() && WellFormed(mr) && WellFormed(blank)
    modifies p
    ensures p.Valid() && r == Cleared(mr) && p.free == old(p.free)
  {
    p.Release(mr);
    r := p.Acquire(blank);
  }

  // ---------------------------------------------------------------------
  // Per-core FIFO queues
  // ---------------------------------------------------------------------

  /** One processor's queue: its item count and its items, oldest first. */
  datatype Queue = Queue(count: int, items: seq<Memref>)

  const EmptyQueue := Queue(0, [])

  predicate Consistent(q: Queue) { q.count == |q.items| }

  /** queue_add: the record becomes the newest item; an empty queue restarts with just that record. */
  function QueueAdd(q: Queue, mr: Memref): (r: Queue)
    ensures Consistent(q) ==> Consistent(r) && r.items == q.items + [mr]
  {
    if q.count == 0 then Queue(1, [mr]) else Queue(q.count + 1, q.items + [mr])
  }

  /** queue_take: the oldest item and the queue without it; taking the last item leaves the empty queue. */
  function QueueTake(q: Queue): (r: (Memref, Queue))
    requires Consistent(q) && q.count != 0
    ensures Consistent(r.1) && [r.0] + r.1.items == q.items
    ensures q.count == 1 ==> r.1 == EmptyQueue
  {
    if q.count == 1 then (q.items[0], EmptyQueue) else (q.items[0], Queue(q.count - 1, q.items[1..]))
  }

  /** One queue operation of a run. */
  datatype QueueOp = Add(mr: Memref) | Take

  function Adds(ops: seq<QueueOp>): nat
  {
    if ops == [] then 0 else Adds(ops[..|ops| - 1]) + (if ops[|ops| - 1].Add? then 1 else 0)
  }

  function Takes(ops: seq<QueueOp>): nat
  {
    if ops == [] then 0 else Takes(ops[..|ops| - 1]) + (if ops[|ops| - 1].Take? then 1 else 0)
  }

  function Added(ops: seq<QueueOp>): seq<Memref>
  {
    if ops == [] then [] else Added(ops[..|ops| - 1]) + (if ops[|ops| - 1].Add? then [ops[|ops| - 1].mr] else [])
  }

  /**
   * A run of operations on one queue: the final queue and the records the
   * takes returned, in order, or Fatal when a take finds the queue empty.
   */
  datatype Outcome = Fatal | Done(q: Queue, taken: seq<Memref>)

  function Run(q: Queue, ops: seq<QueueOp>): (o: Outcome)
    requires Consistent(q)
    ensures o.Done? ==> Consistent(o.q)
  {
    if ops == [] then Done(q, [])
    else
      match Run(q, ops[..|ops| - 1])
      case Fatal => Fatal
      case Done(p, out) =>
        match ops[|ops| - 1]
        case Add(mr) => Done(QueueAdd(p, mr), out)
        case Take => if p.count == 0 then Fatal else Done(QueueTake(p).1, out + [QueueTake(p).0])
  }

  /**
   * The FIFO law: the records a run takes, followed by what is left, are
   * exactly the records that were queued followed by those it added, in
   * order; and the count is the starting count plus adds minus takes.
   */
  lemma {:induction false} RunFifo(q: Queue, ops: seq<QueueOp>)
    requires Consistent(q) && Run(q, ops).Done?
    ensures Run(q, ops).taken + Run(q, ops).q.items == q.items + Added(ops)
    ensures Run(q, ops).q.count == q.count + Adds(ops) - Takes(ops)
  {
    if ops != [] {
      var init := ops[..|ops| - 1];
      RunFifo(q, init);
      var p, out := Run(q, init).q, Run(q, init).taken;
      match ops[|ops| - 1]
      case Add(mr) =>
        assert Added(ops) == Added(init) + [mr];
        FifoAdd(out, p, mr, q.items, Added(init));
      case Take =>
        assert Added(ops) == Added(init);
        FifoTake(out, p, q.items + Added(init));
    }
  }

  /** An add appends to what is left. */
  lemma FifoAdd(out: seq<Memref>, p: Queue, mr: Memref, items: seq<Memref>, added: seq<Memref>)
    requires Consistent(p) && out + p.items == items + added
    ensures out + QueueAdd(p, mr).items == items + (added + [mr])
  {
    assert out + (p.items + [mr]) == (out + p.items) + [mr];
  }

  /** A take moves the oldest item that is left to the end of what was taken. */
  lemma FifoTake(out: seq<Memref>, p: Queue, all: seq<Memref>)
    requires Consistent(p) && p.count != 0 && out + p.items == all
    ensures (out + [QueueTake(p).0]) + QueueTake(p).1.items == all
  {
    var (x, p') := QueueTake(p);
    assert (out + [x]) + p'.items == out + ([x] + p'.items);
  }

  /** The queues of all processors, indexed by processor id. */
  class Queues {
    var queues: seq<Queue>

    ghost predicate Valid()
      reads this
    {
      |queues| == MAX_PIDS && forall p :: 0 <= p < |queues| ==> Consistent(queues[p])
    }

    constructor ()
      ensures Valid() && forall p :: 0 <= p < |queues| ==> queues[p] == EmptyQueue
    {
      queues := seq(MAX_PIDS, _ => EmptyQueue);
    }

    /** queue_add for processor pid. */
    method Add(pid: nat, mr: Memref)
      requires Valid() && pid < MAX_PIDS
      modifies this
      ensures Valid() && queues == old(queues)[pid := QueueAdd(old(queues)[pid], mr)]
    {
      var q := queues[pid];
      if q.count == 0 {
        q := Queue(1, [mr]);
      } else {
        q := Queue(q.count + 1, q.items + [mr]);
      }
      queues := queues[pid := q];
    }

    /** queue_take for processor pid; taking from an empty queue is fatal. */
    method Take(pid: nat) returns (mr: Memref)
      requires Valid() && pid < MAX_PIDS && queues[pid].count != 0
      modifies this
      ensures Valid() && mr == QueueTake(old(queues)[pid]).0
      ensures queues == old(queues)[pid := QueueTake(old(queues)[pid]).1]
    {
      var q := queues[pid];
      mr := q.items[0];
      if q.count == 1 {
        q := EmptyQueue;
      } else {
        q := Queue(q.count - 1, q.items[1..]);
      }
      queues := queues[pid := q];
    }
  }

  // ---------------------------------------------------------------------
  // int64_to_str: decimal with commas between triads
  // ---------------------------------------------------------------------

  function Digit(d: nat): (c: char)
    requires d < 10
    ensures '0' <= c <= '9'
  {
    ('0' as int + d) as char
  }

  /** The value of a digit character; any other character counts as 0. */
  function DigitVal(c: char): nat
  {
    if '0' <= c <= '9' then (c - '0') as nat else 0
  }

  /** `%d` of a non-negative number. */
  function Decimal(n: nat): (s: string)
    ensures |s| >= 1 && forall i :: 0 <= i < |s| ==> '0' <= s[i] <= '9'
  {
    if n < 10 then [Digit(n)] else Decimal(n / 10) + [Digit(n % 10)]
  }

  /** `%03d` of a triad. */
  function Pad3(t: nat): (s: string)
    requires t < 1000
    ensures |s| == 3 && forall i :: 0 <= i < 3 ==> '0' <= s[i] <= '9'
  {
    [Digit(t / 100), Digit(t / 10 % 10), Digit(t % 10)]
  }

  /** The comma-grouped decimal text of n. */
  function Grouped(n: nat): (s: string)
  {
    if n < 1000 then Decimal(n) else Grouped(n / 1000) + [','] + Pad3(n % 1000)
  }

  /** The leading (most significant) triad of n. */
  function Lead(n: nat): (t: nat)
    ensures t < 1000
  {
    if n < 1000 then n else Lead(n / 1000)
  }

  /** The ",ddd" groups after the leading triad. */
  function Tail(n: nat): (s: string)
  {
    if n < 1000 then [] else Tail(n / 1000) + [','] + Pad3(n % 1000)
  }

  /** The triads of n, least significant first. */
  function Triads(n: nat): (ts: seq<nat>)
    ensures |ts| >= 1
  {
    if n < 1000 then [n] else [n % 1000] + Triads(n / 1000)
  }

  predicate AllTriads(ts: seq<nat>)
  {
    forall i :: 0 <= i < |ts| ==> ts[i] < 1000
  }

  lemma {:induction false} TriadsBelow(n: nat)
    ensures AllTriads(Triads(n))
  {
    if n >= 1000 {
      TriadsBelow(n / 1000);
      assert Triads(n) == [n % 1000] + Triads(n / 1000);
    }
  }

  /** The ",ddd" groups of a list of triads, most significant first. */
  function Commas(ts: seq<nat>): (s: string)
    requires AllTriads(ts)
  {
    if ts == [] then [] else Commas(ts[1..]) + [','] + Pad3(ts[0])
  }

  /** A string with its commas removed. */
  function Strip(s: string): string
  {
    if s == [] then [] else Strip(s[..|s| - 1]) + (if s[|s| - 1] == ',' then [] else [s[|s| - 1]])
  }

  /** The number the digits of s spell. */
  function DecVal(s: string): nat
  {
    if s == [] then 0 else DecVal(s[..|s| - 1]) * 10 + DigitVal(s[|s| - 1])
  }

  function Pow10(k: nat): nat
  {
    if k == 0 then 1 else 10 * Pow10(k - 1)
  }

  lemma {:induction false} DecValAppend(a: string, b: string)
    ensures DecVal(a + b) == DecVal(a) * Pow10(|b|) + DecVal(b)
    decreases |b|
  {
    if b != [] {
      var b' := b[..|b| - 1];
      var ab := a + b;
      assert ab[..|ab| - 1] == a + b' && ab[|ab| - 1] == b[|b| - 1];
      var d := DigitVal(b[|b| - 1]);
      assert DecVal(ab) == DecVal(a + b') * 10 + d;
      assert DecVal(b) == DecVal(b') * 10 + d;
      assert Pow10(|b|) == 10 * Pow10(|b'|);
      DecValAppend(a, b');
      ShiftDigit(DecVal(a), Pow10(|b'|), DecVal(b'), d);
    } else {
      assert a + b == a;
    }
  }

  lemma ShiftDigit(x: nat, p: nat, y: nat, d: nat)
    ensures (x * p + y) * 10 + d == x * (10 * p) + (y * 10 + d)
  {
  }

  lemma {:induction false} DecimalValue(n: nat)
    ensures DecVal(Decimal(n)) == n
  {
    if n >= 10 {
      DecimalValue(n / 10);
      var s := Decimal(n / 10) + [Digit(n % 10)];
      assert s[..|s| - 1] == Decimal(n / 10);
    }
  }

  lemma Pad3Value(t: nat)
    requires t < 1000
    ensures DecVal(Pad3(t)) == t && Strip(Pad3(t)) == Pad3(t)
  {
    var s := Pad3(t);
    DecVal3(s[0], s[1], s[2]);
    assert s == [s[0], s[1], s[2]];
    StripDigits(s);
  }

  lemma DecVal3(c0: char, c1: char, c2: char)
    ensures DecVal([c0, c1, c2]) == DigitVal(c0) * 100 + DigitVal(c1) * 10 + DigitVal(c2)
  {
    assert [c0, c1, c2][..2] == [c0, c1];
    assert [c0, c1][..1] == [c0];
    assert [c0][..0] == [];
    assert DecVal([c0]) == DigitVal(c0);
    assert DecVal([c0, c1]) == DigitVal(c0) * 10 + DigitVal(c1);
  }

  lemma {:induction false} StripAppend(a: string, b: string)
    ensures Strip(a + b) == Strip(a) + Strip(b)
    decreases |b|
  {
    if b != [] {
      var b' := b[..|b| - 1];
      var ab := a + b;
      assert ab[..|ab| - 1] == a + b' && ab[|ab| - 1] == b[|b| - 1];
      StripAppend(a, b');
    } else {
      assert a + b == a;
    }
  }

  lemma {:induction false} StripDigits(s: string)
    requires forall i :: 0 <= i < |s| ==> '0' <= s[i] <= '9'
    ensures Strip(s) == s
  {
    if s != [] {
      StripDigits(s[..|s| - 1]);
    }
  }

  /** Removing the commas from the grouped text gives back the digits of n. */
  lemma {:induction false} GroupedValue(n: nat)
    ensures DecVal(Strip(Grouped(n))) == n
  {
    if n < 1000 {
      StripDigits(Decimal(n));
      DecimalValue(n);
    } else {
      GroupedValue(n / 1000);
      var g := Grouped(n / 1000);
      StripAppend(g + [','], Pad3(n % 1000));
      StripAppend(g, [',']);
      assert Strip([',']) == [] by {
        assert [','][..0] == [];
      }
      Pad3Value(n % 1000);
      var p := Pad3(n % 1000);
      assert Strip(Grouped(n)) == Strip(g) + p;
      DecValAppend(Strip(g), p);
      assert Pow10(3) == 1000;
      assert DecVal(Strip(g) + p) == (n / 1000) * 1000 + n % 1000;
    }
  }

  /** The grouped text is the leading triad in full, then the padded groups. */
  lemma {:induction false} GroupedSplit(n: nat)
    ensures Grouped(n) == Decimal(Lead(n)) + Tail(n)
  {
    if n >= 1000 {
      GroupedSplit(n / 1000);
    }
  }

  /** Lead and Tail read off the triads: the last triad and the groups of all the others. */
  lemma {:induction false} TriadsLeadTail(n: nat)
    ensures AllTriads(Triads(n))
    ensures Lead(n) == Triads(n)[|Triads(n)| - 1]
    ensures Tail(n) == Commas(Triads(n)[..|Triads(n)| - 1])
  {
    TriadsBelow(n);
    if n >= 1000 {
      TriadsLeadTail(n / 1000);
      var ts := Triads(n / 1000);
      assert Triads(n) == [n % 1000] + ts;
      assert Triads(n)[..|Triads(n)| - 1] == [n % 1000] + ts[..|ts| - 1];
      assert ([n % 1000] + ts[..|ts| - 1])[1..] == ts[..|ts| - 1];
    }
  }

  /** Worked examples of the grouped text. */
  lemma GroupedThousand()
    ensures Grouped(7) == "7" && Grouped(1000) == "1,000"
  {
    assert Decimal(1) == "1" && Decimal(7) == "7" && Pad3(0) == "000";
  }

  lemma GroupedMillions()
    ensures Grouped(1234567) == "1,234,567"
  {
    var p, q := Pad3(234), Pad3(567);
    assert p == "234" && q == "567";
    assert Grouped(1234) == "1,234" by {
      assert Decimal(1) == "1";
    }
  }

  /** The text of a C string: everything before its first NUL. */
  function CStr(buf: string): (s: string)
    ensures '\0' !in s
  {
    if buf == [] || buf[0] == '\0' then [] else [buf[0]] + CStr(buf[1..])
  }

  lemma {:induction false} CStrOf(s: string, rest: string)
    requires '\0' !in s
    ensures CStr(s + ['\0'] + rest) == s
  {
    if s != [] {
      assert (s + ['\0'] + rest)[1..] == s[1..] + ['\0'] + rest;
      CStrOf(s[1..], rest);
    }
  }

  lemma {:induction false} TailChars(n: nat)
    ensures '\0' !in Tail(n)
  {
    if n >= 1000 {
      TailChars(n / 1000);
    }
  }

  /** sprintf(buf + at, s): the text and its NUL overwrite the buffer from position at. */
  function WriteStr(buf: string, at: nat, s: string): (r: string)
    requires at <= |buf|
  {
    buf[..at] + s + ['\0'] + (if at + |s| + 1 <= |buf| then buf[at + |s| + 1..] else [])
  }

  function Pow1000(k: nat): nat
  {
    if k == 0 then 1 else 1000 * Pow1000(k - 1)
  }

  /** A number below 1000^k has at most k triads. */
  lemma {:induction false} TriadsLength(n: nat, k: nat)
    requires k >= 1 && n < Pow1000(k)
    ensures |Triads(n)| <= k
  {
    if n >= 1000 {
      assert k >= 2 && n < 1000 * Pow1000(k - 1);
      TriadsLength(n / 1000, k - 1);
    }
  }

  /** The first loop of int64_to_str: the triads of tmp into vals, and the index of the leading one. */
  method SplitTriads(tmp0: nat) returns (vals: seq<nat>, triads: int)
    requires tmp0 < 0x8000_0000_0000_0000
    ensures vals == Triads(tmp0) && triads == |vals| - 1
  {
    var tmp: nat := tmp0;
    ghost var n := tmp;
    TriadsLength(n, 7);
    vals := [];
    triads := 0;
    var v := 0;
    while v < 7
      invariant 0 <= v <= 6 && |vals| == v && triads == v
      invariant Triads(n) == vals + Triads(tmp) && (v > 0 ==> tmp > 0)
    {
      vals := vals + [tmp % 1000];
      var old_tmp := tmp;
      tmp := tmp / 1000;
      if tmp == 0 {
        assert Triads(old_tmp) == [old_tmp % 1000];
        break;
      }
      assert Triads(old_tmp) == [old_tmp % 1000] + Triads(tmp);
      assert Triads(n) == vals + Triads(tmp);
      triads := triads + 1;
      v := v + 1;
    }
  }

  /**
   * int64_to_str: the characters written into the buffer.  For val >= 0 the
   * buffer holds the grouped text.  For val < 0 the leading digits overwrite
   * the '-', and the remaining groups are written after the leading triad's
   * NUL, so only the leading triad is in the C string.
   */
  method Int64ToStr(val: int) returns (str: string)
    requires -0x8000_0000_0000_0000 < val < 0x8000_0000_0000_0000
    ensures val >= 0 ==> str == Decimal(Lead(val)) + Tail(val) + ['\0']
    ensures val < 0 ==> str == Decimal(Lead(-val)) + ['\0'] + (if -val < 1000 then [] else Tail(-val) + ['\0'])
  {
    var tmp: nat;
    var chr := 0;
    str := [];
    if val < 0 {
      tmp := val * -1;
      str := WriteStr(str, 0, "-");
      chr := 1;
    } else {
      tmp := val;
    }
    ghost var n := tmp;
    var vals, triads := SplitTriads(tmp);
    TriadsBelow(n);
    assert vals == Triads(n) && triads == |vals| - 1;
    var lead := Decimal(vals[triads]);
    assert str == [] || str == "-" + ['\0'];
    str := WriteStr(str, 0, lead);
    assert str == lead + ['\0'];
    chr := chr + |lead|;
    str := WriteGroups(str, chr, val < 0, lead, vals, triads);
    Int64Final(n, vals, triads, val < 0, str);
  }

  /**
   * The second loop of int64_to_str: each remaining triad, most significant
   * first, as ",ddd" at the running character count.  For a negative value
   * the count is one past the leading digits' NUL.
   */
  method WriteGroups(str0: string, chr0: nat, neg: bool, lead: string, vals: seq<nat>, triads: int) returns (str: string)
    requires 0 <= triads < |vals| && AllTriads(vals)
    requires str0 == lead + ['\0'] && chr0 == |lead| + (if neg then 1 else 0)
    ensures str == (if neg && triads > 0 then lead + ['\0'] else lead) + Commas(vals[0..triads]) + ['\0']
  {
    str := str0;
    var chr := chr0;
    ghost var head, body := lead, lead;
    var v := triads - 1;
    while v >= 0
      invariant -1 <= v < triads
      invariant head == (if neg && v < triads - 1 then lead + ['\0'] else lead)
      invariant str == body + ['\0'] && body == head + Commas(vals[v + 1..triads])
      invariant chr == if neg && v == triads - 1 then |str| else |body|
    {
      var group := [','] + Pad3(vals[v]);
      ghost var c := Commas(vals[v + 1..triads]);
      CommasStep(vals, v, triads);
      if chr == |str| {
        WriteAtEnd(str, group);
        assert c == [] && body == lead && str == lead + ['\0'];
        head, body := lead + ['\0'], str + group;
        assert c + group == group;
      } else {
        WriteAtNul(body, group);
        assert body + group == head + (c + group);
        body := body + group;
      }
      str := WriteStr(str, chr, group);
      chr := chr + |group|;
      v := v - 1;
    }
    assert vals[v + 1..triads] == vals[0..triads];
    assert head == (if neg && triads > 0 then lead + ['\0'] else lead);
  }

  /** Writing at the end of the buffer appends the text and its NUL. */
  lemma WriteAtEnd(buf: string, s: string)
    ensures WriteStr(buf, |buf|, s) == buf + s + ['\0']
  {
  }

  /** Writing over the terminating NUL extends the C string. */
  lemma WriteAtNul(pre: string, s: string)
    ensures WriteStr(pre + ['\0'], |pre|, s) == pre + s + ['\0']
  {
    assert (pre + ['\0'])[..|pre|] == pre;
  }

  /** One more group, written after the higher ones. */
  lemma CommasStep(vals: seq<nat>, v: nat, k: nat)
    requires v < k <= |vals| && AllTriads(vals)
    ensures Commas(vals[v..k]) == Commas(vals[v + 1..k]) + ([','] + Pad3(vals[v]))
  {
    assert vals[v..k][1..] == vals[v + 1..k];
    assert vals[v..k][0] == vals[v];
  }

  /** What the buffer holds once the triads are written. */
  lemma Int64Final(n: nat, vals: seq<nat>, triads: int, neg: bool, str: string)
    requires vals == Triads(n) && triads == |vals| - 1 && AllTriads(vals)
    requires str == (if neg && triads > 0 then Decimal(vals[triads]) + ['\0'] else Decimal(vals[triads]))
                    + Commas(vals[0..triads]) + ['\0']
    ensures !neg ==> str == Decimal(Lead(n)) + Tail(n) + ['\0']
    ensures neg ==> str == Decimal(Lead(n)) + ['\0'] + (if n < 1000 then [] else Tail(n) + ['\0'])
  {
    TriadsLeadTail(n);
    assert vals[0..triads] == vals[..|vals| - 1];
    if n < 1000 {
      assert triads == 0 && Commas(vals[0..triads]) == [];
    } else {
      assert triads > 0;
    }
  }

  /** The text int64_to_str prints: the grouped number, or for a negative value only its leading triad. */
  lemma Int64Text(val: int, str: string)
    requires val >= 0 ==> str == Decimal(Lead(val)) + Tail(val) + ['\0']
    requires val < 0 ==> str == Decimal(Lead(-val)) + ['\0'] + (if -val < 1000 then [] else Tail(-val) + ['\0'])
    ensures val >= 0 ==> CStr(str) == Grouped(val) && DecVal(Strip(CStr(str))) == val
    ensures val < 0 ==> CStr(str) == Decimal(Lead(-val))
  {
    if val >= 0 {
      var d, t := Decimal(Lead(val)), Tail(val);
      DigitsNoNul(d);
      TailChars(val);
      assert '\0' !in d + t;
      GroupedSplit(val);
      assert str == (d + t) + ['\0'] + [];
      CStrOf(d + t, []);
      GroupedValue(val);
    } else {
      var d := Decimal(Lead(-val));
      var rest := if -val < 1000 then [] else Tail(-val) + ['\0'];
      DigitsNoNul(d);
      assert str == d + ['\0'] + rest;
      CStrOf(d, rest);
    }
  }

  /** The text int64_to_str is meant to print: a '-' before the grouped magnitude of a negative value. */
  function SignedGrouped(val: int): (s: string)
  {
    if val < 0 then "-" + Grouped(-val) else Grouped(val)
  }

  /** The intended text carries the sign, and its digits, commas dropped, spell the magnitude. */
  lemma SignedGroupedValue(val: int)
    ensures var s := SignedGrouped(val);
      && |s| >= 1
      && (val < 0 <==> s[0] == '-')
      && DecVal(Strip(if val < 0 then s[1..] else s)) == (if val < 0 then -val else val)
  {
    var n: nat := if val < 0 then -val else val;
    GroupedSplit(n);
    GroupedValue(n);
    var d := Decimal(Lead(n));
    assert Grouped(n)[0] == d[0];
    if val < 0 {
      assert SignedGrouped(val)[1..] == Grouped(n);
    }
  }

  /** What int64_to_str prints for -1234567 is "1": the sign and the two later groups are lost. */
  lemma NegativeLosesSign(str: string)
    requires str == Decimal(Lead(1234567)) + ['\0'] + Tail(1234567) + ['\0']
    ensures CStr(str) == "1" && SignedGrouped(-1234567) == "-1,234,567"
  {
    Int64Text(-1234567, str);
    assert Lead(1234567) == 1;
    assert Decimal(1) == "1";
    GroupedMillions();
  }

  lemma DigitsNoNul(s: string)
    requires forall i :: 0 <= i < |s| ==> '0' <= s[i] <= '9'
    ensures '\0' !in s
  {
  }
}
