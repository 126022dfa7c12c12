/**
 * The Intel PIN trace format without data values
 * (modified_moola_src/trace_pin.c, `process_pin_nodata`), one record per
 * line:
 *
 *     thread type 0xaddress 0xsize [ map ]
 *
 * The thread id is read and dropped; the type letters are the moola ones
 * plus R and W; both numbers after the type need a literal "0x"; the size
 * read is dropped and 8 stored.  Like the moola reader it writes the
 * fields it has read into the caller's record also when a later field
 * fails.
 */
module TracePin {
  import opened Defs
  import opened Scan
  import opened TraceMoola

  /** The record-type switch (lines 469-496): the moola letters, R for a read and W for a write. */
  function TypePin(ch: char): Option<int>
  {
    match Upper(ch)
    case 'R' => Some(MRREAD)
    case 'W' => Some(MRWRITE)
    case _ => TypeCode(ch)
  }

  /** The digit loop of get_hex_pin, from the character after the "0x". */
  function HexRun(line: string, d: Cur): Num
  {
    if !IsHex(d.c) then NoNumber else Number(line, d, true)
  }

  /**
   * get_hex_pin with the error path ending the read: SKIP_WS, then "0x"
   * (lower-case x), then at least one hex digit.
   */
  function PinHex(line: string, cur: Cur): Num
  {
    var s := SkipBlanks(line, cur);
    if s.c != '0' || At(line, s.next) != 'x' then NoNumber
    else HexRun(line, Pos(line, s.next + 1))
  }

  /**
   * get_hex_pin as written (lines 589-610): on a missing "0x" it sets
   * `cptr = NULL` and goes on to `c = *cptr++`, a NULL dereference (None).
   */
  function PinHexAsWritten(line: string, cur: Cur): Option<Num>
  {
    var s := SkipBlanks(line, cur);
    if s.c != '0' || At(line, s.next) != 'x' then None
    else Some(HexRun(line, Pos(line, s.next + 1)))
  }

  /** A whole PIN record line: the thread id, then the type letter. */
  function PinRecord(line: string, mr: Memref): Parsed
  {
    var s := SkipBlanks(line, Start(line));
    match Number(line, s, false)
    case NoNumber => Parsed(false, mr)
    case Num(_, c1) =>
      var t := SkipBlanks(line, c1);
      match TypePin(t.c)
      case None => Parsed(false, mr)
      case Some(op) => PinOperands(line, Coded(mr, op), op, Adv(line, t))
  }

  /** The address; P and F records end here. */
  function PinOperands(line: string, mr: Memref, op: int, cur: Cur): Parsed
  {
    match PinHex(line, cur)
    case NoNumber => Parsed(false, mr)
    case Num(adrs, c1) =>
      var m1 := mr.(adrs := adrs);
      if op == XSTACK || op == XFREE then Parsed(true, m1) else PinSized(line, m1, op, c1)
  }

  /** The size field is read but 8 is stored; A records end here, the others get their segment. */
  function PinSized(line: string, mr: Memref, op: int, cur: Cur): Parsed
  {
    match PinHex(line, cur)
    case NoNumber => Parsed(false, mr)
    case Num(_, _) =>
      var m1 := mr.(size := 8);
      if op == XALLOC then Parsed(true, m1)
      else if op == MRINSTR then Parsed(true, m1.(segmnt := INSTR))
      else Parsed(true, m1.(segmnt := OTHER))
  }

  /** get_hex_pin, its error path ending the read (ok false). */
  method GetHexPin(line: string, cur0: Cur) returns (ok: bool, val: int, cur: Cur)
    ensures ok == PinHex(line, cur0).Num?
    ensures ok ==> Num(val, cur) == PinHex(line, cur0)
  {
    cur := SkipWs(line, cur0);
    var c2 := At(line, cur.next);
    if cur.c != '0' || c2 != 'x' {
      return false, 0, cur;
    }
    cur := Pos(line, cur.next + 1);
    val := 0;
    if !IsHex(cur.c) {
      return false, val, cur;
    }
    ok := true;
    ghost var d := cur;
    while IsHex(cur.c)
      invariant Accum(line, cur, true, val) == Accum(line, d, true, 0)
      decreases Rank(line, cur, IsHex(cur.c))
    {
      val := val * 16 + CharVal(cur.c);
      cur := Adv(line, cur);
    }
  }

  /** `process_pin_nodata`. */
  method ProcessPin(line: string, mr0: Memref) returns (valid: bool, mr: Memref)
    ensures Parsed(valid, mr) == PinRecord(line, mr0)
  {
    mr := mr0;
    var cur := SkipWs(line, Start(line));
    var ok, val;
    ok, val, cur := GetNumber(line, cur, false);
    if !ok {
      return false, mr;
    }
    cur := SkipWs(line, cur);
    var code := TypePin(cur.c);
    if code.None? {
      return false, mr;
    }
    var op := code.value;
    mr := mr.(oper := op);
    if op == MRINSTR {
      mr := mr.(segmnt := INSTR);
    }
    cur := Adv(line, cur);
    ok, val, cur := GetHexPin(line, cur);
    if !ok {
      return false, mr;
    }
    mr := mr.(adrs := val);
    if op == XSTACK || op == XFREE {
      return true, mr;
    }
    ok, val, cur := GetHexPin(line, cur);
    if !ok {
      return false, mr;
    }
    mr := mr.(size := 8);
    if op == XALLOC {
      return true, mr;
    }
    if op == MRINSTR {
      mr := mr.(segmnt := INSTR);
    } else {
      mr := mr.(segmnt := OTHER);
    }
    return true, mr;
  }

  // ---------------------------------------------------------------------
  // Properties
  // ---------------------------------------------------------------------

  /**
   * The switch knows the seven moola letters and R and W, in either case;
   * R is a load and W a store; A is accepted as an allocation.
   */
  lemma PinCodes(ch: char)
    ensures TypePin(ch).Some? <==> Upper(ch) in "AFILMSPRW"
    ensures TypePin(ch).Some? ==> TypePin(ch).value in {XALLOC, XFREE, MRINSTR, MRREAD, MRMODFY, MRWRITE, XSTACK}
    ensures TypePin('R') == TypePin('L') == TypePin('r') == Some(MRREAD)
    ensures TypePin('W') == TypePin('S') == TypePin('w') == Some(MRWRITE)
    ensures TypePin('A') == TypePin('a') == Some(XALLOC)
    ensures TypePin('#').None? && TypePin('\n').None?
  {
  }

  /** The fields a PIN record line sets; the processor id and the data are never written. */
  predicate OnlyPinFields(mr: Memref, r: Memref)
  {
    r == mr.(oper := r.oper, adrs := r.adrs, size := r.size, segmnt := r.segmnt)
  }

  lemma PinFrame(line: string, mr: Memref)
    ensures OnlyPinFields(mr, PinRecord(line, mr).mr)
  {
  }

  /**
   * What a valid PIN record stores: the operation of its letter, its
   * address, size 8 for all but P and F, segment INSTR for I and OTHER for
   * read, write and modify records; P, F and A keep the old segment, P and
   * F the old size.
   */
  lemma PinValid(line: string, mr: Memref)
    ensures var r := PinRecord(line, mr);
      r.valid ==> var op := r.mr.oper;
        && op in {XALLOC, XFREE, MRINSTR, MRREAD, MRMODFY, MRWRITE, XSTACK}
        && r.mr.size == (if op == XSTACK || op == XFREE then mr.size else 8)
        && r.mr.segmnt == (if op == MRINSTR then INSTR
                           else if op in {MRREAD, MRWRITE, MRMODFY} then OTHER
                           else mr.segmnt)
  {
    var s := SkipBlanks(line, Start(line));
    var n1 := Number(line, s, false);
    if n1.Num? {
      var t := SkipBlanks(line, n1.cur);
      if TypePin(t.c).Some? {
        PinCodes(t.c);
      }
    }
  }

  /**
   * get_hex_pin from a cursor at index p: a number is there exactly when
   * "0x" and a hex digit follow the blanks; its value is that of the digit
   * run after the "0x", and the cursor stops right after the run.
   */
  lemma PinHexAt(line: string, p: nat, q: nat, n: nat)
    requires q == NonBlankFrom(line, p) && n == RunFrom(line, q + 2, true)
    ensures PinHex(line, Pos(line, p)).Num? <==> At(line, q) == '0' && At(line, q + 1) == 'x' && n >= 1
    ensures PinHex(line, Pos(line, p)).Num? ==> PinHex(line, Pos(line, p)) == Num(Value(line[q + 2..q + 2 + n], true), Pos(line, q + 2 + n))
  {
    SkipBlanksAt(line, p);
    if At(line, q) == '0' && At(line, q + 1) == 'x' && n >= 1 {
      assert IsHex(At(line, q + 2));
      assert NonBlankFrom(line, q + 2) == q + 2;
      NumberRun(line, q + 2, q + 2, n, true);
    }
  }

  /** Where get_hex_pin as written does not dereference NULL, it reads what the corrected reader reads. */
  lemma PinHexAgrees(line: string, cur: Cur)
    ensures PinHexAsWritten(line, cur).Some? ==> PinHexAsWritten(line, cur).value == PinHex(line, cur)
    ensures PinHexAsWritten(line, cur).None? <==> PinHex(line, cur).NoNumber? && !(SkipBlanks(line, cur).c == '0' && At(line, SkipBlanks(line, cur).next) == 'x')
  {
  }

  /**
   * A line whose thread id and type letter read well but whose address has
   * no "0x": get_hex_pin as written dereferences NULL at the address; the
   * corrected reader refuses the line with only the operation stored.
   */
  lemma MissingPrefix(line: string, mr: Memref, q0: nat, p1: nat, q1: nat, tid: nat, op: int)
    requires SkipBlanks(line, Start(line)) == Pos(line, q0)
    requires Number(line, Pos(line, q0), false) == Num(tid, Pos(line, p1))
    requires SkipBlanks(line, Pos(line, p1)) == Pos(line, q1) && TypePin(At(line, q1)) == Some(op)
    requires var s := SkipBlanks(line, Pos(line, q1 + 1)); !(s.c == '0' && At(line, s.next) == 'x')
    ensures PinHexAsWritten(line, Pos(line, q1 + 1)).None?
    ensures PinRecord(line, mr) == Parsed(false, Coded(mr, op))
  {
  }

  /** "0 L 1f" is such a line: the reader as written crashes on it, the corrected one refuses it. */
  lemma MissingPrefixExample(mr: Memref)
    ensures PinHexAsWritten("0 L 1f\n", Pos("0 L 1f\n", 3)).None?
    ensures PinRecord("0 L 1f\n", mr) == Parsed(false, mr.(oper := MRREAD))
  {
    MissingPrefixLine("0 L 1f\n", mr);
  }

  lemma MissingPrefixLine(line: string, mr: Memref)
    requires line == "0 L 1f\n"
    ensures PinHexAsWritten(line, Pos(line, 3)).None?
    ensures PinRecord(line, mr) == Parsed(false, mr.(oper := MRREAD))
  {
    assert SkipBlanks(line, Start(line)) == Pos(line, 0);
    assert Number(line, Pos(line, 0), false) == Num(0, Pos(line, 1)) by {
      assert RunFrom(line, 1, false) == 0;
      assert line[0..1] == "0";
      assert Value("0", false) == Value("", false) * 10 + 0;
      NumberRun(line, 0, 0, 1, false);
    }
    assert SkipBlanks(line, Pos(line, 1)) == Pos(line, 2) by {
      assert NonBlankFrom(line, 2) == 2;
    }
    assert SkipBlanks(line, Pos(line, 3)) == Pos(line, 4) by {
      assert NonBlankFrom(line, 4) == 4;
    }
    MissingPrefix(line, mr, 0, 1, 2, 0, MRREAD);
  }

  // ---------------------------------------------------------------------
  // Round trip
  // ---------------------------------------------------------------------

  /** How a PIN record is laid out: leading blanks, then the blanks before the type, the address and the size. */
  datatype PinSpacing = PinSpacing(lead: string, s1: string, s2: string, s3: string)

  /** The fields of a PIN record line. */
  datatype PinFields = PinFields(tid: nat, code: char, adrs: nat, size: nat)

  /** Blank runs, the one between address and size not empty, and a type letter the switch knows. */
  predicate PinPrintable(sp: PinSpacing, f: PinFields)
  {
    && TypePin(f.code).Some?
    && Blanks(sp.lead) && Blanks(sp.s1) && Blanks(sp.s2) && Blanks(sp.s3) && |sp.s3| >= 1
  }

  /** The size field, which P and F records do not carry. */
  function PinSizeText(sp: PinSpacing, f: PinFields, op: int): string
  {
    if op == XSTACK || op == XFREE then "" else sp.s3 + PinHexText(f.size)
  }

  /** A hex number as the PIN tool prints it, after "0x". */
  function PinHexText(n: nat): (t: string)
    ensures |t| == 2 + |NumText(n, true)| && t[0] == '0' && t[1] == 'x' && t[2..] == NumText(n, true)
  {
    "0x" + NumText(n, true)
  }

  /** The text after the type letter. */
  function PinBody(sp: PinSpacing, f: PinFields, op: int): string
  {
    sp.s2 + PinHexText(f.adrs) + PinSizeText(sp, f, op)
  }

  /** A PIN record line as the PIN tool prints it. */
  function PrintPin(sp: PinSpacing, f: PinFields, tail: string): string
    requires TypePin(f.code).Some?
  {
    sp.lead + NumText(f.tid, false) + sp.s1 + [f.code] + PinBody(sp, f, TypePin(f.code).value) + tail
  }

  /** The record such a line describes. */
  function PinDescribed(mr: Memref, f: PinFields): Memref
    requires TypePin(f.code).Some?
  {
    var op := TypePin(f.code).value;
    mr.(oper := op, adrs := f.adrs,
        size := if op == XSTACK || op == XFREE then mr.size else 8,
        segmnt := if op == MRINSTR then INSTR else if op in {MRREAD, MRWRITE, MRMODFY} then OTHER else mr.segmnt)
  }

  /** A hex number printed with its "0x" at q after blanks from p, followed at e by a non-digit, reads back. */
  lemma PrintedPinHex(line: string, p: nat, sep: string, n: nat, q: nat, e: nat)
    requires Has(line, p, sep) && Blanks(sep) && q == p + |sep|
    requires Has(line, q, PinHexText(n)) && e == q + |PinHexText(n)| && !IsHex(At(line, e))
    ensures PinHex(line, Pos(line, p)) == Num(n, Pos(line, e))
  {
    var h := PinHexText(n);
    var t := NumText(n, true);
    assert h == h[..2] + t;
    HasSplit(line, q, h[..2], t, q + 2);
    HasAt(line, q, h, 0);
    HasAt(line, q, h, 1);
    HasFirst(line, q + 2, t);
    assert SkipBlanks(line, Pos(line, p)) == Pos(line, q) by {
      HasBlanks(line, p, sep, q);
      SkipBlanksAt(line, p);
    }
    assert Number(line, Pos(line, q + 2), true) == Num(n, Pos(line, e)) by {
      assert Has(line, q + 2, "");
      PrintedNumber(line, q + 2, "", n, true, q + 2, e);
    }
  }

  lemma PinOperandsCompose(line: string, cur: Cur, e: nat, mr: Memref, f: PinFields, op: int)
    requires TypePin(f.code) == Some(op)
    requires PinHex(line, cur) == Num(f.adrs, Pos(line, e))
    requires op != XSTACK && op != XFREE ==> PinHex(line, Pos(line, e)).Num?
    ensures PinOperands(line, Coded(mr, op), op, cur) == Parsed(true, PinDescribed(mr, f))
  {
  }

  /** The text after the type letter reads back as the address, and the size field is read. */
  lemma PinOperandsRoundTrip(line: string, p: nat, sp: PinSpacing, f: PinFields, op: int, mr: Memref, end: nat)
    requires PinPrintable(sp, f) && TypePin(f.code) == Some(op)
    requires Has(line, p, PinBody(sp, f, op)) && end == p + |PinBody(sp, f, op)| && !IsHex(At(line, end))
    ensures PinOperands(line, Coded(mr, op), op, Pos(line, p)) == Parsed(true, PinDescribed(mr, f))
  {
    var adrs := PinHexText(f.adrs);
    var st := PinSizeText(sp, f, op);
    var q := p + |sp.s2|;
    var e := q + |adrs|;
    HasSplit(line, p, sp.s2 + adrs, st, e);
    HasSplit(line, p, sp.s2, adrs, q);
    assert PinHex(line, Pos(line, p)) == Num(f.adrs, Pos(line, e)) by {
      assert !IsHex(At(line, e)) by {
        if |st| > 0 {
          HasFirst(line, e, st);
        } else {
          assert e == end;
        }
      }
      PrintedPinHex(line, p, sp.s2, f.adrs, q, e);
    }
    if op != XSTACK && op != XFREE {
      assert PinHex(line, Pos(line, e)).Num? by {
        HasSplit(line, e, sp.s3, PinHexText(f.size), e + |sp.s3|);
        PrintedPinHex(line, e, sp.s3, f.size, e + |sp.s3|, end);
      }
    }
    PinOperandsCompose(line, Pos(line, p), e, mr, f, op);
  }

  lemma PinRecordCompose(line: string, mr: Memref, q0: nat, p1: nat, q1: nat, b: nat, tid: nat, op: int, d: Memref)
    requires SkipBlanks(line, Start(line)) == Pos(line, q0)
    requires Number(line, Pos(line, q0), false) == Num(tid, Pos(line, p1))
    requires SkipBlanks(line, Pos(line, p1)) == Pos(line, q1) && TypePin(At(line, q1)) == Some(op)
    requires b == q1 + 1 && PinOperands(line, Coded(mr, op), op, Pos(line, b)) == Parsed(true, d)
    ensures PinRecord(line, mr) == Parsed(true, d)
  {
  }

  /** The thread id and the type letter printed at the start of a line read back. */
  lemma PinHeadRoundTrip(line: string, sp: PinSpacing, f: PinFields, q0: nat, p1: nat, q1: nat)
    requires PinPrintable(sp, f) && Has(line, 0, sp.lead + NumText(f.tid, false) + sp.s1 + [f.code])
    requires q0 == |sp.lead| && p1 == q0 + |NumText(f.tid, false)| && q1 == p1 + |sp.s1|
    ensures SkipBlanks(line, Start(line)) == Pos(line, q0)
    ensures Number(line, Pos(line, q0), false) == Num(f.tid, Pos(line, p1))
    ensures SkipBlanks(line, Pos(line, p1)) == Pos(line, q1) && At(line, q1) == f.code
  {
    var tid := NumText(f.tid, false);
    HasSplit(line, 0, sp.lead + tid + sp.s1, [f.code], q1);
    HasSplit(line, 0, sp.lead + tid, sp.s1, p1);
    HasSplit(line, 0, sp.lead, tid, q0);
    HasFirst(line, q1, [f.code]);
    HasFirst(line, q0, tid);
    assert !IsDec(f.code) && !Blank(f.code) by {
      PinCodes(f.code);
    }
    assert SkipBlanks(line, Start(line)) == Pos(line, q0) by {
      HasBlanks(line, 0, sp.lead, q0);
      SkipBlanksAt(line, 0);
    }
    assert Number(line, Pos(line, q0), false) == Num(f.tid, Pos(line, p1)) by {
      assert !IsDec(At(line, p1)) by {
        if |sp.s1| > 0 {
          HasFirst(line, p1, sp.s1);
        }
      }
      assert Has(line, q0, "");
      PrintedNumber(line, q0, "", f.tid, false, q0, p1);
    }
    assert SkipBlanks(line, Pos(line, p1)) == Pos(line, q1) by {
      HasBlanks(line, p1, sp.s1, q1);
      SkipBlanksAt(line, p1);
    }
  }

  /**
   * A PIN record printed with blanks between its fields reads back as the
   * record it describes: the operation of its letter, its address, size 8
   * and the segment of its kind; the thread id and the size printed are
   * dropped.
   */
  lemma PinRoundTrip(sp: PinSpacing, f: PinFields, tail: string, mr: Memref)
    requires PinPrintable(sp, f) && Ending(tail)
    ensures PinRecord(PrintPin(sp, f, tail), mr) == Parsed(true, PinDescribed(mr, f))
  {
    var line := PrintPin(sp, f, tail);
    var op := TypePin(f.code).value;
    var body := PinBody(sp, f, op);
    var head := sp.lead + NumText(f.tid, false) + sp.s1 + [f.code];
    var q0 := |sp.lead|;
    var p1 := q0 + |NumText(f.tid, false)|;
    var q1 := p1 + |sp.s1|;
    HasMiddle(head, body, tail);
    assert Has(line, 0, head) by {
      assert line[..|head|] == head;
    }
    PinHeadRoundTrip(line, sp, f, q0, p1, q1);
    var b := |head|;
    var end := b + |body|;
    assert !IsHex(At(line, end)) by {
      assert At(line, end) == At(tail, 0);
    }
    PinOperandsRoundTrip(line, b, sp, f, op, mr, end);
    PinRecordCompose(line, mr, q0, p1, q1, b, f.tid, op, PinDescribed(mr, f));
  }
}
