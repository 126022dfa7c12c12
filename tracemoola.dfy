/**
 * The moola trace-record format (moola_src/trace_moola.c), one record per
 * line:
 *
 *     type pid address [ size [ data [ segment ] ] ]
 *
 * `process_moola_data` and `process_moola_nodata` differ only in reading
 * the data bytes; the per-line body of `tracegz`
 * (modified_moola_src/tracegz.c) is the same parse with the strict byte
 * reader.  The loops that call them are module TraceGz.  Each writes the
 * fields it has read into the caller's record, also when a later field
 * fails, so the model maps the old record to the new one.
 */
module TraceMoola {
  import opened Defs
  import opened Scan

  /** The upper-case letter for a lower-case one. */
  function Upper(ch: char): char
  {
    if 'a' <= ch <= 'z' then (ch as int - 32) as char else ch
  }

  /** The record-type switch (lines 363-386): the letter in either case names the operation. */
  function TypeCode(ch: char): Option<int>
  {
    match Upper(ch)
    case 'A' => Some(XALLOC)
    case 'F' => Some(XFREE)
    case 'I' => Some(MRINSTR)
    case 'L' => Some(MRREAD)
    case 'M' => Some(MRMODFY)
    case 'S' => Some(MRWRITE)
    case 'P' => Some(XSTACK)
    case _ => None
  }

  /** The segment letter (lines 437-445): heap, stack, global in either case, otherwise OTHER. */
  function SegmentCode(ch: char): int
  {
    match Upper(ch)
    case 'H' => HEAP
    case 'S' => STACK
    case 'G' => GLOBAL
    case _ => OTHER
  }

  /** The switch knows exactly seven letters, in either case, and they name seven different operations. */
  lemma TypeCodes(ch: char, dh: char)
    ensures TypeCode(ch).Some? <==> Upper(ch) in "AFILMSP"
    ensures TypeCode(ch).Some? ==> TypeCode(ch).value in {XALLOC, XFREE, MRINSTR, MRREAD, MRMODFY, MRWRITE, XSTACK}
    ensures TypeCode(ch).Some? && TypeCode(ch) == TypeCode(dh) ==> Upper(ch) == Upper(dh)
    ensures TypeCode('#').None? && TypeCode('\n').None?
  {
  }

  datatype Parsed = Parsed(valid: bool, mr: Memref)

  /** Whether a data field is read, and by which byte reader. */
  datatype DataField = NoData | Data(rule: ByteRule)

  /** The operation is stored at the switch, and an I record gets segment INSTR there. */
  function Coded(mr: Memref, op: int): Memref
  {
    if op == MRINSTR then mr.(oper := op, segmnt := INSTR) else mr.(oper := op)
  }

  /** A whole record line. */
  function Record(line: string, mr: Memref, field: DataField): Parsed
  {
    var s := SkipBlanks(line, Start(line));
    match TypeCode(s.c)
    case None => Parsed(false, mr)
    case Some(op) => Operands(line, Coded(mr, op), op, Adv(line, s), field)
  }

  /** The processor id (decimal, kept as int8_t) and the address (hex); P and F records end here. */
  function Operands(line: string, mr: Memref, op: int, cur: Cur, field: DataField): Parsed
  {
    match Number(line, cur, false)
    case NoNumber => Parsed(false, mr)
    case Num(pid, c1) =>
      var m1 := mr.(pid := Int8(pid));
      match Number(line, c1, true)
      case NoNumber => Parsed(false, m1)
      case Num(adrs, c2) =>
        var m2 := m1.(adrs := adrs);
        if op == XSTACK || op == XFREE then Parsed(true, m2) else Sized(line, m2, op, c2, field)
  }

  /** The size (decimal, kept as int32_t); A records end here; then the data bytes. */
  function Sized(line: string, mr: Memref, op: int, cur: Cur, field: DataField): Parsed
  {
    match Number(line, cur, false)
    case NoNumber => Parsed(false, mr)
    case Num(size, c1) =>
      var m1 := mr.(size := Int32(size));
      if op == XALLOC then Parsed(true, m1) else Payload(line, m1, op, c1, size, field)
  }

  /** The data bytes of a field of `size` bytes, when the parser reads them. */
  function Payload(line: string, mr: Memref, op: int, cur: Cur, size: int, field: DataField): Parsed
  {
    match field
    case NoData => Segmented(line, mr, op, cur)
    case Data(rule) =>
      var bytes := HexBytes(line, cur, size, 0, mr.data, rule);
      var m1 := mr.(data := bytes.data);
      if !bytes.ok then Parsed(false, m1) else Segmented(line, m1, op, bytes.cur)
  }

  /** I records end after the data; the other memory records read a segment letter. */
  function Segmented(line: string, mr: Memref, op: int, cur: Cur): Parsed
  {
    if op == MRINSTR then Parsed(true, mr.(segmnt := INSTR))
    else Parsed(true, mr.(segmnt := SegmentCode(SkipBlanks(line, cur).c)))
  }

  /**
   * `process_moola_data` (field Data(Lenient)) and `process_moola_nodata`
   * (field NoData); with Data(Strict) it is the per-line body of `tracegz`.
   */
  method ParseRecord(line: string, mr0: Memref, field: DataField) returns (valid: bool, mr: Memref)
    ensures Parsed(valid, mr) == Record(line, mr0, field)
  {
    mr := mr0;
    var cur := SkipWs(line, Start(line));
    var code := TypeCode(cur.c);
    if code.None? {
      return false, mr;
    }
    var op := code.value;
    mr := mr.(oper := op);
    if op == MRINSTR {
      mr := mr.(segmnt := INSTR);
    }
    cur := Adv(line, cur);
    var ok, val;
    ok, val, cur := GetNumber(line, cur, false);
    if !ok {
      return false, mr;
    }
    mr := mr.(pid := Int8(val));
    ok, val, cur := GetNumber(line, cur, true);
    if !ok {
      return false, mr;
    }
    mr := mr.(adrs := val);
    if op == XSTACK || op == XFREE {
      return true, mr;
    }
    ok, val, cur := GetNumber(line, cur, false);
    if !ok {
      return false, mr;
    }
    mr := mr.(size := Int32(val));
    if op == XALLOC {
      return true, mr;
    }
    if field.Data? {
      var data;
      ok, data, cur := GetHexBytes(line, cur, val, mr.data, field.rule);
      mr := mr.(data := data);
      if !ok {
        return false, mr;
      }
    }
    if op == MRINSTR {
      mr := mr.(segmnt := INSTR);
      return true, mr;
    }
    cur := SkipWs(line, cur);
    mr := mr.(segmnt := SegmentCode(cur.c));
    return true, mr;
  }

  // ---------------------------------------------------------------------
  // Properties
  // ---------------------------------------------------------------------

  /** Only the six fields a record line carries are ever written, and the data buffer keeps its length. */
  predicate OnlyRecordFields(mr: Memref, r: Memref)
  {
    && r == mr.(oper := r.oper, pid := r.pid, adrs := r.adrs, size := r.size, data := r.data, segmnt := r.segmnt)
    && |r.data| == |mr.data|
  }

  lemma RecordFrame(line: string, mr: Memref, field: DataField)
    ensures OnlyRecordFields(mr, Record(line, mr, field).mr)
    ensures field == NoData ==> Record(line, mr, field).mr.data == mr.data
  {
  }

  /** Whether a line is a valid record does not depend on the record it is read into. */
  lemma RecordValidity(line: string, m1: Memref, m2: Memref, field: DataField)
    ensures Record(line, m1, field).valid == Record(line, m2, field).valid
  {
    var s := SkipBlanks(line, Start(line));
    if TypeCode(s.c).Some? {
      var c0 := Adv(line, s);
      var n1 := Number(line, c0, false);
      if n1.Num? {
        var n2 := Number(line, n1.cur, true);
        if n2.Num? {
          var n3 := Number(line, n2.cur, false);
          if n3.Num? && field.Data? {
            HexBytesShape(line, n3.cur, n3.val, 0, m1.data, m2.data, field.rule);
          }
        }
      }
    }
  }

  /**
   * The type letter decides: a line whose first non-blank character is not
   * a type letter ('#' comments and empty lines among them) is refused and
   * leaves the record as it was; otherwise the operation is that letter's,
   * also when a later field is refused, and an I record's segment is INSTR.
   */
  lemma RecordCode(line: string, mr: Memref, field: DataField)
    ensures var ch := At(line, NonBlankFrom(line, 0));
      var r := Record(line, mr, field);
      && (TypeCode(ch).None? ==> r == Parsed(false, mr))
      && (TypeCode(ch).Some? ==> r.mr.oper == TypeCode(ch).value)
      && (TypeCode(ch) == Some(MRINSTR) ==> r.mr.segmnt == INSTR)
  {
    SkipBlanksAt(line, 0);
  }

  /** How a spaced-out record is laid out: leading blanks, then a run of blanks before each field. */
  datatype Spacing = Spacing(lead: string, s1: string, s2: string, s3: string, s4: string, s5: string)

  /** Blank runs, the ones between numbers not empty. */
  predicate Spaced(sp: Spacing)
  {
    && Blanks(sp.lead) && Blanks(sp.s1) && Blanks(sp.s2) && Blanks(sp.s3) && Blanks(sp.s4) && Blanks(sp.s5)
    && |sp.s2| >= 1 && |sp.s3| >= 1 && |sp.s4| >= 1 && |sp.s5| >= 1
  }

  /** The contents of a record line. */
  datatype Fields = Fields(code: char, pid: nat, adrs: nat, bytes: seq<bv8>, seg: char)

  /** What may follow the last field. */
  predicate Ending(tail: string)
  {
    |tail| == 0 || tail[0] == '\n' || Blank(tail[0])
  }

  /** The segment letter, which I records do not carry. */
  function SegText(sp: Spacing, f: Fields, op: int): string
  {
    if op == MRINSTR then "" else sp.s5 + [f.seg]
  }

  /** The text after the size field. */
  function DataText(sp: Spacing, f: Fields, field: DataField, op: int): string
  {
    (if field.Data? then sp.s4 + HexText(f.bytes) else "") + SegText(sp, f, op)
  }

  /** The text after the address field. */
  function SizeText(sp: Spacing, f: Fields, field: DataField, op: int): string
  {
    if op == XSTACK || op == XFREE then ""
    else sp.s3 + NumText(|f.bytes|, false) + (if op == XALLOC then "" else DataText(sp, f, field, op))
  }

  /** The text after the type letter. */
  function BodyText(sp: Spacing, f: Fields, field: DataField, op: int): string
  {
    sp.s1 + NumText(f.pid, false) + sp.s2 + NumText(f.adrs, true) + SizeText(sp, f, field, op)
  }

  /** A record line as a trace writer prints it: the fields its type carries and nothing else. */
  function PrintRecord(sp: Spacing, f: Fields, field: DataField, tail: string): string
    requires TypeCode(f.code).Some?
  {
    sp.lead + [f.code] + BodyText(sp, f, field, TypeCode(f.code).value) + tail
  }

  /** The segment such a line describes. */
  function SegmentOf(mr: Memref, f: Fields, op: int): Memref
  {
    if op == MRINSTR then mr.(segmnt := INSTR) else mr.(segmnt := SegmentCode(f.seg))
  }

  /** The size, data and segment such a line describes. */
  function SizeOf(mr: Memref, f: Fields, field: DataField, op: int): Memref
    requires |f.bytes| <= |mr.data|
  {
    var m1 := mr.(size := Int32(|f.bytes|));
    if op == XALLOC then m1 else PayloadOf(m1, f, field, op)
  }

  /** The data and segment such a line describes. */
  function PayloadOf(mr: Memref, f: Fields, field: DataField, op: int): Memref
    requires |f.bytes| <= |mr.data|
  {
    SegmentOf(if field.Data? then mr.(data := Overlay(mr.data, f.bytes)) else mr, f, op)
  }

  /** The record such a line describes, written over mr. */
  function Described(mr: Memref, f: Fields, field: DataField): Memref
    requires TypeCode(f.code).Some? && |f.bytes| <= |mr.data|
  {
    var op := TypeCode(f.code).value;
    var m := Coded(mr, op).(pid := Int8(f.pid), adrs := f.adrs);
    if op == XSTACK || op == XFREE then m else SizeOf(m, f, field, op)
  }

  /** The conditions under which a printed record reads back as the record it describes. */
  predicate Printable(sp: Spacing, f: Fields, field: DataField, mr: Memref)
  {
    && TypeCode(f.code).Some? && Spaced(sp) && !Blank(f.seg)
    && 1 <= |f.bytes| <= |mr.data|
    && (field == Data(Lenient) ==> |f.bytes| != 16)
  }

  /** The text after the size starts with a blank, or is empty. */
  lemma DataLead(sp: Spacing, f: Fields, field: DataField, op: int)
    requires Spaced(sp)
    ensures |DataText(sp, f, field, op)| == 0 || Blank(DataText(sp, f, field, op)[0])
  {
  }

  /** The text after the address starts with a blank, or is empty. */
  lemma SizeLead(sp: Spacing, f: Fields, field: DataField, op: int)
    requires Spaced(sp)
    ensures |SizeText(sp, f, field, op)| == 0 || Blank(SizeText(sp, f, field, op)[0])
  {
  }

  // The stages compose: each of these puts together what the stage reads
  // from the parts the lemmas after them read from a printed line.

  lemma PayloadCompose(line: string, cur: Cur, c2: Cur, mr: Memref, f: Fields, rule: ByteRule, op: int)
    requires |f.bytes| <= |mr.data|
    requires HexBytes(line, cur, |f.bytes|, 0, mr.data, rule) == Bytes(true, Overlay(mr.data, f.bytes), c2)
    requires Segmented(line, mr.(data := Overlay(mr.data, f.bytes)), op, c2)
      == Parsed(true, SegmentOf(mr.(data := Overlay(mr.data, f.bytes)), f, op))
    ensures Payload(line, mr, op, cur, |f.bytes|, Data(rule)) == Parsed(true, PayloadOf(mr, f, Data(rule), op))
  {
  }

  lemma SizedCompose(line: string, cur: Cur, p1: nat, mr: Memref, f: Fields, field: DataField, op: int)
    requires op != XSTACK && op != XFREE && |f.bytes| <= |mr.data|
    requires Number(line, cur, false) == Num(|f.bytes|, Pos(line, p1))
    requires op != XALLOC ==>
      var m1 := mr.(size := Int32(|f.bytes|));
      Payload(line, m1, op, Pos(line, p1), |f.bytes|, field) == Parsed(true, PayloadOf(m1, f, field, op))
    ensures Sized(line, mr, op, cur, field) == Parsed(true, SizeOf(mr, f, field, op))
  {
  }

  lemma OperandsCompose(line: string, cur: Cur, p1: nat, p2: nat, mr: Memref, f: Fields, field: DataField, op: int)
    requires |f.bytes| <= |mr.data|
    requires Number(line, cur, false) == Num(f.pid, Pos(line, p1))
    requires Number(line, Pos(line, p1), true) == Num(f.adrs, Pos(line, p2))
    requires op != XSTACK && op != XFREE ==>
      var m := mr.(pid := Int8(f.pid), adrs := f.adrs);
      Sized(line, m, op, Pos(line, p2), field) == Parsed(true, SizeOf(m, f, field, op))
    ensures var m := mr.(pid := Int8(f.pid), adrs := f.adrs);
      Operands(line, mr, op, cur, field) == Parsed(true, if op == XSTACK || op == XFREE then m else SizeOf(m, f, field, op))
  {
  }

  /** Reading a printed segment letter. */
  lemma SegmentRoundTrip(line: string, p: nat, sp: Spacing, f: Fields, op: int, mr: Memref)
    requires Has(line, p, SegText(sp, f, op)) && Blanks(sp.s5) && !Blank(f.seg)
    ensures Segmented(line, mr, op, Pos(line, p)) == Parsed(true, SegmentOf(mr, f, op))
  {
    if op != MRINSTR {
      var q := p + |sp.s5|;
      HasSplit(line, p, sp.s5, [f.seg], q);
      HasFirst(line, q, [f.seg]);
      HasBlanks(line, p, sp.s5, q);
      SkipBlanksAt(line, p);
    }
  }

  /** Reading a printed data field and segment letter. */
  lemma DataRoundTrip(line: string, p: nat, sp: Spacing, f: Fields, rule: ByteRule, op: int, mr: Memref)
    requires Has(line, p, sp.s4 + HexText(f.bytes) + SegText(sp, f, op))
    requires Blanks(sp.s4) && Blanks(sp.s5) && !Blank(f.seg)
    requires 1 <= |f.bytes| <= |mr.data| && (rule == Lenient ==> |f.bytes| != 16)
    ensures Payload(line, mr, op, Pos(line, p), |f.bytes|, Data(rule)) == Parsed(true, PayloadOf(mr, f, Data(rule), op))
  {
    var hex := HexText(f.bytes);
    var m2 := mr.(data := Overlay(mr.data, f.bytes));
    var q := p + |sp.s4|;
    var e := q + 2 * |f.bytes|;
    HasSplit(line, p, sp.s4 + hex, SegText(sp, f, op), e);
    HasSplit(line, p, sp.s4, hex, q);
    assert HexBytes(line, Pos(line, p), |f.bytes|, 0, mr.data, rule) == Bytes(true, m2.data, Pos(line, e)) by {
      BytesStart(line, p, sp.s4, f.bytes, q);
      PrintedBytes(line, p, f.bytes, mr.data, rule, q, e);
    }
    assert Segmented(line, m2, op, Pos(line, e)) == Parsed(true, SegmentOf(m2, f, op)) by {
      SegmentRoundTrip(line, e, sp, f, op, m2);
    }
    PayloadCompose(line, Pos(line, p), Pos(line, e), mr, f, rule, op);
  }

  /** Reading the rest of a record after its size. */
  lemma PayloadRoundTrip(line: string, p: nat, sp: Spacing, f: Fields, field: DataField, op: int, mr: Memref)
    requires Has(line, p, DataText(sp, f, field, op))
    requires Printable(sp, f, field, mr)
    ensures Payload(line, mr, op, Pos(line, p), |f.bytes|, field) == Parsed(true, PayloadOf(mr, f, field, op))
  {
    match field
    case NoData =>
      assert DataText(sp, f, field, op) == SegText(sp, f, op);
      SegmentRoundTrip(line, p, sp, f, op, mr);
    case Data(rule) =>
      DataRoundTrip(line, p, sp, f, rule, op, mr);
  }

  /** Reading a printed size, data field and segment letter, ending at `end`. */
  lemma SizedRoundTrip(line: string, p: nat, sp: Spacing, f: Fields, field: DataField, op: int, mr: Memref, end: nat)
    requires op != XSTACK && op != XFREE
    requires Has(line, p, SizeText(sp, f, field, op)) && end == p + |SizeText(sp, f, field, op)| && !IsHex(At(line, end))
    requires Printable(sp, f, field, mr)
    ensures Sized(line, mr, op, Pos(line, p), field) == Parsed(true, SizeOf(mr, f, field, op))
  {
    var size := NumText(|f.bytes|, false);
    var rest := if op == XALLOC then "" else DataText(sp, f, field, op);
    var q := p + |sp.s3|;
    var e := q + |size|;
    var m1 := mr.(size := Int32(|f.bytes|));
    assert SizeText(sp, f, field, op) == sp.s3 + size + rest;
    HasSplit(line, p, sp.s3 + size, rest, e);
    HasSplit(line, p, sp.s3, size, q);
    assert !IsDec(At(line, e)) by {
      if |rest| > 0 {
        DataLead(sp, f, field, op);
        HasFirst(line, e, rest);
      } else {
        assert e == end;
      }
    }
    PrintedNumber(line, p, sp.s3, |f.bytes|, false, q, e);
    if op != XALLOC {
      assert Payload(line, m1, op, Pos(line, e), |f.bytes|, field) == Parsed(true, PayloadOf(m1, f, field, op)) by {
        PayloadRoundTrip(line, e, sp, f, field, op, m1);
      }
    }
    SizedCompose(line, Pos(line, p), e, mr, f, field, op);
  }

  /** Reading a printed processor id and address, then the rest, ending at `end`. */
  lemma OperandsRoundTrip(line: string, p: nat, sp: Spacing, f: Fields, field: DataField, op: int, mr: Memref, end: nat)
    requires Has(line, p, BodyText(sp, f, field, op)) && end == p + |BodyText(sp, f, field, op)| && !IsHex(At(line, end))
    requires Printable(sp, f, field, mr)
    ensures var m := mr.(pid := Int8(f.pid), adrs := f.adrs);
      Operands(line, mr, op, Pos(line, p), field)
        == Parsed(true, if op == XSTACK || op == XFREE then m else SizeOf(m, f, field, op))
  {
    var pid := NumText(f.pid, false);
    var adrs := NumText(f.adrs, true);
    var st := SizeText(sp, f, field, op);
    var q1 := p + |sp.s1|;
    var p1 := q1 + |pid|;
    var q2 := p1 + |sp.s2|;
    var p2 := q2 + |adrs|;
    var m := mr.(pid := Int8(f.pid), adrs := f.adrs);
    HasSplit(line, p, sp.s1 + pid + sp.s2 + adrs, st, p2);
    HasSplit(line, p, sp.s1 + pid + sp.s2, adrs, q2);
    HasSplit(line, p, sp.s1 + pid, sp.s2, p1);
    HasSplit(line, p, sp.s1, pid, q1);
    assert Number(line, Pos(line, p), false) == Num(f.pid, Pos(line, p1)) by {
      HasFirst(line, p1, sp.s2);
      PrintedNumber(line, p, sp.s1, f.pid, false, q1, p1);
    }
    assert Number(line, Pos(line, p1), true) == Num(f.adrs, Pos(line, p2)) by {
      assert !IsHex(At(line, p2)) by {
        if |st| > 0 {
          SizeLead(sp, f, field, op);
          HasFirst(line, p2, st);
        } else {
          assert p2 == end;
        }
      }
      PrintedNumber(line, p1, sp.s2, f.adrs, true, q2, p2);
    }
    if op != XSTACK && op != XFREE {
      assert Sized(line, m, op, Pos(line, p2), field) == Parsed(true, SizeOf(m, f, field, op)) by {
        SizedRoundTrip(line, p2, sp, f, field, op, m, end);
      }
    }
    OperandsCompose(line, Pos(line, p), p1, p2, mr, f, field, op);
  }

  /**
   * A record printed with the fields its type carries, blanks between
   * them, reads back as the record it describes: the type, the processor
   * id as int8_t, the address, the size as int32_t, the data bytes over
   * the start of the buffer, and the segment letter.
   */
  lemma RecordRoundTrip(sp: Spacing, f: Fields, field: DataField, tail: string, mr: Memref)
    requires Printable(sp, f, field, mr) && Ending(tail)
    ensures Record(PrintRecord(sp, f, field, tail), mr, field) == Parsed(true, Described(mr, f, field))
  {
    var line := PrintRecord(sp, f, field, tail);
    var op := TypeCode(f.code).value;
    var q := |sp.lead|;
    var p := q + 1;
    var end := p + |BodyText(sp, f, field, op)|;
    RecordLayout(sp, f, field, tail, line, op, q, p, end);
    OperandsRoundTrip(line, p, sp, f, field, op, Coded(mr, op), end);
    RecordCompose(line, q, p, mr, f, field, op);
  }

  /** Where the fields of a printed record sit in its line. */
  lemma RecordLayout(sp: Spacing, f: Fields, field: DataField, tail: string, line: string, op: int, q: nat, p: nat, end: nat)
    requires Spaced(sp) && !Blank(f.code) && Ending(tail) && TypeCode(f.code) == Some(op)
    requires line == PrintRecord(sp, f, field, tail) && q == |sp.lead| && p == q + 1 && end == p + |BodyText(sp, f, field, op)|
    ensures SkipBlanks(line, Start(line)) == Pos(line, q) && At(line, q) == f.code
    ensures Has(line, p, BodyText(sp, f, field, op)) && !IsHex(At(line, end))
  {
    var body := BodyText(sp, f, field, op);
    var head := sp.lead + [f.code];
    HasMiddle(head, body, tail);
    assert Has(line, 0, head) by {
      assert line[..|head|] == head;
    }
    HasSplit(line, 0, sp.lead, [f.code], q);
    HasFirst(line, q, [f.code]);
    HasBlanks(line, 0, sp.lead, q);
    SkipBlanksAt(line, 0);
  }

  /** A line whose type letter sits at q and whose operands read back reads back as the record. */
  lemma RecordCompose(line: string, q: nat, p: nat, mr: Memref, f: Fields, field: DataField, op: int)
    requires TypeCode(f.code) == Some(op) && |f.bytes| <= |mr.data| && p == q + 1
    requires SkipBlanks(line, Start(line)) == Pos(line, q) && At(line, q) == f.code
    requires var m := Coded(mr, op).(pid := Int8(f.pid), adrs := f.adrs);
      Operands(line, Coded(mr, op), op, Pos(line, p), field)
        == Parsed(true, if op == XSTACK || op == XFREE then m else SizeOf(m, f, field, op))
    ensures Record(line, mr, field) == Parsed(true, Described(mr, f, field))
  {
  }

  // The spaced-out load record of the test trace (trace_moola.c line 626).

  lemma SpacedTestAddress()
    ensures NumText(0xb1ade40, true) == "b1ade40"
  {
    assert NumText(0xb, true) == "b";
    assert NumText(0xb1, true) == "b1";
    assert NumText(0xb1a, true) == "b1a";
    assert NumText(0xb1ad, true) == "b1ad";
    assert NumText(0xb1ade, true) == "b1ade";
    assert NumText(0xb1ade4, true) == "b1ade4";
  }

  lemma SpacedTestPieces()
    ensures "  L" + "  1" + "  b1ade40" + "  4" + "   12345678" + "  H" + "   \n" == "  L  1  b1ade40  4   12345678  H   \n"
  {
  }

  /** The fields of the test line, printed one by one. */
  lemma SpacedTestBody(sp: Spacing, f: Fields)
    requires sp == Spacing("  ", "  ", "  ", "  ", "   ", "  ")
    requires f == Fields('L', 1, 0xb1ade40, [0x12, 0x34, 0x56, 0x78], 'H')
    requires NumText(f.adrs, true) == "b1ade40" && HexText(f.bytes) == "12345678"
    ensures BodyText(sp, f, Data(Lenient), MRREAD) == "  1" + "  b1ade40" + "  4" + "   12345678" + "  H"
  {
    assert NumText(f.pid, false) == "1";
    assert NumText(|f.bytes|, false) == "4";
  }

  /** The test line is the printed form of its fields. */
  lemma SpacedTestText(sp: Spacing, f: Fields)
    requires sp == Spacing("  ", "  ", "  ", "  ", "   ", "  ")
    requires f == Fields('L', 1, 0xb1ade40, [0x12, 0x34, 0x56, 0x78], 'H')
    ensures PrintRecord(sp, f, Data(Lenient), "   \n") == "  L" + "  1" + "  b1ade40" + "  4" + "   12345678" + "  H" + "   \n"
  {
    SpacedTestAddress();
    assert HexText(f.bytes) == "12345678";
    SpacedTestBody(sp, f);
    assert sp.lead + [f.code] == "  L";
  }

  lemma SpacedTestPrintable(sp: Spacing, f: Fields, mr: Memref)
    requires sp == Spacing("  ", "  ", "  ", "  ", "   ", "  ")
    requires f == Fields('L', 1, 0xb1ade40, [0x12, 0x34, 0x56, 0x78], 'H') && |mr.data| >= 4
    ensures Printable(sp, f, Data(Lenient), mr)
  {
  }

  /** The record the test line describes. */
  lemma SpacedTestDescribed(f: Fields, mr: Memref)
    requires f == Fields('L', 1, 0xb1ade40, [0x12, 0x34, 0x56, 0x78], 'H') && |mr.data| >= 4
    ensures Described(mr, f, Data(Lenient)) == mr.(oper := MRREAD, pid := 1, adrs := 0xb1ade40, size := 4,
      data := [0x12, 0x34, 0x56, 0x78] + mr.data[4..], segmnt := HEAP)
  {
    WrapInRange(1);
    WrapInRange(4);
  }

  /**
   * Read with the data bytes, the spaced-out test record is a 4-byte heap
   * load by processor 1 of address 0xb1ade40, data 12 34 56 78.
   */
  lemma SpacedTestRecord(mr: Memref)
    requires |mr.data| >= 4
    ensures Record("  L  1  b1ade40  4   12345678  H   \n", mr, Data(Lenient))
      == Parsed(true, mr.(oper := MRREAD, pid := 1, adrs := 0xb1ade40, size := 4,
                          data := [0x12, 0x34, 0x56, 0x78] + mr.data[4..], segmnt := HEAP))
  {
    var sp := Spacing("  ", "  ", "  ", "  ", "   ", "  ");
    var f := Fields('L', 1, 0xb1ade40, [0x12, 0x34, 0x56, 0x78], 'H');
    SpacedTestText(sp, f);
    SpacedTestPieces();
    SpacedTestDescribed(f, mr);
    SpacedTestPrintable(sp, f, mr);
    RecordRoundTrip(sp, f, Data(Lenient), "   \n", mr);
  }
}
