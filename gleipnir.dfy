/**
 * The Gleipnir trace format without data values
 * (modified_moola_src/trace_gleipnir.c, `process_nodata`), one record per
 * line:
 *
 *     type virtual physical size thread [segment] [function [scope [variable]]]
 *
 * The two addresses are hex, size and thread decimal; the processor is the
 * thread modulo the number of cores; I records carry no segment letter.
 * The three names are C strings in the record: the model holds the text
 * before each one's terminating NUL.  The value `strtol` reads after a heap
 * scope is a parameter.
 */
module Gleipnir {
  import opened Defs
  import opened Scan
  import opened TraceMoola

  // ---------------------------------------------------------------------
  // Names
  // ---------------------------------------------------------------------

  /** The characters that end a copied name; a variable name also ends at '[' or '.'. */
  predicate NameStop(ch: char, dots: bool)
  {
    ch == '\n' || ch == ' ' || ch == '\t' || (dots && (ch == '[' || ch == '.'))
  }

  /**
   * The copy loop `while (c not a stop && i < limit) { name[i++] = c; c = *cptr++; }`:
   * the characters copied and the cursor after them.
   */
  function NameFrom(line: string, cur: Cur, limit: nat, dots: bool): (r: (seq<char>, Cur))
    ensures |r.0| <= limit
    ensures forall i :: 0 <= i < |r.0| ==> !NameStop(r.0[i], dots)
    ensures |r.0| < limit ==> NameStop(r.1.c, dots)
    decreases limit
  {
    if limit == 0 || NameStop(cur.c, dots) then ([], cur)
    else
      var rest := NameFrom(line, Adv(line, cur), limit - 1, dots);
      ([cur.c] + rest.0, rest.1)
  }

  /** The C string held in a character array: the characters before the first NUL. */
  function CStr(s: seq<char>): (r: seq<char>)
    ensures |r| <= |s| && r == s[..|r|]
    ensures forall i :: 0 <= i < |r| ==> r[i] != '\0'
    ensures |r| < |s| ==> s[|r|] == '\0'
  {
    if |s| == 0 || s[0] == '\0' then [] else [s[0]] + CStr(s[1..])
  }

  /** The characters that end skipping the rest of an over-long function name, the end of the text among them. */
  predicate SkipStop(ch: char)
  {
    NameStop(ch, false) || ch == '\0'
  }

  /** Skipping the rest of an over-long function name (the corrected loop, reading the line). */
  function SkipName(line: string, cur: Cur): (r: Cur)
    ensures SkipStop(r.c)
    decreases Rank(line, cur, !SkipStop(cur.c))
  {
    if SkipStop(cur.c) then cur
    else
      var nxt := Adv(line, cur);
      assert Rank(line, nxt, !SkipStop(nxt.c)) < Rank(line, cur, true);
      SkipName(line, nxt)
  }

  /** The number of passes of the skip loop as written, `cptr` holding address a: until a's low byte is a blank or newline. */
  function PtrSkipSteps(a: nat): (k: nat)
    ensures k >= 1
    decreases if a % 256 <= 10 then 10 - a % 256 else 266 - a % 256
  {
    if a % 256 == 9 || a % 256 == 10 || a % 256 == 32 then 1
    else
      assert (a + 1) % 256 == (if a % 256 == 255 then 0 else a % 256 + 1);
      1 + PtrSkipSteps(a + 1)
  }

  /**
   * The skip loop as written (line 439), `c = cptr++`: each pass stores
   * the low byte of the pointer in c, not the character it points at, so
   * the loop ends on the buffer's address, with c that byte.  `a` is the
   * address `cptr` holds on entry.
   */
  function SkipNameAsWritten(cur: Cur, a: nat): Cur
  {
    if NameStop(cur.c, false) then cur
    else
      var k := PtrSkipSteps(a);
      Cur(((a + k - 1) % 256) as char, cur.next + k)
  }

  /** The vname a record gets before its variable field is read (lines 408-424). */
  function DefaultVname(segmnt: int): string
  {
    if segmnt == GLOBAL then "_global_"
    else if segmnt == HEAP then "_heap_"
    else if segmnt == INSTR then "_instruction_"
    else if segmnt == STACK then "_stack_"
    else "_unknown_"
  }

  /** The defaults set once the segment is known, for a line that ends early. */
  function Defaulted(mr: Memref): Memref
  {
    mr.(fname := "_unknown_", scope := "NA", hEnum := 0, vname := DefaultVname(mr.segmnt))
  }

  /** The longest name the record's 128-byte arrays hold with their NUL. */
  const NAME_LIMIT: nat := NAME_BYTES - 1

  // ---------------------------------------------------------------------
  // process_nodata
  // ---------------------------------------------------------------------

  /**
   * `process_nodata`, nmbr_cores being `cores`, and `hval` the value
   * strtol reads after a heap scope.  The names are cleared first.
   */
  function GlRecord(line: string, mr: Memref, cores: int, hval: int): Parsed
    requires cores != 0
  {
    var m0 := mr.(fname := "", scope := "", vname := "");
    var s := SkipBlanks(line, Start(line));
    match TypeCode(s.c)
    case None => Parsed(false, m0)
    case Some(op) =>
      var m1 := m0.(oper := op);
      var t := Adv(line, s);
      if t.c == 'T' || !Blank(t.c) then Parsed(false, m1)
      else GlNumbers(line, m1, op, t, cores, hval)
  }

  /** The virtual and physical addresses (hex), the size (decimal, int32_t) and the thread (decimal). */
  function GlNumbers(line: string, mr: Memref, op: int, cur: Cur, cores: int, hval: int): Parsed
    requires cores != 0
  {
    match Number(line, cur, true)
    case NoNumber => Parsed(false, mr)
    case Num(va, c1) =>
      var m1 := mr.(virtAdrs := va);
      match Number(line, c1, true)
      case NoNumber => Parsed(false, m1)
      case Num(pa, c2) =>
        var m2 := m1.(adrs := pa);
        match Number(line, c2, false)
        case NoNumber => Parsed(false, m2)
        case Num(size, c3) =>
          var m3 := m2.(size := Int32(size));
          match Number(line, c3, false)
          case NoNumber => Parsed(false, m3)
          case Num(tid, c4) => GlSegment(line, m3.(pid := Int8(CRem(tid, cores))), op, c4, hval)
  }

  /** The segment letter, which I records do not have, then the defaults and the names. */
  function GlSegment(line: string, mr: Memref, op: int, cur: Cur, hval: int): Parsed
  {
    var s := SkipBlanks(line, cur);
    if op == MRINSTR then GlFunction(line, Defaulted(mr.(segmnt := INSTR)), s, hval)
    else GlFunction(line, Defaulted(mr.(segmnt := SegmentCode(s.c))), Adv(line, s), hval)
  }

  /** The function name; a name as long as the limit has the rest of it skipped. */
  function GlFunction(line: string, mr: Memref, cur: Cur, hval: int): Parsed
  {
    var s := SkipBlanks(line, cur);
    if s.c == '\n' then Parsed(true, mr)
    else
      var (name, e) := NameFrom(line, s, NAME_LIMIT, false);
      var m1 := mr.(fname := CStr(name));
      GlScope(line, m1, if |name| >= NAME_LIMIT then SkipName(line, e) else e, hval)
  }

  /** The two scope characters; a heap scope 'H' keeps one and takes the heap number. */
  function GlScope(line: string, mr: Memref, cur: Cur, hval: int): Parsed
  {
    var s := SkipBlanks(line, cur);
    if s.c == '\n' then Parsed(true, mr)
    else
      var c2 := At(line, s.next);
      var m1 := if s.c == 'H' then mr.(scope := "H", hEnum := Int32(hval)) else mr.(scope := CStr([s.c, c2]));
      GlVariable(line, m1, Pos(line, s.next + 1))
  }

  /** The first component of the variable name; the rest of the line is ignored. */
  function GlVariable(line: string, mr: Memref, cur: Cur): Parsed
  {
    var s := SkipBlanks(line, cur);
    if s.c == '\n' then Parsed(true, mr)
    else Parsed(true, mr.(vname := CStr(NameFrom(line, s, NAME_LIMIT, true).0)))
  }

  /** The copy loop into a name array. */
  method CopyName(line: string, cur0: Cur, limit: nat, dots: bool) returns (name: seq<char>, cur: Cur)
    ensures (name, cur) == NameFrom(line, cur0, limit, dots)
  {
    name := [];
    cur := cur0;
    var i: nat := 0;
    while !NameStop(cur.c, dots) && i < limit
      invariant i <= limit && |name| == i
      invariant name + NameFrom(line, cur, limit - i, dots).0 == NameFrom(line, cur0, limit, dots).0
      invariant NameFrom(line, cur, limit - i, dots).1 == NameFrom(line, cur0, limit, dots).1
      decreases limit - i
    {
      NameStep(line, cur, limit - i, dots, name);
      name := name + [cur.c];
      cur := Adv(line, cur);
      i := i + 1;
    }
    assert NameFrom(line, cur, limit - i, dots) == ([], cur);
    assert name + [] == name;
  }

  /** One character copied: it moves from the rest of the name to the part already copied. */
  lemma NameStep(line: string, cur: Cur, k: nat, dots: bool, name: seq<char>)
    requires k > 0 && !NameStop(cur.c, dots)
    ensures name + NameFrom(line, cur, k, dots).0 == (name + [cur.c]) + NameFrom(line, Adv(line, cur), k - 1, dots).0
    ensures NameFrom(line, cur, k, dots).1 == NameFrom(line, Adv(line, cur), k - 1, dots).1
  {
    var rest := NameFrom(line, Adv(line, cur), k - 1, dots).0;
    assert name + ([cur.c] + rest) == (name + [cur.c]) + rest;
  }

  /** The loop skipping the rest of an over-long function name. */
  method SkipRest(line: string, cur0: Cur) returns (cur: Cur)
    ensures cur == SkipName(line, cur0)
  {
    cur := cur0;
    while !SkipStop(cur.c)
      invariant SkipName(line, cur) == SkipName(line, cur0)
      decreases Rank(line, cur, !SkipStop(cur.c))
    {
      cur := Adv(line, cur);
    }
  }

  /** `process_nodata`. */
  method ProcessGleipnir(line: string, mr0: Memref, cores: int, hval: int) returns (valid: bool, mr: Memref)
    requires cores != 0
    ensures Parsed(valid, mr) == GlRecord(line, mr0, cores, hval)
  {
    mr := mr0.(fname := "", scope := "", vname := "");
    var cur := SkipWs(line, Start(line));
    var code := TypeCode(cur.c);
    if code.None? {
      return false, mr;
    }
    var op := code.value;
    mr := mr.(oper := op);
    cur := Adv(line, cur);
    if cur.c == 'T' || !Blank(cur.c) {
      return false, mr;
    }
    var ok, val;
    ok, val, cur := GetNumber(line, cur, true);
    if !ok {
      return false, mr;
    }
    mr := mr.(virtAdrs := val);
    ok, val, cur := GetNumber(line, cur, true);
    if !ok {
      return false, mr;
    }
    mr := mr.(adrs := val);
    ok, val, cur := GetNumber(line, cur, false);
    if !ok {
      return false, mr;
    }
    mr := mr.(size := Int32(val));
    ok, val, cur := GetNumber(line, cur, false);
    if !ok {
      return false, mr;
    }
    mr := mr.(pid := Int8(CRem(val, cores)));
    valid, mr := ReadNames(line, mr, op, cur, hval);
  }

  /** The segment and the names, from the cursor after the thread id. */
  method ReadNames(line: string, mr0: Memref, op: int, cur0: Cur, hval: int) returns (valid: bool, mr: Memref)
    ensures Parsed(valid, mr) == GlSegment(line, mr0, op, cur0, hval)
  {
    mr := mr0;
    var cur := SkipWs(line, cur0);
    if op == MRINSTR {
      mr := mr.(segmnt := INSTR);
    } else {
      mr := mr.(segmnt := SegmentCode(cur.c));
      cur := Adv(line, cur);
    }
    valid, mr := ReadFunction(line, Defaulted(mr), cur, hval);
  }

  /** The function name part of ReadNames. */
  method ReadFunction(line: string, mr0: Memref, cur0: Cur, hval: int) returns (valid: bool, mr: Memref)
    ensures Parsed(valid, mr) == GlFunction(line, mr0, cur0, hval)
  {
    mr := mr0;
    var cur := SkipWs(line, cur0);
    if cur.c == '\n' {
      return true, mr;
    }
    var name;
    name, cur := CopyName(line, cur, NAME_LIMIT, false);
    mr := mr.(fname := CStr(name));
    if |name| >= NAME_LIMIT {
      cur := SkipRest(line, cur);
    }
    valid, mr := ReadScope(line, mr, cur, hval);
  }

  /** The scope and variable name part of ReadNames. */
  method ReadScope(line: string, mr0: Memref, cur0: Cur, hval: int) returns (valid: bool, mr: Memref)
    ensures Parsed(valid, mr) == GlScope(line, mr0, cur0, hval)
  {
    mr := mr0;
    var cur := SkipWs(line, cur0);
    if cur.c == '\n' {
      return true, mr;
    }
    var c2 := At(line, cur.next);
    if cur.c == 'H' {
      mr := mr.(scope := "H", hEnum := Int32(hval));
    } else {
      mr := mr.(scope := CStr([cur.c, c2]));
    }
    cur := Pos(line, cur.next + 1);
    cur := SkipWs(line, cur);
    if cur.c == '\n' {
      return true, mr;
    }
    var name;
    name, cur := CopyName(line, cur, NAME_LIMIT, true);
    mr := mr.(vname := CStr(name));
    return true, mr;
  }

  // ---------------------------------------------------------------------
  // Properties
  // ---------------------------------------------------------------------

  /**
   * The lines skipped: a first non-blank character that is no type letter
   * (X and x, the '#' comments and empty lines among them), a 'T' right
   * after the letter (the "START PID" header), or anything but a blank
   * there.  A valid record has a type letter followed by a blank.
   */
  lemma GlSkips(line: string, mr: Memref, cores: int, hval: int)
    requires cores != 0
    ensures var q := NonBlankFrom(line, 0);
      var r := GlRecord(line, mr, cores, hval);
      && (Upper(At(line, q)) == 'X' || At(line, q) == '#' || At(line, q) == '\n' ==> !r.valid)
      && (At(line, q + 1) == 'T' ==> !r.valid)
      && (r.valid ==> TypeCode(At(line, q)).Some? && Blank(At(line, q + 1)) && r.mr.oper == TypeCode(At(line, q)).value)
  {
    SkipBlanksAt(line, 0);
    var s := SkipBlanks(line, Start(line));
    SkippedLetters(s.c);
    match TypeCode(s.c)
    case None =>
    case Some(op) =>
      var t := Adv(line, s);
      if !(t.c == 'T' || !Blank(t.c)) {
        NumbersKeepOper(line, mr.(fname := "", scope := "", vname := "", oper := op), op, t, cores, hval);
      }
  }

  /** The comment, header and end-of-line characters name no operation. */
  lemma SkippedLetters(c: char)
    ensures Upper(c) == 'X' || c == '#' || c == '\n' ==> TypeCode(c) == None
  {
  }

  /** The numbers and names after the type letter never change the operation. */
  lemma NumbersKeepOper(line: string, mr: Memref, op: int, cur: Cur, cores: int, hval: int)
    requires cores != 0
    ensures GlNumbers(line, mr, op, cur, cores, hval).mr.oper == mr.oper
  {
  }

  /** The fields a Gleipnir line sets; the data, time, line number, ASID and split flag are never written. */
  predicate OnlyGleipnirFields(mr: Memref, r: Memref)
  {
    r == mr.(oper := r.oper, virtAdrs := r.virtAdrs, adrs := r.adrs, size := r.size, pid := r.pid,
             segmnt := r.segmnt, fname := r.fname, scope := r.scope, vname := r.vname, hEnum := r.hEnum)
  }

  lemma FrameSteps(m1: Memref, m2: Memref, m3: Memref)
    requires OnlyGleipnirFields(m1, m2) && OnlyGleipnirFields(m2, m3)
    ensures OnlyGleipnirFields(m1, m3)
  {
  }

  lemma ScopeFrame(line: string, mr: Memref, cur: Cur, hval: int)
    ensures OnlyGleipnirFields(mr, GlScope(line, mr, cur, hval).mr)
  {
    var s := SkipBlanks(line, cur);
    if s.c != '\n' {
      var m1 := if s.c == 'H' then mr.(scope := "H", hEnum := Int32(hval)) else mr.(scope := CStr([s.c, At(line, s.next)]));
      FrameSteps(mr, m1, GlVariable(line, m1, Pos(line, s.next + 1)).mr);
    }
  }

  lemma SegmentFrame(line: string, mr: Memref, op: int, cur: Cur, hval: int)
    ensures OnlyGleipnirFields(mr, GlSegment(line, mr, op, cur, hval).mr)
  {
    var s := SkipBlanks(line, cur);
    var m1 := Defaulted(mr.(segmnt := if op == MRINSTR then INSTR else SegmentCode(s.c)));
    var c1 := if op == MRINSTR then s else Adv(line, s);
    assert GlSegment(line, mr, op, cur, hval) == GlFunction(line, m1, c1, hval);
    var t := SkipBlanks(line, c1);
    if t.c != '\n' {
      var (name, e) := NameFrom(line, t, NAME_LIMIT, false);
      var m2 := m1.(fname := CStr(name));
      var e2 := if |name| >= NAME_LIMIT then SkipName(line, e) else e;
      ScopeFrame(line, m2, e2, hval);
      FrameSteps(m1, m2, GlScope(line, m2, e2, hval).mr);
    }
    FrameSteps(mr, m1, GlFunction(line, m1, c1, hval).mr);
  }

  lemma GlFrame(line: string, mr: Memref, cores: int, hval: int)
    requires cores != 0
    ensures OnlyGleipnirFields(mr, GlRecord(line, mr, cores, hval).mr)
  {
    var s := SkipBlanks(line, Start(line));
    var code := TypeCode(s.c);
    if code.Some? {
      var m1 := mr.(fname := "", scope := "", vname := "", oper := code.value);
      var t := Adv(line, s);
      if !(t.c == 'T' || !Blank(t.c)) {
        var n1 := Number(line, t, true);
        if n1.Num? {
          var n2 := Number(line, n1.cur, true);
          if n2.Num? {
            var n3 := Number(line, n2.cur, false);
            if n3.Num? {
              var n4 := Number(line, n3.cur, false);
              if n4.Num? {
                var m4 := m1.(virtAdrs := n1.val, adrs := n2.val, size := Int32(n3.val), pid := Int8(CRem(n4.val, cores)));
                SegmentFrame(line, m4, code.value, n4.cur, hval);
                FrameSteps(mr, m4, GlSegment(line, m4, code.value, n4.cur, hval).mr);
              }
            }
          }
        }
      }
    }
  }

  /** A name copy takes at most the limit, no character that ends a name, and stops at one unless the limit ended it. */
  lemma NameCopy(line: string, cur: Cur, dots: bool)
    ensures var (name, e) := NameFrom(line, cur, NAME_LIMIT, dots);
      && |name| + 1 <= NAME_BYTES
      && (forall i :: 0 <= i < |CStr(name)| ==> !NameStop(CStr(name)[i], dots) && CStr(name)[i] != '\0')
      && (|name| < NAME_LIMIT ==> NameStop(e.c, dots))
  {
  }

  /** The processor is the thread id modulo the cores, in range when there are at most 128. */
  lemma GlProcessor(tid: int, cores: int)
    requires 0 <= tid && 1 <= cores <= 128
    ensures 0 <= Int8(CRem(tid, cores)) < cores
    ensures Int8(CRem(tid, cores)) == tid % cores
  {
    WrapInRange(CRem(tid, cores));
  }

  /**
   * A line that ends after the segment (or, for I, after the thread) gets
   * the defaults: function "_unknown_", scope "NA", heap number 0 and the
   * variable name of its segment.
   */
  lemma EarlyEnd(line: string, mr: Memref, op: int, cur: Cur, hval: int)
    requires var s := SkipBlanks(line, cur);
      SkipBlanks(line, if op == MRINSTR then s else Adv(line, s)).c == '\n'
    ensures var r := GlSegment(line, mr, op, cur, hval);
      && r.valid && r.mr.fname == "_unknown_" && r.mr.scope == "NA" && r.mr.hEnum == 0
      && r.mr.segmnt == (if op == MRINSTR then INSTR else SegmentCode(SkipBlanks(line, cur).c))
      && r.mr.vname == DefaultVname(r.mr.segmnt)
      && r.mr == mr.(segmnt := r.mr.segmnt, fname := r.mr.fname, scope := r.mr.scope, hEnum := r.mr.hEnum, vname := r.mr.vname)
  {
  }

  /** A heap scope 'H' is kept as "H" alone and sets the heap number to what strtol read. */
  lemma HeapScope(line: string, mr: Memref, cur: Cur, hval: int)
    requires SkipBlanks(line, cur).c == 'H'
    ensures var r := GlScope(line, mr, cur, hval);
      r.valid && r.mr.scope == "H" && r.mr.hEnum == Int32(hval)
  {
  }

  // ---------------------------------------------------------------------
  // The name copies as written
  // ---------------------------------------------------------------------

  /**
   * The index the copy loop as written (lines 433-437 and 466-470) stores
   * its terminating NUL at: its limits are FSIZE-1 and VSIZE-1, 255, but
   * `fname` and `vname` are 128-byte arrays (moola.h line 164).
   */
  function NameEndAsWritten(line: string, cur: Cur, dots: bool): nat
  {
    |NameFrom(line, cur, (if dots then VSIZE else FSIZE) - 1, dots).0|
  }

  /** A copy with a larger limit takes at least as much of a name as one with a smaller limit. */
  lemma {:induction false} NameLonger(line: string, cur: Cur, l1: nat, l2: nat, dots: bool)
    requires l1 <= l2
    ensures |NameFrom(line, cur, l1, dots).0| <= |NameFrom(line, cur, l2, dots).0|
    ensures |NameFrom(line, cur, l1, dots).0| == l1 ==> |NameFrom(line, cur, l2, dots).0| >= l1
    decreases l1
  {
    if l1 > 0 && !NameStop(cur.c, dots) {
      NameLonger(line, Adv(line, cur), l1 - 1, l2 - 1, dots);
    }
  }

  /** A name of 128 characters or more has its NUL, and more, written past the end of its array. */
  lemma NameOverflow(line: string, cur: Cur, dots: bool)
    requires |NameFrom(line, cur, NAME_BYTES, dots).0| == NAME_BYTES
    ensures NameEndAsWritten(line, cur, dots) >= NAME_BYTES
  {
    NameLonger(line, cur, NAME_BYTES, (if dots then VSIZE else FSIZE) - 1, dots);
  }

  /**
   * The skip loop as written ends on the address, not on the line: with
   * `cptr` at an address whose low byte is 10 it stops at once with c a
   * newline, where the line has a blank, so the scope and variable fields
   * that follow are never read; the corrected loop stops at that blank.
   */
  lemma SkipByAddress(line: string, cur: Cur, a: nat, mr: Memref, hval: int)
    requires !SkipStop(cur.c) && At(line, cur.next) == ' ' && a % 256 == 10
    ensures SkipNameAsWritten(cur, a) == Cur('\n', cur.next + 1)
    ensures GlScope(line, mr, SkipNameAsWritten(cur, a), hval) == Parsed(true, mr)
    ensures SkipName(line, cur) == Cur(' ', cur.next + 1)
  {
    assert PtrSkipSteps(a) == 1;
    assert SkipName(line, Adv(line, cur)) == Adv(line, cur);
  }

  // ---------------------------------------------------------------------
  // Round trip
  // ---------------------------------------------------------------------

  /** A run of blanks before each field of a Gleipnir line, after leading blanks. */
  datatype GlSpacing = GlSpacing(lead: string, s1: string, s2: string, s3: string, s4: string, s5: string,
                                 s6: string, s7: string, s8: string)

  /** The fields of a Gleipnir line; `sc` is the two scope characters. */
  datatype GlFields = GlFields(code: char, virt: nat, adrs: nat, size: nat, tid: nat, seg: char,
                               fn: string, sc: string, vn: string)

  /** A name the copy loop takes whole: not empty, within the limit, no character that ends it, no NUL. */
  predicate PlainName(t: string, dots: bool)
  {
    1 <= |t| <= NAME_LIMIT && forall i :: 0 <= i < |t| ==> !NameStop(t[i], dots) && t[i] != '\0'
  }

  predicate GlPrintable(sp: GlSpacing, f: GlFields)
  {
    && TypeCode(f.code).Some?
    && Blanks(sp.lead) && Blanks(sp.s1) && Blanks(sp.s2) && Blanks(sp.s3) && Blanks(sp.s4)
    && Blanks(sp.s5) && Blanks(sp.s6) && Blanks(sp.s7) && Blanks(sp.s8)
    && |sp.s1| >= 1 && |sp.s2| >= 1 && |sp.s3| >= 1 && |sp.s4| >= 1 && |sp.s5| >= 1 && |sp.s6| >= 1 && |sp.s7| >= 1
    && !Blank(f.seg)
    && PlainName(f.fn, false) && PlainName(f.vn, true)
    && |f.sc| == 2 && f.sc[0] != 'H' && !Blank(f.sc[0]) && f.sc[0] != '\n' && f.sc[0] != '\0' && f.sc[1] != '\0'
  }

  /** The names part of a line. */
  function GlNameText(sp: GlSpacing, f: GlFields): string
  {
    sp.s6 + f.fn + sp.s7 + f.sc + sp.s8 + f.vn
  }

  /** The segment letter, which I records do not carry, then the names. */
  function GlSegText(sp: GlSpacing, f: GlFields, op: int): string
  {
    (if op == MRINSTR then "" else sp.s5 + [f.seg]) + GlNameText(sp, f)
  }

  /** The text after the type letter. */
  function GlBody(sp: GlSpacing, f: GlFields, op: int): string
  {
    sp.s1 + NumText(f.virt, true) + sp.s2 + NumText(f.adrs, true) + sp.s3 + NumText(f.size, false)
      + sp.s4 + NumText(f.tid, false) + GlSegText(sp, f, op)
  }

  /** A Gleipnir record line as the tool prints it. */
  function PrintGl(sp: GlSpacing, f: GlFields, tail: string): string
    requires TypeCode(f.code).Some?
  {
    sp.lead + [f.code] + GlBody(sp, f, TypeCode(f.code).value) + tail
  }

  /** The names a line describes. */
  function Named(mr: Memref, f: GlFields): Memref
  {
    mr.(fname := f.fn, scope := f.sc, vname := f.vn)
  }

  /** The record a line describes. */
  function GlDescribed(mr: Memref, f: GlFields, cores: int): Memref
    requires TypeCode(f.code).Some? && cores != 0
  {
    var op := TypeCode(f.code).value;
    Named(mr.(oper := op, virtAdrs := f.virt, adrs := f.adrs, size := Int32(f.size), pid := Int8(CRem(f.tid, cores)),
              segmnt := if op == MRINSTR then INSTR else SegmentCode(f.seg), hEnum := 0), f)
  }

  /** A name printed at q, followed by a character that ends it unless it fills the limit, is copied whole. */
  lemma {:induction false} NameAt(line: string, q: nat, t: string, limit: nat, dots: bool)
    requires Has(line, q, t) && |t| <= limit
    requires forall i :: 0 <= i < |t| ==> !NameStop(t[i], dots)
    requires |t| < limit ==> NameStop(At(line, q + |t|), dots)
    ensures NameFrom(line, Pos(line, q), limit, dots) == (t, Pos(line, q + |t|))
    decreases |t|
  {
    if |t| > 0 {
      HasFirst(line, q, t);
      assert t == [t[0]] + t[1..];
      HasSplit(line, q, [t[0]], t[1..], q + 1);
      NameAt(line, q + 1, t[1..], limit - 1, dots);
    }
  }

  lemma CStrPlain(t: string)
    requires forall i :: 0 <= i < |t| ==> t[i] != '\0'
    ensures CStr(t) == t
  {
  }

  /** The variable name printed at q after blanks from p. */
  lemma VariableRoundTrip(line: string, p: nat, sep: string, vn: string, q: nat, e: nat, mr: Memref)
    requires Has(line, p, sep) && Blanks(sep) && q == p + |sep|
    requires Has(line, q, vn) && e == q + |vn| && PlainName(vn, true) && NameStop(At(line, e), true)
    ensures GlVariable(line, mr, Pos(line, p)) == Parsed(true, mr.(vname := vn))
  {
    HasFirst(line, q, vn);
    assert SkipBlanks(line, Pos(line, p)) == Pos(line, q) by {
      HasBlanks(line, p, sep, q);
      SkipBlanksAt(line, p);
    }
    NameAt(line, q, vn, NAME_LIMIT, true);
    CStrPlain(vn);
  }

  /** The scope characters at q after blanks from p, then the variable name. */
  lemma ScopeRoundTrip(line: string, p: nat, sp: GlSpacing, f: GlFields, q: nat, r: nat, v: nat, e: nat, mr: Memref, hval: int)
    requires GlPrintable(sp, f)
    requires Has(line, p, sp.s7) && q == p + |sp.s7| && Has(line, q, f.sc) && r == q + 2
    requires Has(line, r, sp.s8) && v == r + |sp.s8| && Has(line, v, f.vn) && e == v + |f.vn| && NameStop(At(line, e), true)
    ensures GlScope(line, mr, Pos(line, p), hval) == Parsed(true, mr.(scope := f.sc, vname := f.vn))
  {
    ScopeStep(line, p, sp.s7, f.sc, q, r, mr, hval);
    VariableRoundTrip(line, r, sp.s8, f.vn, v, e, mr.(scope := f.sc));
  }

  /** A two-letter scope other than `H`, printed at q after blanks from p, is stored as it is. */
  lemma ScopeStep(line: string, p: nat, sep: string, sc: string, q: nat, r: nat, mr: Memref, hval: int)
    requires Has(line, p, sep) && Blanks(sep) && q == p + |sep| && Has(line, q, sc) && r == q + 2
    requires |sc| == 2 && sc[0] != 'H' && !Blank(sc[0]) && sc[0] != '\n' && sc[0] != '\0' && sc[1] != '\0'
    ensures GlScope(line, mr, Pos(line, p), hval) == GlVariable(line, mr.(scope := sc), Pos(line, r))
  {
    HasFirst(line, q, sc);
    HasAt(line, q, sc, 1);
    assert SkipBlanks(line, Pos(line, p)) == Pos(line, q) by {
      HasBlanks(line, p, sep, q);
      SkipBlanksAt(line, p);
    }
    assert [sc[0], sc[1]] == sc;
    CStrPlain(sc);
  }

  /** The function name printed at q after blanks from p, followed by a blank at e. */
  lemma FunctionRoundTrip(line: string, p: nat, sep: string, fn: string, q: nat, e: nat, mr: Memref, hval: int, d: Memref)
    requires Has(line, p, sep) && Blanks(sep) && q == p + |sep|
    requires Has(line, q, fn) && e == q + |fn| && PlainName(fn, false) && Blank(At(line, e))
    requires GlScope(line, mr.(fname := fn), Pos(line, e), hval) == Parsed(true, d)
    ensures GlFunction(line, mr, Pos(line, p), hval) == Parsed(true, d)
  {
    HasFirst(line, q, fn);
    assert SkipBlanks(line, Pos(line, p)) == Pos(line, q) by {
      HasBlanks(line, p, sep, q);
      SkipBlanksAt(line, p);
    }
    NameAt(line, q, fn, NAME_LIMIT, false);
    CStrPlain(fn);
    assert SkipName(line, Pos(line, e)) == Pos(line, e);
  }

  /** Where each piece of the names part lies. */
  lemma NamesLayout(line: string, p: nat, sp: GlSpacing, f: GlFields, q: nat, e: nat, q7: nat, r: nat, v: nat)
    requires Has(line, p, GlNameText(sp, f)) && |f.sc| == 2
    requires q == p + |sp.s6| && e == q + |f.fn| && q7 == e + |sp.s7| && r == q7 + 2 && v == r + |sp.s8|
    ensures Has(line, p, sp.s6) && Has(line, q, f.fn) && Has(line, e, sp.s7) && Has(line, q7, f.sc)
    ensures Has(line, r, sp.s8) && Has(line, v, f.vn)
  {
    HasSplit(line, p, sp.s6 + f.fn + sp.s7 + f.sc + sp.s8, f.vn, v);
    HasSplit(line, p, sp.s6 + f.fn + sp.s7 + f.sc, sp.s8, r);
    HasSplit(line, p, sp.s6 + f.fn + sp.s7, f.sc, q7);
    HasSplit(line, p, sp.s6 + f.fn, sp.s7, e);
    HasSplit(line, p, sp.s6, f.fn, q);
  }

  /** The names part, from the blanks before the function name on. */
  lemma NamesRoundTrip(line: string, p: nat, sp: GlSpacing, f: GlFields, mr: Memref, hval: int, end: nat)
    requires GlPrintable(sp, f)
    requires Has(line, p, GlNameText(sp, f)) && end == p + |GlNameText(sp, f)| && NameStop(At(line, end), true)
    ensures GlFunction(line, mr, Pos(line, p), hval) == Parsed(true, Named(mr, f))
  {
    var q := p + |sp.s6|;
    var e := q + |f.fn|;
    var q7 := e + |sp.s7|;
    var r := q7 + 2;
    var v := r + |sp.s8|;
    NamesLayout(line, p, sp, f, q, e, q7, r, v);
    HasFirst(line, e, sp.s7);
    ScopeRoundTrip(line, e, sp, f, q7, r, v, end, mr.(fname := f.fn), hval);
    FunctionRoundTrip(line, p, sp.s6, f.fn, q, e, mr, hval, Named(mr, f));
  }

  /** An I record has no segment letter: the names follow the numbers. */
  lemma InstrNamesRoundTrip(line: string, p: nat, sp: GlSpacing, f: GlFields, mr: Memref, hval: int, end: nat)
    requires GlPrintable(sp, f)
    requires Has(line, p, GlNameText(sp, f)) && end == p + |GlNameText(sp, f)| && NameStop(At(line, end), true)
    ensures GlSegment(line, mr, MRINSTR, Pos(line, p), hval) == Parsed(true, Named(Defaulted(mr.(segmnt := INSTR)), f))
  {
    var m := Defaulted(mr.(segmnt := INSTR));
    NamesRoundTrip(line, p, sp, f, m, hval, end);
    var s := SkipBlanks(line, Pos(line, p));
    assert SkipBlanks(line, s) == s;
  }

  /** Other records carry a segment letter before the names. */
  lemma LetterNamesRoundTrip(line: string, p: nat, sp: GlSpacing, f: GlFields, op: int, mr: Memref, hval: int, end: nat)
    requires GlPrintable(sp, f) && op != MRINSTR
    requires Has(line, p, sp.s5 + [f.seg] + GlNameText(sp, f)) && end == p + |sp.s5| + 1 + |GlNameText(sp, f)|
    requires NameStop(At(line, end), true)
    ensures GlSegment(line, mr, op, Pos(line, p), hval) == Parsed(true, Named(Defaulted(mr.(segmnt := SegmentCode(f.seg))), f))
  {
    var q := p + |sp.s5|;
    HasSplit(line, p, sp.s5 + [f.seg], GlNameText(sp, f), q + 1);
    HasSplit(line, p, sp.s5, [f.seg], q);
    HasFirst(line, q, [f.seg]);
    assert SkipBlanks(line, Pos(line, p)) == Pos(line, q) by {
      HasBlanks(line, p, sp.s5, q);
      SkipBlanksAt(line, p);
    }
    SegmentStep(line, mr, op, p, q, hval);
    NamesRoundTrip(line, q + 1, sp, f, Defaulted(mr.(segmnt := SegmentCode(f.seg))), hval, end);
  }

  /** The segment letter at q, after the blanks from p, sets the segment; the names follow it. */
  lemma SegmentStep(line: string, mr: Memref, op: int, p: nat, q: nat, hval: int)
    requires op != MRINSTR && SkipBlanks(line, Pos(line, p)) == Pos(line, q)
    ensures GlSegment(line, mr, op, Pos(line, p), hval)
         == GlFunction(line, Defaulted(mr.(segmnt := SegmentCode(At(line, q)))), Pos(line, q + 1), hval)
  {
  }

  /** The numbers, from the type letter on, read back and followed by the segment stage at p4. */
  lemma NumbersCompose(line: string, c0: Cur, p1: nat, p2: nat, p3: nat, p4: nat, mr: Memref, op: int, cores: int, hval: int,
                       f: GlFields, d: Memref)
    requires cores != 0
    requires Number(line, c0, true) == Num(f.virt, Pos(line, p1))
    requires Number(line, Pos(line, p1), true) == Num(f.adrs, Pos(line, p2))
    requires Number(line, Pos(line, p2), false) == Num(f.size, Pos(line, p3))
    requires Number(line, Pos(line, p3), false) == Num(f.tid, Pos(line, p4))
    requires GlSegment(line, mr.(virtAdrs := f.virt, adrs := f.adrs, size := Int32(f.size), pid := Int8(CRem(f.tid, cores))),
                       op, Pos(line, p4), hval) == Parsed(true, d)
    ensures GlNumbers(line, mr, op, c0, cores, hval) == Parsed(true, d)
  {
  }

  /** The segment part starts with a blank. */
  lemma SegLead(sp: GlSpacing, f: GlFields, op: int)
    requires GlPrintable(sp, f)
    ensures |GlSegText(sp, f, op)| >= 1 && Blank(GlSegText(sp, f, op)[0])
  {
    if op == MRINSTR {
      assert GlSegText(sp, f, op)[0] == sp.s6[0];
    } else {
      assert GlSegText(sp, f, op)[0] == sp.s5[0];
    }
  }

  /** Where each number of the body lies. */
  lemma NumbersLayout(line: string, p: nat, sp: GlSpacing, f: GlFields, op: int, q1: nat, p1: nat, q2: nat, p2: nat,
                      q3: nat, p3: nat, q4: nat, p4: nat)
    requires Has(line, p, GlBody(sp, f, op))
    requires q1 == p + |sp.s1| && p1 == q1 + |NumText(f.virt, true)| && q2 == p1 + |sp.s2| && p2 == q2 + |NumText(f.adrs, true)|
    requires q3 == p2 + |sp.s3| && p3 == q3 + |NumText(f.size, false)| && q4 == p3 + |sp.s4| && p4 == q4 + |NumText(f.tid, false)|
    ensures Has(line, p, sp.s1) && Has(line, q1, NumText(f.virt, true)) && Has(line, p1, sp.s2) && Has(line, q2, NumText(f.adrs, true))
    ensures Has(line, p2, sp.s3) && Has(line, q3, NumText(f.size, false)) && Has(line, p3, sp.s4) && Has(line, q4, NumText(f.tid, false))
    ensures Has(line, p4, GlSegText(sp, f, op))
  {
    var hv := NumText(f.virt, true);
    var ha := NumText(f.adrs, true);
    var ds := NumText(f.size, false);
    var dt := NumText(f.tid, false);
    HasSplit(line, p, sp.s1 + hv + sp.s2 + ha + sp.s3 + ds + sp.s4 + dt, GlSegText(sp, f, op), p4);
    HasSplit(line, p, sp.s1 + hv + sp.s2 + ha + sp.s3 + ds + sp.s4, dt, q4);
    HasSplit(line, p, sp.s1 + hv + sp.s2 + ha + sp.s3 + ds, sp.s4, p3);
    HasSplit(line, p, sp.s1 + hv + sp.s2 + ha + sp.s3, ds, q3);
    HasSplit(line, p, sp.s1 + hv + sp.s2 + ha, sp.s3, p2);
    HasSplit(line, p, sp.s1 + hv + sp.s2, ha, q2);
    HasSplit(line, p, sp.s1 + hv, sp.s2, p1);
    HasSplit(line, p, sp.s1, hv, q1);
  }

  /** A field printed at q and followed by blanks is read back and stops at the blanks. */
  lemma NumberBeforeBlank(line: string, p: nat, sep: string, n: nat, hex: bool, q: nat, e: nat, next: string)
    requires Has(line, p, sep) && Blanks(sep) && q == p + |sep| && Has(line, q, NumText(n, hex)) && e == q + |NumText(n, hex)|
    requires Has(line, e, next) && |next| >= 1 && Blank(next[0])
    ensures Number(line, Pos(line, p), hex) == Num(n, Pos(line, e))
  {
    HasFirst(line, e, next);
    PrintedNumber(line, p, sep, n, hex, q, e);
  }

  /** The four numbers of a printed body read back, each stopping at the blanks after it. */
  lemma NumbersRead(line: string, p: nat, sp: GlSpacing, f: GlFields, op: int, p1: nat, p2: nat, p3: nat, p4: nat)
    requires GlPrintable(sp, f) && Has(line, p, GlBody(sp, f, op))
    requires p1 == p + |sp.s1| + |NumText(f.virt, true)| && p2 == p1 + |sp.s2| + |NumText(f.adrs, true)|
    requires p3 == p2 + |sp.s3| + |NumText(f.size, false)| && p4 == p3 + |sp.s4| + |NumText(f.tid, false)|
    ensures Number(line, Pos(line, p), true) == Num(f.virt, Pos(line, p1))
    ensures Number(line, Pos(line, p1), true) == Num(f.adrs, Pos(line, p2))
    ensures Number(line, Pos(line, p2), false) == Num(f.size, Pos(line, p3))
    ensures Number(line, Pos(line, p3), false) == Num(f.tid, Pos(line, p4))
    ensures Has(line, p4, GlSegText(sp, f, op))
  {
    var q1 := p + |sp.s1|;
    var q2 := p1 + |sp.s2|;
    var q3 := p2 + |sp.s3|;
    var q4 := p3 + |sp.s4|;
    NumbersLayout(line, p, sp, f, op, q1, p1, q2, p2, q3, p3, q4, p4);
    NumberBeforeBlank(line, p, sp.s1, f.virt, true, q1, p1, sp.s2);
    NumberBeforeBlank(line, p1, sp.s2, f.adrs, true, q2, p2, sp.s3);
    NumberBeforeBlank(line, p2, sp.s3, f.size, false, q3, p3, sp.s4);
    SegLead(sp, f, op);
    NumberBeforeBlank(line, p3, sp.s4, f.tid, false, q4, p4, GlSegText(sp, f, op));
  }

  /** The segment part, whichever the record's type, then the names. */
  lemma SegmentRoundTrip(line: string, p: nat, sp: GlSpacing, f: GlFields, op: int, mr: Memref, hval: int, end: nat)
    requires GlPrintable(sp, f)
    requires Has(line, p, GlSegText(sp, f, op)) && end == p + |GlSegText(sp, f, op)| && NameStop(At(line, end), true)
    ensures GlSegment(line, mr, op, Pos(line, p), hval)
      == Parsed(true, Named(Defaulted(mr.(segmnt := if op == MRINSTR then INSTR else SegmentCode(f.seg))), f))
  {
    if op == MRINSTR {
      InstrNamesRoundTrip(line, p, sp, f, mr, hval, end);
    } else {
      LetterNamesRoundTrip(line, p, sp, f, op, mr, hval, end);
    }
  }

  /** The body after the type letter: its four numbers, the segment and the names. */
  lemma NumbersRoundTrip(line: string, p: nat, sp: GlSpacing, f: GlFields, op: int, mr: Memref, cores: int, hval: int, end: nat)
    requires GlPrintable(sp, f) && TypeCode(f.code) == Some(op) && cores != 0
    requires Has(line, p, GlBody(sp, f, op)) && end == p + |GlBody(sp, f, op)| && NameStop(At(line, end), true)
    ensures var m := mr.(virtAdrs := f.virt, adrs := f.adrs, size := Int32(f.size), pid := Int8(CRem(f.tid, cores)));
      GlNumbers(line, mr, op, Pos(line, p), cores, hval)
        == Parsed(true, Named(Defaulted(m.(segmnt := if op == MRINSTR then INSTR else SegmentCode(f.seg))), f))
  {
    var p1 := p + |sp.s1| + |NumText(f.virt, true)|;
    var p2 := p1 + |sp.s2| + |NumText(f.adrs, true)|;
    var p3 := p2 + |sp.s3| + |NumText(f.size, false)|;
    var p4 := p3 + |sp.s4| + |NumText(f.tid, false)|;
    NumbersRead(line, p, sp, f, op, p1, p2, p3, p4);
    var m := mr.(virtAdrs := f.virt, adrs := f.adrs, size := Int32(f.size), pid := Int8(CRem(f.tid, cores)));
    var d := Named(Defaulted(m.(segmnt := if op == MRINSTR then INSTR else SegmentCode(f.seg))), f);
    SegmentRoundTrip(line, p4, sp, f, op, m, hval, end);
    NumbersCompose(line, Pos(line, p), p1, p2, p3, p4, mr, op, cores, hval, f, d);
  }

  /** A line ending the variable name: a newline, a blank, or the start of an index or member. */
  predicate GlEnding(tail: string)
  {
    |tail| >= 1 && NameStop(tail[0], true)
  }

  /** The type letter and the body read back, from the start of the line. */
  lemma GlRecordCompose(line: string, mr: Memref, cores: int, hval: int, q: nat, op: int, d: Memref)
    requires cores != 0
    requires SkipBlanks(line, Start(line)) == Pos(line, q) && TypeCode(At(line, q)) == Some(op) && Blank(At(line, q + 1))
    requires GlNumbers(line, mr.(fname := "", scope := "", vname := "", oper := op), op, Pos(line, q + 1), cores, hval) == Parsed(true, d)
    ensures GlRecord(line, mr, cores, hval) == Parsed(true, d)
  {
  }

  /**
   * A record printed the way Gleipnir prints it, blanks between the
   * fields, reads back as the record it describes: the type, both
   * addresses, the size as int32_t, the processor as the thread modulo the
   * core count, the segment (INSTR for an I record), the function name, the
   * scope and the variable name, and heap number 0.
   */
  lemma GlRoundTrip(sp: GlSpacing, f: GlFields, tail: string, mr: Memref, cores: int, hval: int)
    requires GlPrintable(sp, f) && GlEnding(tail) && cores != 0
    ensures GlRecord(PrintGl(sp, f, tail), mr, cores, hval) == Parsed(true, GlDescribed(mr, f, cores))
  {
    var line := PrintGl(sp, f, tail);
    var op := TypeCode(f.code).value;
    var body := GlBody(sp, f, op);
    var head := sp.lead + [f.code];
    var q := |sp.lead|;
    HasMiddle(head, body, tail);
    assert Has(line, 0, head) by {
      assert line[..|head|] == head;
    }
    HasSplit(line, 0, sp.lead, [f.code], q);
    HasFirst(line, q, [f.code]);
    assert SkipBlanks(line, Start(line)) == Pos(line, q) by {
      HasBlanks(line, 0, sp.lead, q);
      SkipBlanksAt(line, 0);
    }
    assert Blank(At(line, q + 1)) by {
      HasFirst(line, q + 1, body);
    }
    var end := |head| + |body|;
    assert At(line, end) == At(tail, 0);
    var m1 := mr.(fname := "", scope := "", vname := "", oper := op);
    NumbersRoundTrip(line, |head|, sp, f, op, m1, cores, hval, end);
    GlRecordCompose(line, mr, cores, hval, q, op, GlDescribed(mr, f, cores));
  }
}
