/**
 * The character cursor shared by the trace-record parsers
 * (moola_src/trace_moola.c, modified_moola_src/trace_pin.c,
 * modified_moola_src/trace_gleipnir.c, modified_moola_src/tracegz.c).
 *
 * Each parser keeps a file-global pair: `c`, the character being looked at,
 * and `cptr`, the address of the one after it; every step is
 * `c = *cptr++`.  The pair is the value `Cur(c, next)`, `next` being the
 * index `cptr` points at.  The line buffer is the text fgets stored, then
 * NUL; past the text the model reads NUL.
 */
module Scan {

  /** The character at index k of the line buffer. */
  function At(line: string, k: int): char
  {
    if 0 <= k < |line| then line[k] else '\0'
  }

  datatype Option<T> = None | Some(value: T)

  /** The cursor: the current character and the index of the next one. */
  datatype Cur = Cur(c: char, next: nat)

  /** The cursor looking at index p. */
  function Pos(line: string, p: nat): Cur
  {
    Cur(At(line, p), p + 1)
  }

  /** `c = *cptr++`: look at the character `cptr` points at. */
  function Adv(line: string, cur: Cur): Cur
  {
    Pos(line, cur.next)
  }

  /** `cptr = ibfr; c = *cptr++;` at the start of every record. */
  function Start(line: string): Cur
  {
    Pos(line, 0)
  }

  /** The characters SKIP_WS passes over. */
  predicate Blank(ch: char)
  {
    ch == ' ' || ch == '\t'
  }

  predicate IsDec(ch: char)
  {
    '0' <= ch <= '9'
  }

  /** The `ishex` table: digits and both cases of a-f. */
  predicate IsHex(ch: char)
  {
    IsDec(ch) || 'a' <= ch <= 'f' || 'A' <= ch <= 'F'
  }

  predicate Digit(ch: char, hex: bool)
  {
    if hex then IsHex(ch) else IsDec(ch)
  }

  function Base(hex: bool): nat
  {
    if hex then 16 else 10
  }

  /** The `char_val` table: the digit value of a hex or decimal digit, 0 for any other character. */
  function CharVal(ch: char): (v: nat)
    ensures v < 16
    ensures IsDec(ch) ==> v == ch as int - '0' as int
    ensures !IsHex(ch) ==> v == 0
  {
    if IsDec(ch) then ch as int - '0' as int
    else if 'a' <= ch <= 'f' then ch as int - 'a' as int + 10
    else if 'A' <= ch <= 'F' then ch as int - 'A' as int + 10
    else 0
  }

  /**
   * A measure for the loops that step while the current character is of
   * some class: past the text every character is NUL, which is in none.
   */
  function Rank(line: string, cur: Cur, stepping: bool): nat
  {
    if !stepping then 0
    else if cur.next <= |line| then |line| - cur.next + 2
    else 1
  }

  // ---------------------------------------------------------------------
  // SKIP_WS
  // ---------------------------------------------------------------------

  /** The first index from p on that does not hold a blank. */
  function NonBlankFrom(line: string, p: nat): (q: nat)
    ensures p <= q && !Blank(At(line, q))
    ensures forall k :: p <= k < q ==> Blank(At(line, k))
    decreases |line| - p
  {
    if p < |line| && Blank(line[p]) then NonBlankFrom(line, p + 1) else p
  }

  /** The cursor after SKIP_WS. */
  function SkipBlanks(line: string, cur: Cur): (r: Cur)
    ensures !Blank(r.c)
  {
    if Blank(cur.c) then Pos(line, NonBlankFrom(line, cur.next)) else cur
  }

  /** From a cursor at index p, SKIP_WS stops at the first non-blank index at or after p. */
  lemma SkipBlanksAt(line: string, p: nat)
    ensures SkipBlanks(line, Pos(line, p)) == Pos(line, NonBlankFrom(line, p))
  {
    if Blank(At(line, p)) {
      assert NonBlankFrom(line, p) == NonBlankFrom(line, p + 1);
    }
  }

  /** One SKIP_WS step leaves the stopping point where it was. */
  lemma SkipStep(line: string, cur: Cur)
    requires Blank(cur.c)
    ensures SkipBlanks(line, Adv(line, cur)) == SkipBlanks(line, cur)
    ensures Rank(line, Adv(line, cur), Blank(Adv(line, cur).c)) < Rank(line, cur, true)
  {
  }

  method SkipWs(line: string, cur0: Cur) returns (cur: Cur)
    ensures cur == SkipBlanks(line, cur0)
  {
    cur := cur0;
    while Blank(cur.c)
      invariant SkipBlanks(line, cur) == SkipBlanks(line, cur0)
      decreases Rank(line, cur, Blank(cur.c))
    {
      SkipStep(line, cur);
      cur := Adv(line, cur);
    }
  }

  // ---------------------------------------------------------------------
  // Digit runs: get_dec and get_hex
  // ---------------------------------------------------------------------

  /** The positional value of a digit string, most significant digit first. */
  function Value(ds: string, hex: bool): nat
  {
    if |ds| == 0 then 0 else Value(ds[..|ds| - 1], hex) * Base(hex) + CharVal(ds[|ds| - 1])
  }

  /** The length of the run of digits in the line from index p. */
  function RunFrom(line: string, p: nat, hex: bool): (n: nat)
    ensures p + n <= |line| || n == 0
    ensures forall k :: p <= k < p + n ==> Digit(At(line, k), hex)
    ensures !Digit(At(line, p + n), hex)
    decreases |line| - p
  {
    if p < |line| && Digit(line[p], hex) then 1 + RunFrom(line, p + 1, hex) else 0
  }

  /** The loop `while (isdec[c]) { val = val * 10 + char_val[c]; c = *cptr++; }`, and its hex twin. */
  function Accum(line: string, cur: Cur, hex: bool, acc: int): (int, Cur)
    decreases Rank(line, cur, Digit(cur.c, hex))
  {
    if !Digit(cur.c, hex) then (acc, cur)
    else
      var nxt := Adv(line, cur);
      assert Rank(line, nxt, Digit(nxt.c, hex)) < Rank(line, cur, true);
      Accum(line, nxt, hex, acc * Base(hex) + CharVal(cur.c))
  }

  datatype Num = NoNumber | Num(val: int, cur: Cur)

  /** get_dec (hex false) and get_hex (hex true): NoNumber is `cptr = NULL`. */
  function Number(line: string, cur: Cur, hex: bool): Num
  {
    var s := SkipBlanks(line, cur);
    if !Digit(s.c, hex) then NoNumber
    else
      var (v, e) := Accum(line, s, hex, 0);
      Num(v, e)
  }

  /** The loop between p and q, with the value of line[p..q] accumulated, ends with the whole run's value. */
  lemma {:induction false} AccumRun(line: string, p: nat, q: nat, hex: bool)
    requires p <= |line| && p <= q <= p + RunFrom(line, p, hex)
    ensures Accum(line, Pos(line, q), hex, Value(line[p..q], hex))
      == (Value(line[p..p + RunFrom(line, p, hex)], hex), Pos(line, p + RunFrom(line, p, hex)))
    decreases p + RunFrom(line, p, hex) - q
  {
    var n := RunFrom(line, p, hex);
    if q < p + n {
      assert Digit(At(line, q), hex);
      assert line[p..q + 1][..q - p] == line[p..q];
      assert Value(line[p..q + 1], hex) == Value(line[p..q], hex) * Base(hex) + CharVal(line[q]);
      assert Accum(line, Pos(line, q), hex, Value(line[p..q], hex))
        == Accum(line, Pos(line, q + 1), hex, Value(line[p..q + 1], hex));
      AccumRun(line, p, q + 1, hex);
    } else {
      assert !Digit(Pos(line, q).c, hex);
    }
  }

  /**
   * get_dec / get_hex from a cursor at index p: the number is there exactly
   * when a digit follows the blanks; its value is that of the maximal digit
   * run, and the cursor stops at the first character after the run.
   */
  lemma NumberAt(line: string, p: nat, hex: bool)
    ensures var q := NonBlankFrom(line, p);
      var n := RunFrom(line, q, hex);
      && (Number(line, Pos(line, p), hex).Num? <==> Digit(At(line, q), hex))
      && (Number(line, Pos(line, p), hex).Num? ==>
            && n >= 1
            && Number(line, Pos(line, p), hex) == Num(Value(line[q..q + n], hex), Pos(line, q + n)))
  {
    var q := NonBlankFrom(line, p);
    SkipBlanksAt(line, p);
    if Digit(At(line, q), hex) {
      assert line[q..q] == [];
      AccumRun(line, q, q, hex);
      var a := Accum(line, Pos(line, q), hex, 0);
      assert Number(line, Pos(line, p), hex) == Num(a.0, a.1);
    }
  }

  /** NumberAt with the stopping points named. */
  lemma NumberRun(line: string, p: nat, q: nat, n: nat, hex: bool)
    requires NonBlankFrom(line, p) == q && RunFrom(line, q, hex) == n && n >= 1
    ensures Number(line, Pos(line, p), hex) == Num(Value(line[q..q + n], hex), Pos(line, q + n))
  {
    NumberAt(line, p, hex);
  }

  /** "0x1f" read as a hex number is 0, and the cursor stops at the 'x'. */
  lemma HexStopsAtX(line: string, p: nat)
    requires At(line, NonBlankFrom(line, p)) == '0' && At(line, NonBlankFrom(line, p) + 1) == 'x'
    ensures Number(line, Pos(line, p), true) == Num(0, Pos(line, NonBlankFrom(line, p) + 1))
  {
    var q := NonBlankFrom(line, p);
    NumberAt(line, p, true);
    assert RunFrom(line, q, true) == 1 by {
      assert RunFrom(line, q + 1, true) == 0;
    }
    assert line[q..q + 1] == "0";
    assert Value("0", true) == Value("", true) * 16 + 0;
  }

  /**
   * get_dec and get_hex as the C writes them: SKIP_WS, then the digit loop.
   * On a missing digit `val` is 0 and the cursor is unusable (ok false).
   */
  method GetNumber(line: string, cur0: Cur, hex: bool) returns (ok: bool, val: int, cur: Cur)
    ensures ok == Number(line, cur0, hex).Num?
    ensures ok ==> Num(val, cur) == Number(line, cur0, hex)
    ensures !ok ==> val == 0
  {
    cur := SkipWs(line, cur0);
    val := 0;
    if !Digit(cur.c, hex) {
      ok := false;
      return;
    }
    ok := true;
    ghost var s := cur;
    while Digit(cur.c, hex)
      invariant Accum(line, cur, hex, val) == Accum(line, s, hex, 0)
      decreases Rank(line, cur, Digit(cur.c, hex))
    {
      val := val * Base(hex) + CharVal(cur.c);
      cur := Adv(line, cur);
    }
  }

  // ---------------------------------------------------------------------
  // Data bytes: get_hexbytes
  // ---------------------------------------------------------------------

  /**
   * The two byte readers: `Lenient` is trace_moola's (a byte may be one hex
   * digit, which ends the field; a 16-byte field moves `cptr` 4 further
   * before each byte's second digit is read), `Strict` is tracegz's and
   * glget_hexbytes (each byte needs both digits).
   */
  datatype ByteRule = Lenient | Strict

  datatype Bytes = Bytes(ok: bool, data: seq<bv8>, cur: Cur)

  /** A write into the 32-byte data buffer; writes past it are not modelled. */
  function Put(data: seq<bv8>, i: nat, v: bv8): (r: seq<bv8>)
    ensures |r| == |data|
    ensures forall k :: 0 <= k < |data| ==> r[k] == (if k == i then v else data[k])
  {
    if i < |data| then data[i := v] else data
  }

  /** The byte two hex digits stand for. */
  function PairValue(hi: char, lo: char): bv8
  {
    (CharVal(hi) * 16 + CharVal(lo)) as bv8
  }

  /** One byte of the field, from byte index b on, of a field of `count` bytes. */
  function HexBytes(line: string, cur: Cur, count: int, b: nat, data: seq<bv8>, rule: ByteRule): (r: Bytes)
    ensures |r.data| == |data|
    ensures forall k :: 0 <= k < |data| && (k < b || count <= k) ==> r.data[k] == data[k]
    decreases count - b
  {
    if count <= b then Bytes(true, data, cur)
    else
      var d0 := Put(data, b, 0);
      var s0 := SkipBlanks(line, cur);
      var s := if rule == Lenient && count == 16 then Cur(s0.c, s0.next + 4) else s0;
      if !IsHex(s.c) then Bytes(false, d0, s)
      else
        var hi := CharVal(s.c);
        var d1 := Put(d0, b, hi as bv8);
        var t := Adv(line, s);
        if !IsHex(t.c) then Bytes(rule == Lenient, d1, t)
        else
          var d2 := Put(d1, b, PairValue(s.c, t.c));
          HexBytes(line, Adv(line, t), count, b + 1, d2, rule)
  }

  /** get_hexbytes: `count` is the size just read (the global `val`). */
  method GetHexBytes(line: string, cur0: Cur, count: int, data0: seq<bv8>, rule: ByteRule)
    returns (ok: bool, data: seq<bv8>, cur: Cur)
    ensures Bytes(ok, data, cur) == HexBytes(line, cur0, count, 0, data0, rule)
  {
    var b := 0;
    data := data0;
    cur := cur0;
    ok := true;
    while b < count
      invariant HexBytes(line, cur, count, b, data, rule) == HexBytes(line, cur0, count, 0, data0, rule)
      decreases count - b
    {
      data := Put(data, b, 0);
      cur := SkipWs(line, cur);
      if rule == Lenient && count == 16 {
        cur := Cur(cur.c, cur.next + 4);
      }
      if !IsHex(cur.c) {
        ok := false;
        return;
      }
      var hc := cur.c;
      data := Put(data, b, CharVal(hc) as bv8);
      cur := Adv(line, cur);
      if !IsHex(cur.c) {
        ok := rule == Lenient;
        return;
      }
      data := Put(data, b, PairValue(hc, cur.c));
      cur := Adv(line, cur);
      b := b + 1;
    }
  }

  /** Whether the byte field is accepted, and where it ends, do not depend on the buffer written. */
  lemma {:induction false} HexBytesShape(line: string, cur: Cur, count: int, b: nat, d1: seq<bv8>, d2: seq<bv8>, rule: ByteRule)
    ensures HexBytes(line, cur, count, b, d1, rule).ok == HexBytes(line, cur, count, b, d2, rule).ok
    ensures HexBytes(line, cur, count, b, d1, rule).cur == HexBytes(line, cur, count, b, d2, rule).cur
    decreases count - b
  {
    if b < count {
      var s0 := SkipBlanks(line, cur);
      var s := if rule == Lenient && count == 16 then Cur(s0.c, s0.next + 4) else s0;
      var t := Adv(line, s);
      if IsHex(s.c) && IsHex(t.c) {
        var v := PairValue(s.c, t.c);
        var e1 := Put(Put(Put(d1, b, 0), b, CharVal(s.c) as bv8), b, v);
        var e2 := Put(Put(Put(d2, b, 0), b, CharVal(s.c) as bv8), b, v);
        HexBytesShape(line, Adv(line, t), count, b + 1, e1, e2, rule);
      }
    }
  }

  /** The hex digit for a value below 16, as trace writers print it. */
  function HexDigit(v: nat): (ch: char)
    requires v < 16
    ensures IsHex(ch) && !Blank(ch) && CharVal(ch) == v
  {
    if v < 10 then ('0' as int + v) as char else ('a' as int + v - 10) as char
  }

  /** One byte printed as two hex digits. */
  function HexPair(v: bv8): (t: string)
    ensures |t| == 2 && IsHex(t[0]) && IsHex(t[1]) && !Blank(t[0])
  {
    [HexDigit(v as int / 16), HexDigit(v as int % 16)]
  }

  /** The two digits printed for a byte read back as the byte. */
  lemma HexPairValue(v: bv8)
    ensures PairValue(HexPair(v)[0], HexPair(v)[1]) == v
  {
  }

  /** Bytes printed as two hex digits each, with nothing between them. */
  function HexText(bs: seq<bv8>): (t: string)
    ensures |t| == 2 * |bs|
  {
    if |bs| == 0 then "" else HexPair(bs[0]) + HexText(bs[1..])
  }

  /** The buffer with its first |bs| bytes replaced by bs. */
  function Overlay(data: seq<bv8>, bs: seq<bv8>): (r: seq<bv8>)
    requires |bs| <= |data|
    ensures |r| == |data|
  {
    bs + data[|bs|..]
  }

  /** Writing the same byte twice keeps the second value. */
  lemma PutTwice(data: seq<bv8>, i: nat, u: bv8, v: bv8)
    ensures Put(Put(data, i, u), i, v) == Put(data, i, v)
  {
  }

  /** Two hex digits at p make one byte, and the next byte starts after them. */
  lemma ReadPair(line: string, p: nat, count: int, b: nat, data: seq<bv8>, rule: ByteRule)
    requires b < count && (rule == Lenient ==> count != 16)
    requires !Blank(At(line, p)) && IsHex(At(line, p)) && IsHex(At(line, p + 1))
    ensures HexBytes(line, Pos(line, p), count, b, data, rule)
      == HexBytes(line, Pos(line, p + 2), count, b + 1, Put(data, b, PairValue(At(line, p), At(line, p + 1))), rule)
  {
    var v := PairValue(At(line, p), At(line, p + 1));
    PutTwice(Put(data, b, 0), b, CharVal(At(line, p)) as bv8, v);
    PutTwice(data, b, 0, v);
  }

  /** Writing byte b over the first b bytes of bs gives the first b + 1. */
  lemma OverlayNext(data: seq<bv8>, bs: seq<bv8>, b: nat)
    requires b < |bs| <= |data|
    ensures Put(Overlay(data, bs[..b]), b, bs[b]) == Overlay(data, bs[..b + 1])
  {
    assert bs[..b + 1] == bs[..b] + [bs[b]];
  }

  /** The printed bytes from byte b on are byte b's pair, then the bytes after it. */
  lemma HexTextFrom(bs: seq<bv8>, b: nat)
    requires b < |bs|
    ensures HexText(bs[b..]) == HexPair(bs[b]) + HexText(bs[b + 1..])
  {
    assert bs[b..][1..] == bs[b + 1..];
  }

  /** Reading printed byte b at `at` moves the overlay of the bytes before it one byte on. */
  lemma PrintedByte(line: string, at: nat, bs: seq<bv8>, b: nat, data: seq<bv8>, rule: ByteRule)
    requires b < |bs| <= |data| && (rule == Lenient ==> |bs| != 16)
    requires Has(line, at, HexPair(bs[b]))
    ensures HexBytes(line, Pos(line, at), |bs|, b, Overlay(data, bs[..b]), rule)
      == HexBytes(line, Pos(line, at + 2), |bs|, b + 1, Overlay(data, bs[..b + 1]), rule)
  {
    var d := Overlay(data, bs[..b]);
    var v := PairValue(At(line, at), At(line, at + 1));
    assert v == bs[b] && IsHex(At(line, at)) && IsHex(At(line, at + 1)) && !Blank(At(line, at)) by {
      HasAt(line, at, HexPair(bs[b]), 0);
      HasAt(line, at, HexPair(bs[b]), 1);
      HexPairValue(bs[b]);
    }
    assert HexBytes(line, Pos(line, at), |bs|, b, d, rule)
      == HexBytes(line, Pos(line, at + 2), |bs|, b + 1, Put(d, b, v), rule) by {
      ReadPair(line, at, |bs|, b, d, rule);
    }
    OverlayNext(data, bs, b);
  }

  /**
   * The round trip: a byte field printed as hex pairs and followed by
   * anything is read back as exactly those bytes (for the lenient
   * reader, except at 16 bytes, whose digits it reads 4 apart).
   */
  lemma HexBytesRoundTrip(line: string, at: nat, bs: seq<bv8>, data: seq<bv8>, rule: ByteRule)
    requires Has(line, at, HexText(bs))
    requires |bs| <= |data|
    requires rule == Lenient ==> |bs| != 16
    ensures HexBytes(line, Pos(line, at), |bs|, 0, data, rule)
      == Bytes(true, Overlay(data, bs), Pos(line, at + 2 * |bs|))
  {
    if |bs| == 0 {
      NoPrintedBytes(line, at, bs, data, rule);
    } else {
      SplitPrinted(line, at, bs);
      SomePrintedBytes(line, at, bs, data, rule);
    }
  }

  /** An empty field reads back as nothing. */
  lemma NoPrintedBytes(line: string, at: nat, bs: seq<bv8>, data: seq<bv8>, rule: ByteRule)
    requires |bs| == 0
    ensures HexBytes(line, Pos(line, at), |bs|, 0, data, rule)
      == Bytes(true, Overlay(data, bs), Pos(line, at + 2 * |bs|))
  {
    OverlayEmpty(data, bs);
    assert at + 2 * |bs| == at;
  }

  /** A field of one byte or more: its first byte, then the rest. */
  lemma SomePrintedBytes(line: string, at: nat, bs: seq<bv8>, data: seq<bv8>, rule: ByteRule)
    requires 1 <= |bs| <= |data|
    requires Has(line, at, HexPair(bs[0])) && Has(line, at + 2, HexText(bs[1..]))
    requires rule == Lenient ==> |bs| != 16
    ensures HexBytes(line, Pos(line, at), |bs|, 0, data, rule)
      == Bytes(true, Overlay(data, bs), Pos(line, at + 2 * |bs|))
  {
    FirstPrintedByte(line, at, bs, data, rule);
    RoundTripFrom(line, at + 2, bs, 1, data, Overlay(data, bs[..1]), bs[1..], rule, at + 2 * |bs|);
  }

  /** Printed bytes are the first byte's pair, then the others. */
  lemma SplitPrinted(line: string, at: nat, bs: seq<bv8>)
    requires 1 <= |bs| && Has(line, at, HexText(bs))
    ensures Has(line, at, HexPair(bs[0])) && Has(line, at + 2, HexText(bs[1..]))
  {
    HasTextCons(line, at, bs);
    HasPairThen(line, at, HexPair(bs[0]), HexText(bs[1..]));
  }

  lemma HasTextCons(line: string, at: nat, bs: seq<bv8>)
    requires 1 <= |bs| && Has(line, at, HexText(bs))
    ensures Has(line, at, HexPair(bs[0]) + HexText(bs[1..]))
  {
    HexTextCons(bs);
  }

  lemma HasPairThen(line: string, at: nat, a: string, t: string)
    requires |a| == 2 && Has(line, at, a + t)
    ensures Has(line, at, a) && Has(line, at + 2, t)
  {
    HasSplit(line, at, a, t, at + 2);
  }

  lemma HexTextCons(bs: seq<bv8>)
    requires 1 <= |bs|
    ensures HexText(bs) == HexPair(bs[0]) + HexText(bs[1..])
  {
  }

  /** No bytes overlay nothing. */
  lemma OverlayEmpty(data: seq<bv8>, bs: seq<bv8>)
    requires |bs| == 0
    ensures Overlay(data, bs) == data
  {
    assert bs + data[0..] == data;
  }

  /** Reading the first printed byte overlays it on the buffer. */
  lemma FirstPrintedByte(line: string, at: nat, bs: seq<bv8>, data: seq<bv8>, rule: ByteRule)
    requires 1 <= |bs| <= |data| && (rule == Lenient ==> |bs| != 16)
    requires Has(line, at, HexPair(bs[0]))
    ensures HexBytes(line, Pos(line, at), |bs|, 0, data, rule)
      == HexBytes(line, Pos(line, at + 2), |bs|, 1, Overlay(data, bs[..1]), rule)
  {
    PrintedByte(line, at, bs, 0, data, rule);
    OverlayEmpty(data, bs[..0]);
  }

  /**
   * The round trip from printed byte b, at `at`, on: `d` holds the bytes
   * before b over the buffer, and `rest` the bytes from b on.
   */
  lemma {:induction false} RoundTripFrom(line: string, at: nat, bs: seq<bv8>, b: nat, data: seq<bv8>, d: seq<bv8>,
                                         rest: seq<bv8>, rule: ByteRule, e: nat)
    requires b <= |bs| <= |data| && e == at + 2 * (|bs| - b)
    requires d == Overlay(data, bs[..b]) && rest == bs[b..] && Has(line, at, HexText(rest))
    requires rule == Lenient ==> |bs| != 16
    ensures HexBytes(line, Pos(line, at), |bs|, b, d, rule) == Bytes(true, Overlay(data, bs), Pos(line, e))
    decreases |bs| - b
  {
    if b < |bs| {
      HexTextFrom(bs, b);
      HasSplit(line, at, HexPair(bs[b]), HexText(bs[b + 1..]), at + 2);
      PrintedByte(line, at, bs, b, data, rule);
      RoundTripFrom(line, at + 2, bs, b + 1, data, Overlay(data, bs[..b + 1]), bs[b + 1..], rule, e);
    } else {
      RoundTripEnd(line, at, bs, b, data, rule, e);
    }
  }

  /** Past the last printed byte the field is complete. */
  lemma RoundTripEnd(line: string, at: nat, bs: seq<bv8>, b: nat, data: seq<bv8>, rule: ByteRule, e: nat)
    requires b == |bs| <= |data| && e == at
    ensures HexBytes(line, Pos(line, at), |bs|, b, Overlay(data, bs[..b]), rule)
      == Bytes(true, Overlay(data, bs), Pos(line, e))
  {
    assert bs[..b] == bs;
  }

  /** A size of 0 or less reads nothing. */
  lemma NoBytesForNoSize(line: string, cur: Cur, count: int, data: seq<bv8>, rule: ByteRule)
    requires count <= 0
    ensures HexBytes(line, cur, count, 0, data, rule) == Bytes(true, data, cur)
  {
  }

  /**
   * The readers differ on a byte of one digit: the lenient one keeps the
   * digit's value and ends the field without error, the strict one fails.
   */
  lemma OneDigitByte(line: string, p: nat, count: int, data: seq<bv8>)
    requires 1 <= count && count != 16 && 1 <= |data|
    requires !Blank(At(line, p)) && IsHex(At(line, p)) && !IsHex(At(line, p + 1))
    ensures HexBytes(line, Pos(line, p), count, 0, data, Lenient)
      == Bytes(true, data[0 := CharVal(At(line, p)) as bv8], Pos(line, p + 1))
    ensures !HexBytes(line, Pos(line, p), count, 0, data, Strict).ok
  {
    assert Put(Put(data, 0, 0), 0, CharVal(At(line, p)) as bv8) == data[0 := CharVal(At(line, p)) as bv8];
  }

  /**
   * The 16-byte case of the lenient reader: the first digit is the one
   * SKIP_WS stopped at, the second is 5 characters on, and the next byte
   * starts after it.
   */
  lemma SixteenSkipsFour(line: string, p: nat, count: int, b: nat, data: seq<bv8>)
    requires count == 16 && b < count && b < |data|
    requires !Blank(At(line, p)) && IsHex(At(line, p)) && IsHex(At(line, p + 5))
    ensures HexBytes(line, Pos(line, p), count, b, data, Lenient)
      == HexBytes(line, Pos(line, p + 6), count, b + 1,
                  data[b := PairValue(At(line, p), At(line, p + 5))], Lenient)
  {
    var v := PairValue(At(line, p), At(line, p + 5));
    PutTwice(Put(data, b, 0), b, CharVal(At(line, p)) as bv8, v);
    PutTwice(data, b, 0, v);
    assert Put(data, b, v) == data[b := v];
  }


  // ---------------------------------------------------------------------
  // Printed fields, for the round trips of the record parsers
  // ---------------------------------------------------------------------

  /** A run of blanks and tabs. */
  predicate Blanks(s: string)
  {
    forall i :: 0 <= i < |s| ==> Blank(s[i])
  }

  /** n written in decimal (hex false) or lower-case hex, without leading zeros. */
  function NumText(n: nat, hex: bool): (t: string)
    ensures |t| >= 1 && IsHex(t[0]) && !Blank(t[0])
    ensures forall i :: 0 <= i < |t| ==> Digit(t[i], hex)
    decreases n
  {
    if n < Base(hex) then [DigitChar(n, hex)]
    else
      BaseSteps(n, hex);
      NumText(n / Base(hex), hex) + [DigitChar(n % Base(hex), hex)]
  }

  /** Dividing by the base moves down to a smaller number, with a remainder below the base. */
  lemma BaseSteps(n: nat, hex: bool)
    requires n >= Base(hex)
    ensures n / Base(hex) < n && n % Base(hex) < Base(hex)
  {
  }

  /** The digit printed for a value below the base. */
  function DigitChar(v: nat, hex: bool): (ch: char)
    requires v < Base(hex)
    ensures Digit(ch, hex) && IsHex(ch) && !Blank(ch) && CharVal(ch) == v
  {
    HexDigit(v)
  }

  /** Printing then reading a number gives it back. */
  lemma {:induction false} NumTextValue(n: nat, hex: bool)
    ensures Value(NumText(n, hex), hex) == n
    decreases n
  {
    var t := NumText(n, hex);
    if n >= Base(hex) {
      assert t[..|t| - 1] == NumText(n / Base(hex), hex);
      NumTextValue(n / Base(hex), hex);
    }
  }

  /** The run of digits from p is exactly n long. */
  lemma {:induction false} RunLength(line: string, p: nat, n: nat, hex: bool)
    requires forall k :: p <= k < p + n ==> Digit(At(line, k), hex)
    requires !Digit(At(line, p + n), hex)
    ensures RunFrom(line, p, hex) == n
    decreases n
  {
    if n > 0 {
      assert Digit(At(line, p), hex);
      RunLength(line, p + 1, n - 1, hex);
    }
  }

  /** A run of m blanks at p ends where the next field starts. */
  lemma {:induction false} BlanksEnd(line: string, p: nat, m: nat)
    requires forall k :: p <= k < p + m ==> Blank(At(line, k))
    requires !Blank(At(line, p + m))
    ensures NonBlankFrom(line, p) == p + m
    decreases m
  {
    if m > 0 {
      assert Blank(At(line, p));
      BlanksEnd(line, p + 1, m - 1);
    }
  }

  /** The text t sits in the line from index p on. */
  predicate Has(line: string, p: nat, t: string)
  {
    p + |t| <= |line| && line[p..p + |t|] == t
  }

  /** Text between two others sits right after the first, and the character after it is the third's first. */
  lemma HasMiddle(a: string, t: string, b: string)
    ensures Has(a + t + b, |a|, t) && At(a + t + b, |a| + |t|) == At(b, 0)
  {
    assert (a + t + b)[|a|..|a| + |t|] == t;
  }

  /** Text made of two parts holds each part in its place, the second at q. */
  lemma HasSplit(line: string, p: nat, a: string, b: string, q: nat)
    requires Has(line, p, a + b) && q == p + |a|
    ensures Has(line, p, a) && Has(line, q, b)
  {
    assert line[p..q] == (a + b)[..|a|];
    assert line[q..q + |b|] == (a + b)[|a|..];
  }

  lemma HasAt(line: string, p: nat, t: string, i: nat)
    requires Has(line, p, t) && i < |t|
    ensures At(line, p + i) == t[i]
  {
    assert line[p..p + |t|][i] == line[p + i];
  }

  lemma HasFirst(line: string, p: nat, t: string)
    requires Has(line, p, t) && |t| >= 1
    ensures At(line, p) == t[0]
  {
    HasAt(line, p, t, 0);
  }

  /** The blanks before a printed field stop where the field starts, at q. */
  lemma HasBlanks(line: string, p: nat, sep: string, q: nat)
    requires Has(line, p, sep) && Blanks(sep) && q == p + |sep| && !Blank(At(line, q))
    ensures NonBlankFrom(line, p) == q
  {
    forall k | p <= k < q
      ensures Blank(At(line, k))
    {
      HasAt(line, p, sep, k - p);
    }
    BlanksEnd(line, p, |sep|);
  }

  /** The run of digits at a printed digit string is the string. */
  lemma HasRun(line: string, q: nat, t: string, hex: bool)
    requires Has(line, q, t) && !Digit(At(line, q + |t|), hex)
    requires forall i :: 0 <= i < |t| ==> Digit(t[i], hex)
    ensures RunFrom(line, q, hex) == |t|
  {
    forall k | q <= k < q + |t|
      ensures Digit(At(line, k), hex)
    {
      HasAt(line, q, t, k - q);
    }
    RunLength(line, q, |t|, hex);
  }

  /**
   * A number printed at q after a run of blanks from p, and followed at e
   * by something that is not a digit: reading a number from p gives the
   * printed value and stops at e.
   */
  lemma PrintedNumber(line: string, p: nat, sep: string, n: nat, hex: bool, q: nat, e: nat)
    requires Has(line, p, sep) && Blanks(sep) && q == p + |sep|
    requires Has(line, q, NumText(n, hex)) && e == q + |NumText(n, hex)| && !Digit(At(line, e), hex)
    ensures Number(line, Pos(line, p), hex) == Num(n, Pos(line, e))
  {
    var t := NumText(n, hex);
    HasFirst(line, q, t);
    HasBlanks(line, p, sep, q);
    HasRun(line, q, t, hex);
    assert Value(line[q..q + |t|], hex) == n by {
      NumTextValue(n, hex);
    }
    NumberRun(line, p, q, |t|, hex);
  }

  /**
   * A byte field printed at q, where the blanks from p end, reads back as
   * its bytes and ends at e.
   */
  lemma PrintedBytes(line: string, p: nat, bs: seq<bv8>, data: seq<bv8>, rule: ByteRule, q: nat, e: nat)
    requires SkipBlanks(line, Pos(line, p)) == Pos(line, q)
    requires Has(line, q, HexText(bs)) && e == q + 2 * |bs|
    requires 1 <= |bs| <= |data| && (rule == Lenient ==> |bs| != 16)
    ensures HexBytes(line, Pos(line, p), |bs|, 0, data, rule) == Bytes(true, Overlay(data, bs), Pos(line, e))
  {
    HexBytesRoundTrip(line, q, bs, data, rule);
    HexBytesSkip(line, Pos(line, p), |bs|, 0, data, rule);
  }

  /** The blanks before a printed byte field end at its first digit. */
  lemma BytesStart(line: string, p: nat, sep: string, bs: seq<bv8>, q: nat)
    requires Has(line, p, sep) && Blanks(sep) && q == p + |sep|
    requires Has(line, q, HexText(bs)) && 1 <= |bs|
    ensures SkipBlanks(line, Pos(line, p)) == Pos(line, q)
  {
    HasFirst(line, q, HexText(bs));
    HasBlanks(line, p, sep, q);
    SkipBlanksAt(line, p);
  }

  /** A byte starts with SKIP_WS, so blanks before the cursor do not matter. */
  lemma HexBytesSkip(line: string, cur: Cur, count: int, b: nat, data: seq<bv8>, rule: ByteRule)
    requires b < count
    ensures HexBytes(line, cur, count, b, data, rule) == HexBytes(line, SkipBlanks(line, cur), count, b, data, rule)
  {
    var s0 := SkipBlanks(line, cur);
    if s0 != cur {
      assert SkipBlanks(line, s0) == s0;
    }
  }
}
