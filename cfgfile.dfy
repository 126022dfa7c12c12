/**
 * `read_cfgfile` (moola_src/configure.c lines 1189-1253): the tokens of a
 * configuration file, and their splice into the option token list at the
 * position of the `-cfg` option that named the file.
 */
module CfgFile {
  import opened Engine

  /** The token table holds up to 500 tokens (line 56). */
  const MAX_TOKENS: nat := 500

  /** The character at k of a buffer holding s and then NUL. */
  function At(s: string, k: int): char
  {
    if 0 <= k < |s| then s[k] else '\0'
  }

  /** Skipped before a token: blank, tab and a "floating" equal sign. */
  predicate Skipped(ch: char)
  {
    ch == ' ' || ch == '\t' || ch == '='
  }

  /** The rest of the line is ignored from a comment sign, the end of the string or the newline on. */
  predicate LineEnd(ch: char)
  {
    ch == '#' || ch == '\0' || ch == '\n'
  }

  /** A token ends at any of these. */
  predicate TokenEnds(ch: char)
  {
    Skipped(ch) || LineEnd(ch)
  }

  /** The first position from k on at which a token ends. */
  function TokenEnd(line: string, k: nat): (e: nat)
    ensures k <= |line| ==> k <= e <= |line|
    ensures k > |line| ==> e == k
    ensures TokenEnds(At(line, e))
    ensures forall j :: k <= j < e ==> !TokenEnds(line[j])
    decreases |line| - k
  {
    if k >= |line| || TokenEnds(line[k]) then k else TokenEnd(line, k + 1)
  }

  /** The tokens of a line read from position k on. */
  function TokensFrom(line: string, k: nat): seq<string>
    decreases |line| - k
  {
    if k >= |line| then []
    else if Skipped(line[k]) then TokensFrom(line, k + 1)
    else if LineEnd(line[k]) then []
    else
      var e := TokenEnd(line, k + 1);
      [line[k..e]] + TokensFrom(line, e)
  }

  /** The tokens of one buffer fgets returned. */
  function LineTokens(line: string): seq<string>
  {
    TokensFrom(line, 0)
  }

  /** The tokens of the whole file, buffer by buffer. */
  function FileTokens(chunks: seq<string>): seq<string>
  {
    if |chunks| == 0 then [] else FileTokens(chunks[..|chunks| - 1]) + LineTokens(chunks[|chunks| - 1])
  }

  /** A token end is the first position at which a token ends. */
  lemma {:induction false} TokenEndAt(line: string, i: nat, k: nat)
    requires i <= k <= |line| && TokenEnds(At(line, k))
    requires forall j :: i <= j < k ==> !TokenEnds(line[j])
    ensures TokenEnd(line, i) == k
    decreases k - i
  {
    if i < k {
      TokenEndAt(line, i + 1, k);
    }
  }

  /**
   * The scan of one buffer (lines 1204-1230): skip blanks, stop at a comment
   * or the end of the line, otherwise take the characters up to the next
   * token end as a token.
   */
  method ScanLine(line: string) returns (toks: seq<string>)
    ensures toks == LineTokens(line)
  {
    toks := [];
    var k := 0;
    while true
      invariant 0 <= k <= |line| && toks + TokensFrom(line, k) == LineTokens(line)
      decreases |line| - k
    {
      var c := At(line, k);
      if LineEnd(c) {
        break;
      }
      if Skipped(c) {
        k := k + 1;
      } else {
        var start := k;
        k := k + 1;
        while !TokenEnds(At(line, k))
          invariant start < k <= |line| && forall j :: start < j < k ==> !TokenEnds(line[j])
          decreases |line| - k
        {
          k := k + 1;
        }
        TokenEndAt(line, start + 1, k);
        toks := toks + [line[start..k]];
      }
    }
  }

  /** The read loop (lines 1198-1231): the buffers fgets returns, one after the other. */
  method ReadTokens(chunks: seq<string>) returns (ft: seq<string>)
    ensures ft == FileTokens(chunks)
  {
    ft := [];
    var i := 0;
    while i < |chunks|
      invariant 0 <= i <= |chunks| && ft == FileTokens(chunks[..i])
    {
      var toks := ScanLine(chunks[i]);
      assert chunks[..i + 1][..i] == chunks[..i];
      ft := ft + toks;
      i := i + 1;
    }
    assert chunks[..i] == chunks;
  }

  /** Every token is non-empty and holds no blank, tab, '=', '#', NUL or newline. */
  predicate Clean(t: string)
  {
    |t| > 0 && forall j :: 0 <= j < |t| ==> !TokenEnds(t[j])
  }

  lemma {:induction false} TokensClean(line: string, k: nat)
    ensures forall i :: 0 <= i < |TokensFrom(line, k)| ==> Clean(TokensFrom(line, k)[i])
    decreases |line| - k
  {
    if k < |line| && !Skipped(line[k]) && !LineEnd(line[k]) {
      var e := TokenEnd(line, k + 1);
      TokensClean(line, e);
      assert Clean(line[k..e]);
    } else if k < |line| && Skipped(line[k]) {
      TokensClean(line, k + 1);
    }
  }

  /** A line's tokens stop at its first comment sign, newline or NUL: what follows gives none. */
  lemma StopIgnoresRest(l: string, c: char, r: string)
    requires LineEnd(c)
    ensures LineTokens(l + [c] + r) == LineTokens(l)
  {
    CutAt(l, c, r, 0);
  }

  lemma {:induction false} CutAt(l: string, c: char, r: string, k: nat)
    requires LineEnd(c) && k <= |l|
    ensures TokensFrom(l + [c] + r, k) == TokensFrom(l, k)
    decreases |l| - k
  {
    var s := l + [c] + r;
    assert forall j :: 0 <= j < |l| ==> s[j] == l[j];
    assert s[|l|] == c;
    if k < |l| && Skipped(l[k]) {
      CutAt(l, c, r, k + 1);
    } else if k < |l| && !LineEnd(l[k]) {
      var e := TokenEnd(l, k + 1);
      assert TokenEnd(s, k + 1) == e by { TokenEndAt(s, k + 1, e); }
      assert s[k..e] == l[k..e];
      CutAt(l, c, r, e);
    }
  }

  /** The tokens, each followed by a blank: what ScanLine splits back into the tokens. */
  function Spaced(ts: seq<string>): string
  {
    if |ts| == 0 then "" else ts[0] + " " + Spaced(ts[1..])
  }

  /** Writing clean tokens out with blanks between them and reading them back gives the tokens. */
  lemma {:induction false} SpacedRoundTrip(ts: seq<string>)
    requires forall i :: 0 <= i < |ts| ==> Clean(ts[i])
    ensures LineTokens(Spaced(ts)) == ts
  {
    if |ts| > 0 {
      var t, rest := ts[0], Spaced(ts[1..]);
      var s := t + " " + rest;
      assert Clean(t);
      assert s == Spaced(ts);
      SpacedRoundTrip(ts[1..]);
      assert forall j :: 0 <= j < |t| ==> s[j] == t[j];
      assert s[|t|] == ' ';
      assert TokenEnd(s, 1) == |t| by { TokenEndAt(s, 1, |t|); }
      assert s[0..|t|] == t;
      assert TokensFrom(s, |t| + 1) == TokensFrom(rest, 0) by { Shifted(t + " ", rest, 0); }
      assert TokensFrom(s, |t|) == TokensFrom(s, |t| + 1);
      assert TokensFrom(s, 0) == [t] + TokensFrom(s, |t|);
    }
  }

  /** The tokens from a position depend only on what follows it. */
  lemma {:induction false} Shifted(p: string, s: string, k: nat)
    ensures TokensFrom(p + s, |p| + k) == TokensFrom(s, k)
    decreases |s| - k
  {
    var ps := p + s;
    if k < |s| {
      assert ps[|p| + k] == s[k];
      if Skipped(s[k]) {
        Shifted(p, s, k + 1);
      } else if !LineEnd(s[k]) {
        var e := TokenEnd(s, k + 1);
        ShiftedToken(p, s, k, e);
        Shifted(p, s, e);
      }
    }
  }

  /** A token of s read at the same place after a prefix p: it ends |p| further on and has the same text. */
  lemma ShiftedToken(p: string, s: string, k: nat, e: nat)
    requires k < |s| && e == TokenEnd(s, k + 1)
    ensures TokenEnd(p + s, |p| + k + 1) == |p| + e
    ensures (p + s)[|p| + k..|p| + e] == s[k..e]
  {
    var ps := p + s;
    assert forall j :: |p| <= j < |ps| ==> ps[j] == s[j - |p|];
    assert At(ps, |p| + e) == At(s, e);
    TokenEndAt(ps, |p| + k + 1, |p| + e);
    ShiftedSlice(p, s, k, e);
  }

  /** A slice of s is the same slice of p + s, |p| further on. */
  lemma ShiftedSlice(p: string, s: string, k: nat, e: nat)
    requires k <= e <= |s|
    ensures (p + s)[|p| + k..|p| + e] == s[k..e]
  {
    assert (p + s)[|p|..] == s;
  }

  // ---------------------------------------------------------------------
  // The splice (lines 1239-1251)
  // ---------------------------------------------------------------------

  /** The token pointers, as present entries. */
  function Present(ft: seq<string>): (r: seq<Option<string>>)
    ensures |r| == |ft| && forall i :: 0 <= i < |ft| ==> r[i] == Some(ft[i])
  {
    seq(|ft|, i requires 0 <= i < |ft| => Some(ft[i]))
  }

  /**
   * The table after the splice, entry by entry: the file's tokens from tkn
   * on, the tokens that stood from tkn to cnt moved up by their number, the
   * rest as before.
   */
  function Spliced(a: seq<Option<string>>, tkn: nat, cnt: nat, ft: seq<string>): (r: seq<Option<string>>)
    requires tkn <= cnt && cnt + |ft| <= |a|
    ensures |r| == |a|
  {
    seq(|a|, j requires 0 <= j < |a| =>
      if tkn <= j < tkn + |ft| then Some(ft[j - tkn])
      else if tkn + |ft| <= j < cnt + |ft| then a[j - |ft|]
      else a[j])
  }

  /** The shift and then the copy of read_cfgfile make the splice. */
  lemma SpliceSteps(a: seq<Option<string>>, b: seq<Option<string>>, c: seq<Option<string>>, tkn: nat, cnt: nat, ft: seq<string>)
    requires tkn <= cnt && cnt + |ft| <= |a| && |b| == |a| && |c| == |a|
    requires forall j {:trigger b[j]} :: 0 <= j < |b| ==> b[j] == if tkn + |ft| <= j < cnt + |ft| then a[j - |ft|] else a[j]
    requires forall j :: 0 <= j < |c| ==> c[j] == if tkn <= j < tkn + |ft| then Some(ft[j - tkn]) else b[j]
    ensures c == Spliced(a, tkn, cnt, ft)
  {
    var r := Spliced(a, tkn, cnt, ft);
    forall j | 0 <= j < |c|
      ensures c[j] == r[j]
    {
      assert r[j] == if tkn <= j < tkn + |ft| then Some(ft[j - tkn])
        else if tkn + |ft| <= j < cnt + |ft| then a[j - |ft|] else a[j];
    }
  }

  /** The splice inserts the file's tokens at tkn: old[..tkn] ++ file ++ old[tkn..cnt], then the unused entries. */
  lemma SplicedIsInsert(a: seq<Option<string>>, tkn: nat, cnt: nat, ft: seq<string>)
    requires tkn <= cnt && cnt + |ft| <= |a|
    ensures Spliced(a, tkn, cnt, ft) == a[..tkn] + Present(ft) + a[tkn..cnt] + a[cnt + |ft|..]
    ensures Spliced(a, tkn, cnt, ft)[..cnt + |ft|] == a[..tkn] + Present(ft) + a[tkn..cnt]
  {
    var r := Spliced(a, tkn, cnt, ft);
    var b := a[..tkn] + Present(ft) + a[tkn..cnt] + a[cnt + |ft|..];
    assert |b| == |r|;
    forall j | 0 <= j < |r|
      ensures r[j] == b[j]
    {
      if j < tkn {
      } else if j < tkn + |ft| {
        assert b[j] == Present(ft)[j - tkn];
      } else if j < cnt + |ft| {
        assert b[j] == a[tkn..cnt][j - tkn - |ft|];
      } else {
        assert b[j] == a[cnt + |ft|..][j - cnt - |ft|];
      }
    }
    assert r == b;
    assert b[..cnt + |ft|] == a[..tkn] + Present(ft) + a[tkn..cnt];
  }

  /** The option token list configure walks, and its count. */
  class TokenTable {
    var tokens: array<Option<string>>
    var tknCnt: int

    predicate Valid()
      reads this
    {
      tokens.Length == MAX_TOKENS && 0 <= tknCnt <= MAX_TOKENS
    }

    /** An empty table: every entry NULL (lines 303-305). */
    constructor Init()
      ensures Valid() && tknCnt == 0 && fresh(tokens)
      ensures forall j :: 0 <= j < MAX_TOKENS ==> tokens[j] == None
    {
      tokens := new Option<string>[MAX_TOKENS](_ => None);
      tknCnt := 0;
    }

    /**
     * read_cfgfile: reads the file's tokens from the buffers fgets returns
     * and splices them in at tkn.  The source does not bound the number of
     * tokens; the table and the file's token buffer hold 500.
     */
    method ReadCfgFile(chunks: seq<string>, tkn: int) returns (r: int)
      requires Valid() && 0 <= tkn <= tknCnt && tknCnt + |FileTokens(chunks)| <= MAX_TOKENS
      modifies this, tokens
      ensures Valid() && tokens == old(tokens) && r == 0
      ensures tokens[..] == Spliced(old(tokens[..]), tkn, old(tknCnt), FileTokens(chunks))
      ensures tknCnt == old(tknCnt) + |FileTokens(chunks)|
    {
      var ft := ReadTokens(chunks);
      ghost var a := tokens[..];
      Shift(tkn, |ft|);
      ghost var b := tokens[..];
      assert forall j :: 0 <= j < |b| ==> b[j] == if tkn + |ft| <= j < tknCnt + |ft| then a[j - |ft|] else a[j];
      CopyIn(tkn, ft);
      assert forall j :: 0 <= j < tokens.Length ==> tokens[..][j] == if tkn <= j < tkn + |ft| then Some(ft[j - tkn]) else b[j];
      SpliceSteps(a, b, tokens[..], tkn, tknCnt, ft);
      tknCnt := tknCnt + |ft|;
      r := 0;
    }

    /** The reverse loop of lines 1239-1245: tokens tkn .. tknCnt - 1 move up by f. */
    method Shift(tkn: int, f: nat)
      requires Valid() && 0 <= tkn <= tknCnt && tknCnt + f <= MAX_TOKENS
      modifies tokens
      ensures forall j :: 0 <= j < tokens.Length ==>
                tokens[j] == if tkn + f <= j < tknCnt + f then old(tokens[j - f]) else old(tokens[j])
    {
      if tknCnt != tkn {
        var tk := tknCnt - 1;
        while tk >= tkn
          invariant tkn - 1 <= tk <= tknCnt - 1
          invariant forall j :: 0 <= j < tokens.Length ==>
                      tokens[j] == if tk + 1 + f <= j < tknCnt + f then old(tokens[j - f]) else old(tokens[j])
        {
          tokens[tk + f] := tokens[tk];
          tk := tk - 1;
        }
      }
    }

    /** The copy loop of lines 1247-1249: the file's tokens into tkn, tkn + 1, ... */
    method CopyIn(tkn: int, ft: seq<string>)
      requires Valid() && 0 <= tkn && tkn + |ft| <= MAX_TOKENS
      modifies tokens
      ensures forall j :: 0 <= j < tokens.Length ==>
                tokens[j] == if tkn <= j < tkn + |ft| then Some(ft[j - tkn]) else old(tokens[j])
    {
      var tk := 0;
      while tk < |ft|
        invariant 0 <= tk <= |ft|
        invariant forall j :: 0 <= j < tokens.Length ==>
                    tokens[j] == if tkn <= j < tkn + tk then Some(ft[j - tkn]) else old(tokens[j])
      {
        tokens[tkn + tk] := Some(ft[tk]);
        tk := tk + 1;
      }
    }
  }
}
