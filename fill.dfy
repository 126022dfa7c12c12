/**
 * The two plain byte copies of `reference`: main memory filling the victim
 * line from the memory reference on a miss, and a line fill, which copies a
 * window of the line that hit into the line of the cache above.
 */
module Fill {
  import opened Defs
  import opened Lines

  /** Bytes off .. off + n - 1 of s; a position outside s reads as 0. */
  function Window(s: seq<bv8>, off: int, n: nat): (w: seq<bv8>)
    ensures |w| == n && forall b :: 0 <= b < n ==> w[b] == Get(s, off + b)
  {
    seq(n, b => Get(s, off + b))
  }

  /** s with the first n bytes of src written from position off on; a position outside s is not written. */
  function Paste(s: seq<bv8>, off: int, src: seq<bv8>, n: int): (r: seq<bv8>)
    ensures |r| == |s|
    ensures forall j :: 0 <= j < |s| ==> r[j] == if off <= j < off + n then Get(src, j - off) else s[j]
  {
    seq(|s|, j requires 0 <= j < |s| => if off <= j < off + n then Get(src, j - off) else s[j])
  }

  /** s with every position in off .. off + n - 1 set to v. */
  function Stamp(s: seq<bv8>, off: int, n: int, v: bv8): (r: seq<bv8>)
    ensures |r| == |s|
    ensures forall j :: 0 <= j < |s| ==> r[j] == if off <= j < off + n then v else s[j]
  {
    seq(|s|, j requires 0 <= j < |s| => if off <= j < off + n then v else s[j])
  }

  /** A window within what was pasted holds the pasted bytes. */
  lemma WindowOfPaste(s: seq<bv8>, off: int, src: seq<bv8>, m: int, n: nat)
    requires 0 <= off && off + n <= |s| && n <= m && n <= |src|
    ensures Window(Paste(s, off, src, m), off, n) == src[..n]
  {
  }

  /** Pasting what a window holds changes nothing. */
  lemma PasteOfWindow(s: seq<bv8>, off: int, n: nat)
    requires 0 <= off && off + n <= |s|
    ensures Paste(s, off, Window(s, off, n), n) == s
  {
    assert forall j :: 0 <= j < |s| ==> Paste(s, off, Window(s, off, n), n)[j] == s[j];
  }

  /** The status main memory gives the bytes a reference brings. */
  function FillStat(oper: int): bv8
    requires 0 <= oper < 256
  {
    if IsWriteOp(oper) then MRWRSTAT else MRRDSTAT
  }

  /**
   * Main memory filling line v from reference mr: from the offset of mr in
   * the line on, the reference's bytes become the data and the original
   * data, their status is the read or write status, the first of them is
   * marked as an element start unless mr is the second part of a split,
   * and the line becomes valid.
   */
  function MemFill(v: Line, mr: Memref, oper: int): (r: Line)
    requires 0 <= oper < 256
    ensures |r.data| == |v.data| && |r.orig| == |v.orig| && |r.stat| == |v.stat|
  {
    var off := Int16(mr.adrs - v.adrs);
    var st := Stamp(v.stat, off, mr.size, FillStat(oper));
    v.(data := Paste(v.data, off, mr.data, mr.size), orig := Paste(v.orig, off, mr.data, mr.size),
       stat := if mr.split == 0 then Put(st, off, Get(st, off) | CBLEMNT) else st,
       valid := true)
  }

  /** The loop of the main-memory fill, then the element mark. */
  method FillFromMemref(v: Line, mr: Memref, oper: int) returns (r: Line)
    requires 0 <= oper < 256
    ensures r == MemFill(v, mr, oper)
  {
    var off := Int16(mr.adrs - v.adrs);
    var st := FillStat(oper);
    var data, orig, stat := v.data, v.orig, v.stat;
    var b := 0;
    while b < mr.size
      invariant 0 <= b && (mr.size >= 0 ==> b <= mr.size) && (mr.size < 0 ==> b == 0)
      invariant |data| == |v.data| && |orig| == |v.orig| && |stat| == |v.stat|
      invariant forall j :: 0 <= j < |data| ==> data[j] == if off <= j < off + b then Get(mr.data, j - off) else v.data[j]
      invariant forall j :: 0 <= j < |orig| ==> orig[j] == if off <= j < off + b then Get(mr.data, j - off) else v.orig[j]
      invariant forall j :: 0 <= j < |stat| ==> stat[j] == if off <= j < off + b then st else v.stat[j]
    {
      data := Put(data, off + b, Get(mr.data, b));
      orig := Put(orig, off + b, Get(mr.data, b));
      stat := Put(stat, off + b, st);
      b := b + 1;
    }
    assert data == Paste(v.data, off, mr.data, mr.size) by {
      assert forall j :: 0 <= j < |data| ==> data[j] == Paste(v.data, off, mr.data, mr.size)[j];
    }
    assert orig == Paste(v.orig, off, mr.data, mr.size) by {
      assert forall j :: 0 <= j < |orig| ==> orig[j] == Paste(v.orig, off, mr.data, mr.size)[j];
    }
    assert stat == Stamp(v.stat, off, mr.size, st) by {
      assert forall j :: 0 <= j < |stat| ==> stat[j] == Stamp(v.stat, off, mr.size, st)[j];
    }
    if mr.split == 0 {
      stat := Put(stat, off, Get(stat, off) | CBLEMNT);
    }
    r := v.(data := data, orig := orig, stat := stat, valid := true);
  }

  /**
   * A line fill: the line cl of the cache above takes its bytes, original
   * bytes and status from the window of the hit line at cl's offset in it,
   * and the hit line's validity.
   */
  function FillFrom(cl: Line, hit: Line): (r: Line)
    ensures |r.data| == |cl.data| && |r.orig| == |cl.data| && |r.stat| == |cl.data|
  {
    var off := Int16(cl.adrs - hit.adrs);
    var n := |cl.data|;
    cl.(data := Window(hit.data, off, n), orig := Window(hit.orig, off, n), stat := Window(hit.stat, off, n),
        valid := hit.valid)
  }

  /** The copy loop of a line fill. */
  method CopyFill(cl: Line, hit: Line) returns (r: Line)
    requires Sized(cl, |cl.data|)
    ensures r == FillFrom(cl, hit)
  {
    var off := Int16(cl.adrs - hit.adrs);
    var n := |cl.data|;
    var data, orig, stat := cl.data, cl.orig, cl.stat;
    var b := 0;
    while b < n
      invariant 0 <= b <= n && |data| == n && |orig| == n && |stat| == n
      invariant data[..b] == Window(hit.data, off, b) && orig[..b] == Window(hit.orig, off, b)
      invariant stat[..b] == Window(hit.stat, off, b)
    {
      data := data[b := Get(hit.data, off + b)];
      orig := orig[b := Get(hit.orig, off + b)];
      stat := stat[b := Get(hit.stat, off + b)];
      b := b + 1;
    }
    assert data == data[..n] && orig == orig[..n] && stat == stat[..n];
    r := cl.(data := data, orig := orig, stat := stat, valid := hit.valid);
  }

  /**
   * What a fill from memory hands back: a line of the cache above at the
   * reference's address (offset 0 in the victim, which takes that address)
   * receives exactly the reference's bytes.
   */
  lemma FillAfterMemFill(cl: Line, v: Line, mr: Memref, oper: int)
    requires 0 <= oper < 256 && v.adrs == cl.adrs && mr.adrs == cl.adrs
    requires |cl.data| <= |v.data| && |cl.data| <= |v.orig| && |cl.data| <= mr.size && |cl.data| <= |mr.data|
    ensures FillFrom(cl, MemFill(v, mr, oper)).data == mr.data[..|cl.data|]
    ensures FillFrom(cl, MemFill(v, mr, oper)).orig == mr.data[..|cl.data|]
    ensures FillFrom(cl, MemFill(v, mr, oper)).valid
  {
    var n := |cl.data|;
    WrapInRange(0);
    assert Int16(mr.adrs - v.adrs) == 0;
    var r := MemFill(v, mr, oper);
    MemFillFields(v, mr, oper);
    var pd, po := Paste(v.data, 0, mr.data, mr.size), Paste(v.orig, 0, mr.data, mr.size);
    assert r.data == pd && r.orig == po && r.adrs == cl.adrs;
    assert Int16(cl.adrs - r.adrs) == 0;
    FillFromFields(cl, r);
    WindowOfPaste(v.data, 0, mr.data, mr.size, n);
    WindowOfPaste(v.orig, 0, mr.data, mr.size, n);
    assert FillFrom(cl, r).data == Window(pd, 0, n) && FillFrom(cl, r).orig == Window(po, 0, n);
  }

  /** The fields a fill from memory sets. */
  lemma MemFillFields(v: Line, mr: Memref, oper: int)
    requires 0 <= oper < 256
    ensures MemFill(v, mr, oper).adrs == v.adrs && MemFill(v, mr, oper).valid
    ensures MemFill(v, mr, oper).data == Paste(v.data, Int16(mr.adrs - v.adrs), mr.data, mr.size)
    ensures MemFill(v, mr, oper).orig == Paste(v.orig, Int16(mr.adrs - v.adrs), mr.data, mr.size)
  {
  }

  /** The fields a line fill sets. */
  lemma FillFromFields(cl: Line, hit: Line)
    ensures FillFrom(cl, hit).data == Window(hit.data, Int16(cl.adrs - hit.adrs), |cl.data|)
    ensures FillFrom(cl, hit).orig == Window(hit.orig, Int16(cl.adrs - hit.adrs), |cl.data|)
    ensures FillFrom(cl, hit).valid == hit.valid
  {
  }
}
