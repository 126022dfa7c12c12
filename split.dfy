/**
 * Line addresses, and `ref_split`: a processor reference whose first and
 * last bytes lie in different cache lines is cut into a first part that
 * ends where the line of its last byte starts, and the remainder, which
 * starts there.
 */
module Split {
  import opened Defs
  import opened Bits
  import opened Lines

  /** The line address of an address: `adrs & tagmask` with tagmask = ~0 << blkBits. */
  function TagOf(x: int, blkBits: nat): (t: int)
    ensures t <= x < t + Pow2(blkBits)
  {
    x - x % Pow2(blkBits)
  }

  /** A positive multiple of d is at least d. */
  lemma MulAtLeast(k: int, d: int)
    requires k >= 1 && d > 0
    ensures k * d >= d
  {
    assert k * d == d + (k - 1) * d;
  }

  /** Euclidean division is unique. */
  lemma DivUnique(a: int, d: int, q: int, r: int)
    requires d > 0 && a == q * d + r && 0 <= r < d
    ensures a / d == q && a % d == r
  {
    var q', r' := a / d, a % d;
    assert (q - q') * d == r' - r;
    if q > q' {
      MulAtLeast(q - q', d);
    } else if q < q' {
      assert (q' - q) * d == r - r';
      MulAtLeast(q' - q, d);
    }
  }

  /** A line address is its own line address. */
  lemma TagAligned(x: int, blkBits: nat)
    ensures TagOf(TagOf(x, blkBits), blkBits) == TagOf(x, blkBits)
  {
    var d := Pow2(blkBits);
    DivUnique(x, d, x / d, x % d);
    DivUnique(TagOf(x, blkBits), d, x / d, 0);
  }

  /** Every address between a line address and an address of that line is in the same line. */
  lemma TagOfSameLine(a: int, b: int, blkBits: nat)
    requires TagOf(b, blkBits) <= a <= b
    ensures TagOf(a, blkBits) == TagOf(b, blkBits)
  {
    var d := Pow2(blkBits);
    DivUnique(b, d, b / d, b % d);
    DivUnique(a, d, b / d, a - TagOf(b, blkBits));
  }

  /** The address of the last byte of a reference. */
  function Last(mr: Memref): int { mr.adrs + mr.size - 1 }

  /** The first and last bytes of the reference lie in different lines. */
  predicate Crosses(mr: Memref, blkBits: nat)
  {
    TagOf(mr.adrs, blkBits) != TagOf(Last(mr), blkBits)
  }

  /** How far the line of the last byte lies beyond the line of the first, in bytes. */
  function Span(mr: Memref, blkBits: nat): int
  {
    TagOf(Last(mr), blkBits) - TagOf(mr.adrs, blkBits)
  }

  /** The size of the first part: the bytes before the line of the last byte. */
  function FirstSize(mr: Memref, blkBits: nat): int
  {
    TagOf(Last(mr), blkBits) - mr.adrs
  }

  /** The data of the first part: the first size1 bytes, then zeros up to the record's capacity. */
  function FirstData(data: seq<bv8>, size1: int): (r: seq<bv8>)
    ensures |r| == MAX_MR_DATA
    ensures forall i :: 0 <= i < MAX_MR_DATA ==> r[i] == if i < size1 then Get(data, i) else 0
  {
    seq(MAX_MR_DATA, i => if i < size1 then Get(data, i) else 0)
  }

  /**
   * The data of the remainder: the bytes from size1 on shifted down to the
   * start, the vacated bytes below the old size zeroed, the rest unchanged.
   */
  function RestData(data: seq<bv8>, size: int, size1: int): (r: seq<bv8>)
    ensures |r| == |data|
    ensures forall i :: 0 <= i < |data| ==>
      r[i] == if i < size - size1 then Get(data, i + size1) else if i < size then 0 else data[i]
  {
    seq(|data|, i requires 0 <= i < |data| =>
          if i < size - size1 then Get(data, i + size1) else if i < size then 0 else data[i])
  }

  /**
   * The first part: address, time, line number, operation, segment and pid
   * of mr, the first size1 bytes, marked as the first part.  The other
   * fields (asid, virtual address, heap number and the three names) are
   * taken as zero and empty: `get_memref` does not reset them, so in C they
   * hold what the recycled record last held, and nothing the engine does
   * with the first part reads them.
   */
  function First(mr: Memref, size1: int): Memref
  {
    Memref(mr.adrs, mr.time, mr.linenmbr, size1, FirstData(mr.data, size1),
           mr.oper, mr.segmnt, mr.pid, 0, 0, 0, 0, [], [], [])
  }

  /** The remainder, mr itself updated: size1 bytes further on, size1 bytes fewer, marked as the second part. */
  function Rest(mr: Memref, size1: int): Memref
  {
    mr.(adrs := mr.adrs + size1, size := mr.size - size1, split := 1, data := RestData(mr.data, mr.size, size1))
  }

  /** The first loop of ref_split: copy the first size1 bytes into a zeroed buffer. */
  method CopyFirst(data: seq<bv8>, size1: int) returns (d1: seq<bv8>)
    ensures d1 == FirstData(data, size1)
  {
    d1 := Zeros(MAX_MR_DATA);
    var i := 0;
    while i < size1 && i < MAX_MR_DATA
      invariant 0 <= i <= MAX_MR_DATA && |d1| == MAX_MR_DATA && (i == 0 || i <= size1)
      invariant forall j :: 0 <= j < MAX_MR_DATA ==> d1[j] == if j < i then Get(data, j) else 0
    {
      d1 := d1[i := Get(data, i)];
      i := i + 1;
    }
    assert forall j :: 0 <= j < MAX_MR_DATA ==> d1[j] == FirstData(data, size1)[j];
  }

  /** The second and third loops: shift the bytes down by size1 in place, then zero the vacated ones. */
  method ShiftDown(data: seq<bv8>, size: int, size1: int) returns (d: seq<bv8>)
    requires size1 >= 1
    ensures d == RestData(data, size, size1)
  {
    var n := size - size1;
    d := data;
    var i := 0;
    while i < n
      invariant 0 <= i <= (if n >= 0 then n else 0) && |d| == |data|
      invariant forall j :: 0 <= j < |d| ==> d[j] == if j < i then Get(data, j + size1) else data[j]
    {
      var b := Get(d, i + size1);
      assert b == Get(data, i + size1);
      if i < |d| {
        d := d[i := b];
      }
      i := i + 1;
    }
    while i < size
      invariant (if n >= 0 then n else 0) <= i && (i <= size || i == 0) && |d| == |data|
      invariant forall j :: 0 <= j < |d| ==>
        d[j] == if j < n then Get(data, j + size1) else if j < i then 0 else data[j]
    {
      if i < |d| {
        d := d[i := 0];
      }
      i := i + 1;
    }
    assert forall j :: 0 <= j < |d| ==> d[j] == RestData(data, size, size1)[j];
  }

  /**
   * ref_split on a reference that crosses a line: the first part is built
   * byte by byte, then mr's bytes are shifted down in place.
   */
  method RefSplit(mr: Memref, blkBits: nat) returns (ref1: Memref, mr2: Memref)
    requires mr.size >= 1 && Crosses(mr, blkBits)
    ensures ref1 == First(mr, FirstSize(mr, blkBits))
    ensures mr2 == Rest(mr, FirstSize(mr, blkBits))
  {
    var size1 := TagOf(mr.adrs + mr.size - 1, blkBits) - mr.adrs;
    assert size1 >= 1 by {
      if TagOf(mr.adrs + mr.size - 1, blkBits) <= mr.adrs {
        TagOfSameLine(mr.adrs, Last(mr), blkBits);
      }
    }
    var d1 := CopyFirst(mr.data, size1);
    ref1 := Memref(mr.adrs, mr.time, mr.linenmbr, size1, d1, mr.oper, mr.segmnt, mr.pid, 0, 0, 0, 0, [], [], []);
    var d := ShiftDown(mr.data, mr.size, size1);
    mr2 := mr.(adrs := mr.adrs + size1, size := mr.size - size1, data := d, split := 1);
  }

  /**
   * Where the two parts lie: the remainder starts where the first part ends,
   * at the line of the last byte, and lies within that line; the first part
   * is not empty and spans fewer lines than the original; the sizes add up.
   */
  lemma SplitGeometry(mr: Memref, blkBits: nat)
    requires mr.size >= 1 && Crosses(mr, blkBits)
    ensures var s1 := FirstSize(mr, blkBits); var r1 := First(mr, s1); var r2 := Rest(mr, s1);
      && 1 <= s1 < mr.size
      && r1.size + r2.size == mr.size && r2.adrs == r1.adrs + r1.size
      && r2.adrs == TagOf(Last(mr), blkBits) && TagOf(r2.adrs, blkBits) == r2.adrs && !Crosses(r2, blkBits)
      && 0 <= Span(r1, blkBits) < Span(mr, blkBits)
      && r1.split == 0 && r2.split == 1
  {
    var t2 := TagOf(Last(mr), blkBits);
    assert mr.adrs < t2 by {
      if t2 <= mr.adrs {
        TagOfSameLine(mr.adrs, Last(mr), blkBits);
      }
    }
    TagAligned(Last(mr), blkBits);
    var r1 := First(mr, FirstSize(mr, blkBits));
    assert Last(r1) == t2 - 1;
    assert TagOf(Last(r1), blkBits) <= Last(r1);
    assert TagOf(mr.adrs, blkBits) <= TagOf(Last(r1), blkBits) by {
      if TagOf(Last(r1), blkBits) < TagOf(mr.adrs, blkBits) {
        TagOfSameLine(TagOf(mr.adrs, blkBits), Last(r1), blkBits);
        TagAligned(mr.adrs, blkBits);
      }
    }
  }

  /**
   * What the two parts hold: for a record of at most MAX_MR_DATA bytes, the
   * data of the two parts concatenate to the original data, and the bytes
   * past each part's size are zero.
   */
  lemma SplitData(mr: Memref, size1: int)
    requires WellFormed(mr) && 1 <= size1 < mr.size <= MAX_MR_DATA
    ensures var r1 := First(mr, size1); var r2 := Rest(mr, size1);
      && r1.data[..r1.size] + r2.data[..r2.size] == mr.data[..mr.size]
      && (forall i :: r1.size <= i < MAX_MR_DATA ==> r1.data[i] == 0)
      && (forall i :: r2.size <= i < mr.size ==> r2.data[i] == 0)
  {
    var r1 := First(mr, size1);
    var r2 := Rest(mr, size1);
    var c := r1.data[..size1] + r2.data[..mr.size - size1];
    forall k | 0 <= k < mr.size
      ensures c[k] == mr.data[k]
    {
      if k < size1 {
        assert c[k] == r1.data[k];
      } else {
        assert c[k] == r2.data[k - size1];
      }
    }
  }
}
