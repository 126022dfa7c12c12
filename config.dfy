/**
 * Building a cache level (moola_src/configure.c): the geometry check and
 * ring build of `init_cache`, its address masks, and the power-of-two and
 * size-suffix checks `configure` applies to the numeric cache options.
 * The options themselves, `initialize` and the IvyBridge preset are module
 * Options; the configuration-file splice is module CfgFile.
 */
module Configure {
  import opened Defs
  import opened Bits
  import opened Ring
  import opened Lines
  import opened Engine

  // ---------------------------------------------------------------------
  // init_cache: geometry
  // ---------------------------------------------------------------------

  /** The number of lines and of sets init_cache derives. */
  datatype Shape = Shape(nLines: int, nSets: int)

  /**
   * Lines 1071-1081: nmbr_lines = size / lin_siz and nmbr_sets = nmbr_lines
   * / assoc in C's truncating division; the cache is refused (None, status
   * -1) unless nmbr_sets * assoc * lin_siz gives the size back.  The product
   * never exceeds the size in magnitude, so it cannot overflow 32 bits.
   */
  function Geometry(size: int, linSiz: int, assoc: int): (g: Option<Shape>)
    requires linSiz != 0 && assoc != 0
    ensures g.Some? ==> g.value.nSets * assoc * linSiz == size
  {
    var nl := CDiv(size, linSiz);
    var ns := CDiv(nl, assoc);
    if ns * assoc * linSiz != size then None else Some(Shape(nl, ns))
  }

  /** An accepted cache of positive geometry has assoc lines in each of its sets. */
  lemma GeometryLines(size: nat, linSiz: int, assoc: int)
    requires linSiz >= 1 && assoc >= 1 && Geometry(size, linSiz, assoc).Some?
    ensures Geometry(size, linSiz, assoc).value.nLines == Geometry(size, linSiz, assoc).value.nSets * assoc
  {
    var g := Geometry(size, linSiz, assoc).value;
    LinesOfSets(g.nSets, assoc, linSiz, g.nLines);
  }

  /** Division undoes a multiplication, and the remainder is what was added. */
  lemma DivMod(q: int, r: int, d: int)
    requires d >= 1 && 0 <= r < d && q >= 0
    ensures (q * d + r) / d == q && (q * d + r) % d == r
  {
    var x := q * d + r;
    var q', r' := x / d, x % d;
    assert x == q' * d + r' && 0 <= r' < d;
    MulGap(q', q, d);
    MulGap(q, q', d);
  }

  /** Products with d of two different integers lie at least d apart. */
  lemma MulGap(a: int, b: int, d: int)
    requires d >= 1
    ensures a > b ==> a * d - b * d >= d
  {
    if a > b {
      MulAtLeast(a - b, d);
      assert a * d - b * d == (a - b) * d;
    }
  }

  /** DivMod, for a dividend already known to be q * d + r. */
  lemma DivModOf(x: int, q: int, r: int, d: int)
    requires d >= 1 && 0 <= r < d && q >= 0 && x == q * d + r
    ensures x / d == q && x % d == r
  {
    DivMod(q, r, d);
  }

  lemma MulAtLeast(k: int, d: int)
    requires k >= 1 && d >= 0
    ensures k * d >= d
  {
  }

  /** The line count of an accepted cache is the set count times the associativity. */
  lemma LinesOfSets(ns: int, assoc: int, linSiz: int, nl: int)
    requires linSiz >= 1 && assoc >= 1 && ns * assoc * linSiz >= 0
    requires nl == (ns * assoc * linSiz) / linSiz
    ensures nl == ns * assoc
  {
    ProductSign(ns * assoc, linSiz);
    DivMod(ns * assoc, 0, linSiz);
  }

  /** The sign of a product with a positive factor m is the other factor's, at least m away from 0. */
  lemma ProductSign(a: int, m: int)
    requires m >= 1
    ensures a < 0 ==> a * m <= -m
    ensures a > 0 ==> a * m >= m
    ensures a == 0 ==> a * m == 0
  {
    if a < 0 {
      MulAtLeast(-a, m);
      assert (-a) * m == -(a * m);
    } else if a > 0 {
      MulAtLeast(a, m);
    }
  }

  /** A size that is a whole number of sets of assoc lines is accepted, with that many sets. */
  lemma {:induction false} GeometryExact(k: nat, linSiz: int, assoc: int)
    requires linSiz >= 1 && assoc >= 1
    ensures Geometry(k * assoc * linSiz, linSiz, assoc) == Some(Shape(k * assoc, k))
  {
    var size := k * assoc * linSiz;
    assert k * assoc >= 0 by { if k > 0 { MulAtLeast(k, assoc); } }
    DivMod(k * assoc, 0, linSiz);
    DivMod(k, 0, assoc);
  }

  /**
   * For a non-negative size, init_cache accepts exactly the sizes that are a
   * multiple of lin_siz * assoc.
   */
  lemma GeometryIff(size: nat, linSiz: int, assoc: int)
    requires linSiz >= 1 && assoc >= 1
    ensures Geometry(size, linSiz, assoc).Some? <==> size % (assoc * linSiz) == 0
  {
    var m := assoc * linSiz;
    assert m >= 1 by { MulAtLeast(assoc, linSiz); }
    if size % m == 0 {
      var k := size / m;
      assert size == k * assoc * linSiz by { assert size == k * m; }
      GeometryExact(k, linSiz, assoc);
    }
    GeometryDivides(size, linSiz, assoc);
  }

  /** An accepted non-negative size is a whole number of sets. */
  lemma GeometryDivides(size: nat, linSiz: int, assoc: int)
    requires linSiz >= 1 && assoc >= 1
    ensures Geometry(size, linSiz, assoc).Some? ==> size % (assoc * linSiz) == 0
  {
    if Geometry(size, linSiz, assoc).Some? {
      var m := assoc * linSiz;
      assert m >= 1 by { MulAtLeast(assoc, linSiz); }
      var ns := Geometry(size, linSiz, assoc).value.nSets;
      assert ns * m == size by { assert ns * assoc * linSiz == ns * m; }
      ProductSign(ns, m);
      DivMod(ns, 0, m);
    }
  }

  // ---------------------------------------------------------------------
  // init_cache: the set rings
  // ---------------------------------------------------------------------

  /**
   * The `lru` link line x receives (lines 1119-1135): the line after it,
   * except that the last line of a set of two or more links back to the
   * first.  The first line's case is tested first, so with assoc 1 a line
   * links to the line after it, the first line of the next set.
   */
  function InitLru(x: nat, assoc: nat): int
    requires assoc >= 1
  {
    var lcnt := x % assoc;
    if lcnt == 0 then x + 1
    else if lcnt == assoc - 1 then x - lcnt
    else x + 1
  }

  /** The `mru` link line x receives: the line before it, and for a set's first line its last line. */
  function InitMru(x: nat, assoc: nat): int
    requires assoc >= 1
  {
    var lcnt := x % assoc;
    if lcnt == 0 then x - lcnt + (assoc - 1)
    else x - 1
  }

  function InitLruLinks(n: nat, assoc: nat): (r: seq<int>)
    requires assoc >= 1
    ensures |r| == n
  {
    seq(n, x requires 0 <= x => InitLru(x, assoc))
  }

  function InitMruLinks(n: nat, assoc: nat): (r: seq<int>)
    requires assoc >= 1
    ensures |r| == n
  {
    seq(n, x requires 0 <= x => InitMru(x, assoc))
  }

  /** Each set's most recent line is its first, its least recent its last. */
  function InitSetMru(nSets: nat, assoc: nat): (r: seq<int>)
    ensures |r| == nSets
  {
    seq(nSets, s => s * assoc)
  }

  function InitSetLru(nSets: nat, assoc: nat): (r: seq<int>)
    ensures |r| == nSets
  {
    seq(nSets, s => s * assoc + assoc - 1)
  }

  /** The recency order the built rings hold: set s has lines s*assoc .. s*assoc+assoc-1, first to last. */
  function InitOrder(nSets: nat, assoc: nat): (r: seq<seq<int>>)
    ensures |r| == nSets
  {
    seq(nSets, s => seq(assoc, k => s * assoc + k))
  }

  function InitOwner(n: nat, assoc: nat): (r: seq<int>)
    requires assoc >= 1
    ensures |r| == n
  {
    seq(n, x => x / assoc)
  }

  /**
   * The nested loops of lines 1114-1142: set by set, the set's most and
   * least recent line are its first and last, then each of its lines gets
   * its two links.
   */
  method BuildRings(nSets: nat, assoc: nat) returns (lru: seq<int>, mru: seq<int>, setMru: seq<int>, setLru: seq<int>)
    requires assoc >= 1
    ensures lru == InitLruLinks(nSets * assoc, assoc) && mru == InitMruLinks(nSets * assoc, assoc)
    ensures setMru == InitSetMru(nSets, assoc) && setLru == InitSetLru(nSets, assoc)
  {
    lru, mru, setMru, setLru := [], [], [], [];
    var lptr := 0;
    var sndx := 0;
    while sndx < nSets
      invariant 0 <= sndx <= nSets && lptr == sndx * assoc
      invariant lru == InitLruLinks(lptr, assoc) && mru == InitMruLinks(lptr, assoc)
      invariant setMru == InitSetMru(sndx, assoc) && setLru == InitSetLru(sndx, assoc)
    {
      setMru := setMru + [lptr];
      setLru := setLru + [lptr + (assoc - 1)];
      lru, mru := BuildSet(lru, mru, sndx, assoc, setMru[sndx], setLru[sndx]);
      lptr := lptr + assoc;
      sndx := sndx + 1;
    }
  }

  /** The inner loop: the assoc lines of set sndx, whose first line is the next one. */
  method BuildSet(lru0: seq<int>, mru0: seq<int>, sndx: nat, assoc: nat, first: int, last: int)
    returns (lru: seq<int>, mru: seq<int>)
    requires assoc >= 1 && |lru0| == sndx * assoc
    requires lru0 == InitLruLinks(|lru0|, assoc) && mru0 == InitMruLinks(|lru0|, assoc)
    requires first == sndx * assoc && last == first + (assoc - 1)
    ensures lru == InitLruLinks(|lru0| + assoc, assoc) && mru == InitMruLinks(|lru0| + assoc, assoc)
  {
    lru, mru := lru0, mru0;
    var lptr := first;
    var lcnt := 0;
    while lcnt < assoc
      invariant 0 <= lcnt <= assoc && lptr == first + lcnt
      invariant lru == InitLruLinks(lptr, assoc) && mru == InitMruLinks(lptr, assoc)
    {
      DivMod(sndx, lcnt, assoc);
      var l, m;
      if lcnt == 0 {
        m, l := last, lptr + 1;
      } else if lcnt == assoc - 1 {
        m, l := lptr - 1, first;
      } else {
        m, l := lptr - 1, lptr + 1;
      }
      assert l == InitLru(lptr, assoc) && m == InitMru(lptr, assoc);
      lru, mru := lru + [l], mru + [m];
      lptr, lcnt := lptr + 1, lcnt + 1;
    }
  }

  /**
   * The rings init_cache builds are in good order: every set holds its assoc
   * consecutive lines, first line most recent and last line least recent,
   * each line owned by its set, and for two or more lines the `lru` links
   * walk the set from first to last and back to the first, with the `mru`
   * links the reverse.
   */
  lemma InitRingsOk(nSets: nat, assoc: nat)
    requires assoc >= 1
    ensures RingsOk(assoc, nSets * assoc, InitLruLinks(nSets * assoc, assoc), InitMruLinks(nSets * assoc, assoc),
                    InitSetMru(nSets, assoc), InitSetLru(nSets, assoc), InitOrder(nSets, assoc), InitOwner(nSets * assoc, assoc))
  {
    var n := nSets * assoc;
    var lru, mru := InitLruLinks(n, assoc), InitMruLinks(n, assoc);
    var order, owner := InitOrder(nSets, assoc), InitOwner(n, assoc);
    forall s | 0 <= s < nSets
      ensures |order[s]| == assoc && SetOk(s, order[s], InitSetMru(nSets, assoc)[s], InitSetLru(nSets, assoc)[s], lru, mru, owner)
    {
      InitSetOk(nSets, assoc, s);
    }
  }

  /** One set of the built rings. */
  lemma InitSetOk(nSets: nat, assoc: nat, s: nat)
    requires assoc >= 1 && s < nSets
    ensures SetOk(s, InitOrder(nSets, assoc)[s], s * assoc, s * assoc + assoc - 1,
                  InitLruLinks(nSets * assoc, assoc), InitMruLinks(nSets * assoc, assoc), InitOwner(nSets * assoc, assoc))
  {
    var n := nSets * assoc;
    var o := InitOrder(nSets, assoc)[s];
    var lru, mru, owner := InitLruLinks(n, assoc), InitMruLinks(n, assoc), InitOwner(n, assoc);
    assert (s + 1) * assoc <= n by { MulLe(s + 1, nSets, assoc); }
    assert (s + 1) * assoc == s * assoc + assoc;
    forall k | 0 <= k < assoc
      ensures 0 <= o[k] < n && owner[o[k]] == s
    {
      DivMod(s, k, assoc);
    }
    if assoc >= 2 {
      forall k | 0 <= k < assoc
        ensures lru[o[k]] == o[Nx(k, assoc)] && mru[o[Nx(k, assoc)]] == o[k]
      {
        DivMod(s, k, assoc);
        DivMod(s, Nx(k, assoc), assoc);
      }
    }
  }

  lemma MulLe(a: nat, b: nat, d: nat)
    requires a <= b
    ensures a * d <= b * d
  {
    if a < b {
      MulAtLeast(b - a, d);
      assert b * d - a * d == (b - a) * d;
    }
  }

  /**
   * With assoc 1 each line's `lru` link is the line after it, the line of the
   * next set, and for the last set one past the last line; its `mru` link is
   * itself.
   */
  lemma DirectMappedLinks(n: nat)
    ensures forall x :: 0 <= x < n ==> InitLruLinks(n, 1)[x] == x + 1 && InitMruLinks(n, 1)[x] == x
  {
  }

  // ---------------------------------------------------------------------
  // init_cache
  // ---------------------------------------------------------------------

  /**
   * What the engine asks of a configuration that init_cache accepts with at
   * least one set (init_cache itself checks none of it): block and set bits
   * within an int32_t address, a sub-block size, non-negative latencies,
   * two or more ways for the modified engine, and a defined scheme for the
   * instrumented level.
   */
  predicate EngineCfgOk(cfg: Config, level: int, insOrData: int, modified: bool, run: RunConfig)
  {
    cfg.linSiz >= 1 && cfg.assoc >= 1 &&
    var g := Geometry(cfg.size, cfg.linSiz, cfg.assoc);
    g.Some? && g.value.nSets >= 1 ==>
      && Log2(cfg.linSiz) + Log2(g.value.nSets) <= 31 && cfg.sbSiz != 0 && cfg.access >= 0 && cfg.control >= 0
      && (modified ==> cfg.assoc >= 2)
      && (modified && insOrData == 1 && level == run.cacheTest && run.cacheTest > 0 ==>
            0 <= run.scheme <= 9 && Schemes.SchemeDefined(run.scheme, Log2(g.value.nSets)))
  }

  /** A positive size that init_cache accepts has at least one set. */
  lemma PositiveSets(size: int, linSiz: int, assoc: int)
    requires linSiz >= 1 && assoc >= 1 && size >= 1 && Geometry(size, linSiz, assoc).Some?
    ensures Geometry(size, linSiz, assoc).value.nSets >= 1
  {
    var ns := Geometry(size, linSiz, assoc).value.nSets;
    ProductSign(ns, assoc);
    ProductSign(ns * assoc, linSiz);
  }

  /** A negative size that init_cache's check lets through has a negative set count. */
  lemma NegativeSets(size: int, linSiz: int, assoc: int)
    requires linSiz >= 1 && assoc >= 1 && size < 0 && Geometry(size, linSiz, assoc).Some?
    ensures Geometry(size, linSiz, assoc).value.nSets < 0
  {
    var ns := Geometry(size, linSiz, assoc).value.nSets;
    ProductSign(ns, assoc);
    ProductSign(ns * assoc, linSiz);
  }

  /**
   * init_cache (lines 1060-1182): status -1 and no cache unless the geometry
   * check passes (lines 1072-1081) and there is at least one set; a negative
   * size that passes the check gives a negative line count, for which the
   * calloc of line 1088 fails.  Otherwise a fresh valid level of that
   * geometry whose rings are those the nested loops build, with every line,
   * set counter, timing bank and fetch/miss counter zero.  The `cntrs`
   * array keeps what it held: the loop of lines 1178-1179 assigns the
   * pointer rather than the entries.
   */
  method InitCache(cfg: Config, level: int, insOrData: int, lower: Cache?, modified: bool, run: RunConfig,
                   lastBusy0: int, cntrs0: Cntrs, actualWay0: int) returns (stat: int, c: Cache?)
    requires cfg.size != 0 && EngineCfgOk(cfg, level, insOrData, modified, run) && Shaped(cntrs0)
    requires lower != null ==> lower.Valid() && lower.level > level && lower.run == run && lower.modified == modified
    ensures stat == 0 <==> Geometry(cfg.size, cfg.linSiz, cfg.assoc).Some? && cfg.size > 0
    ensures stat != 0 ==> stat == -1 && c == null
    ensures stat == 0 ==>
      var ns := Geometry(cfg.size, cfg.linSiz, cfg.assoc).value.nSets;
      && c != null && fresh(c) && c.Valid() && c.cfg == cfg && c.level == level && c.lower == lower
      && c.nmbrSets == ns && ns >= 1 && c.nmbrLines == ns * cfg.assoc
      && c.lruLink == InitLruLinks(ns * cfg.assoc, cfg.assoc) && c.mruLink == InitMruLinks(ns * cfg.assoc, cfg.assoc)
      && c.setMru == InitSetMru(ns, cfg.assoc) && c.setLru == InitSetLru(ns, cfg.assoc)
      && c.order == InitOrder(ns, cfg.assoc)
      && c.Blank() && c.cntrs == cntrs0
  {
    var g := Geometry(cfg.size, cfg.linSiz, cfg.assoc);
    if g.None? {
      return -1, null;
    }
    if cfg.size < 0 {
      NegativeSets(cfg.size, cfg.linSiz, cfg.assoc);
      return -1, null;
    }
    var ns := g.value.nSets;
    PositiveSets(cfg.size, cfg.linSiz, cfg.assoc);
    var lru, mru, setMru, setLru := BuildRings(ns, cfg.assoc);
    InitRingsOk(ns, cfg.assoc);
    c := new Cache.Init(cfg, level, insOrData, lower, modified, run, ns, ns * cfg.assoc, lru, mru, setMru, setLru,
                        InitOrder(ns, cfg.assoc), InitOwner(ns * cfg.assoc, cfg.assoc), lastBusy0, cntrs0, actualWay0);
    stat := 0;
  }

  // ---------------------------------------------------------------------
  // init_cache: address masks
  // ---------------------------------------------------------------------

  /**
   * `setmask = ((1 << log2(nmbr_sets)) - 1) << log2blksize` (line 1145), for
   * setBits = log2(nmbr_sets) and blkBits = log2blksize.
   */
  function SetMask(setBits: nat, blkBits: nat): nat
  {
    Shl(Pow2(setBits) - 1, blkBits)
  }

  /**
   * `tagmask = 0xffffffffffffffff << log2blksize` (line 1146); the bits
   * shifted past bit 63 are dropped by a 64-bit AND.
   */
  function TagMask(blkBits: nat): nat
  {
    Shl(0xffff_ffff_ffff_ffff, blkBits)
  }

  lemma {:induction false} Pow2Add(a: nat, b: nat)
    ensures Pow2(a + b) == Pow2(a) * Pow2(b)
  {
    if a > 0 {
      Pow2Add(a - 1, b);
      assert Pow2(a + b) == 2 * Pow2(a - 1 + b);
      Twice(Pow2(b), Pow2(a - 1));
      assert Pow2(a) == 2 * Pow2(a - 1);
    }
  }

  lemma DivNonNeg(x: nat, d: nat)
    requires d >= 1
    ensures x / d >= 0
  {
  }

  /** x / 2 / p is x / (2p). */
  lemma HalfThenDiv(x: nat, p: nat)
    requires p >= 1
    ensures x / 2 / p == x / (2 * p)
  {
    HalfThenDivRest(x, p);
    DivModOf(x, x / 2 / p, x - (x / 2 / p) * (2 * p), 2 * p);
  }

  lemma HalfThenDivRest(x: nat, p: nat)
    requires p >= 1
    ensures 0 <= x - (x / 2 / p) * (2 * p) < 2 * p
  {
    var q1, r1 := x / 2, x % 2;
    var q2, r2 := q1 / p, q1 % p;
    assert q1 == q2 * p + r2;
    assert x - q2 * (2 * p) == 2 * r2 + r1;
  }

  /** The bits of x from lo on are the bits of x >> lo. */
  lemma {:induction false} BitsFrom(x: nat, lo: nat, n: nat)
    ensures ToBits(x, lo + n)[lo..] == ToBits(x / Pow2(lo), n)
  {
    if lo > 0 {
      BitsFrom(x / 2, lo - 1, n);
      HalfThenDiv(x, Pow2(lo - 1));
      assert ToBits(x, lo + n)[lo..] == ToBits(x / 2, lo - 1 + n)[lo - 1..];
    }
  }

  /** Packing the low n bits of y gives y modulo 2^n. */
  lemma {:induction false} ValOfBits(y: nat, n: nat)
    ensures Val(ToBits(y, n)) == y % Pow2(n)
  {
    if n > 0 {
      ValOfBits(y / 2, n - 1);
      assert Val(ToBits(y, n)) == y % 2 + 2 * Val(ToBits(y / 2, n - 1));
      ModOfDouble(y, Pow2(n - 1));
    }
  }

  /** y modulo 2p from y's low bit and (y / 2) modulo p. */
  lemma ModOfDouble(y: nat, p: nat)
    requires p >= 1
    ensures y % (2 * p) == y % 2 + 2 * ((y / 2) % p)
  {
    ModOfDoubleRest(y, p);
    DivModOf(y, y / 2 / p, y % 2 + 2 * ((y / 2) % p), 2 * p);
  }

  lemma ModOfDoubleRest(y: nat, p: nat)
    requires p >= 1
    ensures y == (y / 2 / p) * (2 * p) + (y % 2 + 2 * ((y / 2) % p))
    ensures 0 <= y % 2 + 2 * ((y / 2) % p) < 2 * p && y / 2 / p >= 0
  {
    var q1, r1 := y / 2, y % 2;
    var q2, r2 := q1 / p, q1 % p;
    assert q1 == q2 * p + r2;
  }

  /** The n-bit field at lo is (x >> lo) modulo 2^n. */
  lemma FieldIsShift(x: nat, lo: nat, n: nat)
    ensures Field(x, lo, n) == (x / Pow2(lo)) % Pow2(n)
  {
    var y := x / Pow2(lo);
    DivNonNeg(x, Pow2(lo));
    BitsFrom(x, lo, n);
    ValOfBits(y, n);
    assert Field(x, lo, n) == Val(ToBits(x, lo + n)[lo..]);
  }

  /** ANDing with `((1 << n) - 1) << lo` keeps the n-bit field at lo, in place. */
  lemma MaskedField(x: nat, n: nat, lo: nat, w: nat)
    requires n + lo <= w
    ensures And(x, Shl(Pow2(n) - 1, lo), w) == Shl(Field(x, lo, n), lo)
  {
    MaskBits(n, lo, w);
    KeepField(x, Shl(Pow2(n) - 1, lo), n, lo, w);
  }

  /** ANDing with a word whose bits are lo clear, n set, the rest clear keeps the n-bit field at lo. */
  lemma KeepField(x: nat, m: nat, n: nat, lo: nat, w: nat)
    requires n + lo <= w && ToBits(m, w) == Falses(lo) + (Trues(n) + Falses(w - lo - n))
    ensures And(x, m, w) == Shl(Field(x, lo, n), lo)
  {
    var k: nat := w - lo - n;
    var xb := ToBits(x, w);
    var c := ToBits(x, lo + n)[lo..];
    assert c == xb[lo..lo + n] by { ToBitsPrefix(x, w, lo + n); }
    assert AndSeq(xb, ToBits(m, w)) == Falses(lo) + (c + Falses(k)) by { AndWithMask(xb, ToBits(m, w), lo, n, w); }
    assert Val(Falses(lo) + (c + Falses(k))) == Shl(Val(c), lo) by { ValOfMasked(c, lo, k); }
  }

  /** The bits of `((1 << n) - 1) << lo`: lo clear, n set, the rest clear. */
  lemma MaskBits(n: nat, lo: nat, w: nat)
    requires n + lo <= w
    ensures ToBits(Shl(Pow2(n) - 1, lo), w) == Falses(lo) + (Trues(n) + Falses(w - lo - n))
  {
    ShlBits(Pow2(n) - 1, lo, w);
    OnesBits(n, w - lo);
  }

  /** ANDing a bit array with such a mask keeps its entries lo .. lo + n - 1. */
  lemma AndWithMask(xb: seq<bool>, mb: seq<bool>, lo: nat, n: nat, w: nat)
    requires |xb| == w && lo + n <= w && mb == Falses(lo) + (Trues(n) + Falses(w - lo - n))
    ensures AndSeq(xb, mb) == Falses(lo) + (xb[lo..lo + n] + Falses(w - lo - n))
  {
  }

  /** The value of a field put back in place. */
  lemma ValOfMasked(c: seq<bool>, lo: nat, k: nat)
    ensures Val(Falses(lo) + (c + Falses(k))) == Shl(Val(c), lo)
  {
    ValShl(c + Falses(k), lo);
    ValPadded(c, k);
  }

  /**
   * The set select of line 1145: `(adrs & setmask) >> log2blksize` is the
   * set the engine computes for the address, address bits log2blksize ..
   * log2blksize + log2(nmbr_sets) - 1, and so below nmbr_sets when that is
   * a power of two.  The mask is computed in 32-bit int and kept in an
   * int32_t field, so it is the intended mask while set and offset bits take
   * at most 31 bits together.
   */
  lemma MaskSelectsSet(adrs: nat, nSets: nat, linSiz: nat)
    requires nSets >= 1 && linSiz >= 1 && Log2(nSets) + Log2(linSiz) <= 31
    ensures And(adrs, SetMask(Log2(nSets), Log2(linSiz)), 64) / Pow2(Log2(linSiz))
              == SetOf(adrs, Log2(linSiz), Log2(nSets))
    ensures IsPow2(nSets) ==> And(adrs, SetMask(Log2(nSets), Log2(linSiz)), 64) / Pow2(Log2(linSiz)) < nSets
  {
    MaskSelectsField(adrs, Log2(nSets), Log2(linSiz));
  }

  /** The same, for any field width n at any bit lo. */
  lemma MaskSelectsField(adrs: nat, n: nat, lo: nat)
    requires n + lo <= 64
    ensures And(adrs, SetMask(n, lo), 64) / Pow2(lo) == SetOf(adrs, lo, n) < Pow2(n)
  {
    var f := Field(adrs, lo, n);
    assert And(adrs, SetMask(n, lo), 64) == Shl(f, lo) by { MaskedField(adrs, n, lo, 64); }
    assert Shl(f, lo) / Pow2(lo) == f by {
      ShlIsMul(f, lo);
      DivModOf(Shl(f, lo), f, 0, Pow2(lo));
    }
    assert f == SetOf(adrs, lo, n) by { FieldIsShift(adrs, lo, n); }
  }

  /**
   * The tag of line 1146: `adrs & tagmask` is a 64-bit address with its low
   * log2blksize bits cleared, the address of its line.
   */
  lemma MaskSelectsTag(adrs: nat, lo: nat)
    requires lo <= 64 && adrs <= 0xffff_ffff_ffff_ffff
    ensures And(adrs, TagMask(lo), 64) == adrs - adrs % Pow2(lo)
    ensures And(adrs, TagMask(lo), 64) % Pow2(lo) == 0
  {
    var p := Pow2(lo);
    DivParts(adrs, p);
    var q: nat := adrs / p;
    assert And(adrs, TagMask(lo), 64) == Shl(Field(adrs, lo, 64 - lo), lo) by {
      TagMaskBits(lo);
      KeepField(adrs, TagMask(lo), 64 - lo, lo, 64);
    }
    assert q < Pow2(64 - lo) by { QuotientFits(adrs, lo); }
    assert q % Pow2(64 - lo) == q by { ModSmall(q, Pow2(64 - lo)); }
    assert Field(adrs, lo, 64 - lo) == q by { FieldIsShift(adrs, lo, 64 - lo); }
    ShlIsMul(q, lo);
    DivModOf(q * p, q, 0, p);
  }

  /** The bits of the tag mask: lo clear, the rest set. */
  lemma TagMaskBits(lo: nat)
    requires lo <= 64
    ensures ToBits(TagMask(lo), 64) == Falses(lo) + (Trues(64 - lo) + Falses(0))
  {
    Pow2Constants();
    ShlBits(Pow2(64) - 1, lo, 64);
    OnesBitsCut(64, 64 - lo);
    assert Trues(64 - lo) + Falses(0) == Trues(64 - lo);
  }

  /** A 64-bit address shifted right by lo fits in 64 - lo bits. */
  lemma QuotientFits(adrs: nat, lo: nat)
    requires lo <= 64 && adrs <= 0xffff_ffff_ffff_ffff
    ensures adrs / Pow2(lo) < Pow2(64 - lo)
  {
    var p, q := Pow2(lo), adrs / Pow2(lo);
    DivParts(adrs, p);
    Pow2Constants();
    Pow2Add(64 - lo, lo);
    if q >= Pow2(64 - lo) {
      MulLe(Pow2(64 - lo), q, p);
    }
  }

  /** A number below the divisor is its own remainder. */
  lemma ModSmall(x: nat, d: nat)
    requires x < d
    ensures x % d == x
  {
    DivModOf(x, 0, x, d);
  }

  /** Division and remainder split a natural number. */
  lemma DivParts(x: nat, d: nat)
    requires d >= 1
    ensures x == (x / d) * d + x % d && 0 <= x % d < d && x / d >= 0
  {
  }

  /** `(1 << n) - 1` seen through a window of w <= n bits is all ones. */
  lemma {:induction false} OnesBitsCut(n: nat, w: nat)
    requires w <= n
    ensures ToBits(Pow2(n) - 1, w) == Trues(w)
  {
    if w > 0 {
      var m := Pow2(n - 1);
      var x := Pow2(n) - 1;
      assert x == (m - 1) * 2 + 1;
      DivModOf(x, m - 1, 1, 2);
      assert ToBits(x, w) == [true] + ToBits(m - 1, w - 1);
      OnesBitsCut(n - 1, w - 1);
      assert Trues(w) == [true] + Trues(w - 1);
    }
  }

  /** The powers of two the option parser and the masks meet. */
  lemma Pow2Constants()
    ensures Pow2(10) == 1024 && Pow2(11) == 0x800 && Pow2(20) == 0x10_0000 && Pow2(21) == 0x20_0000
    ensures Pow2(31) == 0x8000_0000 && Pow2(32) == 0x1_0000_0000 && Pow2(64) == 0x1_0000_0000_0000_0000
  {
    assert Pow2(2) == 4 && Pow2(4) == 16;
    Pow2Add(4, 4);
    Pow2Add(8, 2);
    Pow2Add(10, 1);
    Pow2Add(10, 10);
    Pow2Add(20, 1);
    Pow2Add(20, 10);
    Pow2Add(30, 1);
    Pow2Add(31, 1);
    Pow2Add(32, 32);
  }

  // ---------------------------------------------------------------------
  // configure: the numeric cache options
  // ---------------------------------------------------------------------

  /** n is a positive power of two. */
  predicate IsPow2(n: int)
  {
    n >= 1 && Pow2(Log2(n)) == n
  }

  lemma {:induction false} Log2OfPow2(k: nat)
    ensures Log2(Pow2(k)) == k
  {
    if k > 0 {
      Log2OfPow2(k - 1);
      assert Pow2(k) / 2 == Pow2(k - 1);
    }
  }

  /**
   * The test of lines 426, 587, 651 and 673: `x & (x - 1)` is zero, on the
   * value as a 32-bit two's-complement int.
   */
  predicate Accepted(x: int)
  {
    And(x % 0x1_0000_0000, (x - 1) % 0x1_0000_0000, 32) == 0
  }

  /** The test accepts a positive value exactly when it is a power of two. */
  lemma AcceptedIff(x: int)
    requires 1 <= x < 0x8000_0000
    ensures Accepted(x) <==> IsPow2(x)
  {
    assert Accepted(x) <==> And(x, x - 1, 32) == 0 by {
      ModSmall(x, 0x1_0000_0000);
      ModSmall(x - 1, 0x1_0000_0000);
    }
    var k := Log2(x);
    assert k < 32 by {
      Pow2Constants();
      if k >= 32 {
        Pow2Mono(32, k);
      }
    }
    PowerTest(x, k, 32);
  }

  /** On a w-bit word, `x & (x - 1)` is zero for x in [2^k, 2^(k+1)) exactly when x is 2^k. */
  lemma PowerTest(x: nat, k: nat, w: nat)
    requires Pow2(k) <= x < 2 * Pow2(k) && k < w
    ensures And(x, x - 1, w) == 0 <==> x == Pow2(k)
  {
    if x == Pow2(k) {
      PowerPasses(k, w);
    } else {
      NonPowerFails(x, k, w);
    }
  }

  lemma {:induction false} Pow2Mono(a: nat, b: nat)
    requires a <= b
    ensures Pow2(a) <= Pow2(b)
  {
    if a < b {
      Pow2Mono(a, b - 1);
    }
  }

  /** `x & (x - 1)` is zero for x = 2^k: the one set bit of x is clear in x - 1. */
  lemma PowerPasses(k: nat, w: nat)
    requires k < w
    ensures And(Pow2(k), Pow2(k) - 1, w) == 0
  {
    var xb, yb := ToBits(Pow2(k), w), ToBits(Pow2(k) - 1, w);
    assert xb == Falses(k) + ([true] + Falses(w - 1 - k)) by {
      ShlIsMul(1, k);
      ShlBits(1, k, w);
      assert ToBits(1, w - k) == [true] + Falses(w - 1 - k) by { ZeroBits(w - 1 - k); }
    }
    assert yb == Trues(k) + Falses(w - k) by { OnesBits(k, w); }
    assert AndSeq(xb, yb) == Falses(w) by {
      assert forall i :: 0 <= i < w ==> !AndSeq(xb, yb)[i];
    }
    ValFalses(w);
  }

  /** Strictly between 2^k and 2^(k+1), x and x - 1 share bit k. */
  lemma NonPowerFails(x: nat, k: nat, w: nat)
    requires Pow2(k) < x < 2 * Pow2(k) && k < w
    ensures And(x, x - 1, w) >= 1
  {
    TopBit(x, k, w);
    TopBit(x - 1, k, w);
    ValPositive(AndSeq(ToBits(x, w), ToBits(x - 1, w)), k);
  }

  /**
   * A value whose low 32 bits are clear passes the test too; in particular a
   * size of 0 (an unused cache) and an assoc of 0 are let through.
   */
  lemma AcceptsZero(x: int)
    requires x % 0x1_0000_0000 == 0
    ensures Accepted(x)
  {
    AndZero((x - 1) % 0x1_0000_0000, 32);
  }

  /** Zero ANDed with anything is zero. */
  lemma AndZero(y: nat, w: nat)
    ensures And(0, y, w) == 0
  {
    ZeroBits(w);
    assert AndSeq(ToBits(0, w), ToBits(y, w)) == Falses(w);
    ValFalses(w);
  }

  /**
   * The size option (lines 665-672): the strtol value cut to int32_t,
   * then scaled by 1024 for a k/K suffix or by 1048576 for m/M, in 32-bit
   * arithmetic.
   */
  function SizeValue(parsed: int, last: char): (size: int)
    ensures 0 <= parsed < 0x20_0000 && (last == 'k' || last == 'K') ==> size == parsed * 1024
    ensures 0 <= parsed < 0x800 && (last == 'm' || last == 'M') ==> size == parsed * 1048576
    ensures -0x8000_0000 <= parsed < 0x8000_0000 && last !in "kKmM" ==> size == parsed
  {
    WrapInRange(parsed);
    var s := Int32(parsed);
    if last == 'k' || last == 'K' then (WrapInRange(s * 1024); Int32(s * 1024))
    else if last == 'm' || last == 'M' then (WrapInRange(s * 1048576); Int32(s * 1048576))
    else s
  }

  /** A power-of-two size with a k or m suffix below 2 GiB still passes the test. */
  lemma SuffixKeepsPow2(k: nat, last: char, e: nat)
    requires ((last == 'k' || last == 'K') && e == 10) || ((last == 'm' || last == 'M') && e == 20)
    requires k + e < 31
    ensures IsPow2(SizeValue(Pow2(k), last)) && Accepted(SizeValue(Pow2(k), last))
  {
    var n := SizeValue(Pow2(k), last);
    assert n == Pow2(k + e) by { ScaledPow2(k, last, e); }
    PowerAccepted(k + e);
  }


  /** A k or m suffix on 2^k adds 10 or 20 to the exponent. */
  lemma ScaledPow2(k: nat, last: char, e: nat)
    requires ((last == 'k' || last == 'K') && e == 10) || ((last == 'm' || last == 'M') && e == 20)
    requires k + e < 31
    ensures SizeValue(Pow2(k), last) == Pow2(k + e)
  {
    assert Pow2(k) * Pow2(e) == Pow2(k + e) by { Pow2Add(k, e); }
    Pow2Constants();
    Pow2Mono(k + 1, 31 - e);
  }

  /** A power of two below 2^31 passes the test. */
  lemma PowerAccepted(k: nat)
    requires k < 31
    ensures IsPow2(Pow2(k)) && Accepted(Pow2(k))
  {
    assert Pow2(k) < 0x8000_0000 by {
      Pow2Constants();
      Pow2Mono(k + 1, 31);
    }
    Log2OfPow2(k);
    AcceptedIff(Pow2(k));
  }



}
