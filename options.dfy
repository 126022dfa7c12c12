/**
 * The cache options of `configure` (moola_src/configure.c), the IvyBridge
 * preset and the hierarchy `initialize` wires together.
 */
module Options {
  import opened Defs
  import opened Bits
  import opened Engine
  import opened Configure

  /** `struct cache_cfg` (moola.h lines 116-131); int16_t fields except the int32_t size. */
  datatype CacheCfg = CacheCfg(size: int, linSiz: int, sbSiz: int, access: int, control: int, assoc: int,
                               arch: char, coherent: char, prefPol: char, replace: char, shared: char,
                               wallocPol: char, writePol: char, writeSets: char)

  /** The configuration records an option prefix can select. */
  datatype Level = L1D | L1I | L2 | L3 | L4 | L5 | Mem

  /** The fields of a configuration record, to say which an option changes. */
  datatype CfgField = FSize | FLinSiz | FSbSiz | FAccess | FControl | FAssoc | FArch | FCoherent
                 | FPrefPol | FReplace | FShared | FWallocPol | FWritePol | FWriteSets

  // ---------------------------------------------------------------------
  // The cache prefix (lines 374-408)
  // ---------------------------------------------------------------------

  /** The prefix that selects each record. */
  function PrefixOf(lv: Level): string
  {
    match lv
    case L1D => "-l1d_"
    case L1I => "-l1i_"
    case L2 => "-l2_"
    case L3 => "-l3_"
    case L4 => "-l4_"
    case L5 => "-l5_"
    case Mem => "-mem_"
  }

  predicate StartsWith(s: string, p: string)
  {
    |p| <= |s| && s[..|p|] == p
  }

  /**
   * The prefix tests of lines 377-408: the record a token names and the
   * option name after the prefix, or None when no prefix matches (cash_cfg
   * then stays NULL and the whole token is the option name).
   */
  function Prefixed(tkn: string): (r: Option<(Level, string)>)
    ensures r.Some? ==> tkn == PrefixOf(r.value.0) + r.value.1
  {
    if StartsWith(tkn, "-l1d_") then Some((L1D, tkn[5..]))
    else if StartsWith(tkn, "-l1i_") then Some((L1I, tkn[5..]))
    else if StartsWith(tkn, "-l2_") then Some((L2, tkn[4..]))
    else if StartsWith(tkn, "-l3_") then Some((L3, tkn[4..]))
    else if StartsWith(tkn, "-l4_") then Some((L4, tkn[4..]))
    else if StartsWith(tkn, "-l5_") then Some((L5, tkn[4..]))
    else if StartsWith(tkn, "-mem_") then Some((Mem, tkn[5..]))
    else None
  }

  /** Prefixing a name selects its record and gives the name back. */
  lemma PrefixRoundTrip(lv: Level, name: string)
    ensures Prefixed(PrefixOf(lv) + name) == Some((lv, name))
  {
    var t := PrefixOf(lv) + name;
    var n := |PrefixOf(lv)|;
    assert t[..n] == PrefixOf(lv) && t[n..] == name;
    assert t[1] == PrefixOf(lv)[1] && t[2] == PrefixOf(lv)[2] && t[3] == PrefixOf(lv)[3];
    if lv == L1I {
      Differs(t, "-l1d_", 3);
    } else if lv != L1D {
      Differs(t, "-l1d_", 2);
      Differs(t, "-l1i_", 2);
      if lv != L2 { Differs(t, "-l2_", 2); }
      if lv != L2 && lv != L3 { Differs(t, "-l3_", 2); }
      if lv == L5 || lv == Mem { Differs(t, "-l4_", 2); }
      if lv == Mem { Differs(t, "-l5_", 1); }
    }
  }

  /** A string that differs from p at position k does not start with p. */
  lemma Differs(t: string, p: string, k: nat)
    requires k < |p| && k < |t| && t[k] != p[k]
    ensures !StartsWith(t, p)
  {
    if |p| <= |t| {
      assert t[..|p|][k] != p[k];
    }
  }

  // ---------------------------------------------------------------------
  // The cache options (lines 410-713)
  // ---------------------------------------------------------------------

  /** What one cache option leaves: the record and whether cfg_error was set. */
  datatype Outcome = Outcome(cfg: CacheCfg, error: bool)

  /** The last character of a value string, '\0' for the empty string. */
  function Last(val: string): char
  {
    if |val| == 0 then '\0' else val[|val| - 1]
  }

  function ArchCode(val: string): Option<char>
  {
    if val == "blocking" then Some('b') else if val == "hum" then Some('h')
    else if val == "distr" then Some('d') else None
  }

  function CoherentCode(val: string): Option<char>
  {
    if val == "none" then Some('n') else if val == "MSI" then Some('m')
    else if val == "MESI" then Some('e') else if val == "MOSI" then Some('o') else None
  }

  function PrefCode(val: string): Option<char>
  {
    if val == "none" then Some('n') else if val == "always" then Some('a')
    else if val == "miss" then Some('m') else None
  }

  function ReplaceCode(val: string): Option<char>
  {
    if val == "LRU" then Some('L') else if val == "rand" then Some('R')
    else if val == "FIFO" then Some('F') else None
  }

  /** The share option tests only the first character (lines 657-662). */
  function ShareCode(val: string): Option<char>
  {
    if |val| > 0 && (val[0] == 'p' || val[0] == 'P') then Some('P')
    else if |val| > 0 && (val[0] == 's' || val[0] == 'S') then Some('S')
    else None
  }

  function WriteCode(val: string): Option<char>
  {
    if val == "back" then Some('b') else if val == "through" then Some('t') else None
  }

  /** A choice option: the code the value selects, or the record unchanged and an error. */
  function Chosen(c: CacheCfg, code: Option<char>, f: CfgField): Outcome
  {
    match code
    case Some(ch) => Outcome(SetChar(c, f, ch), false)
    case None => Outcome(c, true)
  }

  /** c with its character field f set to ch. */
  function SetChar(c: CacheCfg, f: CfgField, ch: char): CacheCfg
  {
    match f
    case FArch => c.(arch := ch)
    case FCoherent => c.(coherent := ch)
    case FPrefPol => c.(prefPol := ch)
    case FReplace => c.(replace := ch)
    case FShared => c.(shared := ch)
    case FWritePol => c.(writePol := ch)
    case _ => c
  }

  /** The option names of the cache fields, and the field each one sets. */
  function FieldOfOption(name: string): Option<CfgField>
  {
    if name == "access" then Some(FAccess) else if name == "arch" then Some(FArch)
    else if name == "assoc" then Some(FAssoc) else if name == "coherent" then Some(FCoherent)
    else if name == "lnsize" then Some(FLinSiz) else if name == "pref" then Some(FPrefPol)
    else if name == "replace" then Some(FReplace) else if name == "sbsize" then Some(FSbSiz)
    else if name == "share" then Some(FShared) else if name == "size" then Some(FSize)
    else if name == "write" then Some(FWritePol) else None
  }

  /** The fields some option sets: control, walloc_pol and write_sets have none. */
  predicate Settable(f: CfgField)
  {
    f !in {FControl, FWallocPol, FWriteSets}
  }

  /** The code table of each choice option. */
  function CodeOf(f: CfgField, val: string): Option<char>
  {
    match f
    case FArch => ArchCode(val)
    case FCoherent => CoherentCode(val)
    case FPrefPol => PrefCode(val)
    case FReplace => ReplaceCode(val)
    case FShared => ShareCode(val)
    case _ => WriteCode(val)
  }

  /**
   * The option that sets field f, with the intended effect.  `parsed` is
   * what strtol makes of the value string; the int16_t fields keep its low
   * 16 bits, the size its low 32 bits and then the suffix scaling.  assoc,
   * lnsize, sbsize and size are refused unless `x & (x - 1)` is zero, and
   * keep the value even then; a choice option is refused for a value not
   * among its choices.  A refusal only sets cfg_error, which configure
   * reports after the last token.
   */
  function SetOption(c: CacheCfg, f: CfgField, val: string, parsed: int): (r: Outcome)
    requires Settable(f)
  {
    match f
    case FAccess => Outcome(c.(access := Int16(parsed)), false)
    case FAssoc => Outcome(c.(assoc := Int16(parsed)), !Accepted(Int16(parsed)))
    case FLinSiz => Outcome(c.(linSiz := Int16(parsed)), !Accepted(Int16(parsed)))
    case FSbSiz => Outcome(c.(sbSiz := Int16(parsed)), !Accepted(Int16(parsed)))
    case FSize =>
      var s := SizeValue(parsed, Last(val));
      Outcome(c.(size := s), !Accepted(s))
    case _ => Chosen(c, CodeOf(f, val), f)
  }

  /** A cache option (lines 410-713) as intended; None: not a cache option. */
  function CacheOption(c: CacheCfg, name: string, val: string, parsed: int): (r: Option<Outcome>)
    ensures r.Some? <==> FieldOfOption(name).Some?
  {
    match FieldOfOption(name)
    case Some(f) => Some(SetOption(c, f, val, parsed))
    case None => None
  }

  /**
   * The cache options as lines 635-646 and 704-713 write them: the replace
   * and write options store their code in pref_pol, not in replace and
   * write_pol.  Every other option is the intended one.
   */
  function SetOptionAsWritten(c: CacheCfg, f: CfgField, val: string, parsed: int): (r: Outcome)
    requires Settable(f)
  {
    if f == FReplace || f == FWritePol then Chosen(c, CodeOf(f, val), FPrefPol)
    else SetOption(c, f, val, parsed)
  }

  function CacheOptionAsWritten(c: CacheCfg, name: string, val: string, parsed: int): (r: Option<Outcome>)
    ensures r.Some? <==> FieldOfOption(name).Some?
  {
    match FieldOfOption(name)
    case Some(f) => Some(SetOptionAsWritten(c, f, val, parsed))
    case None => None
  }

  /** Every option name names a field some option sets, and every such field has its name. */
  lemma OptionNames(name: string)
    ensures FieldOfOption(name).Some? ==> Settable(FieldOfOption(name).value)
    ensures FieldOfOption(name).Some? <==> name in ["access", "arch", "assoc", "coherent", "lnsize", "pref",
                                                     "replace", "sbsize", "share", "size", "write"]
  {
  }

  /** The fields in which two records differ. */
  function Changed(c: CacheCfg, d: CacheCfg): (r: set<CfgField>)
    ensures r == {} <==> c == d
  {
    (if c.size != d.size then {FSize} else {}) + (if c.linSiz != d.linSiz then {FLinSiz} else {})
    + (if c.sbSiz != d.sbSiz then {FSbSiz} else {}) + (if c.access != d.access then {FAccess} else {})
    + (if c.control != d.control then {FControl} else {}) + (if c.assoc != d.assoc then {FAssoc} else {})
    + (if c.arch != d.arch then {FArch} else {}) + (if c.coherent != d.coherent then {FCoherent} else {})
    + (if c.prefPol != d.prefPol then {FPrefPol} else {}) + (if c.replace != d.replace then {FReplace} else {})
    + (if c.shared != d.shared then {FShared} else {})
    + (if c.wallocPol != d.wallocPol then {FWallocPol} else {})
    + (if c.writePol != d.writePol then {FWritePol} else {})
    + (if c.writeSets != d.writeSets then {FWriteSets} else {})
  }

  /** An option changes at most the field it names. */
  lemma OptionChangesItsField(c: CacheCfg, f: CfgField, val: string, parsed: int)
    requires Settable(f)
    ensures Changed(c, SetOption(c, f, val, parsed).cfg) <= {f}
  {
    var d := SetOption(c, f, val, parsed).cfg;
    match f
    case FSize => assert d.(size := c.size) == c;
    case FLinSiz => assert d.(linSiz := c.linSiz) == c;
    case FSbSiz => assert d.(sbSiz := c.sbSiz) == c;
    case FAccess => assert d.(access := c.access) == c;
    case FAssoc => assert d.(assoc := c.assoc) == c;
    case FArch => assert d.(arch := c.arch) == c;
    case FCoherent => assert d.(coherent := c.coherent) == c;
    case FPrefPol => assert d.(prefPol := c.prefPol) == c;
    case FReplace => assert d.(replace := c.replace) == c;
    case FShared => assert d.(shared := c.shared) == c;
    case FWritePol => assert d.(writePol := c.writePol) == c;
  }

  /** As written, the replace and write options change at most the prefetch policy. */
  lemma AsWrittenChangesPrefetch(c: CacheCfg, f: CfgField, val: string, parsed: int)
    requires f == FReplace || f == FWritePol
    ensures Changed(c, SetOptionAsWritten(c, f, val, parsed).cfg) <= {FPrefPol}
  {
  }

  /**
   * The input that shows it: "-l1d_replace rand" leaves replace alone and
   * turns the prefetch policy into 'R'; intended, it sets replace and keeps
   * the prefetch policy.
   */
  lemma ReplaceHitsPrefetch(c: CacheCfg, val: string, parsed: int)
    requires ReplaceCode(val).Some?
    ensures CacheOptionAsWritten(c, "replace", val, parsed) == Some(Outcome(c.(prefPol := ReplaceCode(val).value), false))
    ensures CacheOption(c, "replace", val, parsed) == Some(Outcome(c.(replace := ReplaceCode(val).value), false))
  {
  }

  /** "-l1d_write through" leaves write_pol alone and turns the prefetch policy into 't'. */
  lemma WriteHitsPrefetch(c: CacheCfg, val: string, parsed: int)
    requires WriteCode(val).Some?
    ensures CacheOptionAsWritten(c, "write", val, parsed) == Some(Outcome(c.(prefPol := WriteCode(val).value), false))
    ensures CacheOption(c, "write", val, parsed) == Some(Outcome(c.(writePol := WriteCode(val).value), false))
  {
  }

  /** A choice option is refused exactly for a value not among its choices, and then changes nothing. */
  lemma ChoiceOption(c: CacheCfg, f: CfgField, val: string, parsed: int)
    requires f in {FArch, FCoherent, FPrefPol, FReplace, FShared, FWritePol}
    ensures var r := SetOption(c, f, val, parsed);
            (r.error <==> CodeOf(f, val).None?) && (r.error ==> r.cfg == c)
            && (!r.error ==> CharOf(r.cfg, f) == CodeOf(f, val).value)
  {
  }

  /** The value of a character field. */
  function CharOf(c: CacheCfg, f: CfgField): char
  {
    match f
    case FArch => c.arch
    case FCoherent => c.coherent
    case FPrefPol => c.prefPol
    case FReplace => c.replace
    case FShared => c.shared
    case FWritePol => c.writePol
    case FWallocPol => c.wallocPol
    case _ => c.writeSets
  }

  /** The power-of-two test on a value; zero passes and no negative int16/int32 value does. */
  lemma PowerOfTwoTest(x: int)
    requires -0x8000_0000 < x < 0x8000_0000
    ensures 1 <= x ==> (Accepted(x) <==> IsPow2(x))
    ensures x == 0 ==> Accepted(x)
    ensures x < 0 ==> !Accepted(x)
  {
    if 1 <= x {
      AcceptedIff(x);
    } else if x == 0 {
      AcceptsZero(x);
    } else {
      NegativeRefused(x);
    }
  }

  /** A negative value and its predecessor both have bit 31 set. */
  lemma NegativeRefused(x: int)
    requires -0x8000_0000 < x < 0
    ensures !Accepted(x)
  {
    var a: nat := x % 0x1_0000_0000;
    var b: nat := (x - 1) % 0x1_0000_0000;
    assert a == x + 0x1_0000_0000 && b == a - 1;
    assert Pow2(31) == 0x8000_0000 && 2 * Pow2(31) == 0x1_0000_0000 by { Pow2Constants(); }
    TopBit(a, 31, 32);
    TopBit(b, 31, 32);
    ValPositive(AndSeq(ToBits(a, 32), ToBits(b, 32)), 31);
  }

  /**
   * assoc, lnsize and sbsize: the field takes the value's low 16 bits, and
   * the option is refused exactly when that is negative or a positive
   * number that is not a power of two.
   */
  lemma PowerOption(c: CacheCfg, f: CfgField, val: string, parsed: int)
    requires f == FAssoc || f == FLinSiz || f == FSbSiz
    ensures var x := Int16(parsed);
            var r := SetOption(c, f, val, parsed);
            (r.error <==> x < 0 || (x >= 1 && !IsPow2(x)))
            && r.cfg == (if f == FAssoc then c.(assoc := x) else if f == FLinSiz then c.(linSiz := x)
                         else c.(sbSiz := x))
  {
    var x := Int16(parsed);
    assert -0x8000 <= x < 0x8000;
    assert !Accepted(x) <==> x < 0 || (x >= 1 && !IsPow2(x)) by { PowerOfTwoTest(x); }
  }

  /**
   * size: the field takes the scaled value, refused exactly when that is
   * negative or not a power of two (-2^31, which passes, aside).
   */
  lemma SizeOption(c: CacheCfg, val: string, parsed: int)
    ensures var s := SizeValue(parsed, Last(val));
            var r := SetOption(c, FSize, val, parsed);
            r.cfg == c.(size := s)
            && (-0x8000_0000 < s ==> (r.error <==> s < 0 || (s >= 1 && !IsPow2(s))))
  {
    var s := SizeValue(parsed, Last(val));
    assert s < 0x8000_0000 by { SizeInt32(parsed, Last(val)); }
    if -0x8000_0000 < s {
      assert !Accepted(s) <==> s < 0 || (s >= 1 && !IsPow2(s)) by { PowerOfTwoTest(s); }
    }
  }

  /** The scaled size is an int32_t value. */
  lemma SizeInt32(parsed: int, last: char)
    ensures -0x8000_0000 <= SizeValue(parsed, last) < 0x8000_0000
  {
  }

  /** "-l2_size 256k": 2^k with a k or K suffix is accepted as 2^(k+10), and with m or M as 2^(k+20). */
  lemma SuffixedSize(c: CacheCfg, val: string, k: nat, e: nat)
    requires var l := Last(val); ((l == 'k' || l == 'K') && e == 10) || ((l == 'm' || l == 'M') && e == 20)
    requires k + e < 31
    ensures SetOption(c, FSize, val, Pow2(k)) == Outcome(c.(size := Pow2(k + e)), false)
  {
    var s := SizeValue(Pow2(k), Last(val));
    assert s == Pow2(k + e) by { ScaledPow2(k, Last(val), e); }
    assert Accepted(s) by { PowerAccepted(k + e); }
  }

  // ---------------------------------------------------------------------
  // The IvyBridge preset (lines 913-976)
  // ---------------------------------------------------------------------

  /** The preset values; L4 and L5 are not set, arch, coherent and write_sets are kept. */
  function IvyBridge(lv: Level, c: CacheCfg): CacheCfg
  {
    var (size, access, control, assoc, shared) :=
      match lv
      case L1D => (32768, 0, 1, 8, 'P')
      case L1I => (32768, 1, 1, 8, 'P')
      case L2 => (262144, 12, 4, 8, 'P')
      case L3 => (8388608, 26, 6, 16, 'S')
      case Mem => (8388608, 150, 30, 16, 'S')
      case _ => (c.size, c.access, c.control, c.assoc, c.shared);
    if lv == L4 || lv == L5 then c
    else c.(size := size, linSiz := 64, sbSiz := 64, access := access, control := control, assoc := assoc,
            prefPol := 'X', replace := 'L', shared := shared, wallocPol := 'X', writePol := 'B')
  }

  /** The number of sets each preset level has. */
  function IvySets(lv: Level): int
  {
    match lv
    case L1D => 64
    case L1I => 64
    case L2 => 512
    case L3 => 8192
    case Mem => 8192
    case _ => 0
  }

  /**
   * Every preset level passes init_cache's size check with the sets of
   * IvySets (L1D: 64 sets of 8 lines of 64 bytes is 32768 bytes), and every
   * power-of-two option test passes on its values.
   */
  lemma IvyBridgeFits(lv: Level, c: CacheCfg)
    requires lv != L4 && lv != L5
    ensures var d := IvyBridge(lv, c);
            Geometry(d.size, d.linSiz, d.assoc) == Some(Shape(IvySets(lv) * d.assoc, IvySets(lv)))
            && IvySets(lv) * d.assoc * d.linSiz == d.size
  {
    var d := IvyBridge(lv, c);
    assert IvySets(lv) * d.assoc * 64 == d.size;
    GeometryExact(IvySets(lv), 64, d.assoc);
  }

  // ---------------------------------------------------------------------
  // The configuration state
  // ---------------------------------------------------------------------

  /** What one step of the option loop did. */
  datatype Applied =
    | Handled(error: bool)     // the option was processed; error: cfg_error was set
    | NullRecord               // a cache option without a prefix: cash_cfg is NULL
    | Other                    // not an option of this model

  /** The configuration records and the core count configure fills in. */
  class Setup {
    var l1d: CacheCfg
    var l1i: CacheCfg
    var l2: CacheCfg
    var l3: CacheCfg
    var l4: CacheCfg
    var l5: CacheCfg
    var mem: CacheCfg
    var nmbrCores: int

    /** The record of a level. */
    function Cfg(lv: Level): CacheCfg
      reads this
    {
      match lv
      case L1D => l1d
      case L1I => l1i
      case L2 => l2
      case L3 => l3
      case L4 => l4
      case L5 => l5
      case Mem => mem
    }

    /** The defaults of lines 329-340: no cores, L1 and L2 private, L3 and memory shared. */
    constructor Init(blank: CacheCfg)
      ensures nmbrCores == 0 && l4 == blank && l5 == blank
      ensures l1d == blank.(shared := 'P') && l1i == l1d && l2 == l1d
      ensures l3 == blank.(shared := 'S') && mem == l3
    {
      l1d, l1i, l2 := blank.(shared := 'P'), blank.(shared := 'P'), blank.(shared := 'P');
      l3, mem := blank.(shared := 'S'), blank.(shared := 'S');
      l4, l5 := blank, blank;
      nmbrCores := 0;
    }

    /** Sets the record of one level. */
    method Put(lv: Level, c: CacheCfg)
      modifies this
      ensures Snapshot() == With(old(Snapshot()), lv, c)
    {
      match lv
      case L1D => l1d := c;
      case L1I => l1i := c;
      case L2 => l2 := c;
      case L3 => l3 := c;
      case L4 => l4 := c;
      case L5 => l5 := c;
      case Mem => mem := c;
    }

    /**
     * One option token and its value token: the prefix selects a record, a
     * cache option updates it as CacheOptionAsWritten says, -cores sets the
     * core count (refused above MAX_PIDS, lines 458-464) and -preset
     * IvyBridge4c8M applies the preset (lines 625-634).
     */
    method ApplyOption(tkn: string, val: string, parsed: int) returns (r: Applied)
      modifies this
      ensures var p := Prefixed(tkn);
              var name := if p.Some? then p.value.1 else tkn;
              if FieldOfOption(name).Some? then
                if p.None? then r == NullRecord && Unchanged(old(Snapshot()))
                else var o := SetOptionAsWritten(old(Cfg(p.value.0)), FieldOfOption(name).value, val, parsed);
                     r == Handled(o.error) && Snapshot() == With(old(Snapshot()), p.value.0, o.cfg)
              else if name == "-cores" then
                r == Handled(Int16(parsed) > MAX_PIDS) && Snapshot() == old(Snapshot()).(cores := Int16(parsed))
              else if name == "-preset" then
                if val == "IvyBridge4c8M" then r == Handled(false) && Snapshot() == Preset(old(Snapshot()))
                else r == Handled(val != "Other") && Unchanged(old(Snapshot()))
              else r == Other && Unchanged(old(Snapshot()))
    {
      var p := Prefixed(tkn);
      var name := if p.Some? then p.value.1 else tkn;
      if FieldOfOption(name).Some? {
        if p.None? {
          r := NullRecord;
        } else {
          OptionNames(name);
          var o := SetOptionAsWritten(Cfg(p.value.0), FieldOfOption(name).value, val, parsed);
          Put(p.value.0, o.cfg);
          r := Handled(o.error);
        }
      } else if name == "-cores" {
        nmbrCores := Int16(parsed);
        r := Handled(nmbrCores > MAX_PIDS);
      } else if name == "-preset" {
        if val == "IvyBridge4c8M" {
          ConfigureIvyBridge();
          r := Handled(false);
        } else {
          r := Handled(val != "Other");
        }
      } else {
        r := Other;
      }
    }

    /** All the state as a value. */
    function Snapshot(): (s: Settings)
      reads this
      ensures forall lv :: Get(s, lv) == Cfg(lv)
    {
      Settings(l1d, l1i, l2, l3, l4, l5, mem, nmbrCores)
    }

    predicate Unchanged(s: Settings)
      reads this
    {
      Snapshot() == s
    }

    /** configure_ivybridge: four cores and the preset on every level it names. */
    method ConfigureIvyBridge()
      modifies this
      ensures Snapshot() == Preset(old(Snapshot()))
    {
      nmbrCores := 4;
      l1d := IvyBridge(L1D, l1d);
      l1i := IvyBridge(L1I, l1i);
      l2 := IvyBridge(L2, l2);
      l3 := IvyBridge(L3, l3);
      mem := IvyBridge(Mem, mem);
    }
  }

  /** The configuration state as a value: a record per level and the core count. */
  datatype Settings = Settings(l1d: CacheCfg, l1i: CacheCfg, l2: CacheCfg, l3: CacheCfg, l4: CacheCfg,
                               l5: CacheCfg, mem: CacheCfg, cores: int)

  /** The record of a level. */
  function Get(s: Settings, lv: Level): CacheCfg
  {
    match lv
    case L1D => s.l1d
    case L1I => s.l1i
    case L2 => s.l2
    case L3 => s.l3
    case L4 => s.l4
    case L5 => s.l5
    case Mem => s.mem
  }

  /** s with the record of lv replaced. */
  function With(s: Settings, lv: Level, c: CacheCfg): (r: Settings)
    ensures Get(r, lv) == c && r.cores == s.cores
    ensures forall o :: o != lv ==> Get(r, o) == Get(s, o)
  {
    match lv
    case L1D => s.(l1d := c)
    case L1I => s.(l1i := c)
    case L2 => s.(l2 := c)
    case L3 => s.(l3 := c)
    case L4 => s.(l4 := c)
    case L5 => s.(l5 := c)
    case Mem => s.(mem := c)
  }

  /** The state after configure_ivybridge. */
  function Preset(s: Settings): (r: Settings)
    ensures r.cores == 4 && forall lv :: Get(r, lv) == IvyBridge(lv, Get(s, lv))
  {
    Settings(IvyBridge(L1D, s.l1d), IvyBridge(L1I, s.l1i), IvyBridge(L2, s.l2), IvyBridge(L3, s.l3),
             s.l4, s.l5, IvyBridge(Mem, s.mem), 4)
  }

  /** The preset sets every value it touches outright: applying it twice is applying it once. */
  lemma PresetIdempotent(s: Settings)
    ensures Preset(Preset(s)) == Preset(s)
  {
  }

  /** After the preset every level init_cache builds passes its size check. */
  lemma PresetFits(s: Settings, lv: Level)
    requires lv != L4 && lv != L5
    ensures var d := Get(Preset(s), lv);
            Geometry(d.size, d.linSiz, d.assoc) == Some(Shape(d.size / 64, IvySets(lv)))
  {
    IvyBridgeFits(lv, Get(s, lv));
  }

  // ---------------------------------------------------------------------
  // initialize (lines 980-1055)
  // ---------------------------------------------------------------------

  /** The caches initialize builds: an L1D, an L1I and a private L2 per core, L3 and memory. */
  datatype Unit = L1DOf(p: int) | L1IOf(p: int) | L2Of(p: int) | L3Unit | MemUnit

  /** The level and the lower cache initialize gives a cache (None: NULL). */
  datatype Link = Link(level: int, lower: Option<Unit>)

  function LevelOf(u: Unit): int
  {
    match u
    case L1DOf(_) => 1
    case L1IOf(_) => 1
    case L2Of(_) => 2
    case L3Unit => 3
    case MemUnit => 4
  }

  /** L1 caches go to their core's L2 or to the one shared L2, L2 to L3, L3 to memory. */
  function LowerOf(u: Unit, priv: bool): Option<Unit>
  {
    match u
    case L1DOf(p) => Some(L2Of(if priv then p else 0))
    case L1IOf(p) => Some(L2Of(if priv then p else 0))
    case L2Of(_) => Some(L3Unit)
    case L3Unit => Some(MemUnit)
    case MemUnit => None
  }

  /** The loops of initialize run for the cores there are: none for a count below one. */
  function Cores(nmbrCores: int): nat
  {
    if nmbrCores > 0 then nmbrCores else 0
  }

  function L1Ds(n: nat): seq<Unit> { seq(n, p => L1DOf(p)) }
  function L1Is(n: nat): seq<Unit> { seq(n, p => L1IOf(p)) }
  function L2s(n: nat, priv: bool): seq<Unit> { if priv then seq(n, p => L2Of(p)) else [L2Of(0)] }

  /** The order in which initialize builds the caches of n cores. */
  function BuildOrder(n: nat, priv: bool): seq<Unit>
  {
    L1Ds(n) + L1Is(n) + L2s(n, priv) + [L3Unit, MemUnit]
  }

  /** Where each cache stands in the build order. */
  lemma OrderAt(n: nat, priv: bool)
    ensures var ord := BuildOrder(n, priv); var m := if priv then n else 1;
            |ord| == 2 * n + m + 2
            && (forall p :: 0 <= p < n ==> ord[p] == L1DOf(p) && ord[n + p] == L1IOf(p))
            && (forall p :: 0 <= p < m ==> ord[2 * n + p] == L2Of(p))
            && ord[2 * n + m] == L3Unit && ord[2 * n + m + 1] == MemUnit
  {
  }

  /** Every record initialize reads has a non-zero line size and associativity (init_cache divides by both). */
  predicate Divisible(st: Settings)
  {
    st.l1d.linSiz != 0 && st.l1d.assoc != 0 && st.l1i.linSiz != 0 && st.l1i.assoc != 0
    && st.l2.linSiz != 0 && st.l2.assoc != 0 && st.l3.linSiz != 0 && st.l3.assoc != 0
    && st.mem.linSiz != 0 && st.mem.assoc != 0
  }

  /** The record a cache is built from. */
  function CfgOfUnit(st: Settings, u: Unit): CacheCfg
  {
    match u
    case L1DOf(_) => st.l1d
    case L1IOf(_) => st.l1i
    case L2Of(_) => st.l2
    case L3Unit => st.l3
    case MemUnit => st.mem
  }

  /**
   * The status init_cache gives a record: -1 unless the size is a whole,
   * non-negative number of sets.  A size of 0 gives 0, since calloc of zero
   * items returns a pointer with glibc.
   */
  function InitStatus(c: CacheCfg): (stat: int)
    requires c.linSiz != 0 && c.assoc != 0
    ensures stat == 0 <==> c.size >= 0 && Geometry(c.size, c.linSiz, c.assoc).Some?
    ensures stat == 0 || stat == -1
  {
    if c.size >= 0 && Geometry(c.size, c.linSiz, c.assoc).Some? then 0 else -1
  }

  predicate Fails(st: Settings, u: Unit)
    requires Divisible(st)
  {
    InitStatus(CfgOfUnit(st, u)) != 0
  }

  /** ord[k] is the first cache of ord whose init_cache fails. */
  predicate FirstFailure(st: Settings, ord: seq<Unit>, k: int)
    requires Divisible(st)
  {
    0 <= k < |ord| && Fails(st, ord[k]) && forall j :: 0 <= j < k ==> !Fails(st, ord[j])
  }

  /** The links initialize has set once the caches of us are built. */
  function Wired(us: seq<Unit>, priv: bool): (r: map<Unit, Link>)
  {
    if |us| == 0 then map[]
    else Wired(us[..|us| - 1], priv)[us[|us| - 1] := Link(LevelOf(us[|us| - 1]), LowerOf(us[|us| - 1], priv))]
  }

  /** The wiring holds a link for exactly the caches built, each the level and lower cache of its kind. */
  lemma {:induction false} WiredLinks(us: seq<Unit>, priv: bool)
    ensures forall u :: u in Wired(us, priv) <==> u in us
    ensures forall u :: u in Wired(us, priv) ==> Wired(us, priv)[u] == Link(LevelOf(u), LowerOf(u, priv))
  {
    if |us| > 0 {
      var front := us[..|us| - 1];
      WiredLinks(front, priv);
      assert us == front + [us[|us| - 1]];
      assert forall u :: u in us <==> u in front || u == us[|us| - 1];
    }
  }

  /** The first i caches of ord are wired, and none of them failed. */
  predicate Built(st: Settings, ord: seq<Unit>, i: int, wiring: map<Unit, Link>, priv: bool)
    requires Divisible(st)
  {
    0 <= i <= |ord| && wiring == Wired(ord[..i], priv) && forall j :: 0 <= j < i ==> !Fails(st, ord[j])
  }

  /** Setting the level and lower link of the next cache. */
  method Visit(ghost ord: seq<Unit>, ghost i: int, u: Unit, wiring: map<Unit, Link>, priv: bool)
    returns (w: map<Unit, Link>)
    requires 0 <= i < |ord| && ord[i] == u && wiring == Wired(ord[..i], priv)
    ensures w == Wired(ord[..i + 1], priv)
  {
    assert ord[..i + 1][..i] == ord[..i];
    w := wiring[u := Link(LevelOf(u), LowerOf(u, priv))];
  }

  /** The kinds of cache initialize builds in one loop. */
  datatype Kind = KL1D | KL1I | KL2 | KL3 | KMem

  /** The p-th cache of a loop of kind k. */
  function Make(k: Kind, p: int): Unit
  {
    match k
    case KL1D => L1DOf(p)
    case KL1I => L1IOf(p)
    case KL2 => L2Of(p)
    case KL3 => L3Unit
    case KMem => MemUnit
  }

  /** initialize returned early: the cache that failed is the last one wired. */
  ghost predicate Stopped(st: Settings, ord: seq<Unit>, wiring: map<Unit, Link>, priv: bool)
    requires Divisible(st)
  {
    exists k :: FirstFailure(st, ord, k) && wiring == Wired(ord[..k + 1], priv)
  }

  /**
   * One loop of initialize: wires caches ord[i], ..., ord[i + cnt - 1],
   * all built from the record CfgOfKind(st, k), and
   * returns at the first failure.
   */
  method WireRun(st: Settings, ghost ord: seq<Unit>, i: nat, cnt: nat, k: Kind,
                 wiring: map<Unit, Link>, priv: bool) returns (stat: int, w: map<Unit, Link>)
    requires Divisible(st) && Built(st, ord, i, wiring, priv) && Run(ord, i, cnt, k)
    ensures stat == 0 ==> Built(st, ord, i + cnt, w, priv)
    ensures stat != 0 ==> stat == -1 && Stopped(st, ord, w, priv)
  {
    var stat0 := InitStatus(CfgOfKind(st, k));
    w := wiring;
    var p := 0;
    while p < cnt
      invariant 0 <= p <= cnt && Built(st, ord, i + p, w, priv)
    {
      w := Visit(ord, i + p, Make(k, p), w, priv);
      assert CfgOfUnit(st, ord[i + p]) == CfgOfKind(st, k);
      if stat0 != 0 {
        assert FirstFailure(st, ord, i + p);
        return -1, w;
      }
      p := p + 1;
    }
    stat := 0;
  }

  /**
   * initialize: builds the L1D caches of every core, then the L1I caches,
   * then the L2 cache of every core (one shared L2 unless L2 is private),
   * L3 and memory, setting each one's level and lower link before
   * init_cache checks it, and returns the first status that is not 0.
   * init_cache's status is InitStatus of the record, so a failing cache is
   * the last one wired.  st holds the configuration records initialize
   * reads.
   */
  method Initialize(st: Settings) returns (stat: int, wiring: map<Unit, Link>)
    requires st.cores <= MAX_PIDS && Divisible(st)
    ensures var ord := BuildOrder(Cores(st.cores), st.l2.shared == 'P');
            (stat == 0 ==> Built(st, ord, |ord|, wiring, st.l2.shared == 'P'))
            && (stat != 0 ==> stat == -1 && Stopped(st, ord, wiring, st.l2.shared == 'P'))
  {
    var n := Cores(st.cores);
    var priv := st.l2.shared == 'P';
    ghost var ord := BuildOrder(n, priv);
    var m := if priv then n else 1;
    OrderRuns(n, priv);
    assert Built(st, ord, 0, map[], priv);
    stat, wiring := WireRun(st, ord, 0, n, KL1D, map[], priv);
    if stat != 0 {
      return;
    }
    stat, wiring := WireRun(st, ord, n, n, KL1I, wiring, priv);
    if stat != 0 {
      return;
    }
    stat, wiring := WireLower(st, ord, 2 * n, m, wiring, priv);
  }

  /** The last three loops of initialize: the L2 caches, L3 and memory, from index i of the build order. */
  method WireLower(st: Settings, ghost ord: seq<Unit>, i: nat, m: nat, wiring: map<Unit, Link>, priv: bool)
    returns (stat: int, w: map<Unit, Link>)
    requires Divisible(st) && Built(st, ord, i, wiring, priv) && |ord| == i + m + 2
    requires Run(ord, i, m, KL2) && Run(ord, i + m, 1, KL3) && Run(ord, i + m + 1, 1, KMem)
    ensures stat == 0 ==> Built(st, ord, |ord|, w, priv)
    ensures stat != 0 ==> stat == -1 && Stopped(st, ord, w, priv)
  {
    stat, w := WireRun(st, ord, i, m, KL2, wiring, priv);
    if stat != 0 {
      return;
    }
    stat, w := WireRun(st, ord, i + m, 1, KL3, w, priv);
    if stat != 0 {
      return;
    }
    stat, w := WireRun(st, ord, i + m + 1, 1, KMem, w, priv);
  }

  /** The build order is the five loops' runs one after the other. */
  lemma OrderRuns(n: nat, priv: bool)
    ensures var ord := BuildOrder(n, priv); var m := if priv then n else 1;
            |ord| == 2 * n + m + 2
            && Run(ord, 0, n, KL1D) && Run(ord, n, n, KL1I) && Run(ord, 2 * n, m, KL2)
            && Run(ord, 2 * n + m, 1, KL3) && Run(ord, 2 * n + m + 1, 1, KMem)
  {
    OrderAt(n, priv);
  }

  /** ord[i], ..., ord[i + cnt - 1] are the caches of a loop of kind k. */
  predicate Run(ord: seq<Unit>, i: nat, cnt: nat, k: Kind)
  {
    i + cnt <= |ord| && forall p :: 0 <= p < cnt ==> ord[i + p] == Make(k, p)
  }

  /** The record the caches of a loop are built from. */
  function CfgOfKind(st: Settings, k: Kind): (c: CacheCfg)
    ensures forall p :: CfgOfUnit(st, Make(k, p)) == c
  {
    match k
    case KL1D => st.l1d
    case KL1I => st.l1i
    case KL2 => st.l2
    case KL3 => st.l3
    case KMem => st.mem
  }

  /** Every lower link of a built cache points at a built cache. */
  lemma WiringClosed(n: nat, priv: bool, u: Unit)
    requires u in BuildOrder(n, priv) && LowerOf(u, priv).Some?
    ensures LowerOf(u, priv).value in BuildOrder(n, priv)
  {
    var ord := BuildOrder(n, priv);
    OrderAt(n, priv);
    var m := if priv then n else 1;
    match u
    case L1DOf(p) =>
      assert L1Ds(n)[p] == u;
      assert ord[2 * n + (if priv then p else 0)] == L2Of(if priv then p else 0);
    case L1IOf(p) =>
      assert L1Is(n)[p] == u;
      assert ord[2 * n + (if priv then p else 0)] == L2Of(if priv then p else 0);
    case L2Of(_) => assert ord[2 * n + m] == L3Unit;
    case L3Unit => assert ord[2 * n + m + 1] == MemUnit;
  }

  /**
   * The chain of lower links from a cache: one level further down at every
   * step, ending at memory, so an L1 cache reaches memory in three steps.
   */
  function PathDown(u: Unit, priv: bool): (r: seq<Unit>)
    ensures |r| == 5 - LevelOf(u) && r[0] == u && r[|r| - 1] == MemUnit
    ensures forall i :: 0 <= i < |r| - 1 ==> LowerOf(r[i], priv) == Some(r[i + 1])
    ensures forall i :: 0 <= i < |r| ==> LevelOf(r[i]) == LevelOf(u) + i
    ensures LowerOf(r[|r| - 1], priv) == None
    decreases 4 - LevelOf(u)
  {
    if u.MemUnit? then [u]
    else
      var rest := PathDown(LowerOf(u, priv).value, priv);
      ConsPath(u, rest, [u] + rest, priv);
      [u] + rest
  }

  /** A unit put before a chain that starts at its lower level extends the chain. */
  lemma ConsPath(u: Unit, rest: seq<Unit>, r: seq<Unit>, priv: bool)
    requires |rest| >= 1 && r == [u] + rest
    requires LowerOf(u, priv) == Some(rest[0]) && LevelOf(rest[0]) == LevelOf(u) + 1
    requires forall i :: 0 <= i < |rest| - 1 ==> LowerOf(rest[i], priv) == Some(rest[i + 1])
    requires forall i :: 0 <= i < |rest| ==> LevelOf(rest[i]) == LevelOf(rest[0]) + i
    ensures forall i :: 0 <= i < |r| - 1 ==> LowerOf(r[i], priv) == Some(r[i + 1])
    ensures forall i :: 0 <= i < |r| ==> LevelOf(r[i]) == LevelOf(u) + i
  {
    assert forall i :: 1 <= i < |r| ==> r[i] == rest[i - 1];
  }

}
