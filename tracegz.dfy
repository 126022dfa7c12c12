/**
 * The moola trace readers: `tracegz` (modified_moola_src/tracegz.c) and
 * `trace_read_moola_gz`, `_txt`, `_valgz` and `_valtxt`
 * (moola_src/trace_moola.c).  Each call reads lines until one is a valid
 * record, skipping comment, blank and malformed lines, counts every line it
 * reads, stamps the record with the number of the line that completed it
 * and returns 1; at the end of the file it returns 0.  The per-line parse
 * is TraceMoola.Record: with the strict byte reader for tracegz, the
 * lenient one for the two `_val` readers, and no data field for the other
 * two.  The file is the list of lines gzgets or fgets returns.
 */
module TraceGz {
  import opened Defs
  import opened Scan
  import opened TraceMoola

  /** What a call returns: the result code, the next line to read, the line count and the record. */
  datatype Read = Read(r: int, next: nat, lineno: int, mr: Memref)

  /** A line the reader accepts. */
  predicate Accepted(line: string, mr: Memref, field: DataField)
  {
    Record(line, mr, field).valid
  }

  /** One call of a reader on the lines from index k on, line count `lineno` so far. */
  function ReadFrom(lines: seq<string>, k: nat, lineno: int, mr: Memref, field: DataField): Read
    decreases |lines| - k
  {
    if k >= |lines| then Read(0, k, lineno, mr)
    else
      var p := Record(lines[k], mr, field);
      if p.valid then Read(1, k + 1, lineno + 1, p.mr.(linenmbr := lineno + 1))
      else ReadFrom(lines, k + 1, lineno + 1, p.mr, field)
  }

  /** One open trace file: its lines, the next one to read and the count of lines read. */
  class GzTrace {
    var lines: seq<string>
    var pos: nat
    var lineno: int
    const field: DataField

    predicate Valid()
      reads this
    {
      pos <= |lines|
    }

    /** open_trace_gz (or the opening of a moola trace): the line count starts at 0. */
    constructor (lines: seq<string>, field: DataField)
      ensures Valid() && this.lines == lines && this.field == field && pos == 0 && lineno == 0
    {
      this.lines := lines;
      this.field := field;
      pos := 0;
      lineno := 0;
    }

    /** reopen_trace_gz: the file is read again from its start; the line count is not reset. */
    method Reopen(lines: seq<string>)
      modifies this
      ensures Valid() && this.lines == lines && pos == 0 && lineno == old(lineno)
    {
      this.lines := lines;
      pos := 0;
    }

    /** tracegz, or trace_read_moola_*: read the next valid record into mr0. */
    method Next(mr0: Memref) returns (r: int, mr: Memref)
      requires Valid()
      modifies this
      ensures Valid() && lines == old(lines)
      ensures Read(r, pos, lineno, mr) == ReadFrom(lines, old(pos), old(lineno), mr0, field)
    {
      mr := mr0;
      while true
        invariant Valid() && lines == old(lines)
        invariant ReadFrom(lines, pos, lineno, mr, field) == ReadFrom(lines, old(pos), old(lineno), mr0, field)
        decreases |lines| - pos
      {
        if pos == |lines| {
          return 0, mr;
        }
        var line := lines[pos];
        pos := pos + 1;
        lineno := lineno + 1;
        var valid;
        valid, mr := ParseRecord(line, mr, field);
        if valid {
          mr := mr.(linenmbr := lineno);
          return 1, mr;
        }
      }
    }
  }

  /**
   * A call reads at least one line when any is left, counts each line it
   * reads, returns 1 with the record stamped with the count, or 0 having
   * read to the end of the file.
   */
  lemma {:induction false} ReadShape(lines: seq<string>, k: nat, lineno: int, mr: Memref, field: DataField)
    requires k <= |lines|
    ensures var res := ReadFrom(lines, k, lineno, mr, field);
      && k <= res.next <= |lines|
      && res.lineno == lineno + (res.next - k)
      && (res.r == 0 || res.r == 1)
      && (res.r == 0 ==> res.next == |lines|)
      && (res.r == 1 ==> k < res.next && res.mr.linenmbr == res.lineno)
    decreases |lines| - k
  {
    if k < |lines| && !Accepted(lines[k], mr, field) {
      ReadShape(lines, k + 1, lineno + 1, Record(lines[k], mr, field).mr, field);
    }
  }

  /** The record fields a line carries, and the line number, are all a call writes. */
  predicate OnlyTraceFields(mr: Memref, r: Memref)
  {
    && r == mr.(oper := r.oper, pid := r.pid, adrs := r.adrs, size := r.size, data := r.data, segmnt := r.segmnt,
                linenmbr := r.linenmbr)
    && |r.data| == |mr.data|
  }

  lemma {:induction false} ReadFrame(lines: seq<string>, k: nat, lineno: int, mr: Memref, field: DataField)
    ensures OnlyTraceFields(mr, ReadFrom(lines, k, lineno, mr, field).mr)
    decreases |lines| - k
  {
    if k < |lines| {
      var p := Record(lines[k], mr, field);
      RecordFrame(lines[k], mr, field);
      if !p.valid {
        ReadFrame(lines, k + 1, lineno + 1, p.mr, field);
      }
    }
  }

  /** A later line is accepted whatever rejected lines wrote into the record before it. */
  lemma AcceptedAfter(lines: seq<string>, k: nat, mr: Memref, m2: Memref, field: DataField)
    ensures forall j | k <= j < |lines| :: Accepted(lines[j], mr, field) == Accepted(lines[j], m2, field)
  {
    forall j | k <= j < |lines|
      ensures Accepted(lines[j], mr, field) == Accepted(lines[j], m2, field)
    {
      RecordValidity(lines[j], mr, m2, field);
    }
  }

  /** A call returns 1 exactly when some line from k on is a valid record. */
  lemma {:induction false} ReadFinds(lines: seq<string>, k: nat, lineno: int, mr: Memref, field: DataField)
    ensures ReadFrom(lines, k, lineno, mr, field).r == 1 <==> exists j :: k <= j < |lines| && Accepted(lines[j], mr, field)
    decreases |lines| - k
  {
    if k < |lines| {
      var p := Record(lines[k], mr, field);
      if !p.valid {
        ReadFinds(lines, k + 1, lineno + 1, p.mr, field);
        AcceptedAfter(lines, k + 1, mr, p.mr, field);
      }
    }
  }

  /** A call stops right after the first valid record: the line before `next` is one, and none before it. */
  lemma {:induction false} ReadStops(lines: seq<string>, k: nat, lineno: int, mr: Memref, field: DataField)
    ensures var res := ReadFrom(lines, k, lineno, mr, field);
      && (res.r == 1 ==> k < res.next <= |lines| && Accepted(lines[res.next - 1], mr, field))
      && (forall j :: k <= j < res.next - 1 && j < |lines| ==> !Accepted(lines[j], mr, field))
    decreases |lines| - k
  {
    if k < |lines| {
      var p := Record(lines[k], mr, field);
      if !p.valid {
        var res := ReadFrom(lines, k + 1, lineno + 1, p.mr, field);
        assert ReadFrom(lines, k, lineno, mr, field) == res;
        ReadStops(lines, k + 1, lineno + 1, p.mr, field);
        AcceptedAfter(lines, k + 1, mr, p.mr, field);
        assert !Accepted(lines[k], mr, field);
      }
    }
  }

  /** A comment or empty line is skipped: it is counted, and the record is as before. */
  lemma SkipsComment(lines: seq<string>, k: nat, lineno: int, mr: Memref, field: DataField)
    requires k < |lines| && |lines[k]| >= 1 && (lines[k][0] == '#' || lines[k][0] == '\n')
    ensures ReadFrom(lines, k, lineno, mr, field) == ReadFrom(lines, k + 1, lineno + 1, mr, field)
  {
    assert NonBlankFrom(lines[k], 0) == 0;
    RecordCode(lines[k], mr, field);
  }
}
