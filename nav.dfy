/** RinexNavReader (gnsstools/rinex/nav.py): reads the records of a RINEX 3
    navigation file into the column dictionary `df_data`, one column per
    navigation field plus time, session, system and prn. */
module Nav {
  import opened Text
  import opened Fields
  import opened Rinex
  import opened Tables
  import opened NavMaps

  /** The columns every record fills (`df_fields`): every map field except
      the six epoch fields, plus session and time. */
  const DfFields: set<NavKey> := set k: NavKey | !IsDate(k) && !k.System? && !k.Prn?

  /** The columns of the table: `df_fields` plus system and prn. */
  const NavColumns: set<NavKey> := set k: NavKey | !IsDate(k)

  /** A line starts a record with an implicit constellation when its first
      character is a blank or a digit. */
  predicate ImplicitSystem(line: string)
    requires line != []
  {
    line[0] == ' ' || IsDigit(line[0])
  }

  /** The constellation of a record line: the `system` argument (or "R"
      when it is empty or None) for an implicit line, else column 0. */
  function SystemOf(line: string, system: string): (sys: string)
    requires line != []
    ensures ImplicitSystem(line) && system != "" ==> sys == system
    ensures ImplicitSystem(line) && system == "" ==> sys == "R"
    ensures !ImplicitSystem(line) ==> sys == [line[0]]
  {
    if ImplicitSystem(line) then (if system == "" then "R" else system) else [line[0]]
  }

  /** The columns of the PRN: 0-3 of an implicit line, else 1-3. */
  function PrnText(line: string): string
    requires line != []
  {
    if ImplicitSystem(line) then Slice(line, 0, 3) else Slice(line, 1, 3)
  }

  /** The PRN, decoded. */
  function PrnOf(line: string): Field
    requires line != []
  {
    Eval(PrnText(line))
  }

  /** The satellite key `f"{system_}{prn}"`. */
  function SatelliteOf(sys: string, prn: Field): string {
    sys + Render(prn)
  }

  /** How many lines a record of constellation `sys` spans. */
  function RecordLines(sys: string): nat {
    if sys == "R" then 4 else 8
  }

  /** The extractor for a constellation: E, G and R have one, anything else
      is skipped. */
  function DictOf(sys: string): (d: Option<Layout>)
    ensures d.Some? <==> sys == "E" || sys == "G" || sys == "R"
    ensures d.Some? ==> |d.value| == RecordLines(sys)
  {
    if sys == "E" then Some(EDict)
    else if sys == "G" then Some(GDict)
    else if sys == "R" then Some(RDict)
    else None
  }

  /** The words of columns 3-23: the epoch of a record. */
  function EpochTokens(line: string): (toks: seq<string>)
    ensures |toks| >= 1
  {
    Words(Slice(line, 3, 23))
  }

  /** What one record contributes before the session number is known. */
  datatype NavRecord = NavRecord(
    satellite: string,
    fields: map<NavKey, Field>,
    epoch: seq<string>,
    system: string,
    prn: Field)

  /** The dictionary `data` of a record with session `session`, completed
      with None for every column of `df_fields` it lacks. */
  function NavRow(rec: NavRecord, session: nat): Row<NavKey>
  {
    var data := (map k | k in rec.fields :: Val(rec.fields[k]))
      [Time := Date(rec.epoch)][Session := Count(session)]
      [System := Label(rec.system)][Prn := Val(rec.prn)];
    Completed(data, DfFields)
  }

  /** What `read` makes of a line on its own: nothing (a blank line, a
      line without a PRN, a constellation without an extractor), or the
      start of a record of constellation `sys` read through `dict`, with
      the tokens of its epoch. */
  datatype LineKind = Skipped | Known(sys: string, prn: Field, dict: Layout, toks: seq<string>)

  function Classify(line: string, system: string): (kind: LineKind)
    ensures kind.Known? ==> |kind.dict| == RecordLines(kind.sys) && DictOf(kind.sys) == Some(kind.dict)
  {
    if IsBlank(line) then Skipped
    else
      var sys := SystemOf(line, system);
      var prn := PrnOf(line);
      if prn == Absent then Skipped
      else match DictOf(sys)
        case None => Skipped
        case Some(d) => Known(sys, prn, d, EpochTokens(line))
  }

  /** What the loop body of `read` does at line c, given the line's kind:
      move on, emit a record and continue after its lines, or raise
      IndexError (the record runs past the end of the file), ValueError
      (its epoch does not have six fields) or TypeError (gnsstime refuses
      the six epoch words; `valid` says which it accepts). */
  datatype Step = Skip | Emit(rec: NavRecord, next: nat) | Fail(error: Error)

  function StepAt(dec: string -> Field, lines: seq<string>, c: nat, kind: LineKind, valid: seq<string> -> bool): Step {
    if kind.Skipped? then Skip
    else
      var fields := RecordFields(dec, lines, c, kind.dict);
      if fields.Err? then Fail(fields.error)
      else if |kind.toks| != 6 then Fail(ValueError)
      else if !valid(kind.toks) then Fail(TypeError)
      else Emit(Emitted(kind, fields.value), c + |kind.dict|)
  }

  /** The fields of a record whose lines start at line c, read slot by slot
      through the layout `d`; IndexError when the lines run past the end. */
  function RecordFields(dec: string -> Field, lines: seq<string>, c: nat, d: Layout): (res: Result<map<NavKey, Field>>)
    ensures res.Err? <==> c + |d| > |lines|
    ensures res.Err? ==> res.error == IndexError
  {
    if c + |d| > |lines| then Err(IndexError)
    else Ok(Decoded(dec, Extract(Verbatim, lines[c..c + |d|], d)))
  }

  /** The record a line of kind `kind` starts, with the fields read from its lines. */
  function Emitted(kind: LineKind, fields: map<NavKey, Field>): (rec: NavRecord)
    requires kind.Known?
  {
    NavRecord(SatelliteOf(kind.sys, kind.prn), fields, kind.toks, kind.sys, kind.prn)
  }

  /** What the loop body does at every line. */
  function Steps(lines: seq<string>, system: string, valid: seq<string> -> bool): (steps: seq<Step>)
    ensures |steps| == |lines|
  {
    Tabulate(|lines|, (i: nat) => if i < |lines| then StepAt(Eval, lines, i, Classify(lines[i], system), valid) else Skip)
  }

  lemma StepsAt(lines: seq<string>, system: string, valid: seq<string> -> bool, i: nat)
    requires i < |lines|
    ensures Steps(lines, system, valid)[i] == StepAt(Eval, lines, i, Classify(lines[i], system), valid)
  {
    TabulateAt(|lines|, (i: nat) => if i < |lines| then StepAt(Eval, lines, i, Classify(lines[i], system), valid) else Skip, i);
  }

  /** The records `read` collects from line c on, or the exception it
      raises. */
  function Records(steps: seq<Step>, c: nat): Result<seq<NavRecord>>
    decreases |steps| - c
  {
    if c >= |steps| then Ok([])
    else match steps[c]
      case Skip => Records(steps, c + 1)
      case Fail(e) => Err(e)
      case Emit(rec, next) =>
        if next <= c then Err(IndexError)
        else match Records(steps, next)
          case Ok(rs) => Ok([rec] + rs)
          case Err(e) => Err(e)
  }

  function Satellites(recs: seq<NavRecord>): (s: seq<string>)
    ensures |s| == |recs|
    ensures forall i | 0 <= i < |recs| :: s[i] == recs[i].satellite
  {
    if recs == [] then [] else Satellites(recs[..|recs| - 1]) + [recs[|recs| - 1].satellite]
  }

  /** The rows of the records, each with its session number: the length of
      the run of records of the same satellite that it ends. */
  function Numbered(recs: seq<NavRecord>): (rows: seq<Row<NavKey>>)
    ensures |rows| == |recs|
  {
    Numbering(recs, Satellites(recs), NavRow)
  }

  /** Where `read` starts: one past the line where `_skip_header` stops. */
  function Start(lines: seq<string>): nat {
    HeaderEnd(lines, 0) + 1
  }

  /** The column dictionary built from the records from line c on, or the
      exception raised on the way. */
  function TableFrom(steps: seq<Step>, c: nat): Outcome<map<NavKey, seq<Cell>>> {
    match Records(steps, c)
    case Ok(recs) => Done(Columns(Numbered(recs)))
    case Err(e) => Raised(e)
  }

  /** The column dictionary `read` builds, or the exception it raises. */
  function Table(lines: seq<string>, system: string, valid: seq<string> -> bool): Outcome<map<NavKey, seq<Cell>>> {
    TableFrom(Steps(lines, system, valid), Start(lines))
  }

  /** `_extract_g_fields`, `_extract_e_fields` and `_extract_r_fields`: take
      the next |dict| lines, advance the cursor past them, and decode the
      dictionary's slots; a record cut short by the end of the file raises
      IndexError once the cursor has moved. */
  method ExtractDict(r: RinexReader, dec: string -> Field, dict: Layout) returns (res: Result<map<NavKey, Field>>)
    modifies r
    ensures r.cursor == old(r.cursor) + |dict|
    ensures res == RecordFields(dec, r.lines, old(r.cursor), dict)
  {
    var c := r.cursor;
    r.cursor := r.cursor + |dict|;
    if c + |dict| > |r.lines| {
      return Err(IndexError);
    }
    ExtractDecoded(dec, r.lines[c..c + |dict|], dict);
    return Ok(Extract(dec, r.lines[c..c + |dict|], dict));
  }

  /** A record that is emitted is appended after the ones already read. */
  lemma RecordsEmit(steps: seq<Step>, c: nat, done: seq<NavRecord>)
    requires c < |steps| && steps[c].Emit? && steps[c].next > c
    ensures Prepend(done, Records(steps, c)) ==
      Prepend(done + [steps[c].rec], Records(steps, steps[c].next))
  {
    assert Records(steps, c) == Prepend([steps[c].rec], Records(steps, steps[c].next));
    PrependSnoc(done, steps[c].rec, Records(steps, steps[c].next));
  }

  lemma SatellitesSnoc(done: seq<NavRecord>, rec: NavRecord)
    ensures Satellites(done + [rec]) == Satellites(done) + [rec.satellite]
  {
    SnocPrefix(done, rec);
  }

  /** The satellites and the rows of the records read so far stay as they
      are when one more record is read. */
  lemma NumberedSnoc(done: seq<NavRecord>, rec: NavRecord)
    ensures Numbered(done + [rec]) ==
      Numbered(done) + [NavRow(rec, RunLength(Satellites(done + [rec]), |done|))]
  {
    SnocPrefix(done, rec);
    SatellitesSnoc(done, rec);
    assert Satellites(done + [rec])[..|done|] == Satellites(done);
  }

  /** The session counter of `read`: it restarts at 1 unless the record has
      the satellite of the record just before it, and then counts on. */
  lemma SessionStep(done: seq<NavRecord>, rec: NavRecord)
    ensures RunLength(Satellites(done + [rec]), |done|) ==
      if done != [] && done[|done| - 1].satellite == rec.satellite
      then RunLength(Satellites(done), |done| - 1) + 1 else 1
  {
    SatellitesSnoc(done, rec);
    RunLengthSnoc(Satellites(done), rec.satellite);
  }

  /** A line that is skipped leaves the records of the rest. */
  lemma RecordsSkip(steps: seq<Step>, c: nat)
    requires c < |steps| && steps[c].Skip?
    ensures Records(steps, c) == Records(steps, c + 1)
  {
  }

  /** A record that raises ends the reading with its exception. */
  lemma RecordsFail(steps: seq<Step>, c: nat, done: seq<NavRecord>)
    requires c < |steps| && steps[c].Fail?
    ensures Prepend(done, Records(steps, c)) == Err(steps[c].error)
  {
  }

  /** The tests at the top of the loop body of `read`: a blank line, a
      line without a PRN and a line of an unknown constellation are
      skipped; any other line starts a record of its constellation. */
  method LineKindOf(line: string, system: string) returns (kind: LineKind)
    ensures kind == Classify(line, system)
  {
    if IsBlank(line) {
      return Skipped;
    }
    var sys := SystemOf(line, system);
    var prn := PrnOf(line);
    if prn == Absent {
      return Skipped;
    }
    var extractor := DictOf(sys);
    if extractor.None? {
      return Skipped;
    }
    return Known(sys, prn, extractor.value, EpochTokens(line));
  }

  /** Reading a record that starts at the cursor: its lines through the
      constellation's extractor, then its epoch: its six words, then
      the date gnsstime makes of them. */
  method ReadKnown(r: RinexReader, dec: string -> Field, kind: LineKind, valid: seq<string> -> bool) returns (st: Step)
    requires kind.Known?
    modifies r
    ensures st == StepAt(dec, r.lines, old(r.cursor), kind, valid)
    ensures st.Emit? ==> r.cursor == st.next
  {
    var data := ExtractDict(r, dec, kind.dict);
    if data.Err? {
      return Fail(data.error);
    }
    if |kind.toks| != 6 {
      return Fail(ValueError);
    }
    if !valid(kind.toks) {
      return Fail(TypeError);
    }
    return Emit(Emitted(kind, data.value), r.cursor);
  }

  /** One pass of the loop body of `read` up to the session bookkeeping:
      skip the line, or read the record it starts. */
  method ReadRecord(r: RinexReader, system: string, valid: seq<string> -> bool) returns (st: Step)
    requires r.cursor < |r.lines|
    modifies r
    ensures st == Steps(r.lines, system, valid)[old(r.cursor)]
    ensures st.Skip? ==> r.cursor == old(r.cursor) + 1
    ensures st.Emit? ==> r.cursor == st.next > old(r.cursor)
  {
    var c := r.cursor;
    StepsAt(r.lines, system, valid, c);
    var kind := LineKindOf(r.lines[c], system);
    if kind.Skipped? {
      r.cursor := c + 1;
      return Skip;
    }
    st := ReadKnown(r, Eval, kind, valid);
  }

  /** The satellite of the last record read, if any (`previous`). */
  function LastSatellite(recs: seq<NavRecord>): Option<string> {
    if recs == [] then None else Some(recs[|recs| - 1].satellite)
  }

  /** The local state of `read` after the records `done`: the column
      dictionary of their rows, the satellite of the last one, and the
      session number of the last one. */
  predicate Tallied(done: seq<NavRecord>, cols: map<NavKey, seq<Cell>>, previous: Option<string>, counter: nat) {
    && cols == Columns(Numbered(done))
    && previous == LastSatellite(done)
    && (done != [] ==> counter == RunLength(Satellites(done), |done| - 1))
  }

  /** The bookkeeping of `read` for one more record: count the session
      on (same satellite as the record before) or restart it at 1, and
      append the record's row to every column. */
  method Tally(ghost done: seq<NavRecord>, rec: NavRecord, cols: map<NavKey, seq<Cell>>, previous: Option<string>, counter: nat)
    returns (cols': map<NavKey, seq<Cell>>, previous': Option<string>, counter': nat)
    requires Tallied(done, cols, previous, counter)
    ensures Tallied(done + [rec], cols', previous', counter')
  {
    if previous == Some(rec.satellite) {
      counter' := counter + 1;
    } else {
      counter' := 1;
    }
    previous' := Some(rec.satellite);
    assert counter' == RunLength(Satellites(done + [rec]), |done|) by {
      SessionStep(done, rec);
    }
    NumberedSnoc(done, rec);
    ColumnsSnoc(Numbered(done), NavRow(rec, counter'));
    SnocPrefix(done, rec);
    cols' := AppendRow(cols, NavRow(rec, counter'));
  }

  /** One pass of the loop of `read`: read what starts at the cursor and,
      when it is a record, tally it after the records `done`. */
  method Advance(r: RinexReader, system: string, valid: seq<string> -> bool, ghost steps: seq<Step>, ghost done: seq<NavRecord>,
                 cols: map<NavKey, seq<Cell>>, previous: Option<string>, counter: nat)
    returns (failed: Option<Error>, ghost done': seq<NavRecord>,
             cols': map<NavKey, seq<Cell>>, previous': Option<string>, counter': nat)
    requires steps == Steps(r.lines, system, valid) && r.cursor < |r.lines|
    requires Tallied(done, cols, previous, counter)
    modifies r
    ensures failed.Some? ==> Prepend(done, Records(steps, old(r.cursor))) == Err(failed.value)
    ensures failed.None? ==> old(r.cursor) < r.cursor
    ensures failed.None? ==> Prepend(done, Records(steps, old(r.cursor))) == Prepend(done', Records(steps, r.cursor))
    ensures failed.None? ==> Tallied(done', cols', previous', counter')
  {
    ghost var c := r.cursor;
    var st := ReadRecord(r, system, valid);
    failed, done', cols', previous', counter' := None, done, cols, previous, counter;
    match st
    case Skip =>
      RecordsSkip(steps, c);
    case Fail(e) =>
      RecordsFail(steps, c, done);
      failed := Some(e);
    case Emit(rec, next) =>
      RecordsEmit(steps, c, done);
      cols', previous', counter' := Tally(done, rec, cols, previous, counter);
      done' := done + [rec];
  }

  /** The loop of `read`: walk the records from the cursor on and tally
      each one. */
  method ReadRecords(r: RinexReader, system: string, valid: seq<string> -> bool) returns (out: Outcome<map<NavKey, seq<Cell>>>)
    modifies r
    ensures out == TableFrom(Steps(r.lines, system, valid), old(r.cursor))
  {
    var cols: map<NavKey, seq<Cell>> := map[];
    var previous: Option<string> := None;
    var counter: nat := 1;
    ghost var done: seq<NavRecord> := [];
    ghost var steps := Steps(r.lines, system, valid);
    ghost var start := r.cursor;
    while r.cursor < |r.lines|
      invariant Prepend(done, Records(steps, r.cursor)) == Records(steps, start)
      invariant Tallied(done, cols, previous, counter)
      decreases |r.lines| - r.cursor
    {
      var failed;
      failed, done, cols, previous, counter := Advance(r, system, valid, steps, done, cols, previous, counter);
      if failed.Some? {
        return Raised(failed.value);
      }
    }
    PrependNil(done);
    return Done(cols);
  }

  /** `read`: skip the header and the END OF HEADER line, then read the
      records. */
  method Read(r: RinexReader, system: string, valid: seq<string> -> bool) returns (out: Outcome<map<NavKey, seq<Cell>>>)
    modifies r
    ensures out == Table(r.lines, system, valid)
  {
    r.cursor := 0;
    r.SkipHeader();
    r.cursor := r.cursor + 1;
    out := ReadRecords(r, system, valid);
  }
}
