/** The SP3 precise-orbit reader (SP3Reader in gnsstools/rinex/sp3.py):
    the first `#` line gives the header, the first `+` line after it the
    satellite list, and from there every line until `EOF` is an epoch mark
    (`*`), a position (`P`) or velocity (`V`) record, or is passed over.
    The records are grouped by satellite with their sessions. */
module Sp3 {
  import opened Text
  import opened Fields
  import opened Rinex
  import opened Tables
  import opened ObsText
  import opened Groups
  import Obs2

  // ---------------------------------------------------------------------
  // Header and satellite list

  /** The values `_read_header` takes from the first `#` line. */
  datatype Header = Header(numEpoch: Field, coordSystem: Field, orbitType: Field, agency: Field)

  /** A line that starts the header. */
  predicate IsHeaderLine(line: string) {
    StartsWith(line, "#")
  }

  /** A line that starts the satellite list. */
  predicate IsSatListLine(line: string) {
    StartsWith(line, "+")
  }

  /** The seek loops of `read`: the first line at or after c that `stop`
      accepts; the file ending first raises IndexError. */
  function Seek(lines: seq<string>, stop: string -> bool, c: nat): (r: Result<nat>)
    ensures r.Ok? ==> c <= r.value < |lines| && stop(lines[r.value])
    ensures r.Ok? ==> forall j | c <= j < r.value :: !stop(lines[j])
    ensures r.Err? ==> r.error == IndexError && forall j | c <= j < |lines| :: !stop(lines[j])
  {
    var k := FirstFrom(lines, stop, c);
    if k < |lines| then Ok(k) else Err(IndexError)
  }

  /** `while not line.startswith(...)`: move the cursor to the first line
      at or after it that `stop` accepts. */
  method SeekLine(r: RinexReader, stop: string -> bool) returns (res: Result<nat>)
    modifies r
    ensures res == Seek(r.lines, stop, old(r.cursor))
    ensures res.Ok? ==> r.cursor == res.value
  {
    ghost var c := r.cursor;
    if r.cursor >= |r.lines| {
      return Err(IndexError);
    }
    var line := r.lines[r.cursor];
    while !stop(line)
      invariant c <= r.cursor < |r.lines| && line == r.lines[r.cursor]
      invariant FirstFrom(r.lines, stop, r.cursor) == FirstFrom(r.lines, stop, c)
      decreases |r.lines| - r.cursor
    {
      r.cursor := r.cursor + 1;
      if r.cursor == |r.lines| {
        return Err(IndexError);
      }
      line := r.lines[r.cursor];
    }
    return Ok(r.cursor);
  }

  /** The header values of a `#` line: the epoch count in columns 32-39,
      the coordinate system in 46-51, the orbit type in 52-55 and the
      agency in 56-60, each decoded. */
  function HeaderOf(line: string): Header {
    Header(Eval(Slice(line, 32, 39)), Eval(Slice(line, 46, 51)), Eval(Slice(line, 52, 55)), Eval(Slice(line, 56, 60)))
  }

  /** `_read_header`: the header values of the line under the cursor. */
  method ReadHeader(r: RinexReader) returns (h: Header)
    requires r.cursor < |r.lines|
    ensures h == HeaderOf(r.lines[r.cursor])
  {
    var line := r.lines[r.cursor];
    h := Header(Eval(Slice(line, 32, 39)), Eval(Slice(line, 46, 51)), Eval(Slice(line, 52, 55)), Eval(Slice(line, 56, 60)));
  }

  /** The ids of every line: 17 slots of 3 columns from column 9. */
  function SatSlots(lines: seq<string>): seq<seq<string>> {
    LinesIds(lines, 9, 17)
  }

  /** `_read_sat` from the `+` line c: the count is Python's int() of
      columns 3-7; ids are then collected from line c on, 17 slots a line,
      until there are at least that many. The ids, and the line after the
      last one read. */
  function SatList(lines: seq<string>, c: nat): Result<(seq<string>, nat)>
    requires c < |lines|
  {
    match IntOf(Slice(lines[c], 3, 7))
    case Err(e) => Err(e)
    case Ok(want) => IdsFrom(SatSlots(lines), c, c, want)
  }

  /** `_read_sat`. */
  method ReadSat(r: RinexReader) returns (res: Result<seq<string>>)
    requires r.cursor < |r.lines|
    modifies r
    ensures var s := SatList(r.lines, old(r.cursor));
      && (res.Ok? <==> s.Ok?)
      && (res.Ok? ==> res.value == s.value.0 && r.cursor == s.value.1)
      && (res.Err? ==> res.error == s.error)
  {
    var line := r.lines[r.cursor];
    var satNum := IntOf(Slice(line, 3, 7));
    if satNum.Err? {
      return Err(satNum.error);
    }
    res := ReadIds(r, satNum.value, 9, 17);
  }

  // ---------------------------------------------------------------------
  // Data lines

  /** What the data loop sees in a line: the end of the data (`EOF`), an
      epoch mark with its six date columns, a line it cannot index (empty,
      or a `P`/`V` line without column 1), a `P`/`V` line whose point
      shapely refuses, a position or velocity record with its system
      (column 1), PRN (columns 2-4) and values, or any other line. */
  datatype DataLine =
    | EndOfFile
    | EpochMark(date: seq<string>)
    | Unindexable
    | Refused(error: Error)
    | Motion(system: Field, prn: Field, data: Row<string>)
    | Ignored

  /** The six date columns of a `*` line, as given to gnsstime. */
  function EpochColumns(line: string): seq<string> {
    [Slice(line, 3, 7), Slice(line, 8, 10), Slice(line, 11, 13),
     Slice(line, 14, 16), Slice(line, 17, 19), Slice(line, 20, 31)]
  }

  /** A coordinate shapely's Point takes: an int or a float. */
  predicate IsNumber(f: Field) {
    f.Int? || f.Num?
  }

  /** What shapely 2's Point raises on a coordinate that is no number: it
      converts each with float(), and float(None) raises TypeError while
      float() of a text raises ValueError. */
  function Refusal(f: Field): Error {
    if f.Absent? then TypeError else ValueError
  }

  /** shapely's `Point(x, y, z)`: the point when all three are numbers,
      otherwise the refusal of the first one, in x, y, z order, that is
      not. */
  function PointOf(x: Field, y: Field, z: Field): (r: Result<Cell>)
    ensures r.Ok? <==> IsNumber(x) && IsNumber(y) && IsNumber(z)
    ensures r.Ok? ==> r.value == Point(x, y, z)
    ensures r.Err? ==> r.error in {TypeError, ValueError}
    ensures !IsNumber(x) ==> r == Err(Refusal(x))
    ensures IsNumber(x) && !IsNumber(y) ==> r == Err(Refusal(y))
    ensures IsNumber(x) && IsNumber(y) && !IsNumber(z) ==> r == Err(Refusal(z))
  {
    if !IsNumber(x) then Err(Refusal(x))
    else if !IsNumber(y) then Err(Refusal(y))
    else if !IsNumber(z) then Err(Refusal(z))
    else Ok(Point(x, y, z))
  }

  /** `_read_position` (key "Position") and `_read_velocity` (key
      "Velocity"): the point of columns 4-18, 18-32 and 32-46 and the clock
      of columns 46-60, each decoded and unscaled; shapely's refusal of
      the point propagates. */
  function Values(key: string, line: string): Result<Row<string>> {
    match PointOf(Eval(Slice(line, 4, 18)), Eval(Slice(line, 18, 32)), Eval(Slice(line, 32, 46)))
    case Err(e) => Err(e)
    case Ok(p) => Ok(map[key := p, "Clock" := Val(Eval(Slice(line, 46, 60)))])
  }

  function DataOf(line: string): DataLine {
    if Strip(line) == "EOF" then EndOfFile
    else if StartsWith(line, "*") then EpochMark(EpochColumns(line))
    else if line == [] then Unindexable
    else if line[0] == 'P' || line[0] == 'V' then
      if |line| < 2 then Unindexable
      else match Values(if line[0] == 'P' then "Position" else "Velocity", line)
        case Err(e) => Refused(e)
        case Ok(data) => Motion(Eval([line[1]]), Eval(Slice(line, 2, 4)), data)
    else Ignored
  }

  function DataLines(lines: seq<string>): (ds: seq<DataLine>)
    ensures |ds| == |lines|
  {
    Tabulate(|lines|, (i: nat) => if i < |lines| then DataOf(lines[i]) else Ignored)
  }

  lemma DataLinesAt(lines: seq<string>, i: nat)
    requires i < |lines|
    ensures DataLines(lines)[i] == DataOf(lines[i])
  {
    TabulateAt(|lines|, (i: nat) => if i < |lines| then DataOf(lines[i]) else Ignored, i);
  }

  /** The record of a `P` or `V` line: its values, the current date (None
      before the first `*` line), the system and the PRN, filed under the
      two printed one after the other. */
  function Record(system: Field, prn: Field, data: Row<string>, date: Cell): Obs2.Obs {
    Obs2.Obs(Render(system) + Render(prn), data["Date" := date]["System" := Val(system)]["PRN" := Val(prn)])
  }

  /** The data loop of `read` from line c with the current date: `EOF`
      ends it, a `*` line sets the date (raising TypeError if gnsstime refuses it,
      `valid` saying which dates it accepts), a `P` or `V` line gives a
      record, an unindexable line raises IndexError, anything else is
      passed over; every line moves the cursor one on. */
  function Body(ds: seq<DataLine>, c: nat, date: Cell, valid: seq<string> -> bool): Outcome<seq<Obs2.Obs>>
    decreases |ds| - c
  {
    if c >= |ds| then Done([])
    else match ds[c]
      case EndOfFile => Done([])
      case EpochMark(cols) => if valid(cols) then Body(ds, c + 1, Date(cols), valid) else Raised(TypeError)
      case Unindexable => Raised(IndexError)
      case Refused(e) => Raised(e)
      case Motion(system, prn, data) => After([Record(system, prn, data, date)], Body(ds, c + 1, date, valid))
      case Ignored => Body(ds, c + 1, date, valid)
  }

  /** The date before the first `*` line: None. */
  const NoDate := Val(Absent)

  /** `read` up to the DataFrame: the first `#` line, the first `+` line
      from there and its satellite list, then the data loop from the line
      after the list with no date, its records grouped by satellite with
      their sessions. */
  function Table(lines: seq<string>, valid: seq<string> -> bool): Outcome<seq<Row<string>>> {
    match Seek(lines, IsHeaderLine, 0)
    case Err(e) => Raised(e)
    case Ok(h) =>
      match Seek(lines, IsSatListLine, h)
      case Err(e) => Raised(e)
      case Ok(p) =>
        match SatList(lines, p)
        case Err(e) => Raised(e)
        case Ok((_, next)) => Obs2.Finish(Body(DataLines(lines), next, NoDate, valid))
  }

  // ---------------------------------------------------------------------
  // Methods

  /** The loop from a line that moves on, in front of the records so far. */
  lemma BodyStep(ds: seq<DataLine>, c: nat, date: Cell, valid: seq<string> -> bool, done: seq<Obs2.Obs>)
    requires c < |ds| && (ds[c].Motion? || ds[c].Ignored? || (ds[c].EpochMark? && valid(ds[c].date)))
    ensures ds[c].Motion? ==>
      After(done, Body(ds, c, date, valid)) == After(done + [Record(ds[c].system, ds[c].prn, ds[c].data, date)], Body(ds, c + 1, date, valid))
    ensures ds[c].Ignored? ==> Body(ds, c, date, valid) == Body(ds, c + 1, date, valid)
    ensures ds[c].EpochMark? ==> Body(ds, c, date, valid) == Body(ds, c + 1, Date(ds[c].date), valid)
  {
    if ds[c].Motion? {
      AfterAfter(done, [Record(ds[c].system, ds[c].prn, ds[c].data, date)], Body(ds, c + 1, date, valid));
    }
  }

  /** `_read_position` and `_read_velocity`: the values of the line under
      the cursor, or the exception shapely's Point raises. */
  method ReadValues(r: RinexReader, key: string) returns (data: Result<Row<string>>)
    requires r.cursor < |r.lines|
    ensures data == Values(key, r.lines[r.cursor])
  {
    var line := r.lines[r.cursor];
    var point := PointOf(Eval(Slice(line, 4, 18)), Eval(Slice(line, 18, 32)), Eval(Slice(line, 32, 46)));
    if point.Err? {
      return Err(point.error);
    }
    data := Ok(map[key := point.value, "Clock" := Val(Eval(Slice(line, 46, 60)))]);
  }

  /** The tests the data loop makes on the line under the cursor, and the
      values of a `P` or `V` line. */
  method ReadLine(r: RinexReader) returns (d: DataLine)
    requires r.cursor < |r.lines|
    ensures d == DataOf(r.lines[r.cursor])
  {
    var line := r.lines[r.cursor];
    if Strip(line) == "EOF" {
      return EndOfFile;
    }
    if StartsWith(line, "*") {
      return EpochMark(EpochColumns(line));
    }
    if line == [] || !(line[0] == 'P' || line[0] == 'V') {
      return if line == [] then Unindexable else Ignored;
    }
    if |line| < 2 {
      return Unindexable;
    }
    var system, prn := Eval([line[1]]), Eval(Slice(line, 2, 4));
    var data;
    if line[0] == 'P' {
      data := ReadValues(r, "Position");
    } else {
      data := ReadValues(r, "Velocity");
    }
    if data.Err? {
      return Refused(data.error);
    }
    return Motion(system, prn, data.value);
  }

  /** One pass of the data loop: `stop` is how the loop ends at this line
      (`EOF` or an exception); otherwise the date is updated or a record
      filed, and the cursor moves one on. */
  method Advance(r: RinexReader, date: Cell, valid: seq<string> -> bool,
                 ghost done: seq<Obs2.Obs>, order: seq<string>, groups: map<string, seq<Row<string>>>)
    returns (date': Cell, ghost done': seq<Obs2.Obs>, order': seq<string>, groups': map<string, seq<Row<string>>>,
             stop: Option<Outcome<seq<Obs2.Obs>>>)
    requires r.cursor < |r.lines| && Files(order, groups, Obs2.Sats(done), Obs2.Sessioned(done))
    modifies r
    ensures var ds := DataLines(r.lines);
      && (stop.None? ==> r.cursor == old(r.cursor) + 1
                         && After(done, Body(ds, old(r.cursor), date, valid)) == After(done', Body(ds, r.cursor, date', valid))
                         && Files(order', groups', Obs2.Sats(done'), Obs2.Sessioned(done')))
      && (stop.Some? ==> After(done, Body(ds, old(r.cursor), date, valid)) == After(done, stop.value)
                         && done' == done && order' == order && groups' == groups
                         && (stop.value.Done? ==> stop.value == Done([])))
  {
    ghost var ds := DataLines(r.lines);
    ghost var c := r.cursor;
    date', done', order', groups' := date, done, order, groups;
    DataLinesAt(r.lines, c);
    var d := ReadLine(r);
    match d {
      case EndOfFile =>
        return date', done', order', groups', Some(Done([]));
      case Unindexable =>
        return date', done', order', groups', Some(Raised(IndexError));
      case Refused(e) =>
        return date', done', order', groups', Some(Raised(e));
      case EpochMark(cols) =>
        if !valid(cols) {
          return date', done', order', groups', Some(Raised(TypeError));
        }
        date' := Date(cols);
        BodyStep(ds, c, date, valid, done);
      case Motion(system, prn, data) =>
        var row := data["Date" := date];
        row := row["System" := Val(system)];
        row := row["PRN" := Val(prn)];
        var o := Obs2.Obs(Render(system) + Render(prn), row);
        ghost var keys, vals := Obs2.Sats(done), Obs2.Sessioned(done);
        order', groups' := Obs2.FileObs(o, order, groups, keys, vals);
        Obs2.SatsSnoc(done, o);
        Obs2.SessionedSnoc(done, o);
        done' := done + [o];
        BodyStep(ds, c, date, valid, done);
      case Ignored =>
        BodyStep(ds, c, date, valid, done);
    }
    r.cursor := r.cursor + 1;
    return date', done', order', groups', None;
  }

  /** The data loop from the cursor on with no date, then the records
      grouped by satellite. */
  method ReadData(r: RinexReader, valid: seq<string> -> bool) returns (out: Outcome<seq<Row<string>>>)
    modifies r
    ensures out == Obs2.Finish(Body(DataLines(r.lines), old(r.cursor), NoDate, valid))
  {
    var order: seq<string> := [];
    var groups: map<string, seq<Row<string>>> := map[];
    var date := NoDate;
    ghost var done: seq<Obs2.Obs> := [];
    ghost var start := r.cursor;
    ghost var ds := DataLines(r.lines);
    AfterEmpty(Body(ds, start, NoDate, valid));
    while r.cursor < |r.lines|
      invariant After(done, Body(ds, r.cursor, date, valid)) == Body(ds, start, NoDate, valid)
      invariant Files(order, groups, Obs2.Sats(done), Obs2.Sessioned(done))
      decreases |r.lines| - r.cursor
    {
      var stop;
      date, done, order, groups, stop := Advance(r, date, valid, done, order, groups);
      if stop.Some? {
        if stop.value.Done? {
          assert stop.value == Done([]);
          break;
        }
        return Obs2.Finish(stop.value);
      }
    }
    assert After(done, Done([])) == Body(ds, start, NoDate, valid);
    AfterNil(done);
    var rows := Flatten(order, groups, Obs2.Sats(done), Obs2.Sessioned(done));
    return Done(rows);
  }

  /** `read`: seek the header line and read it, seek the satellite list
      and read it, then the data. */
  method Read(r: RinexReader, valid: seq<string> -> bool) returns (out: Outcome<seq<Row<string>>>)
    modifies r
    ensures out == Table(r.lines, valid)
  {
    r.cursor := 0;
    var h := SeekLine(r, IsHeaderLine);
    if h.Err? {
      return Raised(h.error);
    }
    var header := ReadHeader(r);
    var p := SeekLine(r, IsSatListLine);
    if p.Err? {
      return Raised(p.error);
    }
    var sats := ReadSat(r);
    if sats.Err? {
      return Raised(sats.error);
    }
    out := ReadData(r, valid);
  }
}
