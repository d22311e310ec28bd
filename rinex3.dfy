/** The older RINEX 3 navigation reader (Rinex3Reader in
    gnsstools/rinex/rinex3.py): a header scan that keeps the version, the
    file type and the leap seconds, then a loop that reads a record through
    the G, E or R field map wherever a line starts with a satellite id,
    numbers the records of a satellite with a session counter and appends
    every record to the column dictionary. */
module Rinex3 {
  import opened Text
  import opened Fields
  import opened Rinex
  import opened Tables
  import opened NavMaps
  import Nav
  import GnssTime

  const VersionLabel := "RINEX VERSION / TYPE"
  const LeapLabel := "LEAP SECONDS"
  const CommentLabel := "COMMENT"

  /** A float of the header: the literal float() accepted, and whether
      its value is 0.0 (the one falsy float). */
  datatype Float = Float(literal: string, zero: bool)

  /** The header dictionary: version, type letter and leap seconds. */
  datatype Header3 = Header3(version: Option<Float>, kind: Option<char>, leap: Option<Float>)

  const NoHeader := Header3(None, None, None)

  /** A decimal literal whose mantissa digits are all zero: its float is
      0.0. */
  predicate IsZeroLiteral(t: string) {
    var u := Unsigned(t);
    IsDecimalLiteral(u) && forall k | 0 <= k < IndexOfExponent(u) :: u[k] == '0' || u[k] == '.'
  }

  /** float(): the stripped literal, or ValueError. */
  function FloatOf(s: string): (r: Result<Float>)
    ensures r.Ok? <==> IsFloatLiteral(Strip(s))
    ensures r.Ok? ==> r.value.literal == Strip(s) && (r.value.zero <==> IsZeroLiteral(Strip(s)))
    ensures r.Err? ==> r.error == ValueError
  {
    var t := Strip(s);
    if IsFloatLiteral(t) then Ok(Float(t, IsZeroLiteral(t))) else Err(ValueError)
  }

  /** `not header.get(key)`: the key is missing or holds 0.0. */
  predicate Unset(v: Option<Float>) {
    v.None? || v.value.zero
  }

  /** What a header line says, whatever the dictionary holds: the parse of
      its version entry if it names RINEX VERSION / TYPE (the float before
      the first double blank and the first letter after it), the parse of
      its leap-seconds entry if it names LEAP SECONDS (the float before the
      first blank run), and whether it names COMMENT or END OF HEADER. */
  datatype HeaderText = HeaderText(
    version: Option<Result<(Float, char)>>,
    leap: Option<Result<Float>>,
    comment: bool,
    end: bool)

  /** `parts = re.sub("  +", "  ", line.strip()).split("  ")`, then
      `float(parts[0])` and `parts[1][0]`. */
  function VersionEntry(line: string): Result<(Float, char)> {
    var parts := Split(ReplaceRuns(Strip(line), 2, "  "), "  ");
    match FloatOf(parts[0])
    case Err(e) => Err(e)
    case Ok(v) => if |parts| < 2 || parts[1] == [] then Err(IndexError) else Ok((v, parts[1][0]))
  }

  /** `parts = re.sub(" +", "  ", line.strip()).split("  ")`, then
      `float(parts[0])`. */
  function LeapEntry(line: string): Result<Float> {
    var parts := Split(ReplaceRuns(Strip(line), 1, "  "), "  ");
    FloatOf(parts[0])
  }

  function TextOf(line: string): HeaderText {
    HeaderText(
      if Contains(line, VersionLabel) then Some(VersionEntry(line)) else None,
      if Contains(line, LeapLabel) then Some(LeapEntry(line)) else None,
      Contains(line, CommentLabel),
      Contains(line, EndOfHeader))
  }

  /** What every line of the file says. */
  function Texts(lines: seq<string>): (ts: seq<HeaderText>)
    ensures |ts| == |lines|
  {
    Tabulate(|lines|, (i: nat) => if i < |lines| then TextOf(lines[i]) else HeaderText(None, None, false, false))
  }

  lemma TextsAt(lines: seq<string>, i: nat)
    requires i < |lines|
    ensures Texts(lines)[i] == TextOf(lines[i])
  {
    TabulateAt(|lines|, (i: nat) => if i < |lines| then TextOf(lines[i]) else HeaderText(None, None, false, false), i);
  }

  /** What one header line does: update the dictionary, end the header,
      or raise. */
  datatype HeaderLine = Keep(header: Header3) | End | Raise(error: Error)

  /** The body of the header loop for one line: the version line is parsed
      only while no version is set, the leap-seconds line only while no leap
      seconds are set; a COMMENT line raises KeyError, since the comment
      entry it appends to never exists; END OF HEADER ends the header. */
  function LineEffect(h: Header3, t: HeaderText): (e: HeaderLine) {
    if Unset(h.version) && t.version.Some? then
      match t.version.value
      case Err(e) => Raise(e)
      case Ok((v, c)) => Keep(h.(version := Some(v), kind := Some(c)))
    else if Unset(h.leap) && t.leap.Some? then
      match t.leap.value
      case Err(e) => Raise(e)
      case Ok(v) => Keep(h.(leap := Some(v)))
    else if t.comment then Raise(KeyError)
    else if t.end then End
    else Keep(h)
  }

  /** `_read_header` from line k on with the dictionary h, given what the
      lines say: what it returns (the dictionary, None when the lines run
      out, or the exception) and where it leaves the cursor. */
  function HeaderScan(ts: seq<HeaderText>, k: nat, h: Header3): (res: (Result<Option<Header3>>, nat))
    requires k <= |ts|
    ensures k <= res.1 <= |ts|
    decreases |ts| - k
  {
    if k == |ts| then (Ok(None), k)
    else match LineEffect(h, ts[k])
      case Keep(h') => HeaderScan(ts, k + 1, h')
      case End => (Ok(Some(h)), k + 1)
      case Raise(e) => (Err(e), k + 1)
  }

  /** The version branch: split the stripped line on double blanks. */
  method ReadVersionEntry(line: string) returns (res: Result<(Float, char)>)
    ensures res == VersionEntry(line)
  {
    var parts := Split(ReplaceRuns(Strip(line), 2, "  "), "  ");
    var version := FloatOf(parts[0]);
    if version.Err? {
      return Err(version.error);
    }
    if |parts| < 2 || parts[1] == [] {
      return Err(IndexError);
    }
    return Ok((version.value, parts[1][0]));
  }

  /** The body of the header loop on line i. */
  method ReadHeaderLine(lines: seq<string>, i: nat, h: Header3) returns (e: HeaderLine)
    requires i < |lines|
    ensures e == LineEffect(h, Texts(lines)[i])
  {
    TextsAt(lines, i);
    var line := lines[i];
    if Unset(h.version) && Contains(line, VersionLabel) {
      var entry := ReadVersionEntry(line);
      if entry.Err? {
        return Raise(entry.error);
      }
      return Keep(h.(version := Some(entry.value.0), kind := Some(entry.value.1)));
    } else if Unset(h.leap) && Contains(line, LeapLabel) {
      var leap := FloatOf(Split(ReplaceRuns(Strip(line), 1, "  "), "  ")[0]);
      if leap.Err? {
        return Raise(leap.error);
      }
      return Keep(h.(leap := Some(leap.value)));
    } else if Contains(line, CommentLabel) {
      return Raise(KeyError);
    } else if Contains(line, EndOfHeader) {
      return End;
    }
    return Keep(h);
  }

  /** The scan at line k, given what line k does. */
  lemma HeaderScanAt(ts: seq<HeaderText>, k: nat, h: Header3, e: HeaderLine)
    requires k < |ts| && e == LineEffect(h, ts[k])
    ensures HeaderScan(ts, k, h) == match e
      case Keep(h') => HeaderScan(ts, k + 1, h')
      case End => (Ok(Some(h)), k + 1)
      case Raise(error) => (Err(error), k + 1)
  {
  }

  /** `_read_header`: from the first line, advancing the cursor before
      looking at each line. */
  method ReadHeader(r: RinexReader) returns (res: Result<Option<Header3>>)
    modifies r
    ensures res == HeaderScan(Texts(r.lines), 0, NoHeader).0
    ensures r.cursor == HeaderScan(Texts(r.lines), 0, NoHeader).1
  {
    r.cursor := 0;
    var header := NoHeader;
    ghost var ts := Texts(r.lines);
    for i := 0 to |r.lines|
      invariant r.cursor == i
      invariant HeaderScan(ts, i, header) == HeaderScan(ts, 0, NoHeader)
    {
      var e := ReadHeaderLine(r.lines, i, header);
      HeaderScanAt(ts, i, header, e);
      r.cursor := r.cursor + 1;
      if e.Raise? {
        return Err(e.error);
      }
      if e.End? {
        return Ok(Some(header));
      }
      header := e.header;
    }
    return Ok(None);
  }

  /** `re.search("[EGR][0-9][0-9]", line[:3])`: a satellite id in the
      first three columns. */
  predicate IsRecordStart(line: string) {
    |line| >= 3 && line[0] in "EGR" && IsDigit(line[1]) && IsDigit(line[2])
  }

  /** `eval(f"{system}_FIELDS_MAP")`: the second R map is the one in force. */
  function MapOf(sys: char): (m: Layout)
    requires sys in "EGR"
    ensures |m| == if sys == 'R' then 4 else 8
    ensures |m[0]| > 0 && m[0][0] == Slot(Satellite, 0, 3)
  {
    if sys == 'G' then GMap else if sys == 'E' then EMap else RMap
  }

  /** The slots of one line decoded onto `acc`, in order. */
  method ExtractLineInto(dec: string -> Field, line: string, row: seq<Slot>, acc: map<NavKey, Field>)
    returns (data: map<NavKey, Field>)
    ensures data == ExtractLine(dec, line, row, acc)
  {
    data := acc;
    for j := 0 to |row|
      invariant data == ExtractLine(dec, line, row[..j], acc)
    {
      assert row[..j + 1][..j] == row[..j];
      data := data[row[j].key := dec(Slice(line, row[j].start, row[j].end))];
    }
    assert row[..|row|] == row;
  }

  /** `extract_fields`: the lines zipped with the rows of the map, every
      slot decoded with `dec` in order, a later slot overwriting an earlier
      one of the same key. */
  method ExtractFields(dec: string -> Field, lines: seq<string>, layout: Layout) returns (data: map<NavKey, Field>)
    ensures data == Extract(dec, lines, layout)
  {
    data := map[];
    var n := Min(|lines|, |layout|);
    for i := 0 to n
      invariant data == ExtractLines(dec, lines, layout, i)
    {
      data := ExtractLineInto(dec, lines[i], layout[i], data);
    }
  }

  /** A record: its satellite and the fields its map extracted. */
  datatype Record3 = Record3(satellite: Field, data: map<NavKey, Field>)

  /** The lines a record starting at line c is read from: as many as its
      map has rows, fewer at the end of the file. */
  function Window(lines: seq<string>, c: nat, m: Layout): seq<string>
    requires c <= |lines|
  {
    lines[c..Min(c + |m|, |lines|)]
  }

  /** The record that starts at line c. */
  function RecordAt(lines: seq<string>, c: nat): (rec: Record3)
    requires c < |lines| && IsRecordStart(lines[c])
    ensures var m := MapOf(lines[c][0]);
      rec.data == Extract(Eval3, Window(lines, c, m), m) && Satellite in rec.data
  {
    var m := MapOf(lines[c][0]);
    var w := Window(lines, c, m);
    var data := Extract(Eval3, w, m);
    ExtractLinesKeys(Eval3, w, m, Min(|w|, |m|));
    assert Satellite in KeysUpTo(m, Min(|w|, |m|)) by {
      assert m[0][0].key == Satellite;
    }
    Record3(data[Satellite], data)
  }

  /** The records `read` collects from line c on: a record start is read
      with its map and the cursor moves past the map's rows; any other line
      moves it by one. */
  function Records(lines: seq<string>, c: nat): seq<Record3>
    decreases |lines| - c
  {
    if c >= |lines| then []
    else if IsRecordStart(lines[c]) then [RecordAt(lines, c)] + Records(lines, c + |MapOf(lines[c][0])|)
    else Records(lines, c + 1)
  }

  /** `data.pop(key, default)`. */
  function PopOr(data: map<NavKey, Field>, k: NavKey, default: Field): Field {
    if k in data then data[k] else default
  }

  /** The six epoch fields a record pops, year to second, each with the
      default of its `pop`. */
  function EpochOf(data: map<NavKey, Field>): (f: seq<Field>)
    ensures |f| == 6
  {
    [PopOr(data, Year, Int(1970)), PopOr(data, Month, Int(0)), PopOr(data, Day, Int(0)),
     PopOr(data, Hour, Int(0)), PopOr(data, Minute, Int(0)), PopOr(data, Second, Int(0))]
  }

  /** `gnsstime(year, month, day, hour, minute, second)` on the popped
      fields: `datetime` takes ints only and raises TypeError on anything
      else (a float, a string), then ValueError on an instant out of
      range. */
  function TimeOf(data: map<NavKey, Field>): Result<GnssTime.Instant> {
    var f := EpochOf(data);
    if !(f[0].Int? && f[1].Int? && f[2].Int? && f[3].Int? && f[4].Int? && f[5].Int?) then Err(TypeError)
    else GnssTime.Make(GnssTime.Instant(f[0].n, f[1].n, f[2].n, f[3].n, f[4].n, f[5].n, 0))
  }

  /** The time cell of a record's row. A record whose time raises gets no
      row, since `read` stops on it; its cell is None. */
  function TimeCell(data: map<NavKey, Field>): Cell {
    match TimeOf(data)
    case Ok(t) => Moment(t)
    case Err(_) => Val(Absent)
  }

  /** The row a record adds to the column dictionary: its fields without
      the six epoch fields, its session, its time, and None for every other
      column of `df_fields`. */
  function Row3(rec: Record3, session: nat): Row<NavKey> {
    Completed(Stamped(rec.data, session, TimeCell(rec.data)), Nav.DfFields)
  }

  /** The exception of the first record whose time raises, if any. */
  function TimeFailure(recs: seq<Record3>): Option<Error> {
    if recs == [] then None
    else if TimeOf(recs[0].data).Err? then Some(TimeOf(recs[0].data).error)
    else TimeFailure(recs[1..])
  }

  /** Records read without a failing time leave the first failure to the
      records after them. */
  lemma {:induction false} TimeFailureConcat(a: seq<Record3>, b: seq<Record3>)
    requires TimeFailure(a) == None
    ensures TimeFailure(a + b) == TimeFailure(b)
  {
    if a != [] {
      assert TimeOf(a[0].data).Ok? && TimeFailure(a[1..]) == None;
      assert (a + b)[0] == a[0];
      assert (a + b)[1..] == a[1..] + b;
      TimeFailureConcat(a[1..], b);
      assert TimeFailure(a + b) == TimeFailure((a + b)[1..]);
    } else {
      assert a + b == b;
    }
  }

  /** A record whose time is built adds no failure. */
  lemma TimeFailureSnoc(done: seq<Record3>, rec: Record3)
    requires TimeFailure(done) == None && TimeOf(rec.data).Ok?
    ensures TimeFailure(done + [rec]) == None
  {
    TimeFailureConcat(done, [rec]);
    assert [rec][1..] == [];
  }

  /** A record's fields without the six epoch fields, then its session and
      its time. */
  function Stamped(d: map<NavKey, Field>, session: nat, time: Cell): (row: Row<NavKey>)
    ensures forall k :: k in row <==> (k in d && !IsDate(k)) || k.Session? || k.Time?
    ensures row[Session] == Count(session) && row[Time] == time
    ensures forall k | k in d && !IsDate(k) && !IsAdded(k) :: row[k] == Val(d[k])
  {
    (map k | k in d && !IsDate(k) :: Val(d[k]))[Session := Count(session)][Time := time]
  }

  function Satellites(recs: seq<Record3>): (s: seq<Field>)
    ensures |s| == |recs|
    ensures forall i | 0 <= i < |recs| :: s[i] == recs[i].satellite
  {
    if recs == [] then [] else Satellites(recs[..|recs| - 1]) + [recs[|recs| - 1].satellite]
  }

  /** The rows of the records, each with its session number: the length
      of the run of records of the same satellite that it ends. */
  function Numbered(recs: seq<Record3>): (rows: seq<Row<NavKey>>)
    ensures |rows| == |recs|
  {
    Numbering(recs, Satellites(recs), Row3)
  }

  /** What the loop of `read` makes of the records: the exception of the
      first one whose time raises, or the column dictionary of them all. */
  function TableOf(recs: seq<Record3>): Outcome<map<NavKey, seq<Cell>>> {
    match TimeFailure(recs)
    case Some(e) => Raised(e)
    case None => Done(Columns(Numbered(recs)))
  }

  /** The column dictionary `read` builds, or the exception the header
      scan or a record's time raises. */
  function Table(lines: seq<string>): Outcome<map<NavKey, seq<Cell>>> {
    var (h, c) := HeaderScan(Texts(lines), 0, NoHeader);
    if h.Err? then Raised(h.error) else TableOf(Records(lines, c))
  }

  lemma SatellitesSnoc(done: seq<Record3>, rec: Record3)
    ensures Satellites(done + [rec]) == Satellites(done) + [rec.satellite]
  {
    SnocPrefix(done, rec);
  }

  lemma NumberedSnoc(done: seq<Record3>, rec: Record3)
    ensures Numbered(done + [rec]) ==
      Numbered(done) + [Row3(rec, RunLength(Satellites(done + [rec]), |done|))]
  {
    SnocPrefix(done, rec);
    SatellitesSnoc(done, rec);
    assert Satellites(done + [rec])[..|done|] == Satellites(done);
  }

  /** The session counter: it restarts at 1 unless the record has the
      satellite of the record just before it, and then counts on. */
  lemma SessionStep(done: seq<Record3>, rec: Record3)
    ensures RunLength(Satellites(done + [rec]), |done|) ==
      if done != [] && done[|done| - 1].satellite == rec.satellite
      then RunLength(Satellites(done), |done| - 1) + 1 else 1
  {
    SatellitesSnoc(done, rec);
    RunLengthSnoc(Satellites(done), rec.satellite);
  }

  function LastSatellite(recs: seq<Record3>): Option<Field> {
    if recs == [] then None else Some(recs[|recs| - 1].satellite)
  }

  /** The local state of `read` after the records `done`, none of whose
      times raised. */
  predicate Tallied(done: seq<Record3>, cols: map<NavKey, seq<Cell>>, previous: Option<Field>, counter: nat) {
    && TimeFailure(done) == None
    && cols == Columns(Numbered(done))
    && previous == LastSatellite(done)
    && (done != [] ==> counter == RunLength(Satellites(done), |done| - 1))
  }

  /** The bookkeeping of `read` for one more record, whose time is built. */
  method Tally(ghost done: seq<Record3>, rec: Record3, cols: map<NavKey, seq<Cell>>, previous: Option<Field>, counter: nat)
    returns (cols': map<NavKey, seq<Cell>>, previous': Option<Field>, counter': nat)
    requires Tallied(done, cols, previous, counter) && TimeOf(rec.data).Ok?
    ensures Tallied(done + [rec], cols', previous', counter')
  {
    if previous == Some(rec.satellite) {
      counter' := counter + 1;
    } else {
      counter' := 1;
    }
    previous' := Some(rec.satellite);
    assert counter' == RunLength(Satellites(done + [rec]), |done|) by {
      SessionStep(done, rec);
    }
    NumberedSnoc(done, rec);
    ColumnsSnoc(Numbered(done), Row3(rec, counter'));
    SnocPrefix(done, rec);
    TimeFailureSnoc(done, rec);
    cols' := AppendRow(cols, Row3(rec, counter'));
  }

  /** Reading the record that starts at the cursor: its map, its lines and
      its satellite; the cursor moves past the map's rows. */
  method ReadRecord(r: RinexReader) returns (rec: Record3)
    requires r.cursor < |r.lines| && IsRecordStart(r.lines[r.cursor])
    modifies r
    ensures rec == RecordAt(r.lines, old(r.cursor))
    ensures r.cursor == old(r.cursor) + |MapOf(r.lines[old(r.cursor)][0])|
  {
    var c := r.cursor;
    var m := MapOf(r.lines[c][0]);
    var data := ExtractFields(Eval3, r.lines[c..Min(c + |m|, |r.lines|)], m);
    assert data == RecordAt(r.lines, c).data;
    rec := Record3(data[Satellite], data);
    r.cursor := c + |m|;
  }

  /** A record start is read and the rest follows its lines. */
  lemma RecordsStart(lines: seq<string>, c: nat)
    requires c < |lines| && IsRecordStart(lines[c])
    ensures Records(lines, c) == [RecordAt(lines, c)] + Records(lines, c + |MapOf(lines[c][0])|)
  {
  }

  /** Any other line is passed over. */
  lemma RecordsOther(lines: seq<string>, c: nat)
    requires c < |lines| && !IsRecordStart(lines[c])
    ensures Records(lines, c) == Records(lines, c + 1)
  {
  }

  /** A line that starts no record is passed over. */
  method SkipLine(r: RinexReader)
    requires r.cursor < |r.lines| && !IsRecordStart(r.lines[r.cursor])
    modifies r
    ensures r.cursor == old(r.cursor) + 1
    ensures Records(r.lines, old(r.cursor)) == Records(r.lines, r.cursor)
  {
    RecordsOther(r.lines, r.cursor);
    r.cursor := r.cursor + 1;
  }

  /** A record whose time raises, read after records whose times did not,
      is the first failure. */
  lemma TimeFailureHere(done: seq<Record3>, rec: Record3, rest: seq<Record3>)
    requires TimeFailure(done) == None && TimeOf(rec.data).Err?
    ensures TimeFailure(done + ([rec] + rest)) == Some(TimeOf(rec.data).error)
  {
    TimeFailureConcat(done, [rec] + rest);
    assert ([rec] + rest)[0] == rec;
  }

  /** Reading the record that starts at the cursor, building its time
      (raising when gnsstime refuses it) and tallying it. */
  method TakeRecord(r: RinexReader, ghost done: seq<Record3>, cols: map<NavKey, seq<Cell>>, previous: Option<Field>, counter: nat)
    returns (failed: Option<Error>, ghost done': seq<Record3>, cols': map<NavKey, seq<Cell>>, previous': Option<Field>, counter': nat)
    requires r.cursor < |r.lines| && IsRecordStart(r.lines[r.cursor])
    requires Tallied(done, cols, previous, counter)
    modifies r
    ensures old(r.cursor) < r.cursor
    ensures failed.Some? ==> TimeFailure(done + Records(r.lines, old(r.cursor))) == failed
    ensures failed.None? ==> done + Records(r.lines, old(r.cursor)) == done' + Records(r.lines, r.cursor)
    ensures failed.None? ==> Tallied(done', cols', previous', counter')
  {
    ghost var c := r.cursor;
    var rec := ReadRecord(r);
    RecordsStart(r.lines, c);
    failed, done', cols', previous', counter' := None, done, cols, previous, counter;
    var time := TimeOf(rec.data);
    if time.Err? {
      TimeFailureHere(done, rec, Records(r.lines, r.cursor));
      failed := Some(time.error);
      return;
    }
    cols', previous', counter' := Tally(done, rec, cols, previous, counter);
    done' := done + [rec];
    AppendAssoc(done, [rec], Records(r.lines, r.cursor));
  }

  /** One pass of the loop of `read`: read and tally the record that
      starts at the cursor, or move past the line. */
  method Advance(r: RinexReader, ghost done: seq<Record3>, cols: map<NavKey, seq<Cell>>, previous: Option<Field>, counter: nat)
    returns (failed: Option<Error>, ghost done': seq<Record3>, cols': map<NavKey, seq<Cell>>, previous': Option<Field>, counter': nat)
    requires r.cursor < |r.lines|
    requires Tallied(done, cols, previous, counter)
    modifies r
    ensures old(r.cursor) < r.cursor
    ensures failed.Some? ==> TimeFailure(done + Records(r.lines, old(r.cursor))) == failed
    ensures failed.None? ==> done + Records(r.lines, old(r.cursor)) == done' + Records(r.lines, r.cursor)
    ensures failed.None? ==> Tallied(done', cols', previous', counter')
  {
    var c := r.cursor;
    if IsRecordStart(r.lines[c]) {
      failed, done', cols', previous', counter' := TakeRecord(r, done, cols, previous, counter);
    } else {
      SkipLine(r);
      failed, done', cols', previous', counter' := None, done, cols, previous, counter;
    }
  }

  /** The loop of `read` from the cursor on: the columns of the records,
      or the exception of the first record whose time raises. */
  method ReadRecords(r: RinexReader) returns (out: Outcome<map<NavKey, seq<Cell>>>)
    modifies r
    ensures out == TableOf(Records(r.lines, old(r.cursor)))
  {
    var cols: map<NavKey, seq<Cell>> := map[];
    var previous: Option<Field> := None;
    var counter: nat := 1;
    ghost var done: seq<Record3> := [];
    ghost var start := r.cursor;
    while r.cursor < |r.lines|
      invariant done + Records(r.lines, r.cursor) == Records(r.lines, start)
      invariant Tallied(done, cols, previous, counter)
      decreases |r.lines| - r.cursor
    {
      var failed;
      failed, done, cols, previous, counter := Advance(r, done, cols, previous, counter);
      if failed.Some? {
        return Raised(failed.value);
      }
    }
    assert done + [] == done;
    return Done(cols);
  }

  /** `read`: scan the header, then read the records from where the scan
      left the cursor. */
  method Read(r: RinexReader) returns (out: Outcome<map<NavKey, seq<Cell>>>)
    modifies r
    ensures out == Table(r.lines)
  {
    var header := ReadHeader(r);
    if header.Err? {
      return Raised(header.error);
    }
    out := ReadRecords(r);
  }
}
