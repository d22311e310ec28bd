/** The older RINEX 2 observation reader (Rinex2ObsReader in
    gnsstools/rinex/obs/obs2.py). Its epoch lines and observation blocks are
    read by the same code as in gnsstools/rinex/obs2.py (Obs2.ReadSat,
    Obs2.ReadObs); it differs in the header, which keeps the nine 6-column
    type slots of a line instead of splitting on blanks and always skips one
    more line after a types block, and in the records, which carry `time`,
    `satellite` and a per-satellite `session` counter and are appended to
    the column dictionary in input order. */
module Obs2Legacy {
  import opened Text
  import opened Fields
  import opened Rinex
  import opened Tables
  import opened ObsText
  import Obs2

  // ---------------------------------------------------------------------
  // Construction

  /** `Rinex2ObsReader(lines)`: the constructor assigns the name `cursor`,
      which is not defined anywhere, so building a reader always raises
      NameError. (The methods below are what a reader would do were it
      built: `read` sets its own cursor before anything else.) */
  method New(lines: seq<string>) returns (r: Result<RinexReader>)
    ensures r.Err? && r.error == NameError
  {
    return Err(NameError);
  }

  // ---------------------------------------------------------------------
  // Header

  /** Type slot i of a types line: columns 6(i + 1) to 6(i + 2). */
  function TypeSlot(line: string, i: nat): string {
    Slice(line, 6 * (i + 1), 6 * (i + 2))
  }

  /** What a slot adds to the types: nothing when it is whitespace only,
      otherwise its stripped text. An empty slot (past the end of a short
      line) is not whitespace to Python, so it adds "". */
  function SlotType(slot: string): seq<string> {
    if slot != [] && AllSpace(slot) then [] else [Strip(slot)]
  }

  /** The types the first n slots of a line add, in slot order. */
  function SlotTypes(line: string, n: nat): (ts: seq<string>)
    ensures |ts| <= n
  {
    if n == 0 then [] else SlotTypes(line, n - 1) + SlotType(TypeSlot(line, n - 1))
  }

  /** The types one line of a types block adds: its nine slots. */
  function LineTypes(line: string): seq<string> {
    SlotTypes(line, 9)
  }

  function TypeRows(lines: seq<string>): (ws: seq<seq<string>>)
    ensures |ws| == |lines|
  {
    Tabulate(|lines|, (i: nat) => if i < |lines| then LineTypes(lines[i]) else [])
  }

  lemma TypeRowsAt(lines: seq<string>, i: nat)
    requires i < |lines|
    ensures TypeRows(lines)[i] == LineTypes(lines[i])
  {
    TabulateAt(|lines|, (i: nat) => if i < |lines| then LineTypes(lines[i]) else [], i);
  }

  /** `range(math.ceil(n / 9))`: the number of lines of a types block. */
  function BlockRows(n: int): (rows: nat)
    ensures 9 * rows >= n && (n > 0 ==> 9 * (rows - 1) < n)
  {
    var q := CeilDiv(n, 9);
    if q < 0 then 0 else q
  }

  /** `_read_header` from line c with the types found so far: a types line
      with count n takes the slots of ceil(n / 9) lines from itself on, and
      the scan goes on at the line after the line after them; any other
      line moves on by one; reading past the last line raises IndexError.
      The types and the END OF HEADER line. */
  function HeaderFrom(ts: seq<Obs2.HeaderText>, ws: seq<seq<string>>, c: nat, fields: seq<string>): (o: Outcome<(seq<string>, nat)>)
    requires |ws| == |ts| && c < |ts|
    ensures o.Done? ==> c <= o.value.1 < |ts| && ts[o.value.1].EndLine?
    ensures !o.Diverges?
    decreases |ts| - c
  {
    match ts[c]
    case EndLine => Done((fields, c))
    case TypesLine(count) =>
      if count.Err? then Raised(count.error)
      else
        var rows := BlockRows(count.value);
        if c + rows + 1 >= |ts| then Raised(IndexError)
        else HeaderFrom(ts, ws, c + rows + 1, fields + Gathered(ws, c, c + rows))
    case OtherLine =>
      if c + 1 >= |ts| then Raised(IndexError) else HeaderFrom(ts, ws, c + 1, fields)
  }

  /** `_read_header` from line c (IndexError when there is no such line). */
  function HeaderAt(lines: seq<string>, c: nat): (o: Outcome<(seq<string>, nat)>)
    ensures o.Done? ==> c <= o.value.1 < |lines|
  {
    if c >= |lines| then Raised(IndexError) else HeaderFrom(Obs2.Texts(lines), TypeRows(lines), c, [])
  }

  /** The header as `read` scans it, from the first line. */
  function Header(lines: seq<string>): Outcome<(seq<string>, nat)> {
    HeaderAt(lines, 0)
  }

  /** The `for ifield in range(9)` loop over one line, for the first n
      slots. */
  method ReadTypeSlots(line: string, n: nat) returns (types: seq<string>)
    ensures types == SlotTypes(line, n)
  {
    types := [];
    for i := 0 to n
      invariant types == SlotTypes(line, i)
    {
      var slot := TypeSlot(line, i);
      if !(slot != [] && AllSpace(slot)) {
        types := types + [Strip(slot)];
      }
    }
  }

  /** One pass of the `for _ in range(field_row)` loop: the types of the
      line under the cursor are added. */
  method TypesRow(r: RinexReader, line: string, ghost c: nat, fields: seq<string>, acc: seq<string>) returns (acc': seq<string>)
    requires c <= r.cursor < |r.lines| && line == r.lines[r.cursor]
    requires acc == fields + Gathered(TypeRows(r.lines), c, r.cursor)
    ensures acc' == fields + Gathered(TypeRows(r.lines), c, r.cursor + 1)
  {
    TypeRowsAt(r.lines, r.cursor);
    GatheredSnoc(TypeRows(r.lines), c, r.cursor, fields);
    var types := ReadTypeSlots(line, 9);
    acc' := acc + types;
  }

  /** The `for _ in range(field_row)` loop: extend the types with the slots
      of `rows` lines, moving the cursor one line each time; false when the
      next line to look at does not exist. */
  method ReadTypes(r: RinexReader, rows: nat, fields: seq<string>) returns (fields': seq<string>, ok: bool)
    requires r.cursor < |r.lines|
    modifies r
    ensures ok <==> old(r.cursor) + rows < |r.lines|
    ensures ok ==> r.cursor == old(r.cursor) + rows
    ensures ok ==> fields' == fields + Gathered(TypeRows(r.lines), old(r.cursor), r.cursor)
  {
    ghost var c := r.cursor;
    var line := r.lines[r.cursor];
    fields' := fields;
    for j := 0 to rows
      invariant r.cursor == c + j < |r.lines| && line == r.lines[r.cursor]
      invariant fields' == fields + Gathered(TypeRows(r.lines), c, r.cursor)
    {
      fields' := TypesRow(r, line, c, fields, fields');
      r.cursor := r.cursor + 1;
      if r.cursor >= |r.lines| {
        return fields', false;
      }
      line := r.lines[r.cursor];
    }
    return fields', true;
  }

  /** A types block followed by one more line: the scan goes on after it
      with its types added. */
  lemma HeaderTypesStep(ts: seq<Obs2.HeaderText>, ws: seq<seq<string>>, c: nat, fields: seq<string>, rows: nat,
                        next: nat, fields': seq<string>)
    requires |ws| == |ts| && c < |ts| && ts[c].TypesLine? && ts[c].count.Ok?
    requires rows == BlockRows(ts[c].count.value) && next == c + rows + 1 < |ts|
    requires fields' == fields + Gathered(ws, c, c + rows)
    ensures HeaderFrom(ts, ws, c, fields) == HeaderFrom(ts, ws, next, fields')
  {
  }

  /** A types block that reaches the last line raises IndexError. */
  lemma HeaderTypesShort(ts: seq<Obs2.HeaderText>, ws: seq<seq<string>>, c: nat, fields: seq<string>, rows: nat)
    requires |ws| == |ts| && c < |ts| && ts[c].TypesLine? && ts[c].count.Ok?
    requires rows == BlockRows(ts[c].count.value) && c + rows + 1 >= |ts|
    ensures HeaderFrom(ts, ws, c, fields) == Raised(IndexError)
  {
  }

  /** Any other line that is not the last: the scan goes on at the next. */
  lemma HeaderOtherStep(ts: seq<Obs2.HeaderText>, ws: seq<seq<string>>, c: nat, fields: seq<string>, next: nat)
    requires |ws| == |ts| && c < |ts| && ts[c].OtherLine? && next == c + 1
    ensures next < |ts| ==> HeaderFrom(ts, ws, c, fields) == HeaderFrom(ts, ws, next, fields)
    ensures next >= |ts| ==> HeaderFrom(ts, ws, c, fields) == Raised(IndexError)
  {
  }

  /** The turn of the `_read_header` loop on a types line with count n:
      its block of ceil(n / 9) lines and the line after it are passed. */
  method TypesTurn(r: RinexReader, fields: seq<string>, ghost ts: seq<Obs2.HeaderText>, ghost ws: seq<seq<string>>, n: int)
      returns (fields': seq<string>, stop: Option<Outcome<seq<string>>>)
    requires ts == Obs2.Texts(r.lines) && ws == TypeRows(r.lines)
    requires r.cursor < |r.lines| && ts[r.cursor] == Obs2.TypesLine(Ok(n))
    modifies r
    ensures stop.None? ==> old(r.cursor) < r.cursor < |r.lines|
    ensures stop.None? ==> HeaderFrom(ts, ws, r.cursor, fields') == HeaderFrom(ts, ws, old(r.cursor), fields)
    ensures stop.Some? ==> stop.value == Obs2.Types(HeaderFrom(ts, ws, old(r.cursor), fields)) && stop.value.Raised?
  {
    ghost var c := r.cursor;
    var rows := BlockRows(n);
    var ok;
    fields', ok := ReadTypes(r, rows, fields);
    if !ok {
      HeaderTypesShort(ts, ws, c, fields, rows);
      return fields', Some(Raised(IndexError));
    }
    r.cursor := r.cursor + 1;
    if r.cursor >= |r.lines| {
      HeaderTypesShort(ts, ws, c, fields, rows);
      return fields', Some(Raised(IndexError));
    }
    HeaderTypesStep(ts, ws, c, fields, rows, r.cursor, fields');
    return fields', None;
  }

  /** One turn of the `_read_header` loop, on a line that is not END OF
      HEADER: either the scan goes on further down with the same outcome,
      or it stops with the header's outcome. */
  method HeaderTurn(r: RinexReader, fields: seq<string>, ghost ts: seq<Obs2.HeaderText>, ghost ws: seq<seq<string>>)
      returns (fields': seq<string>, stop: Option<Outcome<seq<string>>>)
    requires ts == Obs2.Texts(r.lines) && ws == TypeRows(r.lines)
    requires r.cursor < |r.lines| && !ts[r.cursor].EndLine?
    modifies r
    ensures stop.None? ==> old(r.cursor) < r.cursor < |r.lines|
    ensures stop.None? ==> HeaderFrom(ts, ws, r.cursor, fields') == HeaderFrom(ts, ws, old(r.cursor), fields)
    ensures stop.Some? ==> stop.value == Obs2.Types(HeaderFrom(ts, ws, old(r.cursor), fields)) && stop.value.Raised?
  {
    fields' := fields;
    Obs2.TextsAt(r.lines, r.cursor);
    ghost var c := r.cursor;
    var text := Obs2.Classify(r.lines[r.cursor]);
    if text.TypesLine? {
      if text.count.Err? {
        return fields', Some(Raised(text.count.error));
      }
      fields', stop := TypesTurn(r, fields, ts, ws, text.count.value);
      return;
    } else {
      r.cursor := r.cursor + 1;
      HeaderOtherStep(ts, ws, c, fields, r.cursor);
      if r.cursor >= |r.lines| {
        return fields', Some(Raised(IndexError));
      }
    }
    return fields', None;
  }

  /** `_read_header` from the cursor: the types, with the cursor left on
      END OF HEADER. */
  method ReadHeader(r: RinexReader) returns (out: Outcome<seq<string>>)
    modifies r
    ensures out == Obs2.Types(HeaderAt(r.lines, old(r.cursor)))
    ensures out.Done? ==> r.cursor == HeaderAt(r.lines, old(r.cursor)).value.1
  {
    var fields: seq<string> := [];
    if r.cursor >= |r.lines| {
      return Raised(IndexError);
    }
    ghost var ts, ws := Obs2.Texts(r.lines), TypeRows(r.lines);
    ghost var start := r.cursor;
    var line := r.lines[r.cursor];
    Obs2.TextsAt(r.lines, r.cursor);
    while Obs2.Category(line) != EndOfHeader
      invariant r.cursor < |r.lines| && line == r.lines[r.cursor] && ts[r.cursor] == Obs2.TextOf(line)
      invariant HeaderFrom(ts, ws, r.cursor, fields) == HeaderAt(r.lines, start)
      decreases |r.lines| - r.cursor
    {
      var stop;
      fields, stop := HeaderTurn(r, fields, ts, ws);
      if stop.Some? {
        return stop.value;
      }
      line := r.lines[r.cursor];
      Obs2.TextsAt(r.lines, r.cursor);
    }
    return Done(fields);
  }

  // ---------------------------------------------------------------------
  // Records

  /** One satellite's observations with the epoch's date, before `read`
      adds its keys. */
  datatype Entry = Entry(satellite: string, date: seq<string>, data: map<string, Cell>)

  /** The `for satellite in satellites` loop from line d: one observation
      block per satellite, in order; a block that starts past the last line
      raises IndexError. */
  function EpochEntries(lines: seq<string>, d: nat, fields: seq<string>, date: seq<string>, ids: seq<string>): (r: Result<seq<Entry>>)
    ensures r.Ok? ==> |r.value| == |ids|
    decreases |ids|
  {
    if ids == [] then Ok([])
    else match Obs2.ObsAt(lines, d, fields)
      case Err(e) => Err(e)
      case Ok(data) =>
        Prepend([Entry(ids[0], date, data)], EpochEntries(lines, Obs2.ObsEnd(|fields|, d, |lines|), fields, date, ids[1..]))
  }

  /** What one pass of the `while` loop of `read` does at line c: a blank
      line is passed over; any other line is an epoch line whose
      satellites' blocks follow it; an epoch that yields no satellite
      leaves the cursor where it was, so the loop turns forever. */
  function StepAt(lines: seq<string>, c: nat, fields: seq<string>, valid: seq<string> -> bool): (st: Turn<Entry>)
    requires c < |lines|
    ensures st.Yield? ==> c < st.next <= |lines|
  {
    if IsBlank(lines[c]) then Pass
    else match Obs2.EpochAt(lines, c, valid)
      case Err(e) => Halt(e)
      case Ok(ep) =>
        if ep.ids == [] then Stall
        else match EpochEntries(lines, ep.next, fields, ep.date, ep.ids)
          case Err(e) => Halt(e)
          case Ok(es) => Yield(es, Obs2.EpochNext(lines, ep.next, fields, |ep.ids|))
  }

  function Steps(lines: seq<string>, fields: seq<string>, valid: seq<string> -> bool): (steps: seq<Turn<Entry>>)
    ensures |steps| == |lines|
  {
    Tabulate(|lines|, (c: nat) => if c < |lines| then StepAt(lines, c, fields, valid) else Pass)
  }

  lemma StepsAt(lines: seq<string>, fields: seq<string>, valid: seq<string> -> bool, c: nat)
    requires c < |lines|
    ensures Steps(lines, fields, valid)[c] == StepAt(lines, c, fields, valid)
  {
    TabulateAt(|lines|, (c: nat) => if c < |lines| then StepAt(lines, c, fields, valid) else Pass, c);
  }

  lemma StepsForward(lines: seq<string>, fields: seq<string>, valid: seq<string> -> bool)
    ensures Forward(Steps(lines, fields, valid))
  {
    forall c | 0 <= c < |lines| ensures Steps(lines, fields, valid)[c].Yield? ==> c < Steps(lines, fields, valid)[c].next <= |lines| {
      StepsAt(lines, fields, valid, c);
    }
  }

  /** The entries of the `while` loop of `read` from line c. */
  function Epochs(lines: seq<string>, c: nat, fields: seq<string>, valid: seq<string> -> bool): Outcome<seq<Entry>> {
    StepsForward(lines, fields, valid);
    Scan(Steps(lines, fields, valid), c)
  }

  /** The satellites of the entries, in order. */
  function Sats(es: seq<Entry>): (s: seq<string>)
    ensures |s| == |es|
    ensures forall i | 0 <= i < |es| :: s[i] == es[i].satellite
  {
    if es == [] then [] else Sats(es[..|es| - 1]) + [es[|es| - 1].satellite]
  }

  /** The dictionary `read` appends for an entry: the observations, then
      the date under `time`, the satellite and the session. */
  function Record(e: Entry, session: nat): Row<string> {
    e.data["time" := Date(e.date)]["satellite" := Label(e.satellite)]["session" := Count(session)]
  }

  /** The records of the entries in input order, each with its session:
      one more than the number of earlier entries of its satellite. */
  function Numbered(es: seq<Entry>): (rows: seq<Row<string>>)
    ensures |rows| == |es|
  {
    if es == [] then []
    else
      var n := |es| - 1;
      Numbered(es[..n]) + [Record(es[n], Ordinal(Sats(es), n))]
  }

  /** `read` up to the DataFrame: the column dictionary of the records of
      every epoch after the header, in input order. */
  function Table(lines: seq<string>, valid: seq<string> -> bool): Outcome<map<string, seq<Cell>>> {
    match Header(lines)
    case Raised(e) => Raised(e)
    case Diverges => Diverges
    case Done(h) => TableAfter(lines, h.0, h.1, valid)
  }

  /** The column dictionary of the records after the header that gave
      these types and ended at line `end`. */
  function TableAfter(lines: seq<string>, fields: seq<string>, end: nat, valid: seq<string> -> bool): Outcome<map<string, seq<Cell>>> {
    Finish(Epochs(lines, end + 1, fields, valid))
  }

  /** The column dictionary of the entries read. */
  function Finish(o: Outcome<seq<Entry>>): Outcome<map<string, seq<Cell>>> {
    match o
    case Raised(e) => Raised(e)
    case Diverges => Diverges
    case Done(es) => Done(Columns(Numbered(es)))
  }

  /** `sat_counters[satellite]` of a defaultdict(int). */
  function Counter(counters: map<string, nat>, s: string): nat {
    if s in counters then counters[s] else 0
  }

  /** The counters hold, for every satellite, how often it occurs in keys. */
  ghost predicate Counts(counters: map<string, nat>, keys: seq<string>) {
    forall s :: Occurrences(keys, s) == Counter(counters, s)
  }

  lemma OccurrencesSnoc(keys: seq<string>, x: string, s: string)
    ensures Occurrences(keys + [x], s) == Occurrences(keys, s) + if s == x then 1 else 0
  {
    assert (keys + [x])[..|keys|] == keys;
  }

  lemma SatsSnoc(done: seq<Entry>, e: Entry)
    ensures Sats(done + [e]) == Sats(done) + [e.satellite]
  {
    SnocPrefix(done, e);
  }

  /** One more entry appends its record with the counter it raises. */
  lemma NumberedSnoc(done: seq<Entry>, e: Entry, counters: map<string, nat>)
    requires Counts(counters, Sats(done))
    ensures Numbered(done + [e]) == Numbered(done) + [Record(e, Counter(counters, e.satellite) + 1)]
    ensures Counts(counters[e.satellite := Counter(counters, e.satellite) + 1], Sats(done + [e]))
  {
    SnocPrefix(done, e);
    SatsSnoc(done, e);
    var keys := Sats(done);
    assert (keys + [e.satellite])[..|keys|] == keys;
    var counters' := counters[e.satellite := Counter(counters, e.satellite) + 1];
    forall s ensures Occurrences(keys + [e.satellite], s) == Counter(counters', s) {
      OccurrencesSnoc(keys, e.satellite, s);
    }
  }

  /** `sat_counters[satellite] += 1`, `data["session"] = ...` and the
      `df_data[key].append(value)` loop, for one entry. */
  method Tally(e: Entry, counters: map<string, nat>, cols: map<string, seq<Cell>>, ghost done: seq<Entry>)
    returns (counters': map<string, nat>, cols': map<string, seq<Cell>>)
    requires Counts(counters, Sats(done)) && cols == Columns(Numbered(done))
    ensures Counts(counters', Sats(done + [e])) && cols' == Columns(Numbered(done + [e]))
  {
    var session := Counter(counters, e.satellite) + 1;
    counters' := counters[e.satellite := session];
    var row := e.data["time" := Date(e.date)]["satellite" := Label(e.satellite)]["session" := Count(session)];
    NumberedSnoc(done, e, counters);
    ColumnsSnoc(Numbered(done), row);
    cols' := AppendRow(cols, row);
  }

  /** One satellite of an epoch read from line d: its block, then the rest. */
  lemma EpochEntriesStep(lines: seq<string>, d: nat, fields: seq<string>, date: seq<string>, ids: seq<string>, e: Entry, next: nat)
    requires ids != [] && Obs2.ObsAt(lines, d, fields).Ok?
    requires e == Entry(ids[0], date, Obs2.ObsAt(lines, d, fields).value) && next == Obs2.ObsEnd(|fields|, d, |lines|)
    ensures EpochEntries(lines, d, fields, date, ids) == Prepend([e], EpochEntries(lines, next, fields, date, ids[1..]))
    ensures Obs2.EpochNext(lines, d, fields, |ids|) == Obs2.EpochNext(lines, next, fields, |ids[1..]|)
  {
  }

  /** One turn of the `for satellite in satellites` loop: read the
      satellite's block and append its record. */
  method ReadEntry(r: RinexReader, fields: seq<string>, date: seq<string>, sat: string,
                   counters: map<string, nat>, cols: map<string, seq<Cell>>, ghost done: seq<Entry>)
    returns (res: Result<Entry>, counters': map<string, nat>, cols': map<string, seq<Cell>>)
    requires Counts(counters, Sats(done)) && cols == Columns(Numbered(done))
    modifies r
    ensures var a := Obs2.ObsAt(r.lines, old(r.cursor), fields);
      && (res.Ok? <==> a.Ok?)
      && (a.Err? ==> res.error == a.error)
      && (a.Ok? ==> res.value == Entry(sat, date, a.value))
      && (a.Ok? ==> r.cursor == Obs2.ObsEnd(|fields|, old(r.cursor), |r.lines|))
      && (a.Ok? ==> Counts(counters', Sats(done + [res.value])) && cols' == Columns(Numbered(done + [res.value])))
  {
    counters', cols' := counters, cols;
    var data := Obs2.ReadObs(r, fields);
    if data.Err? {
      return Err(data.error), counters', cols';
    }
    var e := Entry(sat, date, data.value);
    counters', cols' := Tally(e, counters, cols, done);
    return Ok(e), counters', cols';
  }

  /** The `for satellite in satellites` loop: read and append one record
      per satellite; an exception stops the loop. */
  method ReadEpochEntries(r: RinexReader, fields: seq<string>, date: seq<string>, ids: seq<string>,
                          ghost done: seq<Entry>, counters: map<string, nat>, cols: map<string, seq<Cell>>)
    returns (ghost done': seq<Entry>, counters': map<string, nat>, cols': map<string, seq<Cell>>, err: Option<Error>)
    requires Counts(counters, Sats(done)) && cols == Columns(Numbered(done))
    modifies r
    ensures var s := EpochEntries(r.lines, old(r.cursor), fields, date, ids);
      && (err.None? <==> s.Ok?)
      && (s.Ok? ==> done' == done + s.value && Counts(counters', Sats(done')) && cols' == Columns(Numbered(done')))
      && (s.Ok? ==> r.cursor == Obs2.EpochNext(r.lines, old(r.cursor), fields, |ids|))
      && (s.Err? ==> err == Some(s.error))
  {
    ghost var lines, d := r.lines, r.cursor;
    done', counters', cols' := done, counters, cols;
    for k := 0 to |ids|
      invariant Counts(counters', Sats(done')) && cols' == Columns(Numbered(done'))
      invariant Prepend(done', EpochEntries(lines, r.cursor, fields, date, ids[k..])) == Prepend(done, EpochEntries(lines, d, fields, date, ids))
      invariant Obs2.EpochNext(lines, r.cursor, fields, |ids[k..]|) == Obs2.EpochNext(lines, d, fields, |ids|)
    {
      ghost var c := r.cursor;
      var e;
      e, counters', cols' := ReadEntry(r, fields, date, ids[k], counters', cols', done');
      if e.Err? {
        return done', counters', cols', Some(e.error);
      }
      EpochEntriesStep(lines, c, fields, date, ids[k..], e.value, r.cursor);
      PrependSnoc(done', e.value, EpochEntries(lines, r.cursor, fields, date, ids[k + 1..]));
      done' := done' + [e.value];
    }
    PrependNil(done');
    return done', counters', cols', None;
  }

  /** One pass of the `while` loop of `read`: pass a blank line, or read an
      epoch line and the blocks of its satellites, appending their records;
      `stop` is what ends the loop instead. */
  method Advance(r: RinexReader, fields: seq<string>, valid: seq<string> -> bool,
                 ghost done: seq<Entry>, counters: map<string, nat>, cols: map<string, seq<Cell>>)
    returns (ghost done': seq<Entry>, counters': map<string, nat>, cols': map<string, seq<Cell>>, stop: Option<Outcome<seq<Entry>>>)
    requires r.cursor < |r.lines| && Counts(counters, Sats(done)) && cols == Columns(Numbered(done))
    modifies r
    ensures var st := StepAt(r.lines, old(r.cursor), fields, valid);
      && (stop.None? <==> st.Pass? || st.Yield?)
      && (st.Pass? ==> r.cursor == old(r.cursor) + 1 && done' == done)
      && (st.Yield? ==> r.cursor == st.next && done' == done + st.records)
      && (st.Halt? ==> stop == Some(Raised(st.error)))
      && (st.Stall? ==> stop == Some(Diverges))
    ensures stop.None? ==> Counts(counters', Sats(done')) && cols' == Columns(Numbered(done'))
  {
    done', counters', cols' := done, counters, cols;
    if IsBlank(r.lines[r.cursor]) {
      r.cursor := r.cursor + 1;
      return done', counters', cols', None;
    }
    var ep := Obs2.ReadSat(r, valid);
    if ep.Err? {
      return done', counters', cols', Some(Raised(ep.error));
    }
    if ep.value.ids == [] {
      return done', counters', cols', Some(Diverges);
    }
    var err;
    done', counters', cols', err := ReadEpochEntries(r, fields, ep.value.date, ep.value.ids, done, counters, cols);
    if err.Some? {
      return done', counters', cols', Some(Raised(err.value));
    }
    return done', counters', cols', None;
  }

  /** The `while` loop of `read` from the cursor on: the column dictionary
      of every record. */
  method ReadRecords(r: RinexReader, fields: seq<string>, valid: seq<string> -> bool) returns (out: Outcome<map<string, seq<Cell>>>)
    modifies r
    ensures out == Finish(Epochs(r.lines, old(r.cursor), fields, valid))
  {
    var counters: map<string, nat> := map[];
    var cols: map<string, seq<Cell>> := map[];
    ghost var done: seq<Entry> := [];
    ghost var start := r.cursor;
    ghost var steps := Steps(r.lines, fields, valid);
    StepsForward(r.lines, fields, valid);
    AfterEmpty(Scan(steps, start));
    while r.cursor < |r.lines|
      invariant After(done, Scan(steps, r.cursor)) == Scan(steps, start)
      invariant Counts(counters, Sats(done)) && cols == Columns(Numbered(done))
      decreases |r.lines| - r.cursor
    {
      ghost var c, before := r.cursor, done;
      StepsAt(r.lines, fields, valid, c);
      var stop;
      done, counters, cols, stop := Advance(r, fields, valid, done, counters, cols);
      if stop.Some? {
        return Finish(stop.value);
      }
      ScanStep(steps, c, before, done, r.cursor);
    }
    AfterNil(done);
    return Done(cols);
  }

  /** `read`: the header's types from the first line, then the records
      from the line after END OF HEADER. */
  method Read(r: RinexReader, valid: seq<string> -> bool) returns (out: Outcome<map<string, seq<Cell>>>)
    modifies r
    ensures out == Table(r.lines, valid)
  {
    r.cursor := 0;
    var header := ReadHeader(r);
    if header.Raised? {
      assert Header(r.lines).Raised? && Header(r.lines).error == header.error;
      return Raised(header.error);
    }
    if header.Diverges? {
      assert Header(r.lines).Diverges?;
      return Diverges;
    }
    ghost var end := r.cursor;
    assert Header(r.lines) == Done((header.value, end));
    r.cursor := r.cursor + 1;
    out := ReadRecords(r, header.value, valid);
    assert out == TableAfter(r.lines, header.value, end, valid);
  }
}
