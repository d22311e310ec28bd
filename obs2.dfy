/** The RINEX 2 observation reader (Rinex2ObsReader in
    gnsstools/rinex/obs2.py): the observation types of the header, the epoch
    lines with their satellite lists, the 16-column observation slots, and
    the records grouped by satellite. */
module Obs2 {
  import opened Text
  import opened Fields
  import opened Rinex
  import opened Tables
  import opened ObsText
  import opened Groups

  const TypesLabel := "# / TYPES OF OBSERV"

  // ---------------------------------------------------------------------
  // Header

  /** What a header line is: columns 60 on, stripped. */
  function Category(line: string): string {
    Strip(From(line, 60))
  }

  /** What the header loop needs to know of a line: END OF HEADER, a types
      line with its count (columns 0-6 as an int), or anything else. */
  datatype HeaderText = EndLine | TypesLine(count: Result<int>) | OtherLine

  function TextOf(line: string): HeaderText {
    var category := Category(line);
    if category == EndOfHeader then EndLine
    else if category == TypesLabel then TypesLine(IntOf(Slice(line, 0, 6)))
    else OtherLine
  }

  function Texts(lines: seq<string>): (ts: seq<HeaderText>)
    ensures |ts| == |lines|
  {
    Tabulate(|lines|, (i: nat) => if i < |lines| then TextOf(lines[i]) else OtherLine)
  }

  lemma TextsAt(lines: seq<string>, i: nat)
    requires i < |lines|
    ensures Texts(lines)[i] == TextOf(lines[i])
  {
    TabulateAt(|lines|, (i: nat) => if i < |lines| then TextOf(lines[i]) else OtherLine, i);
  }

  /** The types one line of a types block contributes: the blank-separated
      words of columns 6-60. */
  function TypeWords(line: string): seq<string> {
    Words(Slice(line, 6, 60))
  }

  function TypeRows(lines: seq<string>): (ws: seq<seq<string>>)
    ensures |ws| == |lines|
  {
    Tabulate(|lines|, (i: nat) => if i < |lines| then TypeWords(lines[i]) else [])
  }

  lemma TypeRowsAt(lines: seq<string>, i: nat)
    requires i < |lines|
    ensures TypeRows(lines)[i] == TypeWords(lines[i])
  {
    TabulateAt(|lines|, (i: nat) => if i < |lines| then TypeWords(lines[i]) else [], i);
  }

  /** `_read_header` from line c with the types `fields` found so far: a
      types line with count n takes the words of ceil(n / 9) lines from
      itself on, and the scan goes on at the line after them; reading past
      the last line raises IndexError; a count of zero or less leaves the
      line unchanged and the loop never ends. The types and the END OF
      HEADER line. */
  function HeaderFrom(ts: seq<HeaderText>, ws: seq<seq<string>>, c: nat, fields: seq<string>): (o: Outcome<(seq<string>, nat)>)
    requires |ws| == |ts| && c < |ts|
    ensures o.Done? ==> c <= o.value.1 < |ts|
    decreases |ts| - c
  {
    match ts[c]
    case EndLine => Done((fields, c))
    case TypesLine(count) =>
      if count.Err? then Raised(count.error)
      else
        var rows := CeilDiv(count.value, 9);
        if rows <= 0 then Diverges
        else if c + rows >= |ts| then Raised(IndexError)
        else HeaderFrom(ts, ws, c + rows, fields + Gathered(ws, c, c + rows))
    case OtherLine =>
      if c + 1 >= |ts| then Raised(IndexError) else HeaderFrom(ts, ws, c + 1, fields)
  }

  /** `_read_header`: the scan from the first line (IndexError on an empty
      file). */
  function Header(lines: seq<string>): (o: Outcome<(seq<string>, nat)>)
    ensures o.Done? ==> o.value.1 < |lines|
  {
    if lines == [] then Raised(IndexError) else HeaderFrom(Texts(lines), TypeRows(lines), 0, [])
  }

  /** The `for _ in range(field_row)` loop: extend the types with the words
      of `rows` lines, moving the cursor one line each time; false when the
      next line to look at does not exist. */
  method ReadTypes(r: RinexReader, rows: int, fields: seq<string>) returns (fields': seq<string>, ok: bool)
    requires r.cursor < |r.lines| && rows > 0
    modifies r
    ensures ok <==> old(r.cursor) + rows < |r.lines|
    ensures ok ==> r.cursor == old(r.cursor) + rows
    ensures ok ==> fields' == fields + Gathered(TypeRows(r.lines), old(r.cursor), r.cursor)
  {
    ghost var c := r.cursor;
    ghost var ws := TypeRows(r.lines);
    var line := r.lines[r.cursor];
    fields' := fields;
    for j := 0 to rows
      invariant r.cursor == c + j < |r.lines| && line == r.lines[r.cursor]
      invariant fields' == fields + Gathered(ws, c, c + j)
    {
      TypeRowsAt(r.lines, r.cursor);
      GatheredSnoc(ws, c, c + j, fields);
      fields' := fields' + TypeWords(line);
      r.cursor := r.cursor + 1;
      if r.cursor >= |r.lines| {
        return fields', false;
      }
      line := r.lines[r.cursor];
    }
    return fields', true;
  }

  /** A types block the file holds: the scan goes on after it with its
      types added. */
  lemma HeaderTypesStep(ts: seq<HeaderText>, ws: seq<seq<string>>, c: nat, fields: seq<string>, rows: int)
    requires |ws| == |ts| && c < |ts| && ts[c].TypesLine? && ts[c].count.Ok?
    requires rows == CeilDiv(ts[c].count.value, 9) && 0 < rows && c + rows < |ts|
    ensures HeaderFrom(ts, ws, c, fields) == HeaderFrom(ts, ws, c + rows, fields + Gathered(ws, c, c + rows))
  {
  }

  /** Any other line that is not the last: the scan goes on at the next. */
  lemma HeaderOtherStep(ts: seq<HeaderText>, ws: seq<seq<string>>, c: nat, fields: seq<string>)
    requires |ws| == |ts| && c + 1 < |ts| && ts[c].OtherLine?
    ensures HeaderFrom(ts, ws, c, fields) == HeaderFrom(ts, ws, c + 1, fields)
  {
  }

  /** The header's result without the line it stops on. */
  function Types(h: Outcome<(seq<string>, nat)>): Outcome<seq<string>> {
    match h
    case Done((fields, _)) => Done(fields)
    case Raised(e) => Raised(e)
    case Diverges => Diverges
  }

  /** The tests the header loop makes on a line: its category, and the
      count of a types line. */
  method Classify(line: string) returns (text: HeaderText)
    ensures text == TextOf(line)
  {
    var category := Strip(From(line, 60));
    if category == EndOfHeader {
      return EndLine;
    }
    if category == TypesLabel {
      var count := IntOf(Slice(line, 0, 6));
      return TypesLine(count);
    }
    return OtherLine;
  }

  /** One turn of the `_read_header` loop, on a line that is not END OF
      HEADER: either the scan goes on further down with the same outcome,
      or it stops with the header's outcome. */
  method HeaderTurn(r: RinexReader, fields: seq<string>, ghost ts: seq<HeaderText>, ghost ws: seq<seq<string>>)
      returns (fields': seq<string>, stop: Option<Outcome<seq<string>>>)
    requires ts == Texts(r.lines) && ws == TypeRows(r.lines)
    requires r.cursor < |r.lines| && !ts[r.cursor].EndLine?
    modifies r
    ensures stop.None? ==> old(r.cursor) < r.cursor < |r.lines|
    ensures stop.None? ==> HeaderFrom(ts, ws, r.cursor, fields') == HeaderFrom(ts, ws, old(r.cursor), fields)
    ensures stop.Some? ==> stop.value == Types(HeaderFrom(ts, ws, old(r.cursor), fields)) && !stop.value.Done?
  {
    fields' := fields;
    ghost var c := r.cursor;
    var text := Classify(r.lines[r.cursor]);
    assert text == ts[c] by {
      TextsAt(r.lines, c);
    }
    if text.TypesLine? {
      fields', stop := TypesTurn(r, text.count, fields, ts, ws);
    } else {
      stop := OtherTurn(r, fields, ts, ws);
    }
  }

  /** Where the scan stops on a line that is not END OF HEADER: a count
      that is no int, a count of zero or less, a block or a line that
      reaches the end of the file. */
  lemma HeaderStops(ts: seq<HeaderText>, ws: seq<seq<string>>, c: nat, fields: seq<string>)
    requires |ws| == |ts| && c < |ts|
    ensures ts[c].TypesLine? && ts[c].count.Err? ==> HeaderFrom(ts, ws, c, fields) == Raised(ts[c].count.error)
    ensures ts[c].TypesLine? && ts[c].count.Ok? && CeilDiv(ts[c].count.value, 9) <= 0 ==> HeaderFrom(ts, ws, c, fields) == Diverges
    ensures ts[c].TypesLine? && ts[c].count.Ok? && 0 < CeilDiv(ts[c].count.value, 9) && c + CeilDiv(ts[c].count.value, 9) >= |ts| ==>
      HeaderFrom(ts, ws, c, fields) == Raised(IndexError)
    ensures ts[c].OtherLine? && c + 1 >= |ts| ==> HeaderFrom(ts, ws, c, fields) == Raised(IndexError)
  {
  }

  /** The turn on a types line: the block of ceil(n / 9) lines. */
  method TypesTurn(r: RinexReader, count: Result<int>, fields: seq<string>, ghost ts: seq<HeaderText>, ghost ws: seq<seq<string>>)
      returns (fields': seq<string>, stop: Option<Outcome<seq<string>>>)
    requires ws == TypeRows(r.lines) && |ts| == |r.lines|
    requires r.cursor < |r.lines| && ts[r.cursor] == TypesLine(count)
    modifies r
    ensures stop.None? ==> old(r.cursor) < r.cursor < |r.lines|
    ensures stop.None? ==> HeaderFrom(ts, ws, r.cursor, fields') == HeaderFrom(ts, ws, old(r.cursor), fields)
    ensures stop.Some? ==> stop.value == Types(HeaderFrom(ts, ws, old(r.cursor), fields)) && !stop.value.Done?
  {
    fields' := fields;
    ghost var c := r.cursor;
    if count.Err? {
      HeaderStops(ts, ws, c, fields);
      return fields', Some(Raised(count.error));
    }
    var rows := CeilDiv(count.value, 9);
    if rows <= 0 {
      HeaderStops(ts, ws, c, fields);
      return fields', Some(Diverges);
    }
    var ok;
    fields', ok := ReadTypes(r, rows, fields);
    if !ok {
      HeaderStops(ts, ws, c, fields);
      return fields', Some(Raised(IndexError));
    }
    HeaderTypesStep(ts, ws, c, fields, rows);
    return fields', None;
  }

  /** The turn on any other line: on to the next line, which must exist. */
  method OtherTurn(r: RinexReader, fields: seq<string>, ghost ts: seq<HeaderText>, ghost ws: seq<seq<string>>)
      returns (stop: Option<Outcome<seq<string>>>)
    requires |ws| == |ts| && r.cursor < |ts| == |r.lines| && ts[r.cursor].OtherLine?
    modifies r
    ensures r.cursor == old(r.cursor) + 1
    ensures stop.None? ==> r.cursor < |r.lines| && HeaderFrom(ts, ws, r.cursor, fields) == HeaderFrom(ts, ws, old(r.cursor), fields)
    ensures stop.Some? ==> stop.value == Types(HeaderFrom(ts, ws, old(r.cursor), fields)) && !stop.value.Done?
  {
    ghost var c := r.cursor;
    r.cursor := r.cursor + 1;
    if r.cursor >= |r.lines| {
      HeaderStops(ts, ws, c, fields);
      return Some(Raised(IndexError));
    }
    HeaderOtherStep(ts, ws, c, fields);
    return None;
  }

  /** `_read_header`: the types, with the cursor left on END OF HEADER. */
  method ReadHeader(r: RinexReader) returns (out: Outcome<seq<string>>)
    modifies r
    ensures out == Types(Header(r.lines))
    ensures out.Done? ==> r.cursor == Header(r.lines).value.1
  {
    r.cursor := 0;
    var fields: seq<string> := [];
    if |r.lines| == 0 {
      return Raised(IndexError);
    }
    ghost var ts, ws := Texts(r.lines), TypeRows(r.lines);
    var line := r.lines[r.cursor];
    TextsAt(r.lines, r.cursor);
    while Category(line) != EndOfHeader
      invariant r.cursor < |r.lines| && line == r.lines[r.cursor] && ts[r.cursor] == TextOf(line)
      invariant HeaderFrom(ts, ws, r.cursor, fields) == Header(r.lines)
      decreases |r.lines| - r.cursor
    {
      var stop;
      fields, stop := HeaderTurn(r, fields, ts, ws);
      if stop.Some? {
        return stop.value;
      }
      line := r.lines[r.cursor];
      TextsAt(r.lines, r.cursor);
    }
    return Done(fields);
  }

  // ---------------------------------------------------------------------
  // Epoch lines

  /** The six date columns of an epoch line, as given to gnsstime. */
  function DateColumns(line: string): seq<string> {
    [Slice(line, 0, 3), Slice(line, 3, 6), Slice(line, 6, 9),
     Slice(line, 9, 12), Slice(line, 12, 15), Slice(line, 15, 26)]
  }

  /** What `_read_sat` returns: the date columns, the satellite ids, and
      the line after the last one read. */
  datatype Epoch = Epoch(date: seq<string>, ids: seq<string>, next: nat)

  /** `_read_sat` at line c. The count is columns 29-32 as an int; a date
      that gnsstime refuses (`valid` says which ones it accepts) gives no
      satellites and leaves the cursor; otherwise ids are read from twelve
      3-column slots in columns 32-68 of successive lines until the count
      is reached. */
  function EpochAt(lines: seq<string>, c: nat, valid: seq<string> -> bool): (r: Result<Epoch>)
    requires c < |lines|
    ensures r.Ok? ==> c <= r.value.next <= |lines| && ShortIds(r.value.ids)
    ensures r.Ok? ==> (r.value.ids == [] <==> r.value.next == c)
  {
    var line := lines[c];
    var count := IntOf(Slice(line, 29, 32));
    if count.Err? then Err(count.error)
    else
      var date := DateColumns(line);
      if !valid(date) then Ok(Epoch(date, [], c))
      else
        var per := LinesIds(lines, 32, 12);
        IdsFromShape(per, c, c, count.value);
        match IdsFrom(per, c, c, count.value)
        case Err(e) => Err(e)
        case Ok((ids, next)) =>
          LinesIdsShort(lines, 32, 12);
          GatheredShort(per, c, next);
          Ok(Epoch(date, ids, next))
  }

  /** `_read_sat`. */
  method ReadSat(r: RinexReader, valid: seq<string> -> bool) returns (res: Result<Epoch>)
    requires r.cursor < |r.lines|
    modifies r
    ensures res == EpochAt(r.lines, old(r.cursor), valid)
    ensures res.Ok? ==> r.cursor == res.value.next
  {
    var line := r.lines[r.cursor];
    var date := DateColumns(line);
    var count := IntOf(Slice(line, 29, 32));
    if count.Err? {
      return Err(count.error);
    }
    if !valid(date) {
      return Ok(Epoch(date, [], r.cursor));
    }
    ghost var c := r.cursor;
    var ids := ReadIds(r, count.value, 32, 12);
    if ids.Err? {
      return Err(ids.error);
    }
    return Ok(Epoch(date, ids.value, r.cursor));
  }

  // ---------------------------------------------------------------------
  // Observation blocks

  /** Slot i (0 to 4) of an observation line: columns 16i to 16i + 16,
      with a blank between digits or minus signs made 0. */
  function SlotText(line: string, i: nat): string {
    FillGaps(Slice(line, 16 * i, 16 * i + 16), NumberGap)
  }

  function LineTexts(line: string): (ts: seq<string>)
    ensures |ts| == 5
  {
    [SlotText(line, 0), SlotText(line, 1), SlotText(line, 2), SlotText(line, 3), SlotText(line, 4)]
  }

  /** The five slot texts of every line, one after the other: slot i of
      line j is at 5j + i. */
  function ObsSlots(lines: seq<string>): (ts: seq<string>)
    ensures |ts| == 5 * |lines|
  {
    if lines == [] then [] else ObsSlots(lines[..|lines| - 1]) + LineTexts(lines[|lines| - 1])
  }

  lemma {:induction false} ObsSlotsAt(lines: seq<string>, j: nat, i: nat)
    requires j < |lines| && i < 5
    ensures ObsSlots(lines)[5 * j + i] == SlotText(lines[j], i)
  {
    var n := |lines| - 1;
    var pre := ObsSlots(lines[..n]);
    assert ObsSlots(lines) == pre + LineTexts(lines[n]);
    if j < n {
      ObsSlotsAt(lines[..n], j, i);
      assert lines[..n][j] == lines[j];
      ConcatAt(pre, LineTexts(lines[n]), 5 * j + i);
    } else {
      ConcatAt(pre, LineTexts(lines[n]), 5 * j + i);
      LineTextsAt(lines[n], i);
    }
  }

  lemma LineTextsAt(line: string, i: nat)
    requires i < 5
    ensures LineTexts(line)[i] == SlotText(line, i)
  {
  }

  /** Slot i of line c + j, counted from line c. */
  lemma ObsSlotsFrom(lines: seq<string>, c: nat, j: nat, i: nat)
    requires c + j < |lines| && i < 5
    ensures 5 * j + i < |ObsSlots(lines)[5 * c..]|
    ensures ObsSlots(lines)[5 * c..][5 * j + i] == SlotText(lines[c + j], i)
  {
    ObsSlotsAt(lines, c + j, i);
    assert 5 * c + (5 * j + i) == 5 * (c + j) + i;
  }

  /** The observation dictionary once the first m fields are read: NaN for
      every declared field, then each field decoded in order (a type
      declared twice keeps the later value). Field k of a block at line c
      is slot k mod 5 of line c + k div 5, that is `slots[k]` for the slot
      texts `slots` from line c on. */
  function Filled(dec: string -> Field, fields: seq<string>, slots: seq<string>, m: nat): (d: map<string, Cell>)
    requires m <= |fields| && m <= |slots|
  {
    if m == 0 then map f | f in fields :: NaN
    else Filled(dec, fields, slots, m - 1)[fields[m - 1] := Val(dec(slots[m - 1]))]
  }

  /** Where `_read_obs` leaves the cursor: ceil(n / 5) lines on, or the end
      of the input. */
  function ObsEnd(n: nat, c: nat, size: nat): (e: nat)
    ensures e <= size || e == c
    ensures c <= size ==> c <= e
  {
    Min(c + CeilDiv(n, 5), size)
  }

  /** The dictionary once the lines c to e - 1 of a block are read. */
  function BlockData(dec: string -> Field, lines: seq<string>, c: nat, e: nat, fields: seq<string>): map<string, Cell>
    requires c <= e <= |lines|
  {
    Filled(dec, fields, ObsSlots(lines)[5 * c..], Min(|fields|, 5 * (e - c)))
  }

  /** `_read_obs` at line c: IndexError past the last line; otherwise every
      declared field, with the value of its slot when the block reaches it
      and NaN when the input ends first. */
  function ObsAt(lines: seq<string>, c: nat, fields: seq<string>): Result<map<string, Cell>> {
    if c >= |lines| then Err(IndexError)
    else
      var e := ObsEnd(|fields|, c, |lines|);
      Ok(BlockData(Eval, lines, c, e, fields))
  }

  /** One more field read. */
  lemma FilledNext(dec: string -> Field, fields: seq<string>, slots: seq<string>, m: nat)
    requires m < |fields| && m < |slots|
    ensures Filled(dec, fields, slots, m + 1) == Filled(dec, fields, slots, m)[fields[m] := Val(dec(slots[m]))]
  {
  }

  /** ceil(n / 5) rows of five hold n fields, and no row is empty. */
  lemma CeilFive(n: nat)
    ensures n <= 5 * CeilDiv(n, 5) < n + 5
  {
  }

  /** The text of one slot: cut and fill the gaps. */
  method ReadSlot(line: string, i: nat) returns (value: string)
    ensures value == SlotText(line, i)
  {
    value := Slice(line, i * 16, (i + 1) * 16);
    value := FillGaps(value, NumberGap);
  }

  /** The `for ifield in range(5)` loop on row `irow` of a block whose
      slot texts are `slots`. */
  method ReadObsRow(dec: string -> Field, line: string, fields: seq<string>, irow: nat, data: map<string, Cell>,
                    ghost slots: seq<string>) returns (data': map<string, Cell>)
    requires 5 * irow < |fields| && 5 * irow + 5 <= |slots|
    requires forall i | 0 <= i < 5 :: slots[5 * irow + i] == SlotText(line, i)
    requires data == Filled(dec, fields, slots, 5 * irow)
    ensures data' == Filled(dec, fields, slots, Min(|fields|, 5 * irow + 5))
  {
    data' := data;
    ghost var m := 5 * irow;
    for i := 0 to 5
      invariant m == Min(|fields|, 5 * irow + i)
      invariant data' == Filled(dec, fields, slots, m)
    {
      if irow * 5 + i < |fields| {
        var value := ReadSlot(line, i);
        FilledNext(dec, fields, slots, m);
        data' := data'[fields[irow * 5 + i] := Val(dec(value))];
        m := m + 1;
      }
    }
  }

  /** The five slot texts of line c + j, counted from line c. */
  lemma RowSlots(lines: seq<string>, c: nat, j: nat, slots: seq<string>, line: string)
    requires c + j < |lines| && line == lines[c + j] && slots == ObsSlots(lines)[5 * c..]
    ensures 5 * j + 5 <= |slots|
    ensures forall i | 0 <= i < 5 :: slots[5 * j + i] == SlotText(line, i)
  {
    forall i | 0 <= i < 5 ensures slots[5 * j + i] == SlotText(line, i) {
      ObsSlotsFrom(lines, c, j, i);
    }
  }

  /** One row of a block: row irow of the block that starts at line c. */
  method BlockRow(dec: string -> Field, lines: seq<string>, fields: seq<string>, ghost c: nat, irow: nat, line: string,
                  data: map<string, Cell>) returns (data': map<string, Cell>)
    requires c + irow < |lines| && line == lines[c + irow] && 5 * irow < |fields|
    requires data == BlockData(dec, lines, c, c + irow, fields)
    ensures data' == BlockData(dec, lines, c, c + irow + 1, fields)
  {
    ghost var slots := ObsSlots(lines)[5 * c..];
    RowSlots(lines, c, irow, slots, line);
    assert Min(|fields|, 5 * irow) == 5 * irow;
    data' := ReadObsRow(dec, line, fields, irow, data, slots);
    assert Min(|fields|, 5 * (c + irow + 1 - c)) == Min(|fields|, 5 * irow + 5);
  }

  /** The rows of `_read_obs` from the cursor on, for a decoder `dec`. */
  method ReadBlock(dec: string -> Field, r: RinexReader, fields: seq<string>) returns (data: map<string, Cell>)
    requires r.cursor < |r.lines|
    modifies r
    ensures r.cursor == ObsEnd(|fields|, old(r.cursor), |r.lines|)
    ensures old(r.cursor) <= r.cursor <= |r.lines|
    ensures data == BlockData(dec, r.lines, old(r.cursor), r.cursor, fields)
  {
    var rows := CeilDiv(|fields|, 5);
    CeilFive(|fields|);
    data := map f | f in fields :: NaN;
    ghost var c := r.cursor;
    var line := r.lines[r.cursor];
    for irow := 0 to rows
      invariant r.cursor == c + irow < |r.lines| && line == r.lines[r.cursor]
      invariant data == BlockData(dec, r.lines, c, r.cursor, fields)
    {
      data := BlockRow(dec, r.lines, fields, c, irow, line, data);
      r.cursor := r.cursor + 1;
      if r.cursor >= |r.lines| {
        return;
      }
      line := r.lines[r.cursor];
    }
  }

  /** `_read_obs`. */
  method ReadObs(r: RinexReader, fields: seq<string>) returns (res: Result<map<string, Cell>>)
    modifies r
    ensures res == ObsAt(r.lines, old(r.cursor), fields)
    ensures res.Ok? ==> r.cursor == ObsEnd(|fields|, old(r.cursor), |r.lines|)
  {
    if r.cursor >= |r.lines| {
      return Err(IndexError);
    }
    var data := ReadBlock(Eval, r, fields);
    return Ok(data);
  }

  // ---------------------------------------------------------------------
  // Records

  /** The dictionary `read` files for one satellite of an epoch: the
      observations, then the date, the system (the id's letter decoded) and
      the PRN (its next two characters decoded). */
  function Record(data: map<string, Cell>, date: seq<string>, sat: string): (row: Row<string>)
    requires sat != []
    ensures row.Keys == data.Keys + {"Date", "System", "PRN"}
    ensures row["Date"] == Date(date) && row["PRN"] == Val(Eval(Slice(sat, 1, 3)))
  {
    data["Date" := Date(date)]["System" := Val(Eval([sat[0]]))]["PRN" := Val(Eval(Slice(sat, 1, 3)))]
  }

  /** A record with the satellite it is filed under. */
  datatype Obs = Obs(satellite: string, row: Row<string>)

  /** Where the blocks of n satellites read from line d end. */
  function EpochNext(lines: seq<string>, d: nat, fields: seq<string>, n: nat): (e: nat)
    ensures d <= |lines| ==> d <= e <= |lines|
    decreases n
  {
    if n == 0 then d else EpochNext(lines, ObsEnd(|fields|, d, |lines|), fields, n - 1)
  }

  /** The `for satellite in satellites_name` loop from line d: one
      observation block per satellite, in order; a block that starts past
      the last line raises IndexError. */
  function EpochObs(lines: seq<string>, d: nat, fields: seq<string>, date: seq<string>, ids: seq<string>): (r: Result<seq<Obs>>)
    requires ShortIds(ids)
    ensures r.Ok? ==> |r.value| == |ids|
    decreases |ids|
  {
    if ids == [] then Ok([])
    else match ObsAt(lines, d, fields)
      case Err(e) => Err(e)
      case Ok(data) =>
        var o := Obs(ids[0], Record(data, date, ids[0]));
        Prepend([o], EpochObs(lines, ObsEnd(|fields|, d, |lines|), fields, date, ids[1..]))
  }

  /** What one pass of the main loop of `read` does at line c: a blank
      line is passed over; any other line is an epoch line, whose
      satellites' blocks follow it (Yield, with the line after the last
      block). An epoch that yields no satellite leaves the cursor where it
      was, so the loop turns forever (Stall). */
  function StepAt(lines: seq<string>, c: nat, fields: seq<string>, valid: seq<string> -> bool): (st: Turn<Obs>)
    requires c < |lines|
    ensures st.Yield? ==> c < st.next <= |lines|
  {
    if IsBlank(lines[c]) then Pass
    else match EpochAt(lines, c, valid)
      case Err(e) => Halt(e)
      case Ok(ep) =>
        if ep.ids == [] then Stall
        else match EpochObs(lines, ep.next, fields, ep.date, ep.ids)
          case Err(e) => Halt(e)
          case Ok(obs) => Yield(obs, EpochNext(lines, ep.next, fields, |ep.ids|))
  }

  function Steps(lines: seq<string>, fields: seq<string>, valid: seq<string> -> bool): (steps: seq<Turn<Obs>>)
    ensures |steps| == |lines|
  {
    Tabulate(|lines|, (c: nat) => if c < |lines| then StepAt(lines, c, fields, valid) else Pass)
  }

  lemma StepsAt(lines: seq<string>, fields: seq<string>, valid: seq<string> -> bool, c: nat)
    requires c < |lines|
    ensures Steps(lines, fields, valid)[c] == StepAt(lines, c, fields, valid)
  {
    TabulateAt(|lines|, (c: nat) => if c < |lines| then StepAt(lines, c, fields, valid) else Pass, c);
  }

  lemma StepsForward(lines: seq<string>, fields: seq<string>, valid: seq<string> -> bool)
    ensures Forward(Steps(lines, fields, valid))
  {
    forall c | 0 <= c < |lines| ensures Steps(lines, fields, valid)[c].Yield? ==> c < Steps(lines, fields, valid)[c].next <= |lines| {
      StepsAt(lines, fields, valid, c);
    }
  }

  /** The records of the main loop of `read` from line c. */
  function Epochs(lines: seq<string>, c: nat, fields: seq<string>, valid: seq<string> -> bool): Outcome<seq<Obs>> {
    StepsForward(lines, fields, valid);
    Scan(Steps(lines, fields, valid), c)
  }

  /** The satellites of the records, in order. */
  function Sats(obs: seq<Obs>): (s: seq<string>)
    ensures |s| == |obs|
    ensures forall i | 0 <= i < |obs| :: s[i] == obs[i].satellite
  {
    if obs == [] then [] else Sats(obs[..|obs| - 1]) + [obs[|obs| - 1].satellite]
  }

  /** The records with their sessions: one more than the number of earlier
      records of the same satellite. */
  function Sessioned(obs: seq<Obs>): (rows: seq<Row<string>>)
    ensures |rows| == |obs|
  {
    if obs == [] then []
    else
      var n := |obs| - 1;
      Sessioned(obs[..n]) + [obs[n].row["Session" := Count(Ordinal(Sats(obs), n))]]
  }

  /** `read` up to the DataFrame: the header's types, the records of every
      epoch, and the records grouped by satellite in order of first
      appearance. */
  function Table(lines: seq<string>, valid: seq<string> -> bool): Outcome<seq<Row<string>>> {
    match Header(lines)
    case Raised(e) => Raised(e)
    case Diverges => Diverges
    case Done((fields, c)) => Finish(Epochs(lines, c + 1, fields, valid))
  }

  /** The records grouped by satellite, with their sessions. */
  function Finish(o: Outcome<seq<Obs>>): Outcome<seq<Row<string>>> {
    match o
    case Raised(e) => Raised(e)
    case Diverges => Diverges
    case Done(obs) => Done(Grouped(Sats(obs), Sessioned(obs)))
  }

  lemma SatsSnoc(done: seq<Obs>, o: Obs)
    ensures Sats(done + [o]) == Sats(done) + [o.satellite]
  {
    SnocPrefix(done, o);
  }

  lemma SessionedSnoc(done: seq<Obs>, o: Obs)
    ensures Sessioned(done + [o]) == Sessioned(done) + [SessionRow(Sats(done), o)]
  {
    SnocPrefix(done, o);
    SatsSnoc(done, o);
  }

  /** The row filed for a record whose satellite has earlier records
      `keys`: the record with its session number. */
  function SessionRow(keys: seq<string>, o: Obs): Row<string> {
    o.row["Session" := Count(Ordinal(keys + [o.satellite], |keys|))]
  }

  /** `data["Session"] = len(satellites[satellite]) + 1` and
      `satellites[satellite].append(data)`, for the dictionary of the
      records with satellites `keys` and rows `vals`. */
  method FileObs(o: Obs, order: seq<string>, groups: map<string, seq<Row<string>>>, ghost keys: seq<string>, ghost vals: seq<Row<string>>)
    returns (order': seq<string>, groups': map<string, seq<Row<string>>>)
    requires |keys| == |vals| && Files(order, groups, keys, vals)
    ensures Files(order', groups', keys + [o.satellite], vals + [SessionRow(keys, o)])
  {
    SizeIsOrdinal(order, groups, keys, vals, o.satellite);
    var row := o.row["Session" := Count(Size(groups, o.satellite) + 1)];
    assert row == SessionRow(keys, o);
    order', groups' := File(order, groups, o.satellite, row, keys, vals);
  }

  lemma ShortIdsSuffix(ids: seq<string>, k: nat)
    requires ShortIds(ids) && k <= |ids|
    ensures ShortIds(ids[k..])
  {
  }

  /** One satellite of an epoch read from line d: its block, then the rest. */
  lemma EpochObsStep(lines: seq<string>, d: nat, fields: seq<string>, date: seq<string>, ids: seq<string>, o: Obs, e: nat)
    requires ShortIds(ids) && ids != [] && ObsAt(lines, d, fields).Ok?
    requires o == Obs(ids[0], Record(ObsAt(lines, d, fields).value, date, ids[0])) && e == ObsEnd(|fields|, d, |lines|)
    ensures EpochObs(lines, d, fields, date, ids) == Prepend([o], EpochObs(lines, e, fields, date, ids[1..]))
    ensures EpochNext(lines, d, fields, |ids|) == EpochNext(lines, e, fields, |ids[1..]|)
  {
  }

  /** One turn of the `for satellite in satellites_name` loop: read the
      satellite's block, complete the record and file it. */
  method ReadSatObs(r: RinexReader, fields: seq<string>, date: seq<string>, sat: string,
                    order: seq<string>, groups: map<string, seq<Row<string>>>, ghost keys: seq<string>, ghost vals: seq<Row<string>>)
    returns (res: Result<Obs>, order': seq<string>, groups': map<string, seq<Row<string>>>)
    requires sat != [] && |keys| == |vals| && Files(order, groups, keys, vals)
    modifies r
    ensures var a := ObsAt(r.lines, old(r.cursor), fields);
      && (res.Ok? <==> a.Ok?)
      && (a.Err? ==> res.error == a.error)
      && (a.Ok? ==> res.value == Obs(sat, Record(a.value, date, sat)))
      && (a.Ok? ==> r.cursor == ObsEnd(|fields|, old(r.cursor), |r.lines|))
      && (a.Ok? ==> Files(order', groups', keys + [sat], vals + [SessionRow(keys, res.value)]))
  {
    order', groups' := order, groups;
    var data := ReadObs(r, fields);
    if data.Err? {
      return Err(data.error), order', groups';
    }
    var o := Obs(sat, Record(data.value, date, sat));
    order', groups' := FileObs(o, order, groups, keys, vals);
    return Ok(o), order', groups';
  }

  /** The `for satellite in satellites_name` loop: read, complete and file
      one record per satellite; an exception stops the loop. */
  method ReadEpochObs(r: RinexReader, fields: seq<string>, date: seq<string>, ids: seq<string>,
                      ghost done: seq<Obs>, order: seq<string>, groups: map<string, seq<Row<string>>>)
    returns (ghost done': seq<Obs>, order': seq<string>, groups': map<string, seq<Row<string>>>, err: Option<Error>)
    requires ShortIds(ids) && Files(order, groups, Sats(done), Sessioned(done))
    modifies r
    ensures var s := EpochObs(r.lines, old(r.cursor), fields, date, ids);
      && (err.None? <==> s.Ok?)
      && (s.Ok? ==> done' == done + s.value && Files(order', groups', Sats(done'), Sessioned(done')))
      && (s.Ok? ==> r.cursor == EpochNext(r.lines, old(r.cursor), fields, |ids|))
      && (s.Err? ==> err == Some(s.error))
  {
    ghost var lines, d := r.lines, r.cursor;
    ghost var keys, vals := Sats(done), Sessioned(done);
    done', order', groups' := done, order, groups;
    for k := 0 to |ids|
      invariant keys == Sats(done') && vals == Sessioned(done') && Files(order', groups', keys, vals)
      invariant Prepend(done', EpochObs(lines, r.cursor, fields, date, ids[k..])) == Prepend(done, EpochObs(lines, d, fields, date, ids))
      invariant EpochNext(lines, r.cursor, fields, |ids[k..]|) == EpochNext(lines, d, fields, |ids|)
    {
      ghost var c := r.cursor;
      var o;
      o, order', groups' := ReadSatObs(r, fields, date, ids[k], order', groups', keys, vals);
      if o.Err? {
        return done', order', groups', Some(o.error);
      }
      ShortIdsSuffix(ids, k);
      assert ids[k..][0] == ids[k] && ids[k..][1..] == ids[k + 1..];
      EpochObsStep(lines, c, fields, date, ids[k..], o.value, r.cursor);
      ShortIdsSuffix(ids, k + 1);
      PrependSnoc(done', o.value, EpochObs(lines, r.cursor, fields, date, ids[k + 1..]));
      SatsSnoc(done', o.value);
      SessionedSnoc(done', o.value);
      keys, vals := keys + [o.value.satellite], vals + [SessionRow(keys, o.value)];
      done' := done' + [o.value];
    }
    PrependNil(done');
    return done', order', groups', None;
  }

  /** One pass of the `while` loop of `read`: pass a blank line, or read an
      epoch line and the blocks of its satellites, filing their records;
      `stop` is what ends the loop instead (an exception, or an epoch that
      yields no satellite and so leaves the loop where it was). */
  method Advance(r: RinexReader, fields: seq<string>, valid: seq<string> -> bool,
                 ghost done: seq<Obs>, order: seq<string>, groups: map<string, seq<Row<string>>>)
    returns (ghost done': seq<Obs>, order': seq<string>, groups': map<string, seq<Row<string>>>, stop: Option<Outcome<seq<Obs>>>)
    requires r.cursor < |r.lines| && Files(order, groups, Sats(done), Sessioned(done))
    modifies r
    ensures var st := StepAt(r.lines, old(r.cursor), fields, valid);
      && (stop.None? <==> st.Pass? || st.Yield?)
      && (st.Pass? ==> r.cursor == old(r.cursor) + 1 && done' == done)
      && (st.Yield? ==> r.cursor == st.next && done' == done + st.records)
      && (st.Halt? ==> stop == Some(Raised(st.error)))
      && (st.Stall? ==> stop == Some(Diverges))
    ensures stop.None? ==> Files(order', groups', Sats(done'), Sessioned(done'))
  {
    done', order', groups' := done, order, groups;
    if IsBlank(r.lines[r.cursor]) {
      r.cursor := r.cursor + 1;
      return done', order', groups', None;
    }
    var ep := ReadSat(r, valid);
    if ep.Err? {
      return done', order', groups', Some(Raised(ep.error));
    }
    if ep.value.ids == [] {
      return done', order', groups', Some(Diverges);
    }
    var err;
    done', order', groups', err := ReadEpochObs(r, fields, ep.value.date, ep.value.ids, done, order, groups);
    if err.Some? {
      return done', order', groups', Some(Raised(err.value));
    }
    return done', order', groups', None;
  }

  /** The `while` loop of `read` from the cursor on, then the records
      grouped by satellite. */
  method ReadRecords(r: RinexReader, fields: seq<string>, valid: seq<string> -> bool) returns (out: Outcome<seq<Row<string>>>)
    modifies r
    ensures out == Finish(Epochs(r.lines, old(r.cursor), fields, valid))
  {
    var order: seq<string> := [];
    var groups: map<string, seq<Row<string>>> := map[];
    ghost var done: seq<Obs> := [];
    ghost var start := r.cursor;
    ghost var steps := Steps(r.lines, fields, valid);
    StepsForward(r.lines, fields, valid);
    AfterEmpty(Scan(steps, start));
    while r.cursor < |r.lines|
      invariant After(done, Scan(steps, r.cursor)) == Scan(steps, start)
      invariant Files(order, groups, Sats(done), Sessioned(done))
      decreases |r.lines| - r.cursor
    {
      ghost var c, before := r.cursor, done;
      StepsAt(r.lines, fields, valid, c);
      var stop;
      done, order, groups, stop := Advance(r, fields, valid, done, order, groups);
      if stop.Some? {
        return Finish(stop.value);
      }
      ScanStep(steps, c, before, done, r.cursor);
    }
    AfterNil(done);
    var rows := Flatten(order, groups, Sats(done), Sessioned(done));
    return Done(rows);
  }

  /** `read`: the header's types, then the records from the line after
      END OF HEADER. */
  method Read(r: RinexReader, valid: seq<string> -> bool) returns (out: Outcome<seq<Row<string>>>)
    modifies r
    ensures out == Table(r.lines, valid)
  {
    var header := ReadHeader(r);
    if header.Raised? {
      return Raised(header.error);
    }
    if header.Diverges? {
      return Diverges;
    }
    r.cursor := r.cursor + 1;
    out := ReadRecords(r, header.value, valid);
  }
}
