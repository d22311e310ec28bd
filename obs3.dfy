/** The RINEX 3 observation reader (Rinex3ObsReader in
    gnsstools/rinex/obs3.py): the observation types each system declares in
    the header, the epoch lines (`>`) with their count of satellite lines,
    the 16-column observation slots of a satellite line, and the records
    grouped by satellite. */
module Obs3 {
  import opened Text
  import opened Fields
  import opened Rinex
  import opened Tables
  import opened ObsText
  import opened Groups
  import Obs2

  const TypesLabel := "SYS / # / OBS TYPES"

  // ---------------------------------------------------------------------
  // Header

  /** What the header loop needs to know of a line: END OF HEADER, a types
      line with its system (column 0) and its count (columns 1-6 as an
      int), or anything else. */
  datatype HeaderText = EndLine | TypesLine(system: string, count: Result<int>) | OtherLine

  /** A line whose category is not empty is longer than 60 columns. */
  lemma CategoryLength(line: string)
    requires Obs2.Category(line) != ""
    ensures |line| > 60
  {
  }

  function TextOf(line: string): HeaderText {
    var category := Obs2.Category(line);
    if category == EndOfHeader then EndLine
    else if category == TypesLabel then
      CategoryLength(line);
      TypesLine([line[0]], IntOf(Slice(line, 1, 6)))
    else OtherLine
  }

  function Texts(lines: seq<string>): (ts: seq<HeaderText>)
    ensures |ts| == |lines|
  {
    Tabulate(|lines|, (i: nat) => if i < |lines| then TextOf(lines[i]) else OtherLine)
  }

  lemma TextsAt(lines: seq<string>, i: nat)
    requires i < |lines|
    ensures Texts(lines)[i] == TextOf(lines[i])
  {
    TabulateAt(|lines|, (i: nat) => if i < |lines| then TextOf(lines[i]) else OtherLine, i);
  }

  /** The types one line of a types block contributes: the blank-separated
      words of columns 7-60. */
  function TypeWords(line: string): seq<string> {
    Words(Slice(line, 7, 60))
  }

  function TypeRows(lines: seq<string>): (ws: seq<seq<string>>)
    ensures |ws| == |lines|
  {
    Tabulate(|lines|, (i: nat) => if i < |lines| then TypeWords(lines[i]) else [])
  }

  lemma TypeRowsAt(lines: seq<string>, i: nat)
    requires i < |lines|
    ensures TypeRows(lines)[i] == TypeWords(lines[i])
  {
    TabulateAt(|lines|, (i: nat) => if i < |lines| then TypeWords(lines[i]) else [], i);
  }

  /** `fields_dict[system]` of the defaultdict(list) of the header: the
      types declared for a system, none when it has no types line. */
  function Declared(types: map<string, seq<string>>, system: string): seq<string> {
    if system in types then types[system] else []
  }

  /** `fields_dict[system].extend(words)`: the system's types grow by the
      words, every other system keeps its own. */
  function Extend(types: map<string, seq<string>>, system: string, words: seq<string>): (t: map<string, seq<string>>)
  {
    types[system := Declared(types, system) + words]
  }

  /** The system's types grow by the words; every other system keeps its
      own. */
  lemma ExtendDeclared(types: map<string, seq<string>>, system: string, words: seq<string>, s: string)
    ensures Extend(types, system, words).Keys == types.Keys + {system}
    ensures Declared(Extend(types, system, words), s) == if s == system then Declared(types, system) + words else Declared(types, s)
  {
  }

  /** Two extensions of the same system are one. */
  lemma ExtendTwice(types: map<string, seq<string>>, system: string, a: seq<string>, b: seq<string>)
    ensures Extend(Extend(types, system, a), system, b) == Extend(types, system, a + b)
  {
    assert Declared(types, system) + a + b == Declared(types, system) + (a + b);
  }

  /** `_read_header` from line c with the types found so far: a types line
      with count n takes the words of ceil(n / 13) lines from itself on for
      its system, and the scan goes on at the line after them; reading past
      the last line raises IndexError; a count of zero or less leaves the
      line unchanged and the loop never ends. The types of every system and
      the END OF HEADER line. */
  function HeaderFrom(ts: seq<HeaderText>, ws: seq<seq<string>>, c: nat, types: map<string, seq<string>>)
    : (o: Outcome<(map<string, seq<string>>, nat)>)
    requires |ws| == |ts| && c < |ts|
    ensures o.Done? ==> c <= o.value.1 < |ts|
    decreases |ts| - c
  {
    match ts[c]
    case EndLine => Done((types, c))
    case TypesLine(system, count) =>
      if count.Err? then Raised(count.error)
      else
        var rows := CeilDiv(count.value, 13);
        if rows <= 0 then Diverges
        else if c + rows >= |ts| then Raised(IndexError)
        else HeaderFrom(ts, ws, c + rows, Extend(types, system, Gathered(ws, c, c + rows)))
    case OtherLine =>
      if c + 1 >= |ts| then Raised(IndexError) else HeaderFrom(ts, ws, c + 1, types)
  }

  /** `_read_header`: the scan from the first line (IndexError on an empty
      file). */
  function Header(lines: seq<string>): (o: Outcome<(map<string, seq<string>>, nat)>)
    ensures o.Done? ==> o.value.1 < |lines|
  {
    if lines == [] then Raised(IndexError) else HeaderFrom(Texts(lines), TypeRows(lines), 0, map[])
  }

  /** The header's result without the line it stops on. */
  function Types(h: Outcome<(map<string, seq<string>>, nat)>): Outcome<map<string, seq<string>>> {
    match h
    case Done((types, _)) => Done(types)
    case Raised(e) => Raised(e)
    case Diverges => Diverges
  }

  /** The types after the first e - c lines of a block from line c, one
      line at a time. */
  function Grown(types: map<string, seq<string>>, system: string, ws: seq<seq<string>>, c: nat, e: nat)
    : map<string, seq<string>>
    requires c <= e <= |ws|
    decreases e - c
  {
    if e == c then types else Extend(Grown(types, system, ws, c, e - 1), system, ws[e - 1])
  }

  /** Line by line is all at once, once at least one line is read. */
  lemma {:induction false} GrownGathered(types: map<string, seq<string>>, system: string, ws: seq<seq<string>>, c: nat, e: nat)
    requires c < e <= |ws|
    ensures Grown(types, system, ws, c, e) == Extend(types, system, Gathered(ws, c, e))
    decreases e - c
  {
    if e == c + 1 {
      assert Gathered(ws, c, e) == ws[c] by {
        assert Gathered(ws, c, e) == Gathered(ws, c, c) + ws[c];
      }
      assert Grown(types, system, ws, c, e) == Extend(types, system, ws[c]);
    } else {
      GrownGathered(types, system, ws, c, e - 1);
      assert Gathered(ws, c, e) == Gathered(ws, c, e - 1) + ws[e - 1];
      ExtendTwice(types, system, Gathered(ws, c, e - 1), ws[e - 1]);
    }
  }

  /** One pass of the `for _ in range(field_row)` loop: the line's words
      join the system's types and the cursor moves to the next line, which
      is read when it exists. */
  method TypesRow(r: RinexReader, system: string, line: string, cur: map<string, seq<string>>,
                  ghost types: map<string, seq<string>>, ghost ws: seq<seq<string>>, ghost c: nat)
      returns (line': string, cur': map<string, seq<string>>, ok: bool)
    requires ws == TypeRows(r.lines) && c <= r.cursor < |r.lines| && line == r.lines[r.cursor]
    requires cur == Grown(types, system, ws, c, r.cursor)
    modifies r
    ensures r.cursor == old(r.cursor) + 1
    ensures cur' == Grown(types, system, ws, c, r.cursor)
    ensures ok <==> r.cursor < |r.lines|
    ensures ok ==> line' == r.lines[r.cursor]
  {
    var words := TypeWords(line);
    cur' := Extend(cur, system, words);
    assert cur' == Grown(types, system, ws, c, r.cursor + 1) by {
      TypeRowsAt(r.lines, r.cursor);
    }
    r.cursor := r.cursor + 1;
    line' := line;
    ok := r.cursor < |r.lines|;
    if ok {
      line' := r.lines[r.cursor];
    }
  }

  /** The `for _ in range(field_row)` loop: extend the system's types with
      the words of `rows` lines, moving the cursor one line each time;
      false when the next line to look at does not exist. */
  method ReadTypes(r: RinexReader, rows: int, system: string, types: map<string, seq<string>>)
      returns (types': map<string, seq<string>>, ok: bool)
    requires r.cursor < |r.lines| && rows > 0
    modifies r
    ensures ok <==> old(r.cursor) + rows < |r.lines|
    ensures ok ==> r.cursor == old(r.cursor) + rows
    ensures ok ==> types' == Extend(types, system, Gathered(TypeRows(r.lines), old(r.cursor), r.cursor))
  {
    ghost var c := r.cursor;
    ghost var ws := TypeRows(r.lines);
    var line := r.lines[r.cursor];
    types' := types;
    for j := 0 to rows
      invariant r.cursor == c + j < |r.lines| && line == r.lines[r.cursor]
      invariant types' == Grown(types, system, ws, c, r.cursor)
    {
      var more;
      line, types', more := TypesRow(r, system, line, types', types, ws, c);
      if !more {
        return types', false;
      }
    }
    GrownGathered(types, system, ws, c, r.cursor);
    return types', true;
  }

  /** A types block the file holds: the scan goes on after it with its
      types added. */
  lemma HeaderTypesStep(ts: seq<HeaderText>, ws: seq<seq<string>>, c: nat, types: map<string, seq<string>>, rows: int)
    requires |ws| == |ts| && c < |ts| && ts[c].TypesLine? && ts[c].count.Ok?
    requires rows == CeilDiv(ts[c].count.value, 13) && 0 < rows && c + rows < |ts|
    ensures HeaderFrom(ts, ws, c, types) == HeaderFrom(ts, ws, c + rows, Extend(types, ts[c].system, Gathered(ws, c, c + rows)))
  {
  }

  /** Where the scan stops on a line that is not END OF HEADER: a count
      that is no int, a count of zero or less, a block or a line that
      reaches the end of the file. */
  lemma HeaderStops(ts: seq<HeaderText>, ws: seq<seq<string>>, c: nat, types: map<string, seq<string>>)
    requires |ws| == |ts| && c < |ts|
    ensures ts[c].TypesLine? && ts[c].count.Err? ==> HeaderFrom(ts, ws, c, types) == Raised(ts[c].count.error)
    ensures ts[c].TypesLine? && ts[c].count.Ok? && CeilDiv(ts[c].count.value, 13) <= 0 ==> HeaderFrom(ts, ws, c, types) == Diverges
    ensures ts[c].TypesLine? && ts[c].count.Ok? && 0 < CeilDiv(ts[c].count.value, 13) && c + CeilDiv(ts[c].count.value, 13) >= |ts| ==>
      HeaderFrom(ts, ws, c, types) == Raised(IndexError)
    ensures ts[c].OtherLine? && c + 1 >= |ts| ==> HeaderFrom(ts, ws, c, types) == Raised(IndexError)
  {
  }

  /** Any other line that is not the last: the scan goes on at the next. */
  lemma HeaderOtherStep(ts: seq<HeaderText>, ws: seq<seq<string>>, c: nat, types: map<string, seq<string>>)
    requires |ws| == |ts| && c + 1 < |ts| && ts[c].OtherLine?
    ensures HeaderFrom(ts, ws, c, types) == HeaderFrom(ts, ws, c + 1, types)
  {
  }

  /** The tests the header loop makes on a line: its category, and the
      count and system of a types line. */
  method Classify(line: string) returns (text: HeaderText)
    ensures text == TextOf(line)
  {
    var category := Strip(From(line, 60));
    if category == EndOfHeader {
      return EndLine;
    }
    if category == TypesLabel {
      var count := IntOf(Slice(line, 1, 6));
      CategoryLength(line);
      var system := [line[0]];
      return TypesLine(system, count);
    }
    return OtherLine;
  }

  /** One turn of the `_read_header` loop, on a line that is not END OF
      HEADER: either the scan goes on further down with the same outcome,
      or it stops with the header's outcome. */
  method HeaderTurn(r: RinexReader, types: map<string, seq<string>>, ghost ts: seq<HeaderText>, ghost ws: seq<seq<string>>)
      returns (types': map<string, seq<string>>, stop: Option<Outcome<map<string, seq<string>>>>)
    requires ts == Texts(r.lines) && ws == TypeRows(r.lines)
    requires r.cursor < |r.lines| && !ts[r.cursor].EndLine?
    modifies r
    ensures stop.None? ==> old(r.cursor) < r.cursor < |r.lines|
    ensures stop.None? ==> HeaderFrom(ts, ws, r.cursor, types') == HeaderFrom(ts, ws, old(r.cursor), types)
    ensures stop.Some? ==> stop.value == Types(HeaderFrom(ts, ws, old(r.cursor), types)) && !stop.value.Done?
  {
    types' := types;
    ghost var c := r.cursor;
    var text := Classify(r.lines[r.cursor]);
    assert text == ts[c] by {
      TextsAt(r.lines, c);
    }
    if text.TypesLine? {
      types', stop := TypesTurn(r, text.system, text.count, types, ts, ws);
    } else {
      stop := OtherTurn(r, types, ts, ws);
    }
  }

  /** The turn on any other line: on to the next line, which must exist. */
  method OtherTurn(r: RinexReader, types: map<string, seq<string>>, ghost ts: seq<HeaderText>, ghost ws: seq<seq<string>>)
      returns (stop: Option<Outcome<map<string, seq<string>>>>)
    requires |ws| == |ts| && r.cursor < |ts| == |r.lines| && ts[r.cursor].OtherLine?
    modifies r
    ensures r.cursor == old(r.cursor) + 1
    ensures stop.None? ==> r.cursor < |r.lines| && HeaderFrom(ts, ws, r.cursor, types) == HeaderFrom(ts, ws, old(r.cursor), types)
    ensures stop.Some? ==> stop.value == Types(HeaderFrom(ts, ws, old(r.cursor), types)) && !stop.value.Done?
  {
    ghost var c := r.cursor;
    r.cursor := r.cursor + 1;
    if r.cursor >= |r.lines| {
      HeaderStops(ts, ws, c, types);
      return Some(Raised(IndexError));
    }
    HeaderOtherStep(ts, ws, c, types);
    return None;
  }

  /** The turn on a types line: the block of ceil(n / 13) lines for its
      system. */
  method TypesTurn(r: RinexReader, system: string, count: Result<int>, types: map<string, seq<string>>,
                   ghost ts: seq<HeaderText>, ghost ws: seq<seq<string>>)
      returns (types': map<string, seq<string>>, stop: Option<Outcome<map<string, seq<string>>>>)
    requires ws == TypeRows(r.lines) && |ts| == |r.lines|
    requires r.cursor < |r.lines| && ts[r.cursor] == TypesLine(system, count)
    modifies r
    ensures stop.None? ==> old(r.cursor) < r.cursor < |r.lines|
    ensures stop.None? ==> HeaderFrom(ts, ws, r.cursor, types') == HeaderFrom(ts, ws, old(r.cursor), types)
    ensures stop.Some? ==> stop.value == Types(HeaderFrom(ts, ws, old(r.cursor), types)) && !stop.value.Done?
  {
    types' := types;
    ghost var c := r.cursor;
    if count.Err? {
      HeaderStops(ts, ws, c, types);
      return types', Some(Raised(count.error));
    }
    var rows := CeilDiv(count.value, 13);
    if rows <= 0 {
      HeaderStops(ts, ws, c, types);
      return types', Some(Diverges);
    }
    var ok;
    types', ok := ReadTypes(r, rows, system, types);
    if !ok {
      HeaderStops(ts, ws, c, types);
      return types', Some(Raised(IndexError));
    }
    HeaderTypesStep(ts, ws, c, types, rows);
    return types', None;
  }

  /** `_read_header`: the types of every system, with the cursor left on
      END OF HEADER. */
  method ReadHeader(r: RinexReader) returns (out: Outcome<map<string, seq<string>>>)
    modifies r
    ensures out == Types(Header(r.lines))
    ensures out.Done? ==> r.cursor == Header(r.lines).value.1
  {
    r.cursor := 0;
    var types: map<string, seq<string>> := map[];
    if |r.lines| == 0 {
      return Raised(IndexError);
    }
    ghost var ts, ws := Texts(r.lines), TypeRows(r.lines);
    var line := r.lines[0];
    TextsAt(r.lines, r.cursor);
    while Strip(From(line, 60)) != EndOfHeader
      invariant r.cursor < |r.lines| && line == r.lines[r.cursor] && ts[r.cursor] == TextOf(line)
      invariant HeaderFrom(ts, ws, r.cursor, types) == Header(r.lines)
      decreases |r.lines| - r.cursor
    {
      var stop;
      types, stop := HeaderTurn(r, types, ts, ws);
      if stop.Some? {
        return stop.value;
      }
      line := r.lines[r.cursor];
      TextsAt(r.lines, r.cursor);
    }
    return Done(types);
  }

  // ---------------------------------------------------------------------
  // Observations of one satellite line

  /** Slot i of a satellite line: the 15 columns 4 + 16i to 19 + 16i, with
      a blank between two digits made 0. */
  function SlotText(line: string, i: nat): string {
    FillGaps(Slice(line, 4 + 16 * i, 19 + 16 * i), DigitGap)
  }

  /** The dictionary of `_read_obs` once the first m fields are read: field
      i holds its slot decoded by `dec` (a type declared twice keeps the
      later value). */
  function Observed(dec: string -> Field, line: string, fields: seq<string>, m: nat): map<string, Cell>
    requires m <= |fields|
  {
    if m == 0 then map[]
    else Observed(dec, line, fields, m - 1)[fields[m - 1] := Val(dec(SlotText(line, m - 1)))]
  }

  /** The `for i, field in enumerate(fields)` loop of `_read_obs`. */
  method ReadSlots(dec: string -> Field, line: string, fields: seq<string>) returns (data: map<string, Cell>)
    ensures data == Observed(dec, line, fields, |fields|)
  {
    data := map[];
    for i := 0 to |fields|
      invariant data == Observed(dec, line, fields, i)
    {
      var value := Slice(line, 4 + i + 15 * i, 4 + i + 15 * (i + 1));
      value := FillGaps(value, DigitGap);
      data := data[fields[i] := Val(dec(value))];
    }
  }

  /** `_read_obs`: the observations of the line under the cursor. */
  method ReadObs(dec: string -> Field, r: RinexReader, fields: seq<string>) returns (data: map<string, Cell>)
    requires r.cursor < |r.lines|
    ensures data == Observed(dec, r.lines[r.cursor], fields, |fields|)
  {
    var line := r.lines[r.cursor];
    data := ReadSlots(dec, line, fields);
  }

  // ---------------------------------------------------------------------
  // Records

  /** The types `read` looks up for a satellite line: `fields_dict` is
      keyed by the system letter of the header, and looked up with the
      decoded column 0; a system that decodes to anything but a text
      (a digit, a blank) has none. */
  function FieldsOf(types: map<string, seq<string>>, system: Field): seq<string> {
    if system.Str? then Declared(types, system.text) else []
  }

  /** The record of one satellite line: the observations of the types its
      system declares, then the date, the system (column 0 decoded) and the
      PRN (columns 1-3 decoded), filed under the two printed one after the
      other. */
  function SatObs(dec: string -> Field, line: string, types: map<string, seq<string>>, date: seq<string>): Obs2.Obs
    requires line != []
  {
    var system, prn := dec([line[0]]), dec(Slice(line, 1, 3));
    var data := Observed(dec, line, FieldsOf(types, system), |FieldsOf(types, system)|);
    Obs2.Obs(Render(system) + Render(prn), data["Date" := Date(date)]["System" := Val(system)]["PRN" := Val(prn)])
  }

  /** The six date columns of an epoch line, as given to gnsstime. */
  function DateColumns(line: string): seq<string> {
    [Slice(line, 2, 6), Slice(line, 7, 9), Slice(line, 10, 12),
     Slice(line, 13, 15), Slice(line, 16, 18), Slice(line, 19, 29)]
  }

  /** What the satellite line at a position gives: IndexError for an
      empty line, its record otherwise. */
  function SatAt(dec: string -> Field, line: string, types: map<string, seq<string>>, date: seq<string>): Result<Obs2.Obs> {
    if line == [] then Err(IndexError) else Ok(SatObs(dec, line, types, date))
  }

  function SatLines(dec: string -> Field, lines: seq<string>, types: map<string, seq<string>>, date: seq<string>)
    : (per: seq<Result<Obs2.Obs>>)
    ensures |per| == |lines|
  {
    Tabulate(|lines|, (i: nat) => if i < |lines| then SatAt(dec, lines[i], types, date) else Err(IndexError))
  }

  lemma SatLinesAt(dec: string -> Field, lines: seq<string>, types: map<string, seq<string>>, date: seq<string>, i: nat)
    requires i < |lines|
    ensures SatLines(dec, lines, types, date)[i] == SatAt(dec, lines[i], types, date)
  {
    TabulateAt(|lines|, (i: nat) => if i < |lines| then SatAt(dec, lines[i], types, date) else Err(IndexError), i);
  }

  /** n results read one after the other from position d: their values,
      or the first exception; running past the end raises IndexError. */
  function Block<T>(per: seq<Result<T>>, d: nat, n: nat): (r: Result<seq<T>>)
    ensures r.Ok? ==> |r.value| == n && (n > 0 ==> d + n <= |per|)
    decreases n
  {
    if n == 0 then Ok([])
    else if d >= |per| then Err(IndexError)
    else match per[d]
      case Err(e) => Err(e)
      case Ok(x) => Prepend([x], Block(per, d + 1, n - 1))
  }

  /** The values read so far with one more in front of the rest. */
  lemma BlockSnoc<T>(per: seq<Result<T>>, d: nat, m: nat, done: seq<T>, x: T)
    requires 0 < m && d < |per| && per[d] == Ok(x)
    ensures Prepend(done, Block(per, d, m)) == Prepend(done + [x], Block(per, d + 1, m - 1))
  {
    PrependSnoc(done, x, Block(per, d + 1, m - 1));
  }

  /** The exception of the next position ends the block. */
  lemma BlockFail<T>(per: seq<Result<T>>, d: nat, m: nat, e: Error)
    requires 0 < m && (if d < |per| then per[d] == Err(e) else e == IndexError)
    ensures Block(per, d, m) == Err(e)
  {
  }

  /** The `for _ in range(sat_num)` loop from line d: one record per line
      for n lines; a line past the end, or an empty one, raises
      IndexError. */
  function EpochSats(dec: string -> Field, lines: seq<string>, d: nat, n: nat, types: map<string, seq<string>>, date: seq<string>)
    : (r: Result<seq<Obs2.Obs>>)
    ensures r.Ok? ==> |r.value| == n && (n > 0 ==> d + n <= |lines|)
  {
    Block(SatLines(dec, lines, types, date), d, n)
  }

  /** What one pass of the main loop of `read` does at line c: a blank line
      or one that does not start with `>` is passed over; an epoch line
      whose date gnsstime refuses (`valid` says which dates it accepts)
      raises TypeError, one whose count (columns 33-35 decoded) is not an int raises
      TypeError, and otherwise the count's lines after it hold one
      satellite each, the loop going on at the line after them. */
  function StepAt(lines: seq<string>, c: nat, types: map<string, seq<string>>, valid: seq<string> -> bool)
    : (st: Turn<Obs2.Obs>)
    requires c < |lines|
    ensures st.Yield? ==> c < st.next <= |lines|
  {
    var line := lines[c];
    if IsBlank(line) then Pass
    else if line[0] != '>' then Pass
    else
      var date := DateColumns(line);
      if !valid(date) then Halt(TypeError)
      else match Eval(Slice(line, 33, 35))
        case Int(n) =>
          var k := if n > 0 then n else 0;
          (match EpochSats(Eval, lines, c + 1, k, types, date)
           case Err(e) => Halt(e)
           case Ok(obs) => Yield(obs, c + k + 1))
        case _ => Halt(TypeError)
  }

  function Steps(lines: seq<string>, types: map<string, seq<string>>, valid: seq<string> -> bool)
    : (steps: seq<Turn<Obs2.Obs>>)
    ensures |steps| == |lines|
  {
    Tabulate(|lines|, (c: nat) => if c < |lines| then StepAt(lines, c, types, valid) else Pass)
  }

  lemma StepsAt(lines: seq<string>, types: map<string, seq<string>>, valid: seq<string> -> bool, c: nat)
    requires c < |lines|
    ensures Steps(lines, types, valid)[c] == StepAt(lines, c, types, valid)
  {
    TabulateAt(|lines|, (c: nat) => if c < |lines| then StepAt(lines, c, types, valid) else Pass, c);
  }

  lemma StepsForward(lines: seq<string>, types: map<string, seq<string>>, valid: seq<string> -> bool)
    ensures Forward(Steps(lines, types, valid))
  {
    forall c | 0 <= c < |lines| ensures Steps(lines, types, valid)[c].Yield? ==> c < Steps(lines, types, valid)[c].next <= |lines| {
      StepsAt(lines, types, valid, c);
    }
  }

  /** The records of the main loop of `read` from line c. */
  function Epochs(lines: seq<string>, c: nat, types: map<string, seq<string>>, valid: seq<string> -> bool)
    : Outcome<seq<Obs2.Obs>>
  {
    StepsForward(lines, types, valid);
    Scan(Steps(lines, types, valid), c)
  }

  /** `read` up to the DataFrame: the header's types, the records of every
      epoch from the line after END OF HEADER, and the records grouped by
      satellite in order of first appearance, with their sessions. */
  function Table(lines: seq<string>, valid: seq<string> -> bool): Outcome<seq<Row<string>>> {
    match Header(lines)
    case Raised(e) => Raised(e)
    case Diverges => Diverges
    case Done((types, c)) => Obs2.Finish(Epochs(lines, c + 1, types, valid))
  }

  /** One turn of the `for _ in range(sat_num)` loop: move to the next
      line, read its satellite and observations, complete the record and
      file it. */
  method ReadSatObs(dec: string -> Field, r: RinexReader, types: map<string, seq<string>>, date: seq<string>,
                    order: seq<string>, groups: map<string, seq<Row<string>>>, ghost keys: seq<string>, ghost vals: seq<Row<string>>)
    returns (res: Result<Obs2.Obs>, order': seq<string>, groups': map<string, seq<Row<string>>>)
    requires |keys| == |vals| && Files(order, groups, keys, vals)
    modifies r
    ensures r.cursor == old(r.cursor) + 1
    ensures res == if r.cursor < |r.lines| then SatLines(dec, r.lines, types, date)[r.cursor] else Err(IndexError)
    ensures res.Ok? ==> Files(order', groups', keys + [res.value.satellite], vals + [Obs2.SessionRow(keys, res.value)])
  {
    order', groups' := order, groups;
    r.cursor := r.cursor + 1;
    if r.cursor >= |r.lines| {
      return Err(IndexError), order', groups';
    }
    var line := r.lines[r.cursor];
    SatLinesAt(dec, r.lines, types, date, r.cursor);
    if line == [] {
      return Err(IndexError), order', groups';
    }
    var system, prn := dec([line[0]]), dec(Slice(line, 1, 3));
    var satellite := Render(system) + Render(prn);
    var fields := FieldsOf(types, system);
    var data := ReadObs(dec, r, fields);
    data := data["Date" := Date(date)];
    data := data["System" := Val(system)];
    data := data["PRN" := Val(prn)];
    var o := Obs2.Obs(satellite, data);
    order', groups' := Obs2.FileObs(o, order, groups, keys, vals);
    return Ok(o), order', groups';
  }

  /** One turn of the `for _ in range(sat_num)` loop with m lines still to
      read, `per` being what every line gives: the record is filed, and the
      rest of the loop is what remains; or the exception that the rest of
      the loop raises. */
  method SatTurn(dec: string -> Field, r: RinexReader, m: nat, types: map<string, seq<string>>, date: seq<string>,
                 ghost per: seq<Result<Obs2.Obs>>, ghost done: seq<Obs2.Obs>, order: seq<string>, groups: map<string, seq<Row<string>>>)
    returns (ghost done': seq<Obs2.Obs>, order': seq<string>, groups': map<string, seq<Row<string>>>, err: Option<Error>)
    requires 0 < m && per == SatLines(dec, r.lines, types, date)
    requires Files(order, groups, Obs2.Sats(done), Obs2.Sessioned(done))
    modifies r
    ensures r.cursor == old(r.cursor) + 1
    ensures err.Some? ==> Block(per, old(r.cursor) + 1, m) == Err(err.value)
    ensures err.None? ==> Prepend(done', Block(per, r.cursor + 1, m - 1)) == Prepend(done, Block(per, old(r.cursor) + 1, m))
    ensures err.None? ==> Files(order', groups', Obs2.Sats(done'), Obs2.Sessioned(done'))
  {
    ghost var keys, vals := Obs2.Sats(done), Obs2.Sessioned(done);
    done' := done;
    var o;
    o, order', groups' := ReadSatObs(dec, r, types, date, order, groups, keys, vals);
    if o.Err? {
      assert Block(per, r.cursor, m) == Err(o.error) by {
        BlockFail(per, r.cursor, m, o.error);
      }
      return done', order', groups', Some(o.error);
    }
    done' := done + [o.value];
    ghost var c := r.cursor;
    assert Prepend(done', Block(per, c + 1, m - 1)) == Prepend(done, Block(per, c, m)) by {
      BlockSnoc(per, c, m, done, o.value);
    }
    assert Obs2.Sats(done') == keys + [o.value.satellite] by {
      Obs2.SatsSnoc(done, o.value);
    }
    assert Obs2.Sessioned(done') == vals + [Obs2.SessionRow(keys, o.value)] by {
      Obs2.SessionedSnoc(done, o.value);
    }
    return done', order', groups', None;
  }

  /** The `for _ in range(sat_num)` loop, for a count of n lines (none
      when the count is zero or less): read, complete and file one record
      per line; an exception stops the loop. */
  method ReadEpochSats(dec: string -> Field, r: RinexReader, n: nat, types: map<string, seq<string>>, date: seq<string>,
                       ghost done: seq<Obs2.Obs>, order: seq<string>, groups: map<string, seq<Row<string>>>)
    returns (ghost done': seq<Obs2.Obs>, order': seq<string>, groups': map<string, seq<Row<string>>>, err: Option<Error>)
    requires Files(order, groups, Obs2.Sats(done), Obs2.Sessioned(done))
    modifies r
    ensures var s := EpochSats(dec, r.lines, old(r.cursor) + 1, n, types, date);
      && (err.None? <==> s.Ok?)
      && (s.Ok? ==> done' == done + s.value && Files(order', groups', Obs2.Sats(done'), Obs2.Sessioned(done')))
      && (s.Ok? ==> r.cursor == old(r.cursor) + n)
      && (s.Err? ==> err == Some(s.error))
  {
    ghost var c := r.cursor;
    ghost var per := SatLines(dec, r.lines, types, date);
    ghost var all := Block(per, c + 1, n);
    done', order', groups' := done, order, groups;
    for k := 0 to n
      invariant r.cursor == c + k
      invariant Files(order', groups', Obs2.Sats(done'), Obs2.Sessioned(done'))
      invariant Prepend(done', Block(per, c + k + 1, n - k)) == Prepend(done, all)
    {
      ghost var before := done';
      done', order', groups', err := SatTurn(dec, r, n - k, types, date, per, done', order', groups');
      if err.Some? {
        assert Prepend(done, all) == Prepend(before, Err(err.value));
        return;
      }
    }
    PrependNil(done');
    assert Prepend(done, all) == Ok(done') && all.Ok?;
    return done', order', groups', None;
  }

  /** One pass of the `while` loop of `read`: pass a blank line or a line
      that is not an epoch line, or read an epoch line and its satellite
      lines, filing their records; then move one line on. `stop` is the
      exception that ends the loop instead. */
  method Advance(r: RinexReader, types: map<string, seq<string>>, valid: seq<string> -> bool,
                 ghost done: seq<Obs2.Obs>, order: seq<string>, groups: map<string, seq<Row<string>>>)
    returns (ghost done': seq<Obs2.Obs>, order': seq<string>, groups': map<string, seq<Row<string>>>,
             stop: Option<Outcome<seq<Obs2.Obs>>>)
    requires r.cursor < |r.lines| && Files(order, groups, Obs2.Sats(done), Obs2.Sessioned(done))
    modifies r
    ensures var st := StepAt(r.lines, old(r.cursor), types, valid);
      && (stop.None? <==> st.Pass? || st.Yield?)
      && (st.Pass? ==> r.cursor == old(r.cursor) + 1 && done' == done)
      && (st.Yield? ==> r.cursor == st.next && done' == done + st.records)
      && (st.Halt? ==> stop == Some(Raised(st.error)))
      && !st.Stall?
    ensures stop.None? ==> Files(order', groups', Obs2.Sats(done'), Obs2.Sessioned(done'))
  {
    done', order', groups' := done, order, groups;
    ghost var c := r.cursor;
    var line := r.lines[r.cursor];
    if Strip(line) == "" || line[0] != '>' {
      assert StepAt(r.lines, c, types, valid) == Pass;
      r.cursor := r.cursor + 1;
      return done', order', groups', None;
    }
    var date := DateColumns(line);
    if !valid(date) {
      return done', order', groups', Some(Raised(TypeError));
    }
    var count := Eval(Slice(line, 33, 35));
    if !count.Int? {
      return done', order', groups', Some(Raised(TypeError));
    }
    var satellites := if count.n > 0 then count.n else 0;
    ghost var sats := EpochSats(Eval, r.lines, c + 1, satellites, types, date);
    assert StepAt(r.lines, c, types, valid) == if sats.Ok? then Yield(sats.value, c + satellites + 1) else Halt(sats.error);
    var err;
    done', order', groups', err := ReadEpochSats(Eval, r, satellites, types, date, done, order, groups);
    if err.Some? {
      return done', order', groups', Some(Raised(err.value));
    }
    r.cursor := r.cursor + 1;
    return done', order', groups', None;
  }

  /** The `while` loop of `read` from the cursor on, then the records
      grouped by satellite. */
  method ReadRecords(r: RinexReader, types: map<string, seq<string>>, valid: seq<string> -> bool)
      returns (out: Outcome<seq<Row<string>>>)
    modifies r
    ensures out == Obs2.Finish(Epochs(r.lines, old(r.cursor), types, valid))
  {
    var order: seq<string> := [];
    var groups: map<string, seq<Row<string>>> := map[];
    ghost var done: seq<Obs2.Obs> := [];
    ghost var start := r.cursor;
    ghost var steps := Steps(r.lines, types, valid);
    StepsForward(r.lines, types, valid);
    AfterEmpty(Scan(steps, start));
    while r.cursor < |r.lines|
      invariant After(done, Scan(steps, r.cursor)) == Scan(steps, start)
      invariant Files(order, groups, Obs2.Sats(done), Obs2.Sessioned(done))
      decreases |r.lines| - r.cursor
    {
      ghost var c, before := r.cursor, done;
      StepsAt(r.lines, types, valid, c);
      var stop;
      done, order, groups, stop := Advance(r, types, valid, done, order, groups);
      if stop.Some? {
        return Obs2.Finish(stop.value);
      }
      ScanStep(steps, c, before, done, r.cursor);
    }
    AfterNil(done);
    var rows := Flatten(order, groups, Obs2.Sats(done), Obs2.Sessioned(done));
    return Done(rows);
  }

  /** `read`: the header's types, then the records from the line after
      END OF HEADER. */
  method Read(r: RinexReader, valid: seq<string> -> bool) returns (out: Outcome<seq<Row<string>>>)
    modifies r
    ensures out == Table(r.lines, valid)
  {
    var header := ReadHeader(r);
    if header.Raised? {
      return Raised(header.error);
    }
    if header.Diverges? {
      return Diverges;
    }
    r.cursor := r.cursor + 1;
    out := ReadRecords(r, header.value, valid);
  }
}
