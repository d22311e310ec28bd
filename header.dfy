/** The header reader (RinexHeaderReader in gnsstools/rinex/header.py):
    it scans the header lines from the first, files each line under its
    category (columns 60 onward) and keeps the version, data type and
    system of the "RINEX VERSION / TYPE" line and the three fields of the
    "PGM / RUN BY / DATE" line, a later line overwriting an earlier one. */
module Header {
  import opened Text
  import opened Fields
  import opened Rinex

  /** The keys of the header dictionary. */
  datatype HeaderKey = Version | Type | TypeName | System | SystemName | Pgm | RunBy | Date

  /** A header value: a decoded field or a letter or name from a table. */
  datatype HeaderValue = Val(field: Field) | Name(text: string)

  type HeaderMap = map<HeaderKey, HeaderValue>

  const VersionCategory := "RINEX VERSION / TYPE"
  const PgmCategory := "PGM / RUN BY / DATE"
  const EndCategory := "END OF HEADER"

  /** `DATA_TYPES` and `SYSTEMS`, in their order. */
  const DataTypes: seq<(char, string)> := [('N', "NAVIGATION"), ('O', "OBSERVATION")]
  const Systems: seq<(char, string)> := [
    ('G', "GPS"), ('E', "GALILEO"), ('R', "GLONASS"), ('J', "QZSS"),
    ('C', "BDS"), ('I', "IRNSS"), ('S', "SBAS"), ('M', "MIXED")]

  /** The category of a header line: columns 60 onward, stripped. */
  function Category(line: string): string {
    Strip(From(line, 60))
  }

  /** The entries the data-type loop has set after its first i rows. */
  function TypesUpTo(data: HeaderMap, dtype: string, i: nat): HeaderMap
    requires i <= |DataTypes|
  {
    if i == 0 then data
    else
      var d := TypesUpTo(data, dtype, i - 1);
      if DataTypes[i - 1].0 in dtype then d[Type := Name([DataTypes[i - 1].0])][TypeName := Name(DataTypes[i - 1].1)]
      else d
  }

  /** The entries the system loop has set after its first i rows. */
  function SystemsUpTo(data: HeaderMap, c: char, i: nat): HeaderMap
    requires i <= |Systems|
  {
    if i == 0 then data
    else
      var d := SystemsUpTo(data, c, i - 1);
      if Systems[i - 1].0 == c then d[System := Name([c])][SystemName := Name(Systems[i - 1].1)]
      else d
  }

  /** The type entries `_read_version` ends with: the last row of
      `DATA_TYPES` whose letter occurs in columns 20-40 wins, so `O` beats
      `N`. */
  function WithType(data: HeaderMap, dtype: string): HeaderMap {
    if 'O' in dtype then data[Type := Name("O")][TypeName := Name("OBSERVATION")]
    else if 'N' in dtype then data[Type := Name("N")][TypeName := Name("NAVIGATION")]
    else data
  }

  /** The name `SYSTEMS` gives a letter, if it has one. */
  function SystemNameOf(c: char): Option<string> {
    match c
    case 'G' => Some("GPS") case 'E' => Some("GALILEO") case 'R' => Some("GLONASS")
    case 'J' => Some("QZSS") case 'C' => Some("BDS") case 'I' => Some("IRNSS")
    case 'S' => Some("SBAS") case 'M' => Some("MIXED")
    case _ => None
  }

  /** The system entries: the row of `SYSTEMS` whose letter is column 40,
      if there is one. */
  function WithSystem(data: HeaderMap, c: char): HeaderMap {
    match SystemNameOf(c)
    case Some(name) => data[System := Name([c])][SystemName := Name(name)]
    case None => data
  }

  /** `SystemNameOf` is the table `SYSTEMS`: each row's letter names its
      row, and only the eight letters of the table have a name. */
  lemma SystemNameTable(c: char)
    ensures forall j | 0 <= j < |Systems| :: SystemNameOf(Systems[j].0) == Some(Systems[j].1)
    ensures SystemNameOf(c).Some? <==> c in "GERJCISM"
    ensures |Systems| == 8 && forall j | 0 <= j < |Systems| :: Systems[j].0 == "GERJCISM"[j]
    ensures SystemNameOf(c).None? ==> forall j | 0 <= j < |Systems| :: Systems[j].0 != c
  {
    assert "GERJCISM" == [Systems[0].0, Systems[1].0, Systems[2].0, Systems[3].0, Systems[4].0, Systems[5].0, Systems[6].0, Systems[7].0];
  }

  /** What `_read_version` returns: IndexError when column 40 is missing. */
  function VersionData(dec: string -> Field, line: string): Result<HeaderMap> {
    var sys := Slice(line, 40, 60);
    if sys == [] then Err(IndexError)
    else Ok(WithSystem(WithType(map[Version := Val(dec(Slice(line, 0, 20)))], Slice(line, 20, 40)), sys[0]))
  }

  /** `_read_version`, with its two table loops. */
  method ReadVersion(dec: string -> Field, line: string) returns (res: Result<HeaderMap>)
    ensures res == VersionData(dec, line)
  {
    var version, dtype, sys := Slice(line, 0, 20), Slice(line, 20, 40), Slice(line, 40, 60);
    var data: HeaderMap := map[Version := Val(dec(version))];
    ghost var base := data;
    for i := 0 to |DataTypes|
      invariant data == TypesUpTo(base, dtype, i)
    {
      if DataTypes[i].0 in dtype {
        data := data[Type := Name([DataTypes[i].0])][TypeName := Name(DataTypes[i].1)];
      }
    }
    if sys == [] {
      return Err(IndexError);
    }
    ghost var typed := data;
    for i := 0 to |Systems|
      invariant data == SystemsUpTo(typed, sys[0], i)
    {
      if Systems[i].0 == sys[0] {
        data := data[System := Name([sys[0]])][SystemName := Name(Systems[i].1)];
      }
    }
    TypeRule(base, dtype);
    SystemRule(typed, sys[0]);
    return Ok(data);
  }

  /** The data-type loop over `DATA_TYPES` adds the type entries to what
      it started from. */
  lemma TypeRule(data: HeaderMap, dtype: string)
    ensures TypesUpTo(data, dtype, |DataTypes|) == WithType(data, dtype)
  {
    assert TypesUpTo(data, dtype, 1) == if 'N' in dtype then data[Type := Name("N")][TypeName := Name("NAVIGATION")] else data;
  }

  /** The system loop over `SYSTEMS` adds the system entries to what it
      started from: the letters of the table are distinct, so at most one
      row matches. */
  lemma SystemRule(data: HeaderMap, c: char)
    ensures SystemsUpTo(data, c, |Systems|) == WithSystem(data, c)
  {
    SystemsPrefix(data, c, |Systems|);
    SystemNameTable(c);
    if SystemNameOf(c).Some? {
      var j :| 0 <= j < 8 && "GERJCISM"[j] == c;
      assert SystemNameOf(c) == Some(Systems[j].1);
    }
  }

  /** After i rows the system loop has set the entries of the last
      matching row among them, and nothing else. */
  lemma {:induction false} SystemsPrefix(data: HeaderMap, c: char, i: nat)
    requires i <= |Systems|
    ensures var d := SystemsUpTo(data, c, i);
      && (forall j | 0 <= j < i && Systems[j].0 == c ::
            d == data[System := Name([c])][SystemName := Name(Systems[j].1)])
      && ((forall j | 0 <= j < i :: Systems[j].0 != c) ==> d == data)
  {
    if i > 0 {
      SystemsPrefix(data, c, i - 1);
      if Systems[i - 1].0 == c {
        assert forall j | 0 <= j < i - 1 :: Systems[j].0 != c;
      }
    }
  }

  /** What `_read_version` keeps: the version field, the type `O` when
      columns 20-40 hold an O, else `N` when they hold an N, and a system
      exactly when column 40 is one of the table's letters. */
  lemma VersionRule(dec: string -> Field, line: string)
    requires |line| > 40
    ensures var r := VersionData(dec, line);
      && r.Ok?
      && Version in r.value && r.value[Version] == Val(dec(Slice(line, 0, 20)))
      && (System in r.value <==> line[40] in "GERJCISM")
      && (System in r.value ==> r.value[System] == Name([line[40]]))
      && (Type in r.value <==> 'N' in Slice(line, 20, 40) || 'O' in Slice(line, 20, 40))
      && (Type in r.value ==> r.value[Type] == Name(if 'O' in Slice(line, 20, 40) then "O" else "N"))
  {
    assert Slice(line, 40, 60)[0] == line[40];
    SystemNameTable(line[40]);
  }

  /** `_read_pgm`. */
  function PgmData(dec: string -> Field, line: string): (m: HeaderMap)
    ensures m.Keys == {Pgm, RunBy, Date}
    ensures m[Pgm] == Val(dec(Slice(line, 0, 20)))
    ensures m[RunBy] == Val(dec(Slice(line, 20, 40)))
    ensures m[Date] == Val(dec(Slice(line, 40, 60)))
  {
    map[Pgm := Val(dec(Slice(line, 0, 20))), RunBy := Val(dec(Slice(line, 20, 40))),
        Date := Val(dec(Slice(line, 40, 60)))]
  }

  /** A line filed under the version category is at least 80 columns
      long, so `_read_version` never raises inside `read`. */
  lemma CategoryLength(line: string)
    requires Category(line) == VersionCategory
    ensures |line| >= 80
  {
  }

  /** The categories `read` tells apart. */
  datatype LineClass = VersionLine | PgmLine | EndLine | OtherLine

  /** The class of a header line, from its category. */
  function ClassOf(line: string): (c: LineClass)
    ensures c == VersionLine <==> Category(line) == VersionCategory
    ensures c == PgmLine <==> Category(line) == PgmCategory
    ensures c == EndLine <==> IsEndCategory(line)
    ensures c == VersionLine ==> |line| >= 80
  {
    var category := Category(line);
    if category == VersionCategory then
      CategoryLength(line);
      VersionLine
    else if category == PgmCategory then PgmLine
    else if category == EndCategory then EndLine
    else OtherLine
  }

  /** What one line adds to the header: the version line's entries, the
      program line's entries, or nothing. */
  function LineData(dec: string -> Field, line: string): HeaderMap {
    match ClassOf(line)
    case VersionLine => VersionData(dec, line).value
    case PgmLine => PgmData(dec, line)
    case _ => map[]
  }

  /** The entries of each line, decoded with `dec`. */
  function LinesData(dec: string -> Field): string -> HeaderMap {
    line => LineData(dec, line)
  }

  /** The dispatch on the category in the loop body of `read`. */
  method ReadLine(dec: string -> Field, line: string) returns (data: HeaderMap, ended: bool)
    ensures data == LineData(dec, line)
    ensures ended == IsEndCategory(line)
  {
    var lineClass := ClassOf(line);
    ended := lineClass == EndLine;
    if lineClass == VersionLine {
      var version := ReadVersion(dec, line);
      data := version.value;
    } else if lineClass == PgmLine {
      data := PgmData(dec, line);
    } else {
      data := map[];
    }
  }

  /** The header after the first n lines, each line's entries `data(line)`
      updating it. */
  function HeaderUpTo(lines: seq<string>, n: nat, data: string -> HeaderMap): HeaderMap
    requires n <= |lines|
  {
    if n == 0 then map[] else HeaderUpTo(lines, n - 1, data) + data(lines[n - 1])
  }

  predicate IsEndCategory(line: string) {
    Category(line) == EndCategory
  }

  /** Where `read` leaves the cursor: just past the first END OF HEADER
      line, or at the end. */
  function HeaderStop(lines: seq<string>): (n: nat)
    ensures n <= |lines|
    ensures n == |lines| || (0 < n && IsEndCategory(lines[n - 1]))
    ensures forall j | 0 <= j < n - 1 :: !IsEndCategory(lines[j])
  {
    var k := FirstFrom(lines, IsEndCategory, 0);
    if k < |lines| then k + 1 else |lines|
  }

  /** `read`, its fields decoded with `dec` (`_eval` in the source). */
  method Read(r: RinexReader, dec: string -> Field) returns (header: HeaderMap)
    modifies r
    ensures r.cursor == HeaderStop(r.lines)
    ensures header == HeaderUpTo(r.lines, r.cursor, LinesData(dec))
  {
    r.cursor := 0;
    header := map[];
    var ended := false;
    ghost var k := FirstFrom(r.lines, IsEndCategory, 0);
    while r.cursor < |r.lines| && !ended
      invariant r.cursor <= |r.lines|
      invariant if ended then r.cursor == k + 1 && k < |r.lines| else r.cursor <= k
      invariant header == HeaderUpTo(r.lines, r.cursor, LinesData(dec))
      decreases |r.lines| - r.cursor
    {
      var data;
      data, ended := ReadLine(dec, r.lines[r.cursor]);
      HeaderStep(r.lines, r.cursor, LinesData(dec), header, data);
      header := header + data;
      r.cursor := r.cursor + 1;
    }
  }

  lemma HeaderStep(lines: seq<string>, n: nat, f: string -> HeaderMap, h: HeaderMap, d: HeaderMap)
    requires n < |lines| && h == HeaderUpTo(lines, n, f) && d == f(lines[n])
    ensures h + d == HeaderUpTo(lines, n + 1, f)
  {
  }

  /** A later line of the same category overwrites: the value of a key is
      the one the last line before n that sets it gave. */
  lemma {:induction false} LastWriteWins(lines: seq<string>, n: nat, data: string -> HeaderMap, j: nat, key: HeaderKey)
    requires j < n <= |lines|
    requires key in data(lines[j])
    requires forall i | j < i < n :: key !in data(lines[i])
    ensures key in HeaderUpTo(lines, n, data)
    ensures HeaderUpTo(lines, n, data)[key] == data(lines[j])[key]
  {
    if n - 1 > j {
      LastWriteWins(lines, n - 1, data, j, key);
    }
  }

  /** A key no line before n sets is not in the header. */
  lemma {:induction false} NeverWritten(lines: seq<string>, n: nat, data: string -> HeaderMap, key: HeaderKey)
    requires n <= |lines|
    requires forall i | 0 <= i < n :: key !in data(lines[i])
    ensures key !in HeaderUpTo(lines, n, data)
  {
    if n > 0 {
      NeverWritten(lines, n - 1, data, key);
    }
  }
}
