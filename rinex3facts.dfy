/** What gnsstools/rinex/rinex3.py promises about its header scan and its
    table, stated on the model of module Rinex3. */
module Rinex3Facts {
  import opened Text
  import opened Fields
  import opened Rinex
  import opened Tables
  import opened NavMaps
  import opened Rinex3
  import Nav

  /** No whitespace at all. */
  predicate NoSpace(v: string) {
    forall k | 0 <= k < |v| :: !IsSpace(v[k])
  }

  /** A word without blanks passes through the run substitution. */
  lemma {:induction false} RunsKeepWord(v: string, x: string, minRun: nat, repl: string)
    requires minRun >= 1 && NoSpace(v)
    ensures ReplaceRuns(v + x, minRun, repl) == v + ReplaceRuns(x, minRun, repl)
    decreases |v|
  {
    if v == [] {
      assert v + x == x;
    } else {
      var s := v + x;
      assert s[0] == v[0] && s[1..] == v[1..] + x;
      assert !IsSpace(v[0]);
      RunsKeepWord(v[1..], x, minRun, repl);
      assert v == [v[0]] + v[1..];
    }
  }

  /** A run of at least `minRun` blanks followed by a non-blank becomes the
      replacement. */
  lemma RunsGap(g: string, y: string, minRun: nat, repl: string)
    requires minRun >= 1 && |g| >= minRun && forall k | 0 <= k < |g| :: g[k] == ' '
    requires y == [] || y[0] != ' '
    ensures ReplaceRuns(g + y, minRun, repl) == repl + ReplaceRuns(y, minRun, repl)
  {
    var s := g + y;
    var n := BlankRun(s);
    assert forall k | 0 <= k < |g| :: s[k] == ' ';
    assert |s| > |g| ==> s[|g|] == y[0];
    assert n == |g|;
    assert s[0] == ' ';
    assert s[n..] == y && s[..n] == g;
  }

  /** The substitution keeps a non-blank first character first. */
  lemma RunsHead(z: string, minRun: nat, repl: string)
    requires minRun >= 1 && z != [] && z[0] != ' '
    ensures var c := ReplaceRuns(z, minRun, repl); c != [] && c[0] == z[0]
  {
  }

  /** A word without blanks before a double blank is the first piece. */
  lemma SplitAtGap(v: string, z: string)
    requires NoSpace(v)
    ensures Split(v + "  " + z, "  ") == [v] + Split(z, "  ")
  {
    var s := v + "  " + z;
    assert MatchAt(s, "  ", |v|) by {
      assert s[|v|..|v| + 2] == "  ";
    }
    forall j: nat | j < |v| ensures !MatchAt(s, "  ", j) {
      assert s[j] == v[j] && !IsSpace(v[j]);
      assert j + 2 <= |s| ==> s[j..j + 2][0] == s[j];
    }
    var i := Find(s, "  ");
    assert i == |v|;
    assert s[..i] == v && s[i + 2..] == z;
  }

  /** The first piece of a text that does not start with a blank starts
      with the text's first character. */
  lemma SplitHead(z: string)
    requires z != [] && z[0] != ' '
    ensures var parts := Split(z, "  "); parts[0] != [] && parts[0][0] == z[0]
  {
    var i := Find(z, "  ");
    if i >= 0 {
      assert MatchAt(z, "  ", i);
      assert z[i..i + 2][0] == z[i];
      assert i != 0;
    }
  }

  /** Collapsing and splitting a text made of a word without whitespace, a
      gap of two or more blanks and a rest: the word is the first piece and
      the rest's first character starts the second. */
  lemma CollapsedParts(v: string, g: string, rest: string)
    requires NoSpace(v)
    requires |g| >= 2 && forall k | 0 <= k < |g| :: g[k] == ' '
    requires rest != [] && rest[0] != ' '
    ensures var parts := Split(ReplaceRuns(v + g + rest, 2, "  "), "  ");
      |parts| >= 2 && parts[0] == v && parts[1] != [] && parts[1][0] == rest[0]
  {
    var z := ReplaceRuns(rest, 2, "  ");
    assert v + g + rest == v + (g + rest);
    RunsKeepWord(v, g + rest, 2, "  ");
    RunsGap(g, rest, 2, "  ");
    assert v + ("  " + z) == v + "  " + z;
    SplitAtGap(v, z);
    RunsHead(rest, 2, "  ");
    SplitHead(z);
  }

  /** The version line: when the stripped line is a float literal without
      whitespace, a gap of two or more blanks and the rest, the entry is that
      literal and the first letter of the rest. */
  lemma VersionEntryRule(line: string, v: string, g: string, rest: string)
    requires Strip(line) == v + g + rest
    requires v != [] && NoSpace(v) && IsFloatLiteral(v)
    requires |g| >= 2 && forall k | 0 <= k < |g| :: g[k] == ' '
    requires rest != [] && rest[0] != ' '
    ensures VersionEntry(line).Ok?
    ensures VersionEntry(line).value.0.literal == v && VersionEntry(line).value.1 == rest[0]
  {
    CollapsedParts(v, g, rest);
    StripUnpadded(v);
  }

  /** Neither the version label nor the leap-seconds label. */
  predicate Plain(t: HeaderText) {
    t.version.None? && t.leap.None?
  }

  /** The exceptions a line's entries can carry: ValueError or IndexError
      for the version, ValueError for the leap seconds. */
  predicate Parsed(t: HeaderText) {
    && (t.version.Some? && t.version.value.Err? ==> t.version.value.error in {ValueError, IndexError})
    && (t.leap.Some? && t.leap.value.Err? ==> t.leap.value.error == ValueError)
  }

  lemma TextsParsed(lines: seq<string>)
    ensures forall j | 0 <= j < |lines| :: Parsed(Texts(lines)[j])
  {
    forall j | 0 <= j < |lines| ensures Parsed(Texts(lines)[j]) {
      TextsAt(lines, j);
    }
  }

  /** What one line does: an exception is one a parsed entry carries or
      the KeyError of a COMMENT line; only an END OF HEADER line ends the
      scan; a plain line that is kept is neither. */
  lemma EffectShape(h: Header3, t: HeaderText)
    requires Parsed(t)
    ensures var e := LineEffect(h, t);
      && (e.Raise? ==> e.error in {ValueError, IndexError, KeyError})
      && (e.Raise? && e.error == KeyError ==> t.comment)
      && (e.End? ==> t.end)
      && (e.Keep? && Plain(t) ==> !t.comment && !t.end)
  {
  }

  /** The scan from line k: it returns a dictionary just past a line naming
      END OF HEADER, having met no plain COMMENT or END OF HEADER line
      before; it returns None only at the end of the lines, having met
      neither; KeyError comes from a COMMENT line, and a plain COMMENT line
      met before any plain END OF HEADER line always raises. */
  lemma {:induction false} ScanShape(ts: seq<HeaderText>, k: nat, h: Header3)
    requires k <= |ts| && forall j | k <= j < |ts| :: Parsed(ts[j])
    ensures var (res, c) := HeaderScan(ts, k, h);
      && (res.Ok? ==> forall j | k <= j < c :: Plain(ts[j]) ==> !ts[j].comment)
      && (res.Ok? && res.value.Some? ==>
           k < c && ts[c - 1].end && forall j | k <= j < c - 1 :: Plain(ts[j]) ==> !ts[j].end)
      && (res.Ok? && res.value.None? ==> c == |ts| && forall j | k <= j < c :: Plain(ts[j]) ==> !ts[j].end)
      && (res.Err? ==> k < c && res.error in {ValueError, IndexError, KeyError})
      && (res.Err? && res.error == KeyError ==> ts[c - 1].comment)
    decreases |ts| - k
  {
    if k < |ts| {
      EffectShape(h, ts[k]);
      var e := LineEffect(h, ts[k]);
      if e.Keep? {
        ScanShape(ts, k + 1, e.header);
      }
    }
  }

  /** The scan of a file's header lines, from the first line with an empty
      dictionary: the same shape, on the texts the lines carry. */
  lemma HeaderShape(lines: seq<string>)
    ensures var ts := Texts(lines);
      var (res, c) := HeaderScan(ts, 0, NoHeader);
      && (res.Ok? ==> forall j | 0 <= j < c :: Plain(ts[j]) ==> !ts[j].comment)
      && (res.Ok? && res.value.Some? ==> 0 < c && ts[c - 1].end)
      && (res.Ok? && res.value.None? ==> c == |lines|)
      && (res.Err? ==> 0 < c && res.error in {ValueError, IndexError, KeyError})
      && (res.Err? && res.error == KeyError ==> ts[c - 1].comment)
  {
    TextsParsed(lines);
    ScanShape(Texts(lines), 0, NoHeader);
  }

  /** A version that is set and not zero is never replaced, and neither is
      the type read with it; likewise for the leap seconds. */
  lemma SetOnce(h: Header3, t: HeaderText)
    ensures var e := LineEffect(h, t);
      && (e.Keep? && !Unset(h.version) ==> e.header.version == h.version && e.header.kind == h.kind)
      && (e.Keep? && !Unset(h.leap) ==> e.header.leap == h.leap)
  {
  }

  /** Over the whole scan: the dictionary returned keeps a version (and its
      type) and leap seconds that were already set. */
  lemma {:induction false} ScanKeepsSet(ts: seq<HeaderText>, k: nat, h: Header3)
    requires k <= |ts|
    ensures var res := HeaderScan(ts, k, h).0;
      res.Ok? && res.value.Some? ==>
        && (!Unset(h.version) ==> res.value.value.version == h.version && res.value.value.kind == h.kind)
        && (!Unset(h.leap) ==> res.value.value.leap == h.leap)
    decreases |ts| - k
  {
    if k < |ts| {
      var e := LineEffect(h, ts[k]);
      if e.Keep? {
        SetOnce(h, ts[k]);
        ScanKeepsSet(ts, k + 1, e.header);
      }
    }
  }

  /** The two labels a header line is tested for first, and the COMMENT
      and END OF HEADER tests. */
  lemma TextRule(line: string)
    ensures TextOf(line).version.Some? <==> Contains(line, VersionLabel)
    ensures TextOf(line).leap.Some? <==> Contains(line, LeapLabel)
    ensures TextOf(line).comment <==> Contains(line, CommentLabel)
    ensures TextOf(line).end <==> Contains(line, EndOfHeader)
  {
  }

  /** A record start consumes its map's rows, 8 for G and E and 4 for R;
      any other line only the line itself. */
  lemma RecordsRule(lines: seq<string>, c: nat)
    requires c < |lines|
    ensures IsRecordStart(lines[c]) ==>
      Records(lines, c) == [RecordAt(lines, c)] + Records(lines, c + (if lines[c][0] == 'R' then 4 else 8))
    ensures !IsRecordStart(lines[c]) ==> Records(lines, c) == Records(lines, c + 1)
  {
  }

  /** Every record holds the satellite and the six epoch fields (its first
      line is always read) and only keys of the maps. */
  lemma RecordKeys(lines: seq<string>, c: nat)
    requires c < |lines| && IsRecordStart(lines[c])
    ensures var d := RecordAt(lines, c).data;
      && (forall k | k in d :: !IsAdded(k))
      && (forall k | IsDate(k) :: k in d)
  {
    var m := MapOf(lines[c][0]);
    var w := Window(lines, c, m);
    var n := Min(|w|, |m|);
    ExtractLinesKeys(Eval3, w, m, n);
    MapFirstRow(lines[c][0]);
    DateKeysFirstRow(m, n);
    MapKeysUpTo(lines[c][0], n);
  }

  /** The six epoch fields of a first row are among the keys of any rows
      that include it. */
  lemma DateKeysFirstRow(m: Layout, n: nat)
    requires 1 <= n <= |m| && DatedRow(m[0])
    ensures forall k | IsDate(k) :: k in KeysUpTo(m, n)
  {
    forall k | IsDate(k) ensures k in KeysUpTo(m, n) {
      var j := if k.Year? then 1 else if k.Month? then 2 else if k.Day? then 3
               else if k.Hour? then 4 else if k.Minute? then 5 else 6;
      assert m[0][j].key == k;
    }
  }

  /** No key of a map's rows is one `_read_record` adds. */
  lemma MapKeysUpTo(sys: char, n: nat)
    requires sys in "EGR" && n <= |MapOf(sys)|
    ensures forall k | k in KeysUpTo(MapOf(sys), n) :: !IsAdded(k)
  {
    forall k | k in KeysUpTo(MapOf(sys), n) ensures !IsAdded(k) {
      var r, j :| 0 <= r < n && 0 <= j < |MapOf(sys)[r]| && MapOf(sys)[r][j].key == k;
      MapKeysAreRead(sys, r, j);
    }
  }

  /** A first row: the satellite, then the six epoch fields. */
  predicate DatedRow(row: seq<Slot>) {
    && |row| >= 7 && row[0].key == Satellite
    && row[1].key == Year && row[2].key == Month && row[3].key == Day
    && row[4].key == Hour && row[5].key == Minute && row[6].key == Second
  }

  /** The first row of every map is a dated row. */
  lemma MapFirstRow(sys: char)
    requires sys in "EGR"
    ensures DatedRow(MapOf(sys)[0])
  {
    if sys == 'G' {
      GFirstRow();
    } else if sys == 'E' {
      EFirstRow();
    } else {
      RFirstRow();
    }
  }

  lemma GFirstRow()
    ensures DatedRow(GMap[0])
  {
    assert GMap[0] == GMap0;
  }

  lemma EFirstRow()
    ensures DatedRow(EMap[0])
  {
    assert EMap[0] == EMap0;
  }

  lemma RFirstRow()
    ensures DatedRow(RMap[0])
  {
    assert RMap[0] == RMap0;
  }

  /** The maps name no column that `read` adds itself. */
  lemma MapKeysAreRead(sys: char, r: nat, j: nat)
    requires sys in "EGR"
    requires r < |MapOf(sys)| && j < |MapOf(sys)[r]|
    ensures !IsAdded(MapOf(sys)[r][j].key)
  {
    var m: seq<seq<MapSlot>> := if sys == 'G' then GMap else if sys == 'E' then EMap else RMap;
    assert MapOf(sys) == m;
    assert m[r][j] is MapSlot;
  }

  /** The records read from line c on hold only keys of the maps. */
  lemma {:induction false} RecordsKeyed(lines: seq<string>, c: nat)
    ensures forall i, k | 0 <= i < |Records(lines, c)| && k in Records(lines, c)[i].data :: !IsAdded(k)
    decreases |lines| - c
  {
    if c < |lines| {
      if IsRecordStart(lines[c]) {
        var next := c + |MapOf(lines[c][0])|;
        RecordsKeyed(lines, next);
        RecordKeys(lines, c);
        var rest := Records(lines, next);
        assert Records(lines, c) == [RecordAt(lines, c)] + rest;
        forall i, k | 0 <= i < |Records(lines, c)| && k in Records(lines, c)[i].data ensures !IsAdded(k) {
          if i > 0 {
            assert Records(lines, c)[i] == rest[i - 1];
          }
        }
      } else {
        RecordsKeyed(lines, c + 1);
      }
    }
  }

  /** The keys of a record's row are exactly `df_fields`. */
  lemma Row3Keys(rec: Record3, session: nat)
    requires forall k | k in rec.data :: !IsAdded(k)
    ensures Row3(rec, session).Keys == Nav.DfFields
  {
    forall k ensures k in Row3(rec, session) <==> k in Nav.DfFields {
      Row3Member(rec, session, k);
    }
  }

  lemma Row3Member(rec: Record3, session: nat, k: NavKey)
    requires k in rec.data ==> !IsAdded(k)
    ensures k in Row3(rec, session) <==> k in Nav.DfFields
  {
    if k in rec.data && !IsDate(k) {
      assert k in Stamped(rec.data, session, TimeCell(rec.data));
    }
  }

  /** The row of a record: its session, the time gnsstime built, no
      epoch field, its other fields unchanged, and None for every column of
      `df_fields` it lacks. */
  lemma Row3Cells(rec: Record3, session: nat, k: NavKey)
    ensures var row := Row3(rec, session);
      && Session in row && row[Session] == Count(session)
      && Time in row && (TimeOf(rec.data).Ok? ==> row[Time] == Moment(TimeOf(rec.data).value))
      && (IsDate(k) ==> k !in row)
      && (k in rec.data && !IsDate(k) && !IsAdded(k) ==> k in row && row[k] == Val(rec.data[k]))
      && (k in Nav.DfFields && k !in rec.data && !IsAdded(k) ==> k in row && row[k] == Val(Absent))
  {
    Row3Added(rec, session);
    Row3Key(rec, session, k);
  }

  /** The row sets the session and the time. */
  lemma Row3Added(rec: Record3, session: nat)
    ensures var row := Row3(rec, session);
      && Session in row && row[Session] == Count(session)
      && Time in row && (TimeOf(rec.data).Ok? ==> row[Time] == Moment(TimeOf(rec.data).value))
  {
  }

  /** Any other key of the row: dropped when it is an epoch field, kept
      when the record read it, None when only `df_fields` names it. */
  lemma Row3Key(rec: Record3, session: nat, k: NavKey)
    ensures var row := Row3(rec, session);
      && (IsDate(k) ==> k !in row)
      && (k in rec.data && !IsDate(k) && !IsAdded(k) ==> k in row && row[k] == Val(rec.data[k]))
      && (k in Nav.DfFields && k !in rec.data && !IsAdded(k) ==> k in row && row[k] == Val(Absent))
  {
  }

  /** The time is built from the six epoch fields the record read, never
      from the defaults of `pop`: TypeError when one of them is not an int,
      otherwise the instant of the six, or ValueError when gnsstime
      refuses it. */
  lemma TimeRule(lines: seq<string>, c: nat)
    requires c < |lines| && IsRecordStart(lines[c])
    ensures var d := RecordAt(lines, c).data;
      && (forall k | IsDate(k) :: k in d)
      && EpochOf(d) == [d[Year], d[Month], d[Day], d[Hour], d[Minute], d[Second]]
      && var ints := d[Year].Int? && d[Month].Int? && d[Day].Int? && d[Hour].Int? && d[Minute].Int? && d[Second].Int?;
      && (TimeOf(d) == Err(TypeError) <==> !ints)
      && (ints ==> var t := GnssTime.Instant(d[Year].n, d[Month].n, d[Day].n, d[Hour].n, d[Minute].n, d[Second].n, 0);
           && (TimeOf(d) == Ok(t) <==> GnssTime.Valid(t))
           && (TimeOf(d) == Err(ValueError) <==> !GnssTime.Valid(t)))
  {
    RecordKeys(lines, c);
    TimeOfKeyed(RecordAt(lines, c).data);
  }

  /** The time of fields that hold all six epoch keys. */
  lemma TimeOfKeyed(d: map<NavKey, Field>)
    requires Year in d && Month in d && Day in d && Hour in d && Minute in d && Second in d
    ensures EpochOf(d) == [d[Year], d[Month], d[Day], d[Hour], d[Minute], d[Second]]
    ensures var ints := d[Year].Int? && d[Month].Int? && d[Day].Int? && d[Hour].Int? && d[Minute].Int? && d[Second].Int?;
      && (TimeOf(d) == Err(TypeError) <==> !ints)
      && (ints ==> var t := GnssTime.Instant(d[Year].n, d[Month].n, d[Day].n, d[Hour].n, d[Minute].n, d[Second].n, 0);
           && (TimeOf(d) == Ok(t) <==> GnssTime.Valid(t))
           && (TimeOf(d) == Err(ValueError) <==> !GnssTime.Valid(t)))
  {
  }

  /** With no time raising, the first failure is none, and conversely. */
  lemma {:induction false} TimeFailureNone(recs: seq<Record3>)
    ensures TimeFailure(recs) == None <==> forall i | 0 <= i < |recs| :: TimeOf(recs[i].data).Ok?
  {
    if recs != [] {
      TimeFailureNone(recs[1..]);
      if TimeOf(recs[0].data).Ok? {
        forall i | 0 <= i < |recs| && (forall j | 0 <= j < |recs| - 1 :: TimeOf(recs[1..][j].data).Ok?)
          ensures TimeOf(recs[i].data).Ok?
        {
          if i > 0 {
            assert recs[i] == recs[1..][i - 1];
          }
        }
      }
    }
  }

  /** The failure reported is that of the first record whose time raises. */
  lemma {:induction false} TimeFailureFirst(recs: seq<Record3>, i: nat)
    requires i < |recs| && TimeOf(recs[i].data).Err?
    requires forall j | 0 <= j < i :: TimeOf(recs[j].data).Ok?
    ensures TimeFailure(recs) == Some(TimeOf(recs[i].data).error)
  {
    if i > 0 {
      assert TimeOf(recs[0].data).Ok?;
      forall j | 0 <= j < i - 1 ensures TimeOf(recs[1..][j].data).Ok? {
        assert recs[1..][j] == recs[j + 1];
      }
      TimeFailureFirst(recs[1..], i - 1);
    }
  }

  /** Row i carries the session of record i: the length of the run of
      records of its satellite that it ends. */
  lemma NumberedAt(recs: seq<Record3>, i: nat)
    requires i < |recs|
    ensures Numbered(recs)[i] == Row3(recs[i], RunLength(Satellites(recs), i))
  {
    NumberingAt(recs, Satellites(recs), Row3, i);
  }

  /** The loop raises exactly when the time of some record raises, and
      then with the exception of the first such record. */
  lemma TableOfRaises(recs: seq<Record3>)
    ensures !TableOf(recs).Diverges?
    ensures TableOf(recs).Raised? <==> exists i | 0 <= i < |recs| :: TimeOf(recs[i].data).Err?
    ensures forall i | 0 <= i < |recs| && TimeOf(recs[i].data).Err? && (forall j | 0 <= j < i :: TimeOf(recs[j].data).Ok?) ::
      TableOf(recs) == Raised(TimeOf(recs[i].data).error)
  {
    TimeFailureNone(recs);
    forall i | 0 <= i < |recs| && TimeOf(recs[i].data).Err? && (forall j | 0 <= j < i :: TimeOf(recs[j].data).Ok?) {
      TimeFailureFirst(recs, i);
    }
  }

  /** A table of the records has one value per record in every column,
      and the columns are `df_fields`. */
  lemma TableOfColumns(lines: seq<string>, c: nat)
    ensures TableOf(Records(lines, c)).Done? ==>
      UniformColumns(TableOf(Records(lines, c)).value, Numbered(Records(lines, c)), Nav.DfFields)
  {
    var recs := Records(lines, c);
    if TimeFailure(recs) == None {
      var rows := Numbered(recs);
      RecordsKeyed(lines, c);
      forall i | 0 <= i < |rows| ensures rows[i].Keys == Nav.DfFields {
        NumberedAt(recs, i);
        Row3Keys(recs[i], RunLength(Satellites(recs), i));
      }
      ColumnsUniform(rows, Nav.DfFields);
    }
  }

  /** `read` raises exactly when the header scan raises or the time of
      some record does, and then with the exception of the first record
      whose time raises; otherwise every column of its table has one value
      per record, in input order, and the columns are `df_fields` (none
      when no record was read). */
  lemma TableShape(lines: seq<string>)
    ensures var (h, c) := HeaderScan(Texts(lines), 0, NoHeader); var recs := Records(lines, c);
      && !Table(lines).Diverges?
      && (Table(lines).Raised? <==> h.Err? || exists i | 0 <= i < |recs| :: TimeOf(recs[i].data).Err?)
      && (h.Ok? ==> forall i | 0 <= i < |recs| && TimeOf(recs[i].data).Err? && (forall j | 0 <= j < i :: TimeOf(recs[j].data).Ok?) ::
            Table(lines) == Raised(TimeOf(recs[i].data).error))
      && (Table(lines).Done? ==> UniformColumns(Table(lines).value, Numbered(recs), Nav.DfFields))
  {
    var (h, c) := HeaderScan(Texts(lines), 0, NoHeader);
    TableOfRaises(Records(lines, c));
    TableOfColumns(lines, c);
    if h.Ok? {
      assert Table(lines) == TableOf(Records(lines, c));
    }
  }
}
