/** What gnsstools/rinex/nav.py's `read` promises about its output, stated
    on the model of module Nav. */
module NavFacts {
  import opened Text
  import opened Fields
  import opened Rinex
  import opened Tables
  import opened NavMaps
  import opened NavLayouts
  import opened Nav

  /** A key an extractor dictionary may fill: not the satellite, not an
      epoch field and not one of the columns `read` adds itself. */
  predicate IsDataKey(k: NavKey) {
    !IsAdded(k) && !IsDate(k) && !k.Satellite?
  }

  /** A line is skipped exactly when it is blank, has no PRN or names a
      constellation other than E, G and R; a record line carries its
      constellation, its PRN, that constellation's dictionary and its epoch
      tokens. */
  lemma ClassifyRule(line: string, system: string)
    ensures Classify(line, system).Skipped? <==>
      IsBlank(line) || PrnOf(line) == Absent || SystemOf(line, system) !in {"E", "G", "R"}
    ensures Classify(line, system).Known? ==>
      var sys := SystemOf(line, system);
      Classify(line, system) == Known(sys, PrnOf(line), DictOf(sys).value, EpochTokens(line))
  {
  }

  /** A record of n lines starting at line c: IndexError when its lines run
      past the end, ValueError when its epoch does not split into six
      fields, TypeError when gnsstime refuses the six, else the record, and
      reading goes on right after its lines. */
  lemma StepAtRule(lines: seq<string>, c: nat, kind: LineKind, valid: seq<string> -> bool)
    requires kind.Known?
    ensures var st := StepAt(Eval, lines, c, kind, valid); var n := |kind.dict|;
      && (st.Fail? && st.error == IndexError <==> c + n > |lines|)
      && (c + n <= |lines| ==> (st.Emit? <==> |kind.toks| == 6 && valid(kind.toks)))
      && (c + n <= |lines| && |kind.toks| == 6 ==> (st.Fail? <==> st == Fail(TypeError)))
      && (st.Fail? ==> st.error in {IndexError, ValueError, TypeError})
      && (st.Emit? ==> st.next == c + n)
  {
  }

  /** What `read` does at line c: skip it exactly when it is blank, has no
      PRN or names a constellation other than E, G and R; otherwise raise
      IndexError when the record's 8 (E, G) or 4 (R) lines run past the end,
      ValueError when its epoch does not split into six fields, TypeError
      when gnsstime refuses the six, and else emit the record and continue right after its lines. */
  lemma StepRule(lines: seq<string>, system: string, valid: seq<string> -> bool, c: nat)
    requires c < |lines|
    ensures var st := Steps(lines, system, valid)[c]; var line := lines[c];
      && (st.Skip? <==> IsBlank(line) || PrnOf(line) == Absent || SystemOf(line, system) !in {"E", "G", "R"})
      && (!st.Skip? ==> var n := RecordLines(SystemOf(line, system));
           && (st.Fail? && st.error == IndexError <==> c + n > |lines|)
           && (c + n <= |lines| ==> (st.Emit? <==> |EpochTokens(line)| == 6 && valid(EpochTokens(line))))
           && (c + n <= |lines| && |EpochTokens(line)| == 6 ==> (st.Fail? <==> st == Fail(TypeError)))
           && (st.Fail? ==> st.error in {IndexError, ValueError, TypeError})
           && (st.Emit? ==> st.next == c + n))
  {
    var line := lines[c];
    var kind := Classify(line, system);
    StepsAt(lines, system, valid, c);
    ClassifyRule(line, system);
    if kind.Known? {
      StepAtRule(lines, c, kind, valid);
    }
  }

  /** Every extractor dictionary has no repeated key and fills data keys
      only. */
  lemma DictFacts(sys: string)
    requires DictOf(sys).Some?
    ensures UniqueKeys(DictOf(sys).value)
    ensures var d := DictOf(sys).value;
      forall r, j | 0 <= r < |d| && 0 <= j < |d[r]| :: IsDataKey(d[r][j].key)
  {
    if sys == "E" { EDictUnique(); }
    else if sys == "G" { GDictUnique(); }
    else { RDictUnique(); }
  }

  /** An emitted record is of the line's constellation, and its fields are
      its lines read through that constellation's dictionary. */
  lemma EmitRecord(lines: seq<string>, system: string, valid: seq<string> -> bool, c: nat)
    requires c < |lines| && Steps(lines, system, valid)[c].Emit?
    ensures var rec := Steps(lines, system, valid)[c].rec;
      && lines[c] != []
      && rec.system == SystemOf(lines[c], system)
      && DictOf(rec.system).Some?
      && c + |DictOf(rec.system).value| <= |lines|
      && rec.fields == Decoded(Eval, Extract(Verbatim, lines[c..c + |DictOf(rec.system).value|], DictOf(rec.system).value))
  {
    StepsAt(lines, system, valid, c);
    var kind := Classify(lines[c], system);
    assert kind.Known? && kind.sys == SystemOf(lines[c], system);
    var fields := RecordFields(Eval, lines, c, kind.dict);
    assert fields.Ok? && Steps(lines, system, valid)[c].rec == Emitted(kind, fields.value);
  }

  /** An emitted record holds, under the key of each slot of its
      constellation's dictionary, `_eval` of that slot's columns on the
      slot's line of the record. */
  lemma EmitFields(lines: seq<string>, system: string, valid: seq<string> -> bool, c: nat, r: nat, j: nat)
    requires c < |lines| && Steps(lines, system, valid)[c].Emit?
    requires var d := DictOf(Steps(lines, system, valid)[c].rec.system);
      d.Some? && r < |d.value| && j < |d.value[r]|
    ensures var rec := Steps(lines, system, valid)[c].rec;
      var s := DictOf(rec.system).value[r][j];
      && c + r < |lines|
      && s.key in rec.fields
      && rec.fields[s.key] == Eval(Slice(lines[c + r], s.start, s.end))
  {
    EmitRecord(lines, system, valid, c);
    var rec := Steps(lines, system, valid)[c].rec;
    DictFacts(rec.system);
    RecordSlot(rec.fields, lines, c, DictOf(rec.system).value, r, j);
  }

  lemma RecordSlot(fields: map<NavKey, Field>, lines: seq<string>, c: nat, d: Layout, r: nat, j: nat)
    requires c + |d| <= |lines| && UniqueKeys(d) && r < |d| && j < |d[r]|
    requires fields == Decoded(Eval, Extract(Verbatim, lines[c..c + |d|], d))
    ensures d[r][j].key in fields && fields[d[r][j].key] == Eval(Slice(lines[c + r], d[r][j].start, d[r][j].end))
  {
    var ls := lines[c..c + |d|];
    DecodedSlot(Eval, ls, d, r, j);
    assert ls[r] == lines[c + r];
  }

  /** The keys of an emitted record are the keys of its dictionary, all of
      them data keys. */
  lemma EmitKeys(lines: seq<string>, system: string, valid: seq<string> -> bool, c: nat)
    requires c < |lines| && Steps(lines, system, valid)[c].Emit?
    ensures var rec := Steps(lines, system, valid)[c].rec;
      DictOf(rec.system).Some? &&
      rec.fields.Keys == KeysUpTo(DictOf(rec.system).value, |DictOf(rec.system).value|)
    ensures forall k | k in Steps(lines, system, valid)[c].rec.fields :: IsDataKey(k)
  {
    EmitRecord(lines, system, valid, c);
    var rec := Steps(lines, system, valid)[c].rec;
    DictFacts(rec.system);
    RecordKeys(Eval, rec.fields, lines, c, DictOf(rec.system).value);
  }

  lemma RecordKeys<V>(dec: string -> V, fields: map<NavKey, V>, lines: seq<string>, c: nat, d: Layout)
    requires c + |d| <= |lines|
    requires fields == Decoded(dec, Extract(Verbatim, lines[c..c + |d|], d))
    ensures fields.Keys == KeysUpTo(d, |d|)
  {
    ExtractLinesKeys(Verbatim, lines[c..c + |d|], d, |d|);
  }

  /** Every record a step sequence can emit fills data keys only. */
  predicate AllKeyed(steps: seq<Step>) {
    forall c | 0 <= c < |steps| && steps[c].Emit? :: forall k | k in steps[c].rec.fields :: IsDataKey(k)
  }

  lemma StepsKeyed(lines: seq<string>, system: string, valid: seq<string> -> bool)
    ensures AllKeyed(Steps(lines, system, valid))
  {
    forall c | 0 <= c < |lines| && Steps(lines, system, valid)[c].Emit?
      ensures forall k | k in Steps(lines, system, valid)[c].rec.fields :: IsDataKey(k)
    {
      EmitKeys(lines, system, valid, c);
    }
  }

  /** The records read from line c on are records the steps emit. */
  lemma {:induction false} RecordsKeyed(steps: seq<Step>, c: nat)
    requires AllKeyed(steps) && Records(steps, c).Ok?
    ensures forall i, k | 0 <= i < |Records(steps, c).value| && k in Records(steps, c).value[i].fields :: IsDataKey(k)
    decreases |steps| - c
  {
    if c < |steps| {
      match steps[c]
      case Skip => RecordsKeyed(steps, c + 1);
      case Emit(rec, next) =>
        RecordsKeyed(steps, next);
        var rest := Records(steps, next).value;
        assert Records(steps, c).value == [rec] + rest;
    }
  }

  /** A record whose dictionary holds data keys only fills every column of
      the table. */
  lemma NavRowKeys(rec: NavRecord, session: nat)
    requires forall k | k in rec.fields :: IsDataKey(k)
    ensures NavRow(rec, session).Keys == NavColumns
  {
    var row := NavRow(rec, session);
    forall k ensures k in row <==> k in NavColumns {
      if k in NavColumns && !k.Time? && !k.Session? && !k.System? && !k.Prn? && k !in rec.fields {
        assert k in DfFields;
      }
    }
  }

  /** The four cells `read` sets itself: time, session, system and prn. */
  lemma NavRowAdded(rec: NavRecord, session: nat)
    ensures var row := NavRow(rec, session);
      && Time in row && row[Time] == Date(rec.epoch)
      && Session in row && row[Session] == Count(session)
      && System in row && row[System] == Label(rec.system)
      && Prn in row && row[Prn] == Val(rec.prn)
  {
  }

  /** A field of the record's dictionary keeps its value in the row. */
  lemma NavRowField(rec: NavRecord, session: nat, k: NavKey)
    requires k in rec.fields && !IsAdded(k)
    ensures k in NavRow(rec, session) && NavRow(rec, session)[k] == Val(rec.fields[k])
  {
  }

  /** A column of `df_fields` the record lacks gets None; the satellite
      column always does, since no dictionary fills it. */
  lemma NavRowNone(rec: NavRecord, session: nat, k: NavKey)
    requires k !in rec.fields && k in DfFields && !IsAdded(k)
    ensures k in NavRow(rec, session) && NavRow(rec, session)[k] == Val(Absent)
  {
  }

  /** Row i carries the session of record i: the length of the run of
      records of its satellite that it ends. */
  lemma NumberedAt(recs: seq<NavRecord>, i: nat)
    requires i < |recs|
    ensures Numbered(recs)[i] == NavRow(recs[i], RunLength(Satellites(recs), i))
  {
    NumberingAt(recs, Satellites(recs), NavRow, i);
  }


  /** Every step that raises raises IndexError, ValueError or TypeError. */
  predicate FailsKnown(steps: seq<Step>) {
    forall c | 0 <= c < |steps| && steps[c].Fail? :: steps[c].error in {IndexError, ValueError, TypeError}
  }

  lemma StepsFailKnown(lines: seq<string>, system: string, valid: seq<string> -> bool)
    ensures FailsKnown(Steps(lines, system, valid))
  {
    forall c | 0 <= c < |lines| && Steps(lines, system, valid)[c].Fail?
      ensures Steps(lines, system, valid)[c].error in {IndexError, ValueError, TypeError}
    {
      StepRule(lines, system, valid, c);
    }
  }

  /** Collecting the records raises only what some step raises. */
  lemma {:induction false} RecordsErrors(steps: seq<Step>, c: nat)
    requires FailsKnown(steps)
    ensures Records(steps, c).Err? ==> Records(steps, c).error in {IndexError, ValueError, TypeError}
    decreases |steps| - c
  {
    if c < |steps| {
      match steps[c]
      case Skip => RecordsErrors(steps, c + 1);
      case Fail(_) =>
      case Emit(_, next) =>
        if next > c {
          RecordsErrors(steps, next);
        }
    }
  }

  /** The records `read` collects from the file, when it does not raise. */
  function ReadRecordsOf(lines: seq<string>, system: string, valid: seq<string> -> bool): Result<seq<NavRecord>> {
    Records(Steps(lines, system, valid), Start(lines))
  }

  /** `read` returns a table exactly when collecting the records raises
      nothing; then every column of the table has one value per record, in
      input order, and the columns are all of `df_fields` plus system and
      prn (none when no record was read); otherwise it raises IndexError,
      ValueError or TypeError. */
  lemma TableShape(lines: seq<string>, system: string, valid: seq<string> -> bool)
    ensures Table(lines, system, valid).Done? <==> ReadRecordsOf(lines, system, valid).Ok?
    ensures Table(lines, system, valid).Raised? ==> Table(lines, system, valid).error in {IndexError, ValueError, TypeError}
    ensures Table(lines, system, valid).Done? ==>
      UniformColumns(Table(lines, system, valid).value, Numbered(ReadRecordsOf(lines, system, valid).value), NavColumns)
  {
    var steps := Steps(lines, system, valid);
    StepsFailKnown(lines, system, valid);
    RecordsErrors(steps, Start(lines));
    if Records(steps, Start(lines)).Ok? {
      var recs := Records(steps, Start(lines)).value;
      StepsKeyed(lines, system, valid);
      RecordsKeyed(steps, Start(lines));
      var rows := Numbered(recs);
      forall i | 0 <= i < |rows| ensures rows[i].Keys == NavColumns {
        NumberedAt(recs, i);
        NavRowKeys(recs[i], RunLength(Satellites(recs), i));
      }
      ColumnsUniform(rows, NavColumns);
    }
  }

  /** Column by column, record i of the table: its time, its session (the
      length of the run of records of its satellite that it ends), its
      constellation and PRN, and every data field it has or else None. */
  lemma TableCells(lines: seq<string>, system: string, valid: seq<string> -> bool, i: nat)
    requires Table(lines, system, valid).Done? && i < |ReadRecordsOf(lines, system, valid).value|
    ensures var recs := ReadRecordsOf(lines, system, valid).value; var cols := Table(lines, system, valid).value;
      && Time in cols && i < |cols[Time]| && cols[Time][i] == Date(recs[i].epoch)
      && Session in cols && i < |cols[Session]| && cols[Session][i] == Count(RunLength(Satellites(recs), i))
      && System in cols && i < |cols[System]| && cols[System][i] == Label(recs[i].system)
      && Prn in cols && i < |cols[Prn]| && cols[Prn][i] == Val(recs[i].prn)
  {
    var recs := ReadRecordsOf(lines, system, valid).value;
    TableShape(lines, system, valid);
    NumberedAt(recs, i);
    NavRowAdded(recs[i], RunLength(Satellites(recs), i));
  }

  /** Every other column of record i holds the field the record read, or
      None when its dictionary has no such field; the satellite column is
      None throughout. */
  lemma TableData(lines: seq<string>, system: string, valid: seq<string> -> bool, i: nat, k: NavKey)
    requires Table(lines, system, valid).Done? && i < |ReadRecordsOf(lines, system, valid).value|
    requires !IsDate(k) && !IsAdded(k)
    ensures var rec := ReadRecordsOf(lines, system, valid).value[i]; var cols := Table(lines, system, valid).value;
      && k in cols && i < |cols[k]|
      && cols[k][i] == if k in rec.fields then Val(rec.fields[k]) else Val(Absent)
    ensures k.Satellite? ==> Table(lines, system, valid).value[k][i] == Val(Absent)
  {
    var recs := ReadRecordsOf(lines, system, valid).value;
    TableShape(lines, system, valid);
    StepsKeyed(lines, system, valid);
    RecordsKeyed(Steps(lines, system, valid), Start(lines));
    NumberedCell(recs, i, k);
  }

  /** Row i of the records, at a column that is not added by `read`. */
  lemma NumberedCell(recs: seq<NavRecord>, i: nat, k: NavKey)
    requires i < |recs| && forall k | k in recs[i].fields :: IsDataKey(k)
    requires !IsDate(k) && !IsAdded(k)
    ensures k in Numbered(recs)[i]
    ensures Numbered(recs)[i][k] == if k in recs[i].fields then Val(recs[i].fields[k]) else Val(Absent)
  {
    NumberedAt(recs, i);
    var session := RunLength(Satellites(recs), i);
    if k in recs[i].fields {
      NavRowField(recs[i], session, k);
    } else {
      NavRowNone(recs[i], session, k);
    }
  }

  /** A one-digit PRN blank-padded in columns 1-3 reads as that digit. */
  lemma PaddedDigit(d: char)
    requires IsDigit(d)
    ensures Eval([' ', d]) == Int(DigitValue(d))
    ensures IntToString(DigitValue(d)) == [d]
  {
    EvalPaddedDigits(" ", 0, [d], "");
    assert " " + (seq(0, _ => '0') + [d]) + "" == [' ', d];
    assert [d][..0] == [];
  }

  /** The PRN of an explicit record line "G 2..." is the digit. */
  lemma PrnDigit(line: string)
    requires |line| >= 3 && line[1] == ' ' && IsDigit(line[2])
    requires line[0] != ' ' && !IsDigit(line[0])
    ensures PrnOf(line) == Int(DigitValue(line[2]))
  {
    assert PrnText(line) == [' ', line[2]];
    PaddedDigit(line[2]);
  }

  /** The satellite key is the constellation letter followed by the PRN as
      Python prints an int, without zero padding: a record line "G 2..."
      is filed under "G2", not the "G02" of the comment beside that code. */
  lemma SatelliteUnpadded(line: string, system: string)
    requires |line| >= 3 && line[1] == ' ' && IsDigit(line[2])
    requires line[0] != ' ' && !IsDigit(line[0])
    ensures SatelliteOf(SystemOf(line, system), PrnOf(line)) == [line[0], line[2]]
  {
    PrnDigit(line);
    PaddedDigit(line[2]);
  }
}
