/** What gnsstools/rinex/obs3.py promises about its header, its epoch
    lines, its satellite lines and its table, stated on the model of module
    Obs3. */
module Obs3Facts {
  import opened Text
  import opened Fields
  import opened Rinex
  import opened Tables
  import opened ObsText
  import opened Obs3
  import Obs2
  import Obs2Facts

  // ---------------------------------------------------------------------
  // Header

  /** A types line names its system by its first column and gives its
      count in columns 1-6. */
  lemma TypesLineShape(line: string)
    ensures TextOf(line).TypesLine? <==> Obs2.Category(line) == TypesLabel
    ensures TextOf(line).TypesLine? ==> |line| > 60 && TextOf(line) == TypesLine([line[0]], IntOf(Slice(line, 1, 6)))
    ensures TextOf(line).EndLine? <==> Obs2.Category(line) == EndOfHeader
  {
  }

  /** A types count that is not an int raised ValueError. */
  predicate CountsParsed(ts: seq<HeaderText>) {
    forall k | 0 <= k < |ts| :: ts[k].TypesLine? && ts[k].count.Err? ==> ts[k].count.error == ValueError
  }

  lemma TextsParsed(lines: seq<string>)
    ensures CountsParsed(Texts(lines))
  {
    forall k | 0 <= k < |lines| ensures Texts(lines)[k].TypesLine? && Texts(lines)[k].count.Err? ==> Texts(lines)[k].count.error == ValueError {
      TextsAt(lines, k);
    }
  }

  /** Every system keeps the types it had, in front of any it gains. */
  predicate Grown(before: map<string, seq<string>>, after: map<string, seq<string>>) {
    forall s | s in before :: s in after && |before[s]| <= |after[s]| && after[s][..|before[s]|] == before[s]
  }

  lemma GrownExtend(types: map<string, seq<string>>, system: string, words: seq<string>)
    ensures Grown(types, Extend(types, system, words))
  {
    forall s | s in types
      ensures var t := Extend(types, system, words); s in t && |types[s]| <= |t[s]| && t[s][..|types[s]|] == types[s]
    {
      ExtendDeclared(types, system, words, s);
    }
  }

  lemma GrownTrans(a: map<string, seq<string>>, b: map<string, seq<string>>, c: map<string, seq<string>>)
    requires Grown(a, b) && Grown(b, c)
    ensures Grown(a, c)
  {
    forall s | s in a ensures s in c && |a[s]| <= |c[s]| && c[s][..|a[s]|] == a[s] {
      assert c[s][..|a[s]|] == c[s][..|b[s]|][..|a[s]|];
    }
  }

  /** The header scan from line c ends on an END OF HEADER line, every
      system keeping the types found so far in front of its own; it raises
      only ValueError (a count that is no int) or IndexError (the file ends
      first); it turns forever only on a types line whose count is zero or
      less. */
  lemma {:induction false} HeaderFromShape(ts: seq<HeaderText>, ws: seq<seq<string>>, c: nat, types: map<string, seq<string>>)
    requires |ws| == |ts| && c < |ts| && CountsParsed(ts)
    ensures var o := HeaderFrom(ts, ws, c, types);
      && (o.Done? ==> ts[o.value.1].EndLine? && Grown(types, o.value.0))
      && (o.Raised? ==> o.error in {ValueError, IndexError})
      && (o.Diverges? ==> exists k | c <= k < |ts| :: ts[k].TypesLine? && ts[k].count.Ok? && ts[k].count.value <= 0)
    decreases |ts| - c
  {
    match ts[c]
    case EndLine =>
    case TypesLine(system, count) =>
      if count.Ok? {
        var rows := CeilDiv(count.value, 13);
        if rows > 0 && c + rows < |ts| {
          var more := Extend(types, system, Gathered(ws, c, c + rows));
          HeaderFromShape(ts, ws, c + rows, more);
          var o := HeaderFrom(ts, ws, c + rows, more);
          if o.Done? {
            GrownExtend(types, system, Gathered(ws, c, c + rows));
            GrownTrans(types, more, o.value.0);
          }
        }
      }
    case OtherLine =>
      if c + 1 < |ts| {
        HeaderFromShape(ts, ws, c + 1, types);
      }
  }

  /** `_read_header` returns with the cursor on an END OF HEADER line; it
      raises ValueError or IndexError; it never returns when a types line
      it reaches has a count of zero or less. */
  lemma HeaderShape(lines: seq<string>)
    ensures var o := Header(lines);
      && (o.Done? ==> o.value.1 < |lines| && Obs2.Category(lines[o.value.1]) == EndOfHeader)
      && (o.Raised? ==> o.error in {ValueError, IndexError})
      && (o.Diverges? ==> exists k | 0 <= k < |lines| ::
            Obs2.Category(lines[k]) == TypesLabel && IntOf(Slice(lines[k], 1, 6)).Ok? && IntOf(Slice(lines[k], 1, 6)).value <= 0)
  {
    if lines != [] {
      var ts, ws := Texts(lines), TypeRows(lines);
      TextsParsed(lines);
      HeaderFromShape(ts, ws, 0, map[]);
      var o := Header(lines);
      if o.Done? {
        TextsAt(lines, o.value.1);
      }
      if o.Diverges? {
        var k :| 0 <= k < |ts| && ts[k].TypesLine? && ts[k].count.Ok? && ts[k].count.value <= 0;
        TextsAt(lines, k);
      }
    }
  }

  /** Lines that are neither END OF HEADER nor types lines are passed over. */
  lemma {:induction false} HeaderFromOthers(ts: seq<HeaderText>, ws: seq<seq<string>>, c: nat, e: nat, types: map<string, seq<string>>)
    requires |ws| == |ts| && c <= e < |ts|
    requires forall k | c <= k < e :: ts[k].OtherLine?
    ensures HeaderFrom(ts, ws, c, types) == HeaderFrom(ts, ws, e, types)
    decreases e - c
  {
    if c < e {
      HeaderOtherStep(ts, ws, c, types);
      HeaderFromOthers(ts, ws, c + 1, e, types);
    }
  }

  /** Lines that are neither END OF HEADER nor types lines. */
  predicate OtherLines(lines: seq<string>, e: nat)
    requires e <= |lines|
  {
    forall k | 0 <= k < e :: Obs2.Category(lines[k]) != EndOfHeader && Obs2.Category(lines[k]) != TypesLabel
  }

  lemma OtherTexts(lines: seq<string>, e: nat)
    requires e <= |lines| && OtherLines(lines, e)
    ensures forall k | 0 <= k < e :: Texts(lines)[k].OtherLine?
  {
    forall k | 0 <= k < e ensures Texts(lines)[k].OtherLine? {
      TextsAt(lines, k);
    }
  }

  /** A header without a types line declares no types for any system. */
  lemma HeaderNoTypes(lines: seq<string>, e: nat)
    requires e < |lines| && OtherLines(lines, e) && Obs2.Category(lines[e]) == EndOfHeader
    ensures Header(lines) == Done((map[], e))
  {
    var ts, ws := Texts(lines), TypeRows(lines);
    OtherTexts(lines, e);
    HeaderFromOthers(ts, ws, 0, e, map[]);
    TextsAt(lines, e);
  }

  /** A header with one types line of one to thirteen types, followed by
      END OF HEADER: its system declares the words of columns 7-60 of that
      line, and no other system declares any. */
  lemma HeaderOneBlock(lines: seq<string>, k: nat, n: int)
    requires k + 1 < |lines| && OtherLines(lines, k)
    requires Obs2.Category(lines[k]) == TypesLabel && IntOf(Slice(lines[k], 1, 6)) == Ok(n) && 1 <= n <= 13
    requires Obs2.Category(lines[k + 1]) == EndOfHeader
    ensures |lines[k]| > 60 && Header(lines) == Done((map[[lines[k][0]] := TypeWords(lines[k])], k + 1))
  {
    CategoryLength(lines[k]);
    OneBlockTexts(lines, k, n);
    HeaderOneBlockFrom(Texts(lines), TypeRows(lines), k, [lines[k][0]], n);
  }

  /** The line tables of such a header. */
  lemma OneBlockTexts(lines: seq<string>, k: nat, n: int)
    requires k + 1 < |lines| && OtherLines(lines, k)
    requires Obs2.Category(lines[k]) == TypesLabel && IntOf(Slice(lines[k], 1, 6)) == Ok(n)
    requires Obs2.Category(lines[k + 1]) == EndOfHeader
    ensures forall i | 0 <= i < k :: Texts(lines)[i].OtherLine?
    ensures Texts(lines)[k] == TypesLine([lines[k][0]], Ok(n)) && Texts(lines)[k + 1] == EndLine
    ensures TypeRows(lines)[k] == TypeWords(lines[k])
  {
    OtherTexts(lines, k);
    assert Texts(lines)[k] == TypesLine([lines[k][0]], Ok(n)) by {
      TextsAt(lines, k);
    }
    assert Texts(lines)[k + 1] == EndLine by {
      TextsAt(lines, k + 1);
    }
    TypeRowsAt(lines, k);
  }

  /** HeaderOneBlock on the header's line tables. */
  lemma HeaderOneBlockFrom(ts: seq<HeaderText>, ws: seq<seq<string>>, k: nat, system: string, n: int)
    requires |ws| == |ts| && k + 1 < |ts| && forall i | 0 <= i < k :: ts[i].OtherLine?
    requires ts[k] == TypesLine(system, Ok(n)) && 1 <= n <= 13 && ts[k + 1] == EndLine
    ensures HeaderFrom(ts, ws, 0, map[]) == Done((map[system := ws[k]], k + 1))
  {
    HeaderFromOthers(ts, ws, 0, k, map[]);
    assert CeilDiv(n, 13) == 1;
    HeaderTypesStep(ts, ws, k, map[], 1);
    assert Extend(map[], system, Gathered(ws, k, k + 1)) == map[system := ws[k]] by {
      assert Gathered(ws, k, k + 1) == Gathered(ws, k, k) + ws[k] == ws[k];
      assert Declared(map[], system) + ws[k] == ws[k];
    }
  }

  // ---------------------------------------------------------------------
  // Satellite lines

  /** Field k of `_read_obs`, when no later field has the same name, holds
      slot k decoded; the keys are the fields read. */
  lemma {:induction false} ObservedKeys(dec: string -> Field, line: string, fields: seq<string>, m: nat)
    requires m <= |fields|
    ensures Observed(dec, line, fields, m).Keys == set f | f in fields[..m]
  {
    if m > 0 {
      ObservedKeys(dec, line, fields, m - 1);
      var v := Val(dec(SlotText(line, m - 1)));
      assert Observed(dec, line, fields, m) == Observed(dec, line, fields, m - 1)[fields[m - 1] := v];
      assert fields[..m] == fields[..m - 1] + [fields[m - 1]];
    }
  }

  lemma {:induction false} ObservedLast(dec: string -> Field, line: string, fields: seq<string>, m: nat, k: nat)
    requires k < m <= |fields|
    requires forall j | k < j < m :: fields[j] != fields[k]
    ensures fields[k] in Observed(dec, line, fields, m)
    ensures Observed(dec, line, fields, m)[fields[k]] == Val(dec(SlotText(line, k)))
  {
    var v := Val(dec(SlotText(line, m - 1)));
    assert Observed(dec, line, fields, m) == Observed(dec, line, fields, m - 1)[fields[m - 1] := v];
    if k < m - 1 {
      ObservedLast(dec, line, fields, m - 1, k);
      assert fields[m - 1] != fields[k];
    }
  }

  /** One entry per declared type: the record of a satellite line holds
      the types its system declares, the date, the system and the PRN, and
      nothing else, filed under the system and the PRN printed one after
      the other. */
  lemma SatObsKeys(dec: string -> Field, line: string, types: map<string, seq<string>>, date: seq<string>)
    requires line != []
    ensures var o, fields := SatObs(dec, line, types, date), FieldsOf(types, dec([line[0]]));
      && o.row.Keys == (set f | f in fields) + {"Date", "System", "PRN"}
      && o.row["Date"] == Date(date) && o.row["System"] == Val(dec([line[0]])) && o.row["PRN"] == Val(dec(Slice(line, 1, 3)))
      && o.satellite == Render(dec([line[0]])) + Render(dec(Slice(line, 1, 3)))
  {
    var fields := FieldsOf(types, dec([line[0]]));
    ObservedKeys(dec, line, fields, |fields|);
    assert fields[..|fields|] == fields;
  }

  /** A system without a types line in the header (or one that decodes to
      no text) gives records with no observation at all. */
  lemma UndeclaredSystem(dec: string -> Field, line: string, types: map<string, seq<string>>, date: seq<string>)
    requires line != []
    requires !(dec([line[0]]).Str? && dec([line[0]]).text in types)
    ensures SatObs(dec, line, types, date).row.Keys == {"Date", "System", "PRN"}
  {
    SatObsKeys(dec, line, types, date);
  }

  /** A type its system declares once holds its slot of the line decoded. */
  lemma SatObsField(dec: string -> Field, line: string, types: map<string, seq<string>>, date: seq<string>, fields: seq<string>, k: nat)
    requires line != [] && fields == FieldsOf(types, dec([line[0]]))
    requires k < |fields| && fields[k] !in {"Date", "System", "PRN"}
    requires forall j | k < j < |fields| :: fields[j] != fields[k]
    ensures fields[k] in SatObs(dec, line, types, date).row
    ensures SatObs(dec, line, types, date).row[fields[k]] == Val(dec(SlotText(line, k)))
  {
    ObservedLast(dec, line, fields, |fields|, k);
  }

  // ---------------------------------------------------------------------
  // Epochs

  /** n positions from d that all give a value: the block is those values
      in order. */
  lemma {:induction false} BlockAll<T>(per: seq<Result<T>>, d: nat, n: nat)
    requires d + n <= |per| && forall i | d <= i < d + n :: per[i].Ok?
    ensures Block(per, d, n).Ok?
    ensures forall j | 0 <= j < n :: Block(per, d, n).value[j] == per[d + j].value
    decreases n
  {
    if n > 0 {
      BlockAll(per, d + 1, n - 1);
      var rest := Block(per, d + 1, n - 1).value;
      assert Block(per, d, n) == Ok([per[d].value] + rest);
      forall j | 0 <= j < n ensures Block(per, d, n).value[j] == per[d + j].value {
        if j > 0 {
          assert per[(d + 1) + (j - 1)] == per[d + j];
        }
      }
    }
  }

  /** A block raises only what a position gives, or IndexError. */
  lemma {:induction false} BlockError<T>(per: seq<Result<T>>, d: nat, n: nat, errors: set<Error>)
    requires IndexError in errors && forall j | 0 <= j < |per| :: per[j].Err? ==> per[j].error in errors
    ensures Block(per, d, n).Err? ==> Block(per, d, n).error in errors
    decreases n
  {
    if n > 0 && d < |per| && per[d].Ok? {
      BlockError(per, d + 1, n - 1, errors);
    }
  }

  /** n non-empty lines from d give one record each, in order. */
  lemma EpochSatsAll(dec: string -> Field, lines: seq<string>, d: nat, n: nat, types: map<string, seq<string>>, date: seq<string>)
    requires d + n <= |lines| && forall i | d <= i < d + n :: lines[i] != []
    ensures EpochSats(dec, lines, d, n, types, date).Ok?
    ensures forall j | 0 <= j < n :: EpochSats(dec, lines, d, n, types, date).value[j] == SatObs(dec, lines[d + j], types, date)
  {
    forall i | d <= i < d + n ensures SatLines(dec, lines, types, date)[i] == Ok(SatObs(dec, lines[i], types, date)) {
      SatLinesAt(dec, lines, types, date, i);
    }
    BlockAll(SatLines(dec, lines, types, date), d, n);
    forall j | 0 <= j < n ensures Block(SatLines(dec, lines, types, date), d, n).value[j] == SatObs(dec, lines[d + j], types, date) {
      assert SatLines(dec, lines, types, date)[d + j] == Ok(SatObs(dec, lines[d + j], types, date));
    }
  }

  /** Record j of n non-empty lines from d is line d + j's. */
  lemma EpochSatAt(dec: string -> Field, lines: seq<string>, d: nat, n: nat, types: map<string, seq<string>>, date: seq<string>, j: nat)
    requires d + n <= |lines| && forall i | d <= i < d + n :: lines[i] != []
    requires j < n
    ensures EpochSats(dec, lines, d, n, types, date).Ok?
    ensures EpochSats(dec, lines, d, n, types, date).value[j] == SatObs(dec, lines[d + j], types, date)
  {
    EpochSatsAll(dec, lines, d, n, types, date);
  }

  /** Exactly the sat_num lines after an epoch line are its satellites, one
      record each, and the loop goes on at the line after them. */
  lemma EpochLines(lines: seq<string>, c: nat, types: map<string, seq<string>>, valid: seq<string> -> bool, n: nat)
    requires c + n < |lines| && !IsBlank(lines[c]) && lines[c][0] == '>' && valid(DateColumns(lines[c]))
    requires Eval(Slice(lines[c], 33, 35)) == Int(n)
    requires forall i | c < i <= c + n :: lines[i] != []
    ensures var st := StepAt(lines, c, types, valid);
      && st.Yield? && st.next == c + n + 1 && |st.records| == n
      && forall j | 0 <= j < n :: st.records[j] == SatObs(Eval, lines[c + 1 + j], types, DateColumns(lines[c]))
  {
    EpochLinesDated(lines, c, types, valid, n, DateColumns(lines[c]));
  }

  /** EpochLines with the epoch's date columns given a name. */
  lemma EpochLinesDated(lines: seq<string>, c: nat, types: map<string, seq<string>>, valid: seq<string> -> bool, n: nat,
                        date: seq<string>)
    requires c + n < |lines| && !IsBlank(lines[c]) && lines[c][0] == '>' && date == DateColumns(lines[c]) && valid(date)
    requires Eval(Slice(lines[c], 33, 35)) == Int(n)
    requires forall i | c < i <= c + n :: lines[i] != []
    ensures var st := StepAt(lines, c, types, valid);
      && st.Yield? && st.next == c + n + 1 && |st.records| == n
      && forall j | 0 <= j < n :: st.records[j] == SatObs(Eval, lines[c + 1 + j], types, date)
  {
    assert EpochSats(Eval, lines, c + 1, n, types, date).Ok? by {
      EpochSatsAll(Eval, lines, c + 1, n, types, date);
    }
    var obs := EpochSats(Eval, lines, c + 1, n, types, date).value;
    assert StepAt(lines, c, types, valid) == Yield(obs, c + n + 1);
    forall j | 0 <= j < n ensures obs[j] == SatObs(Eval, lines[c + 1 + j], types, date) {
      EpochSatAt(Eval, lines, c + 1, n, types, date, j);
    }
  }

  /** What one line does to the loop: a blank line and a line that does not
      start with `>` are passed over, one line on; no line leaves the cursor
      in place; an epoch line raises TypeError (a date gnsstime refuses),
      TypeError (a count that is no int) or IndexError (a satellite line
      missing or empty). */
  lemma StepRule(lines: seq<string>, c: nat, types: map<string, seq<string>>, valid: seq<string> -> bool)
    requires c < |lines|
    ensures var st := StepAt(lines, c, types, valid);
      && (st.Pass? <==> IsBlank(lines[c]) || lines[c][0] != '>')
      && !st.Stall?
      && (!st.Pass? && !valid(DateColumns(lines[c])) ==> st == Halt(TypeError))
      && (st.Halt? ==> st.error in {TypeError, IndexError})
  {
    var line := lines[c];
    if !IsBlank(line) && line[0] == '>' && valid(DateColumns(line)) {
      var date := DateColumns(line);
      var per := SatLines(Eval, lines, types, date);
      forall j | 0 <= j < |per| ensures per[j].Err? ==> per[j].error in {IndexError} {
        SatLinesAt(Eval, lines, types, date, j);
      }
      var count := Eval(Slice(line, 33, 35));
      if count.Int? {
        BlockError(per, c + 1, if count.n > 0 then count.n else 0, {IndexError});
      }
    }
  }

  /** The main loop of `read` always ends: it raises only TypeError or
      IndexError, and otherwise returns every record. */
  lemma EpochsShape(lines: seq<string>, c: nat, types: map<string, seq<string>>, valid: seq<string> -> bool)
    ensures var o := Epochs(lines, c, types, valid);
      && !o.Diverges?
      && (o.Raised? ==> o.error in {TypeError, IndexError})
  {
    var steps := Steps(lines, types, valid);
    StepsForward(lines, types, valid);
    ScanShape(steps, c);
    var o := Scan(steps, c);
    if o.Raised? {
      var k :| c <= k < |steps| && steps[k] == Halt(o.error);
      StepsAt(lines, types, valid, k);
      StepRule(lines, k, types, valid);
    }
    if o.Diverges? {
      var k :| c <= k < |steps| && steps[k].Stall?;
      StepsAt(lines, types, valid, k);
      StepRule(lines, k, types, valid);
    }
  }

  // ---------------------------------------------------------------------
  // Table

  /** The table holds every record once, grouped by satellite in order of
      first appearance; within one satellite the sessions are 1, 2, 3, ... */
  lemma TableGrouped(lines: seq<string>, valid: seq<string> -> bool, obs: seq<Obs2.Obs>, x: string)
    requires Header(lines).Done?
    requires Epochs(lines, Header(lines).value.1 + 1, Header(lines).value.0, valid) == Done(obs)
    ensures Table(lines, valid) == Done(Grouped(Obs2.Sats(obs), Obs2.Sessioned(obs)))
    ensures multiset(Table(lines, valid).value) == multiset(Obs2.Sessioned(obs))
    ensures var g := Select(Obs2.Sats(obs), Obs2.Sessioned(obs), x);
      forall j | 0 <= j < |g| :: "Session" in g[j] && g[j]["Session"] == Count(j + 1)
  {
    GroupedIsPermutation(Obs2.Sats(obs), Obs2.Sessioned(obs));
    Obs2Facts.SessionsNumbered(obs, x);
  }
}
