/** What gnsstools/rinex/obs2.py promises about its header, its epoch
    lines, its observation blocks and its table, stated on the model of
    module Obs2. */
module Obs2Facts {
  import opened Text
  import opened Fields
  import opened Rinex
  import opened Tables
  import opened ObsText
  import opened Obs2

  // ---------------------------------------------------------------------
  // Header

  /** A types count that is not an int raised ValueError. */
  predicate CountsParsed(ts: seq<HeaderText>) {
    forall k | 0 <= k < |ts| :: ts[k].TypesLine? && ts[k].count.Err? ==> ts[k].count.error == ValueError
  }

  /** The header scan from line c ends on an END OF HEADER line with the
      types found so far in front of its own; it raises only ValueError (a
      count that is no int) or IndexError (the file ends first); it turns
      forever only on a types line whose count is zero or less. */
  lemma {:induction false} HeaderFromShape(ts: seq<HeaderText>, ws: seq<seq<string>>, c: nat, fields: seq<string>)
    requires |ws| == |ts| && c < |ts| && CountsParsed(ts)
    ensures var o := HeaderFrom(ts, ws, c, fields);
      && (o.Done? ==> ts[o.value.1].EndLine? && |fields| <= |o.value.0| && o.value.0[..|fields|] == fields)
      && (o.Raised? ==> o.error in {ValueError, IndexError})
      && (o.Diverges? ==> exists k | c <= k < |ts| :: ts[k].TypesLine? && ts[k].count.Ok? && ts[k].count.value <= 0)
    decreases |ts| - c
  {
    match ts[c]
    case EndLine =>
    case TypesLine(count) =>
      if count.Ok? {
        var rows := CeilDiv(count.value, 9);
        if rows > 0 && c + rows < |ts| {
          var more := fields + Gathered(ws, c, c + rows);
          HeaderFromShape(ts, ws, c + rows, more);
          var o := HeaderFrom(ts, ws, c + rows, more);
          if o.Done? {
            assert o.value.0[..|fields|] == o.value.0[..|more|][..|fields|];
          }
        }
      }
    case OtherLine =>
      if c + 1 < |ts| {
        HeaderFromShape(ts, ws, c + 1, fields);
      }
  }

  lemma TextsParsed(lines: seq<string>)
    ensures CountsParsed(Texts(lines))
  {
    forall k | 0 <= k < |lines| ensures Texts(lines)[k].TypesLine? && Texts(lines)[k].count.Err? ==> Texts(lines)[k].count.error == ValueError {
      TextsAt(lines, k);
    }
  }

  /** `_read_header` returns with the cursor on an END OF HEADER line; it
      raises ValueError or IndexError; it never returns when a types line
      it reaches has a count of zero or less. */
  lemma HeaderShape(lines: seq<string>)
    ensures var o := Header(lines);
      && (o.Done? ==> o.value.1 < |lines| && Category(lines[o.value.1]) == EndOfHeader)
      && (o.Raised? ==> o.error in {ValueError, IndexError})
      && (o.Diverges? ==> exists k | 0 <= k < |lines| ::
            Category(lines[k]) == TypesLabel && IntOf(Slice(lines[k], 0, 6)).Ok? && IntOf(Slice(lines[k], 0, 6)).value <= 0)
  {
    if lines != [] {
      var ts, ws := Texts(lines), TypeRows(lines);
      TextsParsed(lines);
      HeaderFromShape(ts, ws, 0, []);
      var o := Header(lines);
      if o.Done? {
        TextsAt(lines, o.value.1);
      }
      if o.Diverges? {
        var k :| 0 <= k < |ts| && ts[k].TypesLine? && ts[k].count.Ok? && ts[k].count.value <= 0;
        TextsAt(lines, k);
      }
    }
  }

  /** Lines that are neither END OF HEADER nor types lines are passed over. */
  lemma {:induction false} HeaderFromOthers(ts: seq<HeaderText>, ws: seq<seq<string>>, c: nat, e: nat, fields: seq<string>)
    requires |ws| == |ts| && c <= e < |ts|
    requires forall k | c <= k < e :: ts[k].OtherLine?
    ensures HeaderFrom(ts, ws, c, fields) == HeaderFrom(ts, ws, e, fields)
    decreases e - c
  {
    if c < e {
      HeaderFromOthers(ts, ws, c + 1, e, fields);
    }
  }

  /** Lines that are neither END OF HEADER nor types lines. */
  predicate OtherLines(lines: seq<string>, e: nat)
    requires e <= |lines|
  {
    forall k | 0 <= k < e :: Category(lines[k]) != EndOfHeader && Category(lines[k]) != TypesLabel
  }

  lemma OtherTexts(lines: seq<string>, e: nat)
    requires e <= |lines| && OtherLines(lines, e)
    ensures forall k | 0 <= k < e :: Texts(lines)[k].OtherLine?
  {
    forall k | 0 <= k < e ensures Texts(lines)[k].OtherLine? {
      TextsAt(lines, k);
    }
  }

  /** A header without a types line declares no types. */
  lemma HeaderNoTypes(lines: seq<string>, e: nat)
    requires e < |lines| && OtherLines(lines, e) && Category(lines[e]) == EndOfHeader
    ensures Header(lines) == Done(([], e))
  {
    var ts, ws := Texts(lines), TypeRows(lines);
    OtherTexts(lines, e);
    HeaderFromOthers(ts, ws, 0, e, []);
    TextsAt(lines, e);
  }

  /** A header with one types line of one to nine types, followed by END
      OF HEADER: the types are the words of columns 6-60 of that line. */
  lemma HeaderOneBlock(lines: seq<string>, k: nat, n: int)
    requires k + 1 < |lines| && OtherLines(lines, k)
    requires Category(lines[k]) == TypesLabel && IntOf(Slice(lines[k], 0, 6)) == Ok(n) && 1 <= n <= 9
    requires Category(lines[k + 1]) == EndOfHeader
    ensures Header(lines) == Done((TypeWords(lines[k]), k + 1))
  {
    OneBlockTexts(lines, k, n);
  }

  /** The line tables of such a header. */
  lemma OneBlockTexts(lines: seq<string>, k: nat, n: int)
    requires k + 1 < |lines| && OtherLines(lines, k)
    requires Category(lines[k]) == TypesLabel && IntOf(Slice(lines[k], 0, 6)) == Ok(n) && 1 <= n <= 9
    requires Category(lines[k + 1]) == EndOfHeader
    ensures forall i | 0 <= i < k :: Texts(lines)[i].OtherLine?
    ensures Texts(lines)[k] == TypesLine(Ok(n)) && Texts(lines)[k + 1] == EndLine
    ensures TypeRows(lines)[k] == TypeWords(lines[k])
    ensures HeaderFrom(Texts(lines), TypeRows(lines), 0, []) == Done((TypeWords(lines[k]), k + 1))
  {
    OtherTexts(lines, k);
    assert Texts(lines)[k] == TypesLine(Ok(n)) by {
      TextsAt(lines, k);
    }
    assert Texts(lines)[k + 1] == EndLine by {
      TextsAt(lines, k + 1);
    }
    TypeRowsAt(lines, k);
    HeaderOneBlockFrom(Texts(lines), TypeRows(lines), k, n, k + 1);
  }

  /** HeaderOneBlock on the header's line tables. */
  lemma HeaderOneBlockFrom(ts: seq<HeaderText>, ws: seq<seq<string>>, k: nat, n: int, e: nat)
    requires |ws| == |ts| && e == k + 1 < |ts| && forall i | 0 <= i < k :: ts[i].OtherLine?
    requires ts[k] == TypesLine(Ok(n)) && 1 <= n <= 9 && ts[e] == EndLine
    ensures HeaderFrom(ts, ws, 0, []) == Done((ws[k], e))
  {
    HeaderFromOthers(ts, ws, 0, k, []);
    assert CeilDiv(n, 9) == 1;
    HeaderTypesStep(ts, ws, k, [], 1);
    assert [] + Gathered(ws, k, k + 1) == ws[k] by {
      assert Gathered(ws, k, k + 1) == Gathered(ws, k, k) + ws[k];
    }
  }

  // ---------------------------------------------------------------------
  // Epoch lines

  /** `_read_sat`: a count (columns 29-32) that is no int raises
      ValueError; a date gnsstime refuses gives no satellites and leaves the
      cursor. */
  lemma EpochRefused(lines: seq<string>, c: nat, valid: seq<string> -> bool)
    requires c < |lines|
    ensures var count := IntOf(Slice(lines[c], 29, 32));
      && (count.Err? ==> EpochAt(lines, c, valid) == Err(ValueError))
      && (count.Ok? && !valid(DateColumns(lines[c])) ==> EpochAt(lines, c, valid) == Ok(Epoch(DateColumns(lines[c]), [], c)))
  {
  }

  /** With a date gnsstime accepts, the ids and the line after them are
      what the satellite-list loop gives over the id slots of the lines from
      c on (so reading stops on the first line at which the count is
      reached, or raises IndexError when the file ends first). */
  lemma EpochRead(lines: seq<string>, c: nat, valid: seq<string> -> bool, n: int)
    requires c < |lines| && IntOf(Slice(lines[c], 29, 32)) == Ok(n) && valid(DateColumns(lines[c]))
    ensures var s := IdsFrom(LinesIds(lines, 32, 12), c, c, n);
      && (s.Ok? ==> EpochAt(lines, c, valid) == Ok(Epoch(DateColumns(lines[c]), s.value.0, s.value.1)))
      && (s.Err? ==> EpochAt(lines, c, valid) == Err(IndexError))
  {
    IdsFromShape(LinesIds(lines, 32, 12), c, c, n);
  }

  /** No satellite comes back exactly when the date is refused or the
      count is zero or less. */
  lemma EpochNoIds(lines: seq<string>, c: nat, valid: seq<string> -> bool)
    requires c < |lines|
    ensures var count, r := IntOf(Slice(lines[c], 29, 32)), EpochAt(lines, c, valid);
      r.Ok? && r.value.ids == [] <==> count.Ok? && (!valid(DateColumns(lines[c])) || count.value <= 0)
  {
    var count := IntOf(Slice(lines[c], 29, 32));
    if count.Ok? && valid(DateColumns(lines[c])) {
      EpochRead(lines, c, valid, count.value);
      IdsFromShape(LinesIds(lines, 32, 12), c, c, count.value);
    }
  }

  // ---------------------------------------------------------------------
  // Observation blocks

  /** The dictionary has exactly the declared types as keys. */
  lemma {:induction false} FilledKeys(dec: string -> Field, fields: seq<string>, slots: seq<string>, m: nat)
    requires m <= |fields| && m <= |slots|
    ensures Filled(dec, fields, slots, m).Keys == set f | f in fields
  {
    if m > 0 {
      FilledKeys(dec, fields, slots, m - 1);
    }
  }

  /** A type read and not declared again later holds its slot's value. */
  lemma {:induction false} FilledLast(dec: string -> Field, fields: seq<string>, slots: seq<string>, m: nat, k: nat)
    requires k < m <= |fields| && m <= |slots|
    requires forall j | k < j < m :: fields[j] != fields[k]
    ensures fields[k] in Filled(dec, fields, slots, m) && Filled(dec, fields, slots, m)[fields[k]] == Val(dec(slots[k]))
  {
    FilledKeys(dec, fields, slots, m);
    if k < m - 1 {
      FilledLast(dec, fields, slots, m - 1, k);
    }
  }

  /** A type not reached keeps NaN. */
  lemma {:induction false} FilledUnread(dec: string -> Field, fields: seq<string>, slots: seq<string>, m: nat, x: string)
    requires m <= |fields| && m <= |slots| && x in fields
    requires forall j | 0 <= j < m :: fields[j] != x
    ensures x in Filled(dec, fields, slots, m) && Filled(dec, fields, slots, m)[x] == NaN
  {
    FilledKeys(dec, fields, slots, m);
    if m > 0 {
      FilledUnread(dec, fields, slots, m - 1, x);
    }
  }

  /** `_read_obs` raises IndexError exactly when the cursor is past the
      last line; otherwise its dictionary has the declared types as keys. */
  lemma ObsAtKeys(lines: seq<string>, c: nat, fields: seq<string>)
    ensures ObsAt(lines, c, fields).Err? <==> c >= |lines|
    ensures ObsAt(lines, c, fields).Err? ==> ObsAt(lines, c, fields).error == IndexError
    ensures ObsAt(lines, c, fields).Ok? ==> ObsAt(lines, c, fields).value.Keys == set f | f in fields
  {
    if c < |lines| {
      var e := ObsEnd(|fields|, c, |lines|);
      FilledKeys(Eval, fields, ObsSlots(lines)[5 * c..], Min(|fields|, 5 * (e - c)));
    }
  }

  /** Type 5j + i of a block at line c is slot i of line c + j, decoded
      (unless the same type is declared again later). */
  lemma ObsAtField(lines: seq<string>, c: nat, fields: seq<string>, j: nat, i: nat)
    requires c + j < |lines| && i < 5 && 5 * j + i < |fields|
    requires forall k | 5 * j + i < k < |fields| :: fields[k] != fields[5 * j + i]
    ensures ObsAt(lines, c, fields).Ok? && fields[5 * j + i] in ObsAt(lines, c, fields).value
    ensures ObsAt(lines, c, fields).value[fields[5 * j + i]] == Val(Eval(SlotText(lines[c + j], i)))
  {
    var e := ObsEnd(|fields|, c, |lines|);
    CeilFive(|fields|);
    ObsAtFieldFrom(lines, c, fields, j, i, e, ObsSlots(lines)[5 * c..], Min(|fields|, 5 * (e - c)));
  }

  lemma ObsAtFieldFrom(lines: seq<string>, c: nat, fields: seq<string>, j: nat, i: nat, e: nat, slots: seq<string>, m: nat)
    requires c + j < |lines| && i < 5 && 5 * j + i < |fields| && e == ObsEnd(|fields|, c, |lines|)
    requires c + j < e && slots == ObsSlots(lines)[5 * c..] && m == Min(|fields|, 5 * (e - c))
    requires forall k | 5 * j + i < k < |fields| :: fields[k] != fields[5 * j + i]
    ensures ObsAt(lines, c, fields) == Ok(Filled(Eval, fields, slots, m))
    ensures fields[5 * j + i] in Filled(Eval, fields, slots, m)
    ensures Filled(Eval, fields, slots, m)[fields[5 * j + i]] == Val(Eval(SlotText(lines[c + j], i)))
  {
    ObsAtFilled(lines, c, fields);
    ObsSlotsFrom(lines, c, j, i);
    FilledLast(Eval, fields, slots, m, 5 * j + i);
  }

  /** A block within the file is the dictionary of its first slots. */
  lemma ObsAtFilled(lines: seq<string>, c: nat, fields: seq<string>)
    requires c < |lines|
    ensures var e := ObsEnd(|fields|, c, |lines|);
      ObsAt(lines, c, fields) == Ok(Filled(Eval, fields, ObsSlots(lines)[5 * c..], Min(|fields|, 5 * (e - c))))
  {
    var e := ObsEnd(|fields|, c, |lines|);
    assert c <= e <= |lines|;
    assert ObsAt(lines, c, fields) == Ok(BlockData(Eval, lines, c, e, fields));
  }

  /** A block cut short by the end of the file leaves the types it does not
      reach at NaN. */
  lemma ObsAtCut(lines: seq<string>, c: nat, fields: seq<string>, k: nat)
    requires c < |lines| && 5 * (|lines| - c) <= k < |fields|
    requires forall j | 0 <= j < 5 * (|lines| - c) :: fields[j] != fields[k]
    ensures ObsAt(lines, c, fields).Ok? && fields[k] in ObsAt(lines, c, fields).value
    ensures ObsAt(lines, c, fields).value[fields[k]] == NaN
  {
    var e := ObsEnd(|fields|, c, |lines|);
    var m := Min(|fields|, 5 * (e - c));
    FilledUnread(Eval, fields, ObsSlots(lines)[5 * c..], m, fields[k]);
  }

  // ---------------------------------------------------------------------
  // Records and table

  /** The i-th record carries its session: one more than the number of
      earlier records of its satellite. */
  lemma {:induction false} SessionedAt(obs: seq<Obs>, i: nat)
    requires i < |obs|
    ensures Sessioned(obs)[i] == obs[i].row["Session" := Count(Ordinal(Sats(obs), i))]
  {
    var n := |obs| - 1;
    if i < n {
      var p := obs[..n];
      ButLastSnoc(obs);
      SessionedAt(p, i);
      SessionedSnoc(p, obs[n]);
      SatsSnoc(p, obs[n]);
      SnocPrefix(Sats(p), obs[n].satellite);
      OrdinalPrefix(Sats(obs), n, i);
      ConcatAt(Sessioned(p), [SessionRow(Sats(p), obs[n])], i);
    }
  }

  /** Within the records of one satellite, in input order, the sessions
      are 1, 2, 3, ... */
  lemma SessionsNumbered(obs: seq<Obs>, x: string)
    ensures var g := Select(Sats(obs), Sessioned(obs), x);
      forall j | 0 <= j < |g| :: "Session" in g[j] && g[j]["Session"] == Count(j + 1)
  {
    forall j | 0 <= j < |Select(Sats(obs), Sessioned(obs), x)|
      ensures "Session" in Select(Sats(obs), Sessioned(obs), x)[j]
      ensures Select(Sats(obs), Sessioned(obs), x)[j]["Session"] == Count(j + 1)
    {
      SelectedSession(obs, x, j);
    }
  }

  /** The j-th record of satellite x is its (j+1)-th occurrence. */
  lemma SelectedSession(obs: seq<Obs>, x: string, j: nat)
    requires j < |Select(Sats(obs), Sessioned(obs), x)|
    ensures "Session" in Select(Sats(obs), Sessioned(obs), x)[j]
    ensures Select(Sats(obs), Sessioned(obs), x)[j]["Session"] == Count(j + 1)
  {
    SelectAtPositions(Sats(obs), Sessioned(obs), x);
    PositionOrdinals(Sats(obs), x);
    SessionedAt(obs, Positions(Sats(obs), x)[j]);
  }

  /** The table holds every record once: it is a permutation of the
      records with their sessions. */
  lemma TablePermutation(lines: seq<string>, valid: seq<string> -> bool, obs: seq<Obs>)
    requires Header(lines).Done?
    requires Epochs(lines, Header(lines).value.1 + 1, Header(lines).value.0, valid) == Done(obs)
    ensures Table(lines, valid).Done?
    ensures multiset(Table(lines, valid).value) == multiset(Sessioned(obs))
  {
    GroupedIsPermutation(Sats(obs), Sessioned(obs));
  }

  /** The blocks of an epoch raise only IndexError. */
  lemma {:induction false} EpochObsError(lines: seq<string>, d: nat, fields: seq<string>, date: seq<string>, ids: seq<string>)
    requires ShortIds(ids)
    ensures EpochObs(lines, d, fields, date, ids).Err? ==> EpochObs(lines, d, fields, date, ids).error == IndexError
    decreases |ids|
  {
    if ids != [] && ObsAt(lines, d, fields).Ok? {
      EpochObsError(lines, ObsEnd(|fields|, d, |lines|), fields, date, ids[1..]);
    }
    ObsAtKeys(lines, d, fields);
  }

  /** What one line does to the loop: Stall exactly on a non-blank line
      whose epoch yields no satellite; an exception is ValueError or
      IndexError. */
  lemma StepRule(lines: seq<string>, c: nat, fields: seq<string>, valid: seq<string> -> bool)
    requires c < |lines|
    ensures var st := StepAt(lines, c, fields, valid);
      && (st.Pass? <==> IsBlank(lines[c]))
      && (st.Stall? <==> !IsBlank(lines[c]) && EpochAt(lines, c, valid).Ok? && EpochAt(lines, c, valid).value.ids == [])
      && (st.Halt? ==> st.error in {ValueError, IndexError})
  {
    var ep := EpochAt(lines, c, valid);
    var count := IntOf(Slice(lines[c], 29, 32));
    EpochRefused(lines, c, valid);
    if count.Ok? && valid(DateColumns(lines[c])) {
      EpochRead(lines, c, valid, count.value);
    }
    if ep.Ok? && ep.value.ids != [] {
      EpochObsError(lines, ep.value.next, fields, ep.value.date, ep.value.ids);
    }
  }

  /** The main loop of `read` raises only ValueError or IndexError, and it
      never ends only when it reaches a non-blank line whose epoch yields
      no satellite (a date gnsstime refuses, or a count of zero or less). */
  lemma EpochsShape(lines: seq<string>, c: nat, fields: seq<string>, valid: seq<string> -> bool)
    ensures var o := Epochs(lines, c, fields, valid);
      && (o.Raised? ==> o.error in {ValueError, IndexError})
      && (o.Diverges? ==> exists k | c <= k < |lines| ::
            !IsBlank(lines[k]) && EpochAt(lines, k, valid).Ok? && EpochAt(lines, k, valid).value.ids == [])
  {
    var steps := Steps(lines, fields, valid);
    StepsForward(lines, fields, valid);
    ScanShape(steps, c);
    var o := Scan(steps, c);
    if o.Raised? {
      var k :| c <= k < |steps| && steps[k] == Halt(o.error);
      StepsAt(lines, fields, valid, k);
      StepRule(lines, k, fields, valid);
    }
    if o.Diverges? {
      var k :| c <= k < |steps| && steps[k].Stall?;
      StepsAt(lines, fields, valid, k);
      StepRule(lines, k, fields, valid);
    }
  }

  // ---------------------------------------------------------------------
  // The dates `_read_sat` passes to gnsstime

  /** What gnsstime accepts of the six column slices `_read_sat` passes it:
      nothing, since `datetime` takes ints and raises TypeError on a
      string. */
  predicate RefuseAll(date: seq<string>) {
    false
  }

  /** As written, the main loop stops advancing on the first non-blank
      line (after blank ones) whose count columns hold an int: the refused
      date makes `_read_sat` return no satellite and leave the cursor. */
  lemma {:induction false} RefusedEpochsDiverge(lines: seq<string>, c: nat, fields: seq<string>, k: nat)
    requires c <= k < |lines|
    requires forall j | c <= j < k :: IsBlank(lines[j])
    requires !IsBlank(lines[k]) && IntOf(Slice(lines[k], 29, 32)).Ok?
    ensures Epochs(lines, c, fields, RefuseAll) == Diverges
    decreases k - c
  {
    StepsForward(lines, fields, RefuseAll);
    StepsAt(lines, fields, RefuseAll, c);
    StepRule(lines, c, fields, RefuseAll);
    if c < k {
      RefusedEpochsDiverge(lines, c + 1, fields, k);
    } else {
      EpochRefused(lines, k, RefuseAll);
    }
  }

  /** As written, `read` never returns on a file whose first non-blank
      line after the header has an int in its count columns. */
  lemma RefusedTableDiverges(lines: seq<string>, fields: seq<string>, h: nat, k: nat)
    requires Header(lines) == Done((fields, h))
    requires h + 1 <= k < |lines|
    requires forall j | h + 1 <= j < k :: IsBlank(lines[j])
    requires !IsBlank(lines[k]) && IntOf(Slice(lines[k], 29, 32)).Ok?
    ensures Table(lines, RefuseAll) == Diverges
  {
    RefusedEpochsDiverge(lines, h + 1, fields, k);
  }

  /** With a date gnsstime accepts, the same line is an epoch the loop
      reads: a positive count gives its records and moves the cursor past
      them, or raises IndexError when the file ends first. */
  lemma AcceptedEpochMoves(lines: seq<string>, c: nat, fields: seq<string>, valid: seq<string> -> bool, n: int)
    requires c < |lines| && !IsBlank(lines[c])
    requires IntOf(Slice(lines[c], 29, 32)) == Ok(n) && n > 0 && valid(DateColumns(lines[c]))
    ensures var st := StepAt(lines, c, fields, valid);
      && (st.Yield? || st == Halt(IndexError))
      && (st.Yield? ==> c < st.next)
  {
    EpochRead(lines, c, valid, n);
    EpochNoIds(lines, c, valid);
    var ep := EpochAt(lines, c, valid);
    if ep.Ok? {
      assert ep.value.ids != [];
      EpochObsError(lines, ep.value.next, fields, ep.value.date, ep.value.ids);
    }
  }
}
