/** What gnsstools/rinex/obs/obs2.py does with its header types, its
    sessions and its columns, stated on the model of module Obs2Legacy, and
    how it relates to the reader of gnsstools/rinex/obs2.py. */
module Obs2LegacyFacts {
  import opened Text
  import opened Rinex
  import opened Tables
  import opened ObsText
  import Obs2
  import Obs2Facts
  import opened Obs2Legacy

  // ---------------------------------------------------------------------
  // Header

  /** On a line that ends at or before slot k, every slot from k on is
      empty and each adds an empty type "". */
  lemma {:induction false} SlotTypesShort(line: string, k: nat, n: nat)
    requires k <= n && |line| <= 6 * (k + 1)
    ensures SlotTypes(line, n) == SlotTypes(line, k) + seq(n - k, _ => "")
    decreases n
  {
    if n > k {
      SlotTypesShort(line, k, n - 1);
      var prev, blanks := SlotTypes(line, k), seq(n - 1 - k, _ => "");
      assert SlotType(TypeSlot(line, n - 1)) == [""] by {
        assert TypeSlot(line, n - 1) == "";
        assert Strip("") == "";
      }
      assert SlotTypes(line, n) == (prev + blanks) + [""];
      assert blanks + [""] == seq(n - k, _ => "");
      assert (prev + blanks) + [""] == prev + (blanks + [""]);
    }
  }

  /** A short types line yields an empty type for every missing slot: with
      k slots present, the nine slots give the types of those k followed by
      9 - k empty types. */
  lemma ShortLineTypes(line: string, k: nat)
    requires k <= 9 && |line| <= 6 * (k + 1)
    ensures LineTypes(line) == SlotTypes(line, k) + seq(9 - k, _ => "")
  {
    SlotTypesShort(line, k, 9);
  }

  /** Slots that are all blank add nothing. */
  lemma {:induction false} BlankSlotsDropped(line: string, n: nat)
    requires forall i | 0 <= i < n :: TypeSlot(line, i) != [] && AllSpace(TypeSlot(line, i))
    ensures SlotTypes(line, n) == []
  {
    if n > 0 {
      BlankSlotsDropped(line, n - 1);
    }
  }

  /** A slot that is not all blank adds its stripped text. */
  lemma KeptSlot(slot: string)
    requires Strip(slot) != ""
    ensures SlotType(slot) == [Strip(slot)]
  {
  }

  /** Slots that each add one type add those types, in slot order. */
  lemma {:induction false} SingleTypes(line: string, n: nat, kept: seq<string>)
    requires |kept| == n && forall i {:trigger TypeSlot(line, i)} | 0 <= i < n :: SlotType(TypeSlot(line, i)) == [kept[i]]
    ensures SlotTypes(line, n) == kept
  {
    if n > 0 {
      var p := kept[..n - 1];
      assert forall i {:trigger TypeSlot(line, i)} | 0 <= i < n - 1 :: SlotType(TypeSlot(line, i)) == [p[i]] by {
        forall i | 0 <= i < n - 1 ensures p[i] == kept[i] { }
      }
      SingleTypes(line, n - 1, p);
      assert SlotTypes(line, n - 1) == p;
      assert SlotType(TypeSlot(line, n - 1)) == [kept[n - 1]];
      SlotTypesSnoc(line, n, p, kept[n - 1]);
      ButLastSnoc(kept);
    }
  }

  lemma SlotTypesSnoc(line: string, n: nat, p: seq<string>, x: string)
    requires n > 0 && SlotTypes(line, n - 1) == p && SlotType(TypeSlot(line, n - 1)) == [x]
    ensures SlotTypes(line, n) == p + [x]
  {
  }

  /** Slots that are not all blank each add their stripped text, in slot
      order. */
  lemma FilledSlotsKept(line: string, n: nat)
    requires forall i | 0 <= i < n :: Strip(TypeSlot(line, i)) != ""
    ensures |SlotTypes(line, n)| == n
    ensures forall i | 0 <= i < n :: SlotTypes(line, n)[i] == Strip(TypeSlot(line, i))
  {
    var kept := seq(n, i requires 0 <= i < n => Strip(TypeSlot(line, i)));
    forall i | 0 <= i < n ensures SlotType(TypeSlot(line, i)) == [kept[i]] {
      KeptSlot(TypeSlot(line, i));
    }
    SingleTypes(line, n, kept);
  }

  /** A one-line types block (a count of 1 to 9). */
  lemma OneRow(n: int)
    requires 1 <= n <= 9
    ensures BlockRows(n) == 1 && CeilDiv(n, 9) == 1
  {
    assert (-n) / 9 == -1;
  }

  /** After a types block the line that follows it is passed over without
      being looked at, so an END OF HEADER right after the block is missed
      and the scan goes on two lines down (a one-line block here). */
  lemma EndAfterBlockMissed(ts: seq<Obs2.HeaderText>, ws: seq<seq<string>>, k: nat, n: int, fields: seq<string>)
    requires |ws| == |ts| && k + 1 < |ts| && ts[k] == Obs2.TypesLine(Ok(n)) && 1 <= n <= 9 && ts[k + 1] == Obs2.EndLine
    ensures HeaderFrom(ts, ws, k, fields) ==
              if k + 2 >= |ts| then Raised(IndexError) else HeaderFrom(ts, ws, k + 2, fields + ws[k])
  {
    OneRow(n);
    assert Gathered(ws, k, k + 1) == [] + ws[k] == ws[k];
  }

  /** The newer reader of gnsstools/rinex/obs2.py stops on that END OF
      HEADER line. */
  lemma EndAfterBlockSeen(ts: seq<Obs2.HeaderText>, ws: seq<seq<string>>, k: nat, n: int, fields: seq<string>)
    requires |ws| == |ts| && k + 1 < |ts| && ts[k] == Obs2.TypesLine(Ok(n)) && 1 <= n <= 9 && ts[k + 1] == Obs2.EndLine
    ensures Obs2.HeaderFrom(ts, ws, k, fields) == Done((fields + ws[k], k + 1))
  {
    OneRow(n);
    assert Gathered(ws, k, k + 1) == [] + ws[k] == ws[k];
  }

  /** A header whose last line before END OF HEADER is a one-line types
      block: the older reader misses the end and raises IndexError. */
  lemma EndAfterBlockFile(lines: seq<string>, n: int)
    requires |lines| == 2 && 1 <= n <= 9
    requires Obs2.TextOf(lines[0]) == Obs2.TypesLine(Ok(n)) && Obs2.TextOf(lines[1]) == Obs2.EndLine
    ensures Header(lines) == Raised(IndexError)
  {
    var ts := Obs2.Texts(lines);
    Obs2.TextsAt(lines, 0);
    Obs2.TextsAt(lines, 1);
    EndAfterBlockMissed(ts, TypeRows(lines), 0, n, []);
  }

  /** The header scan always ends: it raises ValueError (a count that is
      not an int) or IndexError (past the last line), or stops on an END
      OF HEADER line with the types found before it. */
  lemma {:induction false} HeaderFromShape(ts: seq<Obs2.HeaderText>, ws: seq<seq<string>>, c: nat, fields: seq<string>)
    requires |ws| == |ts| && c < |ts| && Obs2Facts.CountsParsed(ts)
    ensures var o := HeaderFrom(ts, ws, c, fields);
      && !o.Diverges?
      && (o.Raised? ==> o.error in {ValueError, IndexError})
      && (o.Done? ==> ts[o.value.1].EndLine? && |fields| <= |o.value.0| && o.value.0[..|fields|] == fields)
    decreases |ts| - c
  {
    match ts[c]
    case EndLine =>
    case TypesLine(count) =>
      if count.Ok? {
        var rows := BlockRows(count.value);
        if c + rows + 1 < |ts| {
          var more := fields + Gathered(ws, c, c + rows);
          HeaderFromShape(ts, ws, c + rows + 1, more);
          var o := HeaderFrom(ts, ws, c + rows + 1, more);
          if o.Done? {
            assert o.value.0[..|fields|] == more[..|fields|];
          }
        }
      }
    case OtherLine =>
      if c + 1 < |ts| {
        HeaderFromShape(ts, ws, c + 1, fields);
      }
  }

  /** `_read_header` from line c of a file: it never turns forever; it
      raises ValueError or IndexError, or returns the types with the cursor
      on an END OF HEADER line. */
  lemma HeaderShape(lines: seq<string>, c: nat)
    ensures var o := HeaderAt(lines, c);
      && !o.Diverges?
      && (o.Raised? ==> o.error in {ValueError, IndexError})
      && (o.Done? ==> Obs2.Category(lines[o.value.1]) == EndOfHeader)
  {
    if c < |lines| {
      Obs2Facts.TextsParsed(lines);
      HeaderFromShape(Obs2.Texts(lines), TypeRows(lines), c, []);
      var o := HeaderAt(lines, c);
      if o.Done? {
        Obs2.TextsAt(lines, o.value.1);
      }
    }
  }

  // ---------------------------------------------------------------------
  // Sessions and columns

  /** Record i is entry i with its ordinal among the entries of its
      satellite. */
  lemma {:induction false} NumberedAt(es: seq<Entry>, i: nat)
    requires i < |es|
    ensures Numbered(es)[i] == Record(es[i], Ordinal(Sats(es), i))
  {
    var n := |es| - 1;
    var p := es[..n];
    NumberedLast(es);
    ConcatAt(Numbered(p), [Record(es[n], Ordinal(Sats(es), n))], i);
    if i < n {
      NumberedAt(p, i);
      SatsPrefix(es, n);
      OrdinalPrefix(Sats(es), n, i);
      assert p[i] == es[i];
    }
  }

  lemma NumberedLast(es: seq<Entry>)
    requires es != []
    ensures Numbered(es) == Numbered(es[..|es| - 1]) + [Record(es[|es| - 1], Ordinal(Sats(es), |es| - 1))]
  {
  }

  /** The satellites of a prefix are the prefix of the satellites. */
  lemma SatsPrefix(es: seq<Entry>, n: nat)
    requires n <= |es|
    ensures Sats(es[..n]) == Sats(es)[..n]
  {
  }

  /** The k-th record of a satellite, in input order, has session k. */
  lemma SessionsCount(es: seq<Entry>, x: string)
    ensures var p := Positions(Sats(es), x);
      forall j | 0 <= j < |p| :: p[j] < |es| && "session" in Numbered(es)[p[j]] && Numbered(es)[p[j]]["session"] == Count(j + 1)
  {
    var p := Positions(Sats(es), x);
    PositionOrdinals(Sats(es), x);
    forall j | 0 <= j < |p|
      ensures p[j] < |es| && "session" in Numbered(es)[p[j]] && Numbered(es)[p[j]]["session"] == Count(j + 1)
    {
      var k := p[j];
      NumberedAt(es, k);
      RecordSession(es[k], Ordinal(Sats(es), k));
    }
  }

  lemma RecordSession(e: Entry, session: nat)
    ensures "session" in Record(e, session) && Record(e, session)["session"] == Count(session)
  {
  }

  /** The keys every record carries: the declared types and the three
      keys `read` adds. */
  function RecordKeys(fields: seq<string>): set<string> {
    (set f | f in fields) + {"time", "satellite", "session"}
  }

  /** Every entry of an epoch holds exactly the declared types. */
  lemma {:induction false} EpochEntriesKeys(lines: seq<string>, d: nat, fields: seq<string>, date: seq<string>, ids: seq<string>)
    ensures EpochEntries(lines, d, fields, date, ids).Ok? ==>
      forall e | e in EpochEntries(lines, d, fields, date, ids).value :: e.data.Keys == set f | f in fields
    decreases |ids|
  {
    if ids != [] {
      Obs2Facts.ObsAtKeys(lines, d, fields);
      EpochEntriesKeys(lines, Obs2.ObsEnd(|fields|, d, |lines|), fields, date, ids[1..]);
    }
  }

  /** Every entry the loop of `read` returns holds exactly the declared
      types. */
  lemma EpochsKeys(lines: seq<string>, c: nat, fields: seq<string>, valid: seq<string> -> bool)
    ensures Epochs(lines, c, fields, valid).Done? ==>
      forall e | e in Epochs(lines, c, fields, valid).value :: e.data.Keys == set f | f in fields
  {
    var steps := Steps(lines, fields, valid);
    StepsForward(lines, fields, valid);
    var keys := set f | f in fields;
    forall k | 0 <= k < |steps| && steps[k].Yield?
      ensures forall e | e in steps[k].records :: e.data.Keys == keys
    {
      StepsAt(lines, fields, valid, k);
      var ep := Obs2.EpochAt(lines, k, valid).value;
      EpochEntriesKeys(lines, ep.next, fields, ep.date, ep.ids);
    }
    ScanAll(steps, c, (e: Entry) => e.data.Keys == keys);
  }

  /** Entries with the keys `keys` give records with those keys and the
      three `read` adds. */
  lemma NumberedKeys(es: seq<Entry>, keys: set<string>)
    requires forall e | e in es :: e.data.Keys == keys
    ensures SameKeys(Numbered(es), keys + {"time", "satellite", "session"})
  {
    var rows := Numbered(es);
    forall i | 0 <= i < |rows| ensures rows[i].Keys == keys + {"time", "satellite", "session"} {
      NumberedAt(es, i);
      assert es[i] in es;
    }
  }

  /** The column dictionary `read` builds: one column per declared type
      and for time, satellite and session, each holding that key's value of
      every record in input order (so all columns have one entry per
      record). */
  lemma TableColumns(lines: seq<string>, valid: seq<string> -> bool, fields: seq<string>, c: nat, es: seq<Entry>)
    requires Header(lines) == Done((fields, c)) && Epochs(lines, c + 1, fields, valid) == Done(es)
    ensures Table(lines, valid) == Done(Columns(Numbered(es)))
    ensures UniformColumns(Columns(Numbered(es)), Numbered(es), RecordKeys(fields))
  {
    TableFinish(lines, valid, fields, c);
    EpochsSameKeys(lines, valid, fields, c, es);
    ColumnsUniform(Numbered(es), RecordKeys(fields));
  }

  lemma TableFinish(lines: seq<string>, valid: seq<string> -> bool, fields: seq<string>, c: nat)
    requires Header(lines) == Done((fields, c))
    ensures Table(lines, valid) == TableAfter(lines, fields, c, valid)
  {
  }

  lemma EpochsSameKeys(lines: seq<string>, valid: seq<string> -> bool, fields: seq<string>, c: nat, es: seq<Entry>)
    requires Epochs(lines, c + 1, fields, valid) == Done(es)
    ensures SameKeys(Numbered(es), RecordKeys(fields))
  {
    EpochsKeys(lines, c + 1, fields, valid);
    NumberedKeys(es, set f | f in fields);
  }

  // ---------------------------------------------------------------------
  // The two RINEX 2 readers

  /** Two readings of the blocks of one epoch agree: the same exception, or
      one entry per record, with the same satellite (the epoch's ids, in
      order) and the observations that record was built from. */
  ghost predicate Agreed(a: Result<seq<Entry>>, b: Result<seq<Obs2.Obs>>, date: seq<string>, ids: seq<string>)
    requires ShortIds(ids)
  {
    && (a.Ok? <==> b.Ok?)
    && (a.Err? ==> a.error == b.error)
    && (a.Ok? ==> |a.value| == |b.value| == |ids| && forall i | 0 <= i < |a.value| ::
          a.value[i].satellite == b.value[i].satellite == ids[i] && a.value[i].date == date &&
          b.value[i].row == Obs2.Record(a.value[i].data, date, ids[i]))
  }

  /** One more block read the same way by both keeps the readings agreeing. */
  lemma PrependAgreed(data: map<string, Cell>, date: seq<string>, ids: seq<string>,
                      a: Result<seq<Entry>>, b: Result<seq<Obs2.Obs>>)
    requires ShortIds(ids) && ids != [] && Agreed(a, b, date, ids[1..])
    ensures Agreed(Prepend([Entry(ids[0], date, data)], a),
                   Prepend([Obs2.Obs(ids[0], Obs2.Record(data, date, ids[0]))], b), date, ids)
  {
    if a.Ok? {
      var x, y := [Entry(ids[0], date, data)] + a.value, [Obs2.Obs(ids[0], Obs2.Record(data, date, ids[0]))] + b.value;
      forall i | 0 <= i < |x|
        ensures x[i].satellite == y[i].satellite == ids[i] && x[i].date == date && y[i].row == Obs2.Record(x[i].data, date, ids[i])
      {
        if i > 0 { assert x[i] == a.value[i - 1] && y[i] == b.value[i - 1] && ids[i] == ids[1..][i - 1]; }
      }
    }
  }

  /** The blocks of an epoch are read exactly as in gnsstools/rinex/obs2.py. */
  lemma {:induction false} EntriesAgree(lines: seq<string>, d: nat, fields: seq<string>, date: seq<string>, ids: seq<string>)
    requires ShortIds(ids)
    ensures Agreed(EpochEntries(lines, d, fields, date, ids), Obs2.EpochObs(lines, d, fields, date, ids), date, ids)
    decreases |ids|
  {
    if ids != [] && Obs2.ObsAt(lines, d, fields).Ok? {
      var e := Obs2.ObsEnd(|fields|, d, |lines|);
      EntriesAgree(lines, e, fields, date, ids[1..]);
      PrependAgreed(Obs2.ObsAt(lines, d, fields).value, date, ids,
                    EpochEntries(lines, e, fields, date, ids[1..]), Obs2.EpochObs(lines, e, fields, date, ids[1..]));
    }
  }

  /** Each line does the same to both readers' loops: passed over, the same
      exception, a stall, or the same epoch read up to the same line. */
  lemma StepsAgree(lines: seq<string>, c: nat, fields: seq<string>, valid: seq<string> -> bool)
    requires c < |lines|
    ensures var a, b := StepAt(lines, c, fields, valid), Obs2.StepAt(lines, c, fields, valid);
      && (a.Pass? <==> b.Pass?) && (a.Stall? <==> b.Stall?) && (a.Halt? <==> b.Halt?)
      && (a.Halt? ==> a.error == b.error)
      && (a.Yield? ==> b.Yield? && a.next == b.next && |a.records| == |b.records|)
  {
    if !IsBlank(lines[c]) {
      var ep := Obs2.EpochAt(lines, c, valid);
      if ep.Ok? && ep.value.ids != [] {
        EntriesAgree(lines, ep.value.next, fields, ep.value.date, ep.value.ids);
      }
    }
  }

  /** The loop of `read` raises only ValueError or IndexError, and it never
      ends only when it reaches a non-blank line whose epoch yields no
      satellite (a date gnsstime refuses, or a count of zero or less). */
  lemma EpochsShape(lines: seq<string>, c: nat, fields: seq<string>, valid: seq<string> -> bool)
    ensures var o := Epochs(lines, c, fields, valid);
      && (o.Raised? ==> o.error in {ValueError, IndexError})
      && (o.Diverges? ==> exists k | c <= k < |lines| ::
            !IsBlank(lines[k]) && Obs2.EpochAt(lines, k, valid).Ok? && Obs2.EpochAt(lines, k, valid).value.ids == [])
  {
    var steps := Steps(lines, fields, valid);
    StepsForward(lines, fields, valid);
    ScanShape(steps, c);
    var o := Scan(steps, c);
    if o.Raised? {
      var k :| c <= k < |steps| && steps[k] == Halt(o.error);
      StepsAt(lines, fields, valid, k);
      StepsAgree(lines, k, fields, valid);
      Obs2Facts.StepRule(lines, k, fields, valid);
    }
    if o.Diverges? {
      var k :| c <= k < |steps| && steps[k].Stall?;
      StepsAt(lines, fields, valid, k);
      StepsAgree(lines, k, fields, valid);
      Obs2Facts.StepRule(lines, k, fields, valid);
    }
  }
}
