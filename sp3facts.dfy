/** What gnsstools/rinex/sp3.py promises about its header, its satellite
    list and its data lines, stated on the model of module Sp3. */
module Sp3Facts {
  import opened Text
  import opened Fields
  import opened Rinex
  import opened Tables
  import opened ObsText
  import opened Sp3
  import Obs2
  import Obs2Facts

  // ---------------------------------------------------------------------
  // Header and satellite list

  /** An epoch count written as blank-padded digits in columns 32-39 reads
      as its decimal value. */
  lemma HeaderEpochCount(line: string, a: string, d: string, b: string)
    requires Slice(line, 32, 39) == a + d + b && AllSpace(a) && AllSpace(b) && AllDigits(d)
    ensures HeaderOf(line).numEpoch == Int(DecimalValue(d))
  {
    assert seq(0, _ => '0') + d == d;
    EvalPaddedDigits(a, 0, d, b);
  }

  /** No line has more than 17 ids, and every id is one to three
      characters. */
  lemma SatSlotsShape(lines: seq<string>)
    ensures forall k | 0 <= k < |lines| :: |SatSlots(lines)[k]| <= 17 && ShortIds(SatSlots(lines)[k])
  {
    LinesIdsShort(lines, 9, 17);
  }

  /** `_read_sat` from the `+` line c: a count in columns 3-7 that is no
      int raises ValueError; otherwise ids are read line by line from c
      and reading stops at the first line that brings them to the count,
      with the ids of the lines read in order; IndexError means the file
      ends first. */
  lemma SatListShape(lines: seq<string>, c: nat)
    requires c < |lines|
    ensures var s := SatList(lines, c);
      && (IntOf(Slice(lines[c], 3, 7)).Err? ==> s == Err(ValueError))
      && (s.Ok? ==> var want := IntOf(Slice(lines[c], 3, 7)).value;
            && c <= s.value.1 <= |lines|
            && s.value.0 == Gathered(SatSlots(lines), c, s.value.1)
            && |s.value.0| >= want
            && FirstReach(SatSlots(lines), c, s.value.1, want))
      && (s.Err? ==> s.error in {ValueError, IndexError})
      && (s.Err? && s.error == IndexError ==> |Gathered(SatSlots(lines), c, |lines|)| < IntOf(Slice(lines[c], 3, 7)).value)
  {
    if IntOf(Slice(lines[c], 3, 7)).Ok? {
      SatListFrom(lines, c, IntOf(Slice(lines[c], 3, 7)).value);
    }
  }

  lemma SatListFrom(lines: seq<string>, c: nat, want: int)
    requires c < |lines| && IntOf(Slice(lines[c], 3, 7)) == Ok(want)
    ensures var s := SatList(lines, c);
      && (s.Ok? ==> && c <= s.value.1 <= |lines|
                    && s.value.0 == Gathered(SatSlots(lines), c, s.value.1)
                    && |s.value.0| >= want
                    && FirstReach(SatSlots(lines), c, s.value.1, want))
      && (s.Err? ==> s.error == IndexError && |Gathered(SatSlots(lines), c, |lines|)| < want)
  {
    assert SatList(lines, c) == IdsFrom(SatSlots(lines), c, c, want);
    IdsFromShape(SatSlots(lines), c, c, want);
  }

  /** A count of zero or less reads no line: the data loop starts on the
      `+` line itself. */
  lemma SatListNone(lines: seq<string>, c: nat)
    requires c < |lines| && IntOf(Slice(lines[c], 3, 7)).Ok? && IntOf(Slice(lines[c], 3, 7)).value <= 0
    ensures SatList(lines, c) == Ok(([], c))
  {
  }

  // ---------------------------------------------------------------------
  // Data lines

  /** The line tests: a line that strips to `EOF` ends the data; a `*`
      line is an epoch mark; an empty line, or a `P` or `V` alone, cannot
      be indexed; a `P` line gives a position and a `V` line a velocity,
      both with the clock, when its three coordinates decode to numbers,
      and raises shapely's exception otherwise; any other line is passed
      over. */
  lemma DataOfShape(line: string)
    ensures DataOf(line).EndOfFile? <==> Strip(line) == "EOF"
    ensures line == [] ==> DataOf(line) == Unindexable
    ensures Strip(line) != "EOF" && StartsWith(line, "*") ==> DataOf(line) == EpochMark(EpochColumns(line))
    ensures Strip(line) != "EOF" && |line| >= 2 && line[0] == 'P' && Values("Position", line).Ok? ==>
      DataOf(line) == Motion(Eval([line[1]]), Eval(Slice(line, 2, 4)), Values("Position", line).value)
    ensures Strip(line) != "EOF" && |line| >= 2 && line[0] == 'V' && Values("Velocity", line).Ok? ==>
      DataOf(line) == Motion(Eval([line[1]]), Eval(Slice(line, 2, 4)), Values("Velocity", line).value)
    ensures Strip(line) != "EOF" && |line| >= 2 && line[0] in {'P', 'V'} ==>
      (DataOf(line).Refused? <==> !(IsNumber(Eval(Slice(line, 4, 18))) && IsNumber(Eval(Slice(line, 18, 32))) && IsNumber(Eval(Slice(line, 32, 46)))))
    ensures DataOf(line).Refused? ==> DataOf(line).error in {TypeError, ValueError}
    ensures Strip(line) != "EOF" && line != [] && line[0] !in {'*', 'P', 'V'} ==> DataOf(line) == Ignored
  {
    if Strip(line) != "EOF" && line != [] && line[0] !in {'*', 'P', 'V'} {
      assert !StartsWith(line, "*");
    }
  }

  /** A position line with its coordinate columns missing: the three
      coordinates decode to None and shapely's Point raises TypeError. */
  lemma BlankPositionRefused()
    ensures DataOf("PG01") == Refused(TypeError)
  {
    var line := "PG01";
    assert !StartsWith(line, "*");
    assert Slice(line, 4, 18) == "";
    assert Eval(Slice(line, 4, 18)) == Absent;
  }

  /** The record of a `P` line (key "Position") or a `V` line (key
      "Velocity") holds the point and the clock of its columns, unscaled,
      the date, the system and the PRN, and nothing else; its satellite is
      the system and the PRN printed one after the other. */
  lemma RecordShape(key: string, line: string, system: Field, prn: Field, date: Cell)
    requires key == "Position" || key == "Velocity"
    requires Values(key, line).Ok?
    ensures var o := Record(system, prn, Values(key, line).value, date);
      && o.row.Keys == {key, "Clock", "Date", "System", "PRN"}
      && o.row[key] == Point(Eval(Slice(line, 4, 18)), Eval(Slice(line, 18, 32)), Eval(Slice(line, 32, 46)))
      && o.row["Clock"] == Val(Eval(Slice(line, 46, 60)))
      && o.row["Date"] == date && o.row["System"] == Val(system) && o.row["PRN"] == Val(prn)
      && o.satellite == Render(system) + Render(prn)
  {
    var x, y, z := Eval(Slice(line, 4, 18)), Eval(Slice(line, 18, 32)), Eval(Slice(line, 32, 46));
    var clock := Eval(Slice(line, 46, 60));
    assert PointOf(x, y, z) == Ok(Point(x, y, z));
    assert Values(key, line).value == map[key := Point(x, y, z), "Clock" := Val(clock)];
    RowShape(key, Point(x, y, z), clock, system, prn, date);
  }

  lemma RowShape(key: string, p: Cell, clock: Field, system: Field, prn: Field, date: Cell)
    requires key == "Position" || key == "Velocity"
    ensures var o := Record(system, prn, map[key := p, "Clock" := Val(clock)], date);
      && o.row.Keys == {key, "Clock", "Date", "System", "PRN"}
      && o.row[key] == p && o.row["Clock"] == Val(clock)
      && o.row["Date"] == date && o.row["System"] == Val(system) && o.row["PRN"] == Val(prn)
      && o.satellite == Render(system) + Render(prn)
  {
  }

  // ---------------------------------------------------------------------
  // The data loop against a line-by-line reading

  /** The date in force at line j when the loop starts at line c with
      `date`: that of the last epoch mark among lines c to j - 1, or
      `date` when there is none. */
  function Carried(ds: seq<DataLine>, c: nat, j: nat, date: Cell): Cell
    requires c <= j <= |ds|
    decreases j - c
  {
    if j == c then date
    else if ds[j - 1].EpochMark? then Date(ds[j - 1].date)
    else Carried(ds, c, j - 1, date)
  }

  /** Before the first epoch mark, records carry the starting date (None
      for `read`). */
  lemma {:induction false} CarriedNoMark(ds: seq<DataLine>, c: nat, j: nat, date: Cell)
    requires c <= j <= |ds| && forall k | c <= k < j :: !ds[k].EpochMark?
    ensures Carried(ds, c, j, date) == date
    decreases j - c
  {
    if j > c {
      CarriedNoMark(ds, c, j - 1, date);
    }
  }

  /** After an epoch mark, records carry its date until the next mark. */
  lemma {:induction false} CarriedLastMark(ds: seq<DataLine>, c: nat, m: nat, j: nat, date: Cell)
    requires c <= m < j <= |ds| && ds[m].EpochMark? && forall k | m < k < j :: !ds[k].EpochMark?
    ensures Carried(ds, c, j, date) == Date(ds[m].date)
    decreases j - c
  {
    if j - 1 > m {
      CarriedLastMark(ds, c, m, j - 1, date);
    }
  }

  /** The records of lines c to e - 1 read one by one: one per `P` or `V`
      line, in file order, with the date in force at its line. */
  function Motions(ds: seq<DataLine>, c: nat, e: nat, date: Cell): seq<Obs2.Obs>
    requires c <= e <= |ds|
    decreases e - c
  {
    if e == c then []
    else
      var k := e - 1;
      Motions(ds, c, k, date) + (if ds[k].Motion? then [Record(ds[k].system, ds[k].prn, ds[k].data, Carried(ds, c, k, date))] else [])
  }

  /** Lines c to e - 1 neither end the data nor raise. */
  predicate Clean(ds: seq<DataLine>, c: nat, e: nat, valid: seq<string> -> bool)
    requires c <= e <= |ds|
  {
    forall k | c <= k < e :: !ds[k].EndOfFile? && !ds[k].Unindexable? && !ds[k].Refused? && (ds[k].EpochMark? ==> valid(ds[k].date))
  }

  lemma {:induction false} BodyFrom(ds: seq<DataLine>, c: nat, k: nat, e: nat, date: Cell, valid: seq<string> -> bool)
    requires c <= k <= e <= |ds| && Clean(ds, c, e, valid) && (e == |ds| || ds[e].EndOfFile?)
    ensures After(Motions(ds, c, k, date), Body(ds, k, Carried(ds, c, k, date), valid)) == Done(Motions(ds, c, e, date))
    decreases e - k
  {
    var done, d := Motions(ds, c, k, date), Carried(ds, c, k, date);
    if k == e {
      AfterNil(done);
    } else {
      BodyFrom(ds, c, k + 1, e, date, valid);
      match ds[k]
      case Motion(system, prn, data) =>
        AfterAfter(done, [Record(system, prn, data, d)], Body(ds, k + 1, d, valid));
      case EpochMark(cols) =>
        assert valid(ds[k].date);
        assert Body(ds, k, d, valid) == Body(ds, k + 1, Date(cols), valid);
        assert Carried(ds, c, k + 1, date) == Date(cols);
        assert done + [] == done;
        assert Motions(ds, c, k + 1, date) == done;
      case Ignored =>
    }
  }

  /** With no line that raises before the end of the data (the first
      `EOF` line or the end of the file), the loop returns exactly the
      records of the `P` and `V` lines up to there, in file order, each
      with the date of the last `*` line before it. */
  lemma BodyIsMotions(ds: seq<DataLine>, c: nat, e: nat, date: Cell, valid: seq<string> -> bool)
    requires c <= e <= |ds| && Clean(ds, c, e, valid) && (e == |ds| || ds[e].EndOfFile?)
    ensures Body(ds, c, date, valid) == Done(Motions(ds, c, e, date))
  {
    BodyFrom(ds, c, c, e, date, valid);
    AfterEmpty(Body(ds, c, date, valid));
  }

  /** Lines after the first `EOF` line are never read. */
  lemma {:induction false} BodyStopsAtEnd(ds: seq<DataLine>, ds': seq<DataLine>, c: nat, e: nat, date: Cell, valid: seq<string> -> bool)
    requires c <= e < |ds| && e < |ds'| && ds[e].EndOfFile?
    requires forall k | c <= k <= e :: ds[k] == ds'[k]
    ensures Body(ds, c, date, valid) == Body(ds', c, date, valid)
    decreases e - c
  {
    if c < e {
      match ds[c]
      case EpochMark(cols) => BodyStopsAtEnd(ds, ds', c + 1, e, Date(cols), valid);
      case Motion(_, _, _) => BodyStopsAtEnd(ds, ds', c + 1, e, date, valid);
      case Ignored => BodyStopsAtEnd(ds, ds', c + 1, e, date, valid);
      case EndOfFile =>
      case Unindexable =>
      case Refused(_) =>
    }
  }

  /** The first line that raises decides the exception: IndexError for an
      unindexable line, shapely's exception for a refused point, TypeError
      for a date gnsstime refuses. */
  lemma {:induction false} BodyRaises(ds: seq<DataLine>, c: nat, e: nat, date: Cell, valid: seq<string> -> bool)
    requires c <= e < |ds| && Clean(ds, c, e, valid)
    requires ds[e].Unindexable? || ds[e].Refused? || (ds[e].EpochMark? && !valid(ds[e].date))
    ensures Body(ds, c, date, valid) ==
      Raised(if ds[e].Unindexable? then IndexError else if ds[e].Refused? then ds[e].error else TypeError)
    decreases e - c
  {
    if c < e {
      match ds[c]
      case EpochMark(cols) => BodyRaises(ds, c + 1, e, Date(cols), valid);
      case Motion(_, _, _) => BodyRaises(ds, c + 1, e, date, valid);
      case Ignored => BodyRaises(ds, c + 1, e, date, valid);
    }
  }

  /** The data loop always ends: it raises only IndexError, TypeError or
      ValueError (the last two from gnsstime or shapely), or returns
      records. */
  lemma {:induction false} BodyShape(ds: seq<DataLine>, c: nat, date: Cell, valid: seq<string> -> bool)
    requires forall k | c <= k < |ds| :: ds[k].Refused? ==> ds[k].error in {TypeError, ValueError}
    ensures !Body(ds, c, date, valid).Diverges?
    ensures Body(ds, c, date, valid).Raised? ==> Body(ds, c, date, valid).error in {IndexError, TypeError, ValueError}
    decreases |ds| - c
  {
    if c < |ds| {
      match ds[c]
      case EpochMark(cols) => BodyShape(ds, c + 1, Date(cols), valid);
      case Motion(_, _, _) => BodyShape(ds, c + 1, date, valid);
      case Ignored => BodyShape(ds, c + 1, date, valid);
      case EndOfFile =>
      case Unindexable =>
      case Refused(_) =>
    }
  }

  // ---------------------------------------------------------------------
  // Read

  /** `read` raises IndexError when the file has no `#` line, or no `+`
      line at or after it; otherwise it raises what the satellite list or
      the data loop raises, or returns the records of the data loop,
      started on the line after the satellite list with no date. */
  lemma TableShape(lines: seq<string>, valid: seq<string> -> bool)
    ensures (forall j | 0 <= j < |lines| :: !IsHeaderLine(lines[j])) ==> Table(lines, valid) == Raised(IndexError)
    ensures var o := Table(lines, valid); !o.Diverges? && (o.Raised? ==> o.error in {IndexError, ValueError, TypeError})
  {
    match Seek(lines, IsHeaderLine, 0)
    case Err(e) =>
      assert Table(lines, valid) == Raised(e) && e == IndexError;
    case Ok(h) =>
      assert IsHeaderLine(lines[h]);
      match Seek(lines, IsSatListLine, h)
      case Err(e) =>
        assert Table(lines, valid) == Raised(e) && e == IndexError;
      case Ok(p) =>
        SatListShape(lines, p);
        match SatList(lines, p)
        case Err(e) =>
          assert Table(lines, valid) == Raised(e) && e in {IndexError, ValueError};
        case Ok((_, next)) =>
          assert Table(lines, valid) == Obs2.Finish(Body(DataLines(lines), next, NoDate, valid));
          DataLinesRefusals(lines);
          BodyShape(DataLines(lines), next, NoDate, valid);
          FinishKeeps(Body(DataLines(lines), next, NoDate, valid));
  }

  /** A refused point raises TypeError or ValueError and nothing else. */
  lemma DataLinesRefusals(lines: seq<string>)
    ensures forall k | 0 <= k < |lines| :: DataLines(lines)[k].Refused? ==> DataLines(lines)[k].error in {TypeError, ValueError}
  {
    forall k | 0 <= k < |lines|
      ensures DataLines(lines)[k].Refused? ==> DataLines(lines)[k].error in {TypeError, ValueError}
    {
      DataLinesAt(lines, k);
      DataOfShape(lines[k]);
    }
  }

  /** Grouping the records keeps a raised exception and a loop that does
      not end. */
  lemma FinishKeeps(o: Outcome<seq<Obs2.Obs>>)
    ensures Obs2.Finish(o).Diverges? <==> o.Diverges?
    ensures Obs2.Finish(o).Raised? <==> o.Raised?
    ensures o.Raised? ==> Obs2.Finish(o).error == o.error
  {
  }

  /** The table holds every record once, grouped by satellite in order of
      first appearance; the sessions of one satellite are 1, 2, 3, ...,
      counting `P` and `V` records together. */
  lemma TableGrouped(obs: seq<Obs2.Obs>, x: string)
    ensures Obs2.Finish(Done(obs)) == Done(Grouped(Obs2.Sats(obs), Obs2.Sessioned(obs)))
    ensures multiset(Grouped(Obs2.Sats(obs), Obs2.Sessioned(obs))) == multiset(Obs2.Sessioned(obs))
    ensures var g := Select(Obs2.Sats(obs), Obs2.Sessioned(obs), x);
      forall j | 0 <= j < |g| :: "Session" in g[j] && g[j]["Session"] == Count(j + 1)
  {
    GroupedIsPermutation(Obs2.Sats(obs), Obs2.Sessioned(obs));
    Obs2Facts.SessionsNumbered(obs, x);
  }
}
