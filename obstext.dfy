/** Text conventions shared by the observation and SP3 readers
    (gnsstools/rinex/obs2.py, obs/obs2.py, obs3.py, sp3.py): Python's int()
    on a column, math.ceil of a count over a line width, the regex
    substitutions that turn a blank into `0` inside a satellite id or a
    number, and the loop that collects satellite ids from fixed 3-column
    slots over as many lines as it takes. */
module ObsText {
  import opened Text
  import opened Fields
  import opened Rinex

  /** Python's int() of a column: surrounding whitespace and a sign are
      accepted, anything else raises ValueError. */
  function IntOf(s: string): (r: Result<int>)
    ensures r.Ok? <==> IsIntLiteral(Strip(s))
    ensures r.Err? ==> r.error == ValueError
  {
    if IsIntLiteral(Strip(s)) then Ok(SignedValue(Strip(s))) else Err(ValueError)
  }

  /** A blank column is no integer. */
  lemma IntOfBlank(s: string)
    requires AllSpace(s)
    ensures IntOf(s) == Err(ValueError)
  {
    EmptyIsNoLiteral();
  }

  /** Blank-padded digits read as their decimal value. */
  lemma IntOfDigits(s: string)
    requires AllDigits(Strip(s))
    ensures IntOf(s) == Ok(DecimalValue(Strip(s)))
  {
    var t := Strip(s);
    assert Unsigned(t) == t;
  }

  /** `math.ceil(n / d)`. */
  function CeilDiv(n: int, d: nat): (q: int)
    requires d > 0
    ensures n <= q * d < n + d
  {
    -((-n) / d)
  }

  /** `[0-9\-]`, the ends of a gap inside a RINEX 2 observation. */
  predicate IsNumberChar(c: char) {
    IsDigit(c) || c == '-'
  }

  /** The three gap patterns the readers fill: `[A-Z]\s[0-9]` inside a
      satellite id, `[0-9\-]\s[0-9\-]` inside a RINEX 2 observation and
      `[0-9]\s[0-9]` inside a RINEX 3 observation. */
  datatype Gap = SatelliteGap | NumberGap | DigitGap

  predicate Lead(g: Gap, c: char) {
    match g
    case SatelliteGap => IsUpper(c)
    case NumberGap => IsNumberChar(c)
    case DigitGap => IsDigit(c)
  }

  predicate Trail(g: Gap, c: char) {
    match g
    case SatelliteGap => IsDigit(c)
    case NumberGap => IsNumberChar(c)
    case DigitGap => IsDigit(c)
  }

  /** The regex substitution of a gap pattern by the match with its blank
      made `0`: scanned from the left, a match resumes after its third
      character, so matches never overlap; a whitespace character other
      than the blank matches but is left as it is. */
  function FillGaps(s: string, g: Gap): (r: string)
    ensures |r| == |s|
    decreases |s|
  {
    if |s| >= 3 && Lead(g, s[0]) && IsSpace(s[1]) && Trail(g, s[2]) then
      [s[0], if s[1] == ' ' then '0' else s[1], s[2]] + FillGaps(s[3..], g)
    else if s == [] then []
    else [s[0]] + FillGaps(s[1..], g)
  }

  /** A text in which no three characters match is left alone. */
  lemma {:induction false} FillGapsNoMatch(s: string, g: Gap)
    requires forall i | 0 <= i < |s| - 2 :: !(Lead(g, s[i]) && IsSpace(s[i + 1]) && Trail(g, s[i + 2]))
    ensures FillGaps(s, g) == s
    decreases |s|
  {
    if s != [] {
      FillGapsNoMatch(s[1..], g);
    }
  }

  /** Matches do not overlap: in "1 1 1" only the first gap is filled. */
  lemma FillGapsOnce()
    ensures FillGaps("1 1 1", NumberGap) == "101 1"
  {
    var s := "1 1 1";
    assert s[3..] == " 1";
    assert FillGaps(" 1", NumberGap) == " 1" by {
      assert " 1"[1..] == "1";
      assert FillGaps("1", NumberGap) == "1" by {
        assert "1"[1..] == "";
      }
    }
  }

  /** The satellite id of a stripped slot: `[A-Z]\s[0-9]` with the blank
      made 0. */
  function PadId(s: string): (r: string)
    ensures |r| == |s|
  {
    FillGaps(s, SatelliteGap)
  }

  /** "G 2" becomes "G02"; an id without a gap is kept. */
  lemma PadIdGap(c: char, d: char)
    requires IsUpper(c) && IsDigit(d)
    ensures PadId([c, ' ', d]) == [c, '0', d]
  {
    assert [c, ' ', d][3..] == [];
  }

  lemma PadIdKeeps(s: string)
    requires |s| == 3 && !IsSpace(s[1])
    ensures PadId(s) == s
  {
    FillGapsNoMatch(s, SatelliteGap);
  }

  /** The id of one 3-column slot: none for a blank slot, otherwise the
      stripped slot with its gap filled. */
  function SlotId(slot: string): (r: seq<string>)
    ensures |r| <= 1
    ensures forall k | 0 <= k < |r| :: r[k] != [] && |r[k]| <= |slot|
    ensures r == [] <==> AllSpace(slot)
  {
    var t := Strip(slot);
    if t == "" then [] else [PadId(t)]
  }

  /** Slot i of `cols`: columns 3i to 3i + 2. */
  function SlotAt(cols: string, i: nat): (slot: string)
    ensures |slot| <= 3
  {
    Slice(cols, i * 3, (i + 1) * 3)
  }

  /** The ids of the first n 3-column slots of `cols`, in column order. */
  function SlotIds(cols: string, n: nat): (ids: seq<string>)
    ensures |ids| <= n
  {
    if n == 0 then []
    else SlotIds(cols, n - 1) + SlotId(SlotAt(cols, n - 1))
  }

  /** Ids of one to three characters. */
  predicate ShortIds(ids: seq<string>) {
    forall i | 0 <= i < |ids| :: ids[i] != [] && |ids[i]| <= 3
  }

  lemma ShortIdsConcat(a: seq<string>, b: seq<string>)
    requires ShortIds(a) && ShortIds(b)
    ensures ShortIds(a + b)
  {
    assert forall i | |a| <= i < |a + b| :: (a + b)[i] == b[i - |a|];
  }

  /** Every id is a non-empty slot of at most three characters. */
  lemma {:induction false} SlotIdsShape(cols: string, n: nat)
    ensures ShortIds(SlotIds(cols, n))
  {
    if n > 0 {
      var a, b := SlotIds(cols, n - 1), SlotId(SlotAt(cols, n - 1));
      SlotIdsShape(cols, n - 1);
      ShortIdsConcat(a, b);
    }
  }

  /** The ids of one line: `slots` slots from column `start` on. */
  function LineIds(line: string, start: nat, slots: nat): seq<string> {
    SlotIds(Slice(line, start, start + 3 * slots), slots)
  }

  /** The ids of every line, line by line. */
  function LinesIds(lines: seq<string>, start: nat, slots: nat): (per: seq<seq<string>>)
    ensures |per| == |lines|
    ensures forall k | 0 <= k < |lines| :: per[k] == LineIds(lines[k], start, slots)
  {
    if lines == [] then []
    else
      var n := |lines| - 1;
      var pre := LinesIds(lines[..n], start, slots);
      var per := pre + [LineIds(lines[n], start, slots)];
      assert forall k | 0 <= k < |lines| :: per[k] == LineIds(lines[k], start, slots) by {
        forall k | 0 <= k < |lines| ensures per[k] == LineIds(lines[k], start, slots) {
          if k < n {
            assert lines[..n][k] == lines[k] && per[k] == pre[k];
          }
        }
      }
      per
  }

  /** The ids of lines c to e - 1, in order, from the ids of every line. */
  function Gathered(per: seq<seq<string>>, c: nat, e: nat): seq<string>
    requires c <= e <= |per|
    decreases e - c
  {
    if e == c then [] else Gathered(per, c, e - 1) + per[e - 1]
  }

  /** One more line gathered, behind a prefix. */
  lemma GatheredSnoc(per: seq<seq<string>>, c: nat, e: nat, pre: seq<string>)
    requires c <= e < |per|
    ensures pre + Gathered(per, c, e + 1) == (pre + Gathered(per, c, e)) + per[e]
  {
    assert Gathered(per, c, e + 1) == Gathered(per, c, e) + per[e];
  }

  /** Every id gathered from lines whose ids are short is short. */
  lemma {:induction false} GatheredShort(per: seq<seq<string>>, c: nat, e: nat)
    requires c <= e <= |per| && forall k | 0 <= k < |per| :: ShortIds(per[k])
    ensures ShortIds(Gathered(per, c, e))
    decreases e - c
  {
    if e > c {
      GatheredShort(per, c, e - 1);
      ShortIdsConcat(Gathered(per, c, e - 1), per[e - 1]);
    }
  }

  /** Every id of a line is a non-empty text of at most three characters. */
  lemma LinesIdsShort(lines: seq<string>, start: nat, slots: nat)
    ensures forall k | 0 <= k < |lines| :: ShortIds(LinesIds(lines, start, slots)[k])
  {
    forall k | 0 <= k < |lines| ensures ShortIds(LinesIds(lines, start, slots)[k]) {
      SlotIdsShape(Slice(lines[k], start, start + 3 * slots), slots);
    }
  }

  /** The satellite-list loop from line c, having read up to line e: stop
      as soon as at least `want` ids are collected; running out of lines
      first raises IndexError. The ids and the line after the last one read. */
  function IdsFrom(per: seq<seq<string>>, c: nat, e: nat, want: int): Result<(seq<string>, nat)>
    requires c <= e <= |per|
    decreases |per| - e
  {
    var ids := Gathered(per, c, e);
    if |ids| >= want then Ok((ids, e))
    else if e == |per| then Err(IndexError)
    else IdsFrom(per, c, e + 1, want)
  }

  /** Line e - 1 is the first at which `want` ids are reached: the lines
      before it gave fewer (or no line was read at all). */
  predicate FirstReach(per: seq<seq<string>>, c: nat, e: nat, want: int)
    requires c <= e <= |per|
  {
    e == c || |Gathered(per, c, e - 1)| < want
  }

  /** The loop stops on the first line at which the count is reached
      (the lines before it gave fewer ids), with the ids of the lines up to
      it; IndexError means the count is not reached by the end. */
  lemma {:induction false} IdsFromShape(per: seq<seq<string>>, c: nat, e: nat, want: int)
    requires c <= e <= |per|
    requires e == c || |Gathered(per, c, e - 1)| < want
    ensures var s := IdsFrom(per, c, e, want);
      && (s.Ok? ==> && e <= s.value.1 <= |per|
                    && s.value.0 == Gathered(per, c, s.value.1)
                    && |s.value.0| >= want
                    && FirstReach(per, c, s.value.1, want))
      && (s.Err? ==> s.error == IndexError && |Gathered(per, c, |per|)| < want)
    decreases |per| - e
  {
    if |Gathered(per, c, e)| < want && e < |per| {
      IdsFromShape(per, c, e + 1, want);
    }
  }

  /** One more line read while the count is not reached. */
  lemma IdsFromStep(per: seq<seq<string>>, c: nat, e: nat, want: int)
    requires c <= e < |per| && |Gathered(per, c, e)| < want
    ensures IdsFrom(per, c, e, want) == IdsFrom(per, c, e + 1, want)
    ensures Gathered(per, c, e + 1) == Gathered(per, c, e) + per[e]
  {
  }

  /** One more slot. */
  lemma SlotIdsNext(cols: string, i: nat)
    ensures SlotIds(cols, i + 1) == SlotIds(cols, i) + SlotId(SlotAt(cols, i))
  {
  }

  /** Appending the padded slot when it is not blank appends its id. */
  lemma AppendSlotId(ids: seq<string>, slot: string, id: string)
    requires id == Strip(slot)
    ensures (if id != "" then ids + [PadId(id)] else ids) == ids + SlotId(slot)
  {
  }

  /** The loop over the slots of one line (`for isat in range(slots)`),
      given the columns the slots are cut from. */
  method ReadSlotIds(cols: string, slots: nat, ids: seq<string>) returns (ids': seq<string>)
    ensures ids' == ids + SlotIds(cols, slots)
  {
    ids' := ids;
    for i := 0 to slots
      invariant ids' == ids + SlotIds(cols, i)
    {
      var slot := SlotAt(cols, i);
      var id := Strip(slot);
      AppendSlotId(ids', slot, id);
      SlotIdsNext(cols, i);
      if id != "" {
        ids' := ids' + [PadId(id)];
      }
    }
  }

  /** One line of the satellite list: its ids behind those gathered from
      line c up to it. */
  method ReadLineIds(lines: seq<string>, e: nat, start: nat, slots: nat, ids: seq<string>,
                     ghost per: seq<seq<string>>, ghost c: nat) returns (ids': seq<string>)
    requires c <= e < |lines| && per == LinesIds(lines, start, slots) && ids == Gathered(per, c, e)
    ensures ids' == Gathered(per, c, e + 1)
  {
    ids' := ReadSlotIds(Slice(lines[e], start, start + 3 * slots), slots, ids);
    assert per[e] == LineIds(lines[e], start, slots);
  }

  /** The satellite-list loop of `_read_sat`: read ids line by line from
      the cursor until at least `want` are collected, advancing the cursor
      past every line read. */
  method ReadIds(r: RinexReader, want: int, start: nat, slots: nat) returns (res: Result<seq<string>>)
    requires r.cursor <= |r.lines|
    modifies r
    ensures var s := IdsFrom(LinesIds(r.lines, start, slots), old(r.cursor), old(r.cursor), want);
      && (res.Ok? <==> s.Ok?)
      && (res.Ok? ==> res.value == s.value.0 && r.cursor == s.value.1)
      && (res.Err? ==> res.error == s.error)
  {
    ghost var c := r.cursor;
    ghost var per := LinesIds(r.lines, start, slots);
    var ids: seq<string> := [];
    while |ids| < want
      invariant c <= r.cursor <= |r.lines|
      invariant ids == Gathered(per, c, r.cursor)
      invariant IdsFrom(per, c, r.cursor, want) == IdsFrom(per, c, c, want)
      decreases |r.lines| - r.cursor
    {
      if r.cursor == |r.lines| {
        return Err(IndexError);
      }
      var e := r.cursor;
      IdsFromStep(per, c, e, want);
      ids := ReadLineIds(r.lines, e, start, slots, ids, per, c);
      r.cursor := e + 1;
      assert IdsFrom(per, c, r.cursor, want) == IdsFrom(per, c, e + 1, want);
    }
    return Ok(ids);
  }
}
