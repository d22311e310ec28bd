/** The navigation-message field tables shared by the two RINEX 3
    navigation readers (gnsstools/rinex/nav.py and gnsstools/rinex/rinex3.py
    declare the same G, E and R maps), the dictionary literals of the
    nav.py extractors, and the fold that decodes a block of lines through
    such a table (`extract_fields`). */
module NavMaps {
  import opened Text
  import opened Fields

  /** A column of the navigation table: every name that occurs in a field
      map, plus the four columns the readers add themselves. `SVHealth`
      (GPS map) and `SVhealth` (Galileo map) are different columns. */
  datatype NavKey =
    | Satellite | Year | Month | Day | Hour | Minute | Second
    | SVClockBias | SVClockDrift | SVClockDriftRate | SVRelFreqBias | MessageFrameTime
    | IODE | IODnav | Crs | DeltaN | M0 | Cuc | Ecc | Cus | SqrtA
    | TOE | Cic | Omega0 | Cis | I0 | Crc | Omega | OmegaDot
    | IDOT | L2Codes | GPSWeek | GALWeek | L2Pflag
    | SVAcc | SISA | SVHealth | SVhealth | TGD | IODC | BGDe5a | BGDe5b
    | TransTime | FitInter
    | X | DX | DX2 | Health | Y | DY | DY2 | FreqNum | Z | DZ | DZ2 | AgeOpInfo
    | Time | Session | System | Prn

  /** The column name as the source spells it. */
  function Name(k: NavKey): string {
    match k
    case Satellite => "satellite" case Year => "year" case Month => "month"
    case Day => "day" case Hour => "hour" case Minute => "minute" case Second => "second"
    case SVClockBias => "SVClockBias" case SVClockDrift => "SVClockDrift"
    case SVClockDriftRate => "SVClockDriftRate" case SVRelFreqBias => "SVRelFreqBias"
    case MessageFrameTime => "MessageFrameTime"
    case IODE => "IODE" case IODnav => "IODnav" case Crs => "Crs" case DeltaN => "DeltaN"
    case M0 => "M0" case Cuc => "Cuc" case Ecc => "e" case Cus => "Cus" case SqrtA => "sqrtA"
    case TOE => "TOE" case Cic => "Cic" case Omega0 => "Omega0" case Cis => "Cis"
    case I0 => "i0" case Crc => "Crc" case Omega => "Omega" case OmegaDot => "OmegaDot"
    case IDOT => "IDOT" case L2Codes => "L2Codes" case GPSWeek => "GPSWeek"
    case GALWeek => "GALWeek" case L2Pflag => "L2Pflag"
    case SVAcc => "SVAcc" case SISA => "SISA" case SVHealth => "SVHealth" case SVhealth => "SVhealth"
    case TGD => "TGD" case IODC => "IODC" case BGDe5a => "BGDe5a" case BGDe5b => "BGDe5b"
    case TransTime => "TransTime" case FitInter => "FitInter"
    case X => "X" case DX => "dX" case DX2 => "dX2" case Health => "Health"
    case Y => "Y" case DY => "dY" case DY2 => "dY2" case FreqNum => "FreqNum"
    case Z => "Z" case DZ => "dZ" case DZ2 => "dZ2" case AgeOpInfo => "AgeOpInfo"
    case Time => "time" case Session => "session" case System => "system" case Prn => "prn"
  }

  /** The six epoch columns that the readers fold into one time. */
  predicate IsDate(k: NavKey) {
    k.Year? || k.Month? || k.Day? || k.Hour? || k.Minute? || k.Second?
  }

  /** The columns the readers add rather than read from a map. */
  predicate IsAdded(k: NavKey) {
    k.Time? || k.Session? || k.System? || k.Prn?
  }

  /** A named column range: the field `key` is `line[start:end]`. */
  datatype Slot = Slot(key: NavKey, start: nat, end: nat)

  /** One list of slots per line of a record. */
  type Layout = seq<seq<Slot>>

  /** A slot of a FIELDS_MAP table. */
  type MapSlot = s: Slot | !IsAdded(s.key) witness Slot(Satellite, 0, 3)

  /** A slot of an extractor dictionary: no satellite and no epoch field. */
  type DataSlot = s: Slot | !IsAdded(s.key) && !IsDate(s.key) && !s.key.Satellite?
    witness Slot(SVClockBias, 23, 42)

  /** G_FIELDS_MAP. */
  const GMap0: seq<MapSlot> := [Slot(Satellite, 0, 3), Slot(Year, 4, 8), Slot(Month, 9, 11), Slot(Day, 12, 14), Slot(Hour, 15, 17), Slot(Minute, 18, 20), Slot(Second, 21, 23), Slot(SVClockBias, 23, 42), Slot(SVClockDrift, 42, 61), Slot(SVClockDriftRate, 61, 80)]
  const GMap1: seq<DataSlot> := [Slot(IODE, 4, 23), Slot(Crs, 23, 42), Slot(DeltaN, 42, 61), Slot(M0, 61, 80)]
  const GMap2: seq<DataSlot> := [Slot(Cuc, 4, 23), Slot(Ecc, 23, 42), Slot(Cus, 42, 61), Slot(SqrtA, 61, 80)]
  const GMap3: seq<DataSlot> := [Slot(TOE, 4, 23), Slot(Cic, 23, 42), Slot(Omega0, 42, 61), Slot(Cis, 61, 80)]
  const GMap4: seq<DataSlot> := [Slot(I0, 4, 23), Slot(Crc, 23, 42), Slot(Omega, 42, 61), Slot(OmegaDot, 61, 80)]
  const GMap5: seq<DataSlot> := [Slot(IDOT, 4, 23), Slot(L2Codes, 23, 42), Slot(GPSWeek, 42, 61), Slot(L2Pflag, 61, 80)]
  const GMap6: seq<DataSlot> := [Slot(SVAcc, 4, 23), Slot(SVHealth, 23, 42), Slot(TGD, 42, 61), Slot(IODC, 61, 80)]
  const GMap7: seq<DataSlot> := [Slot(TransTime, 4, 23), Slot(FitInter, 23, 42)]
  const GMap: seq<seq<MapSlot>> := [GMap0, GMap1, GMap2, GMap3, GMap4, GMap5, GMap6, GMap7]

  /** E_FIELDS_MAP. */
  const EMap0: seq<MapSlot> := [Slot(Satellite, 0, 3), Slot(Year, 4, 8), Slot(Month, 9, 11), Slot(Day, 12, 14), Slot(Hour, 15, 17), Slot(Minute, 18, 20), Slot(Second, 21, 23), Slot(SVClockBias, 23, 42), Slot(SVClockDrift, 42, 61), Slot(SVClockDriftRate, 61, 80)]
  const EMap1: seq<DataSlot> := [Slot(IODnav, 4, 23), Slot(Crs, 23, 42), Slot(DeltaN, 42, 61), Slot(M0, 61, 80)]
  const EMap2: seq<DataSlot> := [Slot(Cuc, 4, 23), Slot(Ecc, 23, 42), Slot(Cus, 42, 61), Slot(SqrtA, 61, 80)]
  const EMap3: seq<DataSlot> := [Slot(TOE, 4, 23), Slot(Cic, 23, 42), Slot(Omega0, 42, 61), Slot(Cis, 61, 80)]
  const EMap4: seq<DataSlot> := [Slot(I0, 4, 23), Slot(Crc, 23, 42), Slot(Omega, 42, 61), Slot(OmegaDot, 61, 80)]
  const EMap5: seq<DataSlot> := [Slot(IDOT, 4, 23), Slot(GPSWeek, 23, 42), Slot(GALWeek, 42, 61)]
  const EMap6: seq<DataSlot> := [Slot(SISA, 4, 23), Slot(SVhealth, 23, 42), Slot(BGDe5a, 42, 61), Slot(BGDe5b, 61, 80)]
  const EMap7: seq<DataSlot> := [Slot(TransTime, 4, 23)]
  const EMap: seq<seq<MapSlot>> := [EMap0, EMap1, EMap2, EMap3, EMap4, EMap5, EMap6, EMap7]

  /** R_FIELDS_MAP (the second assignment, which replaces the first). */
  const RMap0: seq<MapSlot> := [Slot(Satellite, 0, 3), Slot(Year, 4, 8), Slot(Month, 9, 11), Slot(Day, 12, 14), Slot(Hour, 15, 17), Slot(Minute, 18, 20), Slot(Second, 21, 23), Slot(SVClockBias, 23, 42), Slot(SVRelFreqBias, 42, 61), Slot(MessageFrameTime, 61, 80)]
  const RMap1: seq<DataSlot> := [Slot(X, 4, 23), Slot(DX, 23, 42), Slot(DX2, 42, 61), Slot(Health, 61, 80)]
  const RMap2: seq<DataSlot> := [Slot(Y, 4, 23), Slot(DY, 23, 42), Slot(DY2, 42, 61), Slot(FreqNum, 61, 80)]
  const RMap3: seq<DataSlot> := [Slot(Z, 4, 23), Slot(DZ, 23, 42), Slot(DZ2, 42, 61), Slot(AgeOpInfo, 61, 80)]
  const RMap: seq<seq<MapSlot>> := [RMap0, RMap1, RMap2, RMap3]

  /** The dictionary literal of `_extract_g_fields`, one list per line. */
  const GDict0: seq<DataSlot> := [Slot(SVClockBias, 23, 42), Slot(SVClockDrift, 42, 61), Slot(SVClockDriftRate, 61, 80)]
  const GDict1: seq<DataSlot> := [Slot(IODE, 4, 23), Slot(Crs, 23, 42), Slot(DeltaN, 42, 61), Slot(M0, 61, 80)]
  const GDict2: seq<DataSlot> := [Slot(Cuc, 4, 23), Slot(Ecc, 23, 42), Slot(Cus, 42, 61), Slot(SqrtA, 61, 80)]
  const GDict3: seq<DataSlot> := [Slot(TOE, 4, 23), Slot(Cic, 23, 42), Slot(Omega0, 42, 61), Slot(Cis, 61, 80)]
  const GDict4: seq<DataSlot> := [Slot(I0, 4, 23), Slot(Crc, 23, 42), Slot(Omega, 42, 61), Slot(OmegaDot, 61, 80)]
  const GDict5: seq<DataSlot> := [Slot(IDOT, 4, 23), Slot(L2Codes, 23, 42), Slot(GPSWeek, 42, 61), Slot(L2Pflag, 61, 80)]
  const GDict6: seq<DataSlot> := [Slot(SVAcc, 4, 23), Slot(SVHealth, 23, 42), Slot(TGD, 42, 61), Slot(IODC, 61, 80)]
  const GDict7: seq<DataSlot> := [Slot(TransTime, 4, 23), Slot(FitInter, 23, 42)]
  const GDict: seq<seq<DataSlot>> := [GDict0, GDict1, GDict2, GDict3, GDict4, GDict5, GDict6, GDict7]

  /** The dictionary literal of `_extract_e_fields`. */
  const EDict0: seq<DataSlot> := [Slot(SVClockBias, 23, 42), Slot(SVClockDrift, 42, 61), Slot(SVClockDriftRate, 61, 80)]
  const EDict1: seq<DataSlot> := [Slot(IODnav, 4, 23), Slot(Crs, 23, 42), Slot(DeltaN, 42, 61), Slot(M0, 61, 80)]
  const EDict2: seq<DataSlot> := [Slot(Cuc, 4, 23), Slot(Ecc, 23, 42), Slot(Cus, 42, 61), Slot(SqrtA, 61, 80)]
  const EDict3: seq<DataSlot> := [Slot(TOE, 4, 23), Slot(Cic, 23, 42), Slot(Omega0, 42, 61), Slot(Cis, 61, 80)]
  const EDict4: seq<DataSlot> := [Slot(I0, 4, 23), Slot(Crc, 23, 42), Slot(Omega, 42, 61), Slot(OmegaDot, 61, 80)]
  const EDict5: seq<DataSlot> := [Slot(IDOT, 4, 23), Slot(GPSWeek, 23, 42), Slot(GALWeek, 42, 61)]
  const EDict6: seq<DataSlot> := [Slot(SISA, 4, 23), Slot(SVHealth, 23, 42), Slot(BGDe5a, 42, 61), Slot(BGDe5b, 61, 80)]
  const EDict7: seq<DataSlot> := [Slot(TransTime, 4, 23)]
  const EDict: seq<seq<DataSlot>> := [EDict0, EDict1, EDict2, EDict3, EDict4, EDict5, EDict6, EDict7]

  /** The dictionary literal of `_extract_r_fields`. */
  const RDict0: seq<DataSlot> := [Slot(SVClockBias, 23, 42), Slot(SVRelFreqBias, 42, 61), Slot(MessageFrameTime, 61, 80)]
  const RDict1: seq<DataSlot> := [Slot(X, 4, 23), Slot(DX, 23, 42), Slot(DX2, 42, 61), Slot(Health, 61, 80)]
  const RDict2: seq<DataSlot> := [Slot(Y, 4, 23), Slot(DY, 23, 42), Slot(DY2, 42, 61), Slot(FreqNum, 61, 80)]
  const RDict3: seq<DataSlot> := [Slot(Z, 4, 23), Slot(DZ, 23, 42), Slot(DZ2, 42, 61), Slot(AgeOpInfo, 61, 80)]
  const RDict: seq<seq<DataSlot>> := [RDict0, RDict1, RDict2, RDict3]

  /** The GPS and GLONASS extractors read exactly the slots of their maps
      after the satellite id and the six epoch fields. The Galileo extractor
      does too, except that it files the health word under the GPS name
      `SVHealth` where the Galileo map says `SVhealth`. */
  lemma DictsFollowMaps()
    ensures GDict == [GMap[0][7..]] + GMap[1..]
    ensures RDict == [RMap[0][7..]] + RMap[1..]
    ensures EMap[6][1] == Slot(SVhealth, 23, 42)
    ensures EDict == ([EMap[0][7..]] + EMap[1..])[6 := EMap[6][1 := Slot(SVHealth, 23, 42)]]
  {
    assert EDict6 == EMap6[1 := Slot(SVHealth, 23, 42)];
  }

  /** The value of one slot on one line, under the reader's decoder
      (`Eval` for nav.py, `Eval3` for rinex3.py). */
  function SlotValue<V>(dec: string -> V, line: string, s: Slot): V {
    dec(Slice(line, s.start, s.end))
  }

  /** `data[field] = _eval(line[start:end])` for the slots of one line, in
      order, onto `acc`: a later slot with the same key overwrites. */
  function ExtractLine<V>(dec: string -> V, line: string, slots: seq<Slot>, acc: map<NavKey, V>): (r: map<NavKey, V>)
    ensures r.Keys == acc.Keys + set j | 0 <= j < |slots| :: slots[j].key
  {
    if slots == [] then acc
    else
      var n := |slots| - 1;
      var m := ExtractLine(dec, line, slots[..n], acc);
      assert (set j | 0 <= j < |slots| :: slots[j].key) == (set j | 0 <= j < n :: slots[..n][j].key) + {slots[n].key} by {
        assert forall j | 0 <= j < n :: slots[..n][j] == slots[j];
      }
      m[slots[n].key := SlotValue(dec, line, slots[n])]
  }

  /** The first `n` lines zipped with the first `n` rows of the layout. */
  function ExtractLines<V>(dec: string -> V, lines: seq<string>, layout: Layout, n: nat): map<NavKey, V>
    requires n <= |lines| && n <= |layout|
  {
    if n == 0 then map[] else ExtractLine(dec, lines[n - 1], layout[n - 1], ExtractLines(dec, lines, layout, n - 1))
  }

  /** `extract_fields(lines, fields_map)`: zip stops at the shorter of the
      two, so a record cut short by the end of the file yields fewer keys. */
  function Extract<V>(dec: string -> V, lines: seq<string>, layout: Layout): map<NavKey, V>
  {
    ExtractLines(dec, lines, layout, Min(|lines|, |layout|))
  }

  /** The keys of the first n rows of a layout. */
  function KeysUpTo(layout: Layout, n: nat): set<NavKey>
    requires n <= |layout|
  {
    set r, j | 0 <= r < n && 0 <= j < |layout[r]| :: layout[r][j].key
  }

  /** The extracted keys are exactly the keys of the rows that were zipped
      with a line. */
  lemma {:induction false} ExtractLinesKeys<V>(dec: string -> V, lines: seq<string>, layout: Layout, n: nat)
    requires n <= |lines| && n <= |layout|
    ensures ExtractLines(dec, lines, layout, n).Keys == KeysUpTo(layout, n)
  {
    if n > 0 {
      ExtractLinesKeys(dec, lines, layout, n - 1);
      var row := layout[n - 1];
      assert KeysUpTo(layout, n) == KeysUpTo(layout, n - 1) + set j | 0 <= j < |row| :: row[j].key by {
        forall k | k in KeysUpTo(layout, n) ensures k in KeysUpTo(layout, n - 1) || k in set j | 0 <= j < |row| :: row[j].key {
          var r, j :| 0 <= r < n && 0 <= j < |layout[r]| && layout[r][j].key == k;
          if r < n - 1 { assert k in KeysUpTo(layout, n - 1); }
        }
      }
    }
  }

  /** A slot whose key does not occur again later in its own line gives that
      key its value. */
  lemma {:induction false} ExtractLineValue<V>(dec: string -> V, line: string, slots: seq<Slot>, acc: map<NavKey, V>, j: nat)
    requires j < |slots|
    requires forall i | j < i < |slots| :: slots[i].key != slots[j].key
    ensures slots[j].key in ExtractLine(dec, line, slots, acc)
    ensures ExtractLine(dec, line, slots, acc)[slots[j].key] == SlotValue(dec, line, slots[j])
  {
    var n := |slots| - 1;
    var m := ExtractLine(dec, line, slots[..n], acc);
    assert ExtractLine(dec, line, slots, acc) == m[slots[n].key := SlotValue(dec, line, slots[n])];
    if j < n {
      assert slots[..n][j] == slots[j];
      assert forall i | j < i < n :: slots[..n][i].key != slots[..n][j].key by {
        forall i | j < i < n ensures slots[..n][i].key != slots[..n][j].key { assert slots[..n][i] == slots[i]; }
      }
      ExtractLineValue(dec, line, slots[..n], acc, j);
    }
  }

  /** A line whose slots avoid key k leaves k's value alone. */
  lemma {:induction false} ExtractLineKeeps<V>(dec: string -> V, line: string, slots: seq<Slot>, acc: map<NavKey, V>, k: NavKey)
    requires k in acc
    requires forall i | 0 <= i < |slots| :: slots[i].key != k
    ensures k in ExtractLine(dec, line, slots, acc) && ExtractLine(dec, line, slots, acc)[k] == acc[k]
  {
    if slots != [] {
      ExtractLineKeeps(dec, line, slots[..|slots| - 1], acc, k);
    }
  }

  /** No key occurs twice in a layout. */
  predicate UniqueKeys(layout: Layout) {
    forall r1, j1, r2, j2 | 0 <= r1 < |layout| && 0 <= j1 < |layout[r1]| && 0 <= r2 < |layout| && 0 <= j2 < |layout[r2]| ::
      layout[r1][j1].key == layout[r2][j2].key ==> r1 == r2 && j1 == j2
  }

  /** In a layout without repeated keys, every slot of a line that was read
      holds the decoded slice of that line: field `key` is
      `_eval(lines[r][start:end])`. */
  lemma {:induction false} ExtractValue<V>(dec: string -> V, lines: seq<string>, layout: Layout, n: nat, r: nat, j: nat)
    requires n <= |lines| && n <= |layout| && UniqueKeys(layout)
    requires r < n && j < |layout[r]|
    ensures layout[r][j].key in ExtractLines(dec, lines, layout, n)
    ensures ExtractLines(dec, lines, layout, n)[layout[r][j].key] == SlotValue(dec, lines[r], layout[r][j])
  {
    var k := layout[r][j].key;
    var prev := ExtractLines(dec, lines, layout, n - 1);
    assert ExtractLines(dec, lines, layout, n) == ExtractLine(dec, lines[n - 1], layout[n - 1], prev);
    if r == n - 1 {
      assert forall i | j < i < |layout[r]| :: layout[r][i].key != layout[r][j].key;
      ExtractLineValue(dec, lines[r], layout[r], prev, j);
    } else {
      ExtractValue(dec, lines, layout, n - 1, r, j);
      var row := layout[n - 1];
      assert forall i | 0 <= i < |row| :: row[i].key != k;
      ExtractLineKeeps(dec, lines[n - 1], row, prev, k);
    }
  }

  /** Reading a whole record through a layout without repeated keys and
      decoding afterwards: slot j of line r holds the decoded slice of line r. */
  lemma DecodedSlot<V>(dec: string -> V, lines: seq<string>, layout: Layout, r: nat, j: nat)
    requires |lines| == |layout| && UniqueKeys(layout)
    requires r < |layout| && j < |layout[r]|
    ensures var s := layout[r][j]; var m := Decoded(dec, Extract(Verbatim, lines, layout));
      s.key in m && m[s.key] == dec(Slice(lines[r], s.start, s.end))
  {
    ExtractValue(Verbatim, lines, layout, |layout|, r, j);
  }

  /** The slice itself: extracting with it gives the texts before decoding. */
  function Verbatim(s: string): string {
    s
  }

  /** Every text of a map decoded. */
  function Decoded<V>(dec: string -> V, m: map<NavKey, string>): (r: map<NavKey, V>)
    ensures r.Keys == m.Keys
  {
    map k | k in m :: dec(m[k])
  }

  /** Decoding slot by slot while extracting is decoding the extracted
      texts afterwards. */
  lemma {:induction false} ExtractLineDecoded<V>(dec: string -> V, line: string, slots: seq<Slot>, acc: map<NavKey, string>)
    ensures ExtractLine(dec, line, slots, Decoded(dec, acc)) == Decoded(dec, ExtractLine(Verbatim, line, slots, acc))
  {
    if slots != [] {
      var n := |slots| - 1;
      ExtractLineDecoded(dec, line, slots[..n], acc);
    }
  }

  lemma {:induction false} ExtractLinesDecoded<V>(dec: string -> V, lines: seq<string>, layout: Layout, n: nat)
    requires n <= |lines| && n <= |layout|
    ensures ExtractLines(dec, lines, layout, n) == Decoded(dec, ExtractLines(Verbatim, lines, layout, n))
  {
    if n > 0 {
      ExtractLinesDecoded(dec, lines, layout, n - 1);
      ExtractLineDecoded(dec, lines[n - 1], layout[n - 1], ExtractLines(Verbatim, lines, layout, n - 1));
    } else {
      assert Decoded(dec, map[]) == map[];
    }
  }

  lemma ExtractDecoded<V>(dec: string -> V, lines: seq<string>, layout: Layout)
    ensures Extract(dec, lines, layout) == Decoded(dec, Extract(Verbatim, lines, layout))
  {
    ExtractLinesDecoded(dec, lines, layout, Min(|lines|, |layout|));
  }
}
