/** The extractor dictionaries of gnsstools/rinex/nav.py never file two
    slots under one key, so every decoded field of a record is the slice its
    slot names. */
module NavLayouts {
  import opened NavMaps

  /** A layout whose every slot sits where `where` says it is has no key
      twice. */
  lemma UniqueByPosition(layout: Layout, where: NavKey -> (int, int))
    requires forall r, j | 0 <= r < |layout| && 0 <= j < |layout[r]| :: where(layout[r][j].key) == (r, j)
    ensures UniqueKeys(layout)
  {
    forall r1, j1, r2, j2 | 0 <= r1 < |layout| && 0 <= j1 < |layout[r1]| && 0 <= r2 < |layout| && 0 <= j2 < |layout[r2]|
      && layout[r1][j1].key == layout[r2][j2].key
      ensures r1 == r2 && j1 == j2
    {
      assert where(layout[r1][j1].key) == (r1, j1) && where(layout[r2][j2].key) == (r2, j2);
    }
  }

  /** Line and slot of a key in the dictionary of `_extract_g_fields`. */
  function GWhere(k: NavKey): (int, int) {
    match k
    case SVClockBias => (0, 0) case SVClockDrift => (0, 1) case SVClockDriftRate => (0, 2)
    case IODE => (1, 0) case Crs => (1, 1) case DeltaN => (1, 2) case M0 => (1, 3)
    case Cuc => (2, 0) case Ecc => (2, 1) case Cus => (2, 2) case SqrtA => (2, 3)
    case TOE => (3, 0) case Cic => (3, 1) case Omega0 => (3, 2) case Cis => (3, 3)
    case I0 => (4, 0) case Crc => (4, 1) case Omega => (4, 2) case OmegaDot => (4, 3)
    case IDOT => (5, 0) case L2Codes => (5, 1) case GPSWeek => (5, 2) case L2Pflag => (5, 3)
    case SVAcc => (6, 0) case SVHealth => (6, 1) case TGD => (6, 2) case IODC => (6, 3)
    case TransTime => (7, 0) case FitInter => (7, 1)
    case _ => (-1, -1)
  }

  /** Every slot of line r of a layout sits where `where` says. */
  predicate Placed(row: seq<Slot>, r: int, where: NavKey -> (int, int)) {
    forall j | 0 <= j < |row| :: where(row[j].key) == (r, j)
  }

  lemma GLines01() ensures Placed(GDict0, 0, GWhere) && Placed(GDict1, 1, GWhere) { }
  lemma GLines23() ensures Placed(GDict2, 2, GWhere) && Placed(GDict3, 3, GWhere) { }
  lemma GLines45() ensures Placed(GDict4, 4, GWhere) && Placed(GDict5, 5, GWhere) { }
  lemma GLines67() ensures Placed(GDict6, 6, GWhere) && Placed(GDict7, 7, GWhere) { }

  /** No key occurs twice in the dictionary of `_extract_g_fields`. */
  lemma GDictUnique()
    ensures UniqueKeys(GDict)
  {
    GLines01(); GLines23(); GLines45(); GLines67();
    forall r, j | 0 <= r < |GDict| && 0 <= j < |GDict[r]| ensures GWhere(GDict[r][j].key) == (r, j) {
      assert Placed(GDict[r], r, GWhere);
    }
    UniqueByPosition(GDict, GWhere);
  }

  /** Line and slot of a key in the dictionary of `_extract_e_fields`. */
  function EWhere(k: NavKey): (int, int) {
    match k
    case SVClockBias => (0, 0) case SVClockDrift => (0, 1) case SVClockDriftRate => (0, 2)
    case IODnav => (1, 0) case Crs => (1, 1) case DeltaN => (1, 2) case M0 => (1, 3)
    case Cuc => (2, 0) case Ecc => (2, 1) case Cus => (2, 2) case SqrtA => (2, 3)
    case TOE => (3, 0) case Cic => (3, 1) case Omega0 => (3, 2) case Cis => (3, 3)
    case I0 => (4, 0) case Crc => (4, 1) case Omega => (4, 2) case OmegaDot => (4, 3)
    case IDOT => (5, 0) case GPSWeek => (5, 1) case GALWeek => (5, 2)
    case SISA => (6, 0) case SVHealth => (6, 1) case BGDe5a => (6, 2) case BGDe5b => (6, 3)
    case TransTime => (7, 0)
    case _ => (-1, -1)
  }

  lemma ELines01() ensures Placed(EDict0, 0, EWhere) && Placed(EDict1, 1, EWhere) { }
  lemma ELines23() ensures Placed(EDict2, 2, EWhere) && Placed(EDict3, 3, EWhere) { }
  lemma ELines45() ensures Placed(EDict4, 4, EWhere) && Placed(EDict5, 5, EWhere) { }
  lemma ELines67() ensures Placed(EDict6, 6, EWhere) && Placed(EDict7, 7, EWhere) { }

  /** No key occurs twice in the dictionary of `_extract_e_fields`. */
  lemma EDictUnique()
    ensures UniqueKeys(EDict)
  {
    ELines01(); ELines23(); ELines45(); ELines67();
    forall r, j | 0 <= r < |EDict| && 0 <= j < |EDict[r]| ensures EWhere(EDict[r][j].key) == (r, j) {
      assert Placed(EDict[r], r, EWhere);
    }
    UniqueByPosition(EDict, EWhere);
  }

  /** Line and slot of a key in the dictionary of `_extract_r_fields`. */
  function RWhere(k: NavKey): (int, int) {
    match k
    case SVClockBias => (0, 0) case SVRelFreqBias => (0, 1) case MessageFrameTime => (0, 2)
    case X => (1, 0) case DX => (1, 1) case DX2 => (1, 2) case Health => (1, 3)
    case Y => (2, 0) case DY => (2, 1) case DY2 => (2, 2) case FreqNum => (2, 3)
    case Z => (3, 0) case DZ => (3, 1) case DZ2 => (3, 2) case AgeOpInfo => (3, 3)
    case _ => (-1, -1)
  }

  lemma RLines01() ensures Placed(RDict0, 0, RWhere) && Placed(RDict1, 1, RWhere) { }
  lemma RLine2() ensures Placed(RDict2, 2, RWhere) { }
  lemma RLine3() ensures Placed(RDict3, 3, RWhere) { }

  /** No key occurs twice in the dictionary of `_extract_r_fields`. */
  lemma RDictUnique()
    ensures UniqueKeys(RDict)
  {
    RLines01(); RLine2(); RLine3();
    forall r, j | 0 <= r < |RDict| && 0 <= j < |RDict[r]| ensures RWhere(RDict[r][j].key) == (r, j) {
      assert Placed(RDict[r], r, RWhere);
    }
    UniqueByPosition(RDict, RWhere);
  }
}
