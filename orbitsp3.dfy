/** Interpolation of a precise-orbit table (`pos_sat_sp3` in
    gnsstools/orbits/orbit_sp3.py, duplicated in gnsstools/orbits/orbit.py):
    the row nearest the requested date, the window of ordre + 1 rows
    chosen around it, and the Lagrange combination of the window's
    positions and clocks, over exact reals. */
module OrbitSp3 {
  import opened Rinex

  /** One row of the table: the date (MJD), the position X, Y, Z in km
      and the clock in microseconds. */
  datatype Sample = Sample(t: real, x: real, y: real, z: real, clock: real)

  /** The four values the interpolation combines. */
  datatype Channel = X | Y | Z | Clock

  function Value(s: Sample, ch: Channel): real {
    match ch
    case X => s.x
    case Y => s.y
    case Z => s.z
    case Clock => s.clock
  }

  /** Pairwise distinct dates. */
  predicate Distinct(rows: seq<Sample>) {
    forall i, j | 0 <= i < j < |rows| :: rows[i].t != rows[j].t
  }

  // ---------------------------------------------------------------------
  // The window

  function Distance(a: real, b: real): real {
    if a >= b then a - b else b - a
  }

  /** `np.abs(orb[:, 0] - mjd).argmin()` over the first n rows: the first
      row whose date is nearest mjd. */
  function Nearest(rows: seq<Sample>, mjd: real, n: nat): (p: nat)
    requires 0 < n <= |rows|
    ensures p < n
    ensures forall i | 0 <= i < n :: Distance(rows[p].t, mjd) <= Distance(rows[i].t, mjd)
    ensures forall i | 0 <= i < p :: Distance(rows[p].t, mjd) < Distance(rows[i].t, mjd)
  {
    if n == 1 then 0
    else
      var p := Nearest(rows, mjd, n - 1);
      if Distance(rows[n - 1].t, mjd) < Distance(rows[p].t, mjd) then n - 1 else p
  }

  /** `max(position - 1, 0)`. */
  function Anchor(position: nat): nat {
    if position >= 1 then position - 1 else 0
  }

  /** `(ordre + 1) // 2` (floor division; Dafny's division by a positive
      number floors too). */
  function Center(ordre: int): int {
    (ordre + 1) / 2
  }

  /** The first row of the window as `pos_sat_sp3` chooses it: the top of
      the table when the anchor is before the center, the last ordre + 1
      rows of the table when it is after, and index - center + 1 when it is
      on it. */
  function Start(index: int, ordre: int, nl: int): int {
    var center := Center(ordre);
    if index < center then 0
    else if index > center then nl - ordre - 1
    else index - center + 1
  }

  /** A slice bound as Python adjusts it: a negative bound counts from the
      end, and the bound is clamped to the sequence. */
  function Bound(i: int, n: nat): (b: nat)
    ensures b <= n
  {
    if i < 0 then (if i + n < 0 then 0 else i + n) else if i > n then n else i
  }

  /** `orb[start:end]`. */
  function PySlice<T>(s: seq<T>, start: int, end: int): (r: seq<T>)
    ensures var a, b := Bound(start, |s|), Bound(end, |s|);
      r == if a <= b then s[a..b] else []
  {
    var a, b := Bound(start, |s|), Bound(end, |s|);
    if a <= b then s[a..b] else []
  }

  /** The window of `pos_sat_sp3`: argmin raises ValueError on an empty
      table. */
  function Window(orb: seq<Sample>, nl: int, mjd: real, ordre: int): Result<seq<Sample>> {
    if orb == [] then Err(ValueError)
    else
      var start := Start(Anchor(Nearest(orb, mjd, |orb|)), ordre, nl);
      Ok(PySlice(orb, start, start + ordre + 1))
  }

  // ---------------------------------------------------------------------
  // The Lagrange combination

  /** `Lj[j]` after the inner loop has run over k' < k: the product of
      (mjd - t_k') / (t_j - t_k') over those k' other than j, multiplied in
      the order the loop does. */
  function Partial(a: seq<Sample>, mjd: real, j: nat, k: nat): real
    requires j < |a| && k <= |a| && Distinct(a)
  {
    if k == 0 then 1.0
    else if k - 1 == j then Partial(a, mjd, j, k - 1)
    else Factor(Partial(a, mjd, j, k - 1), a, mjd, j, k - 1)
  }

  /** One step of the Lagrange formula: l times (mjd - t_k) / (t_j - t_k). */
  function Factor(l: real, a: seq<Sample>, mjd: real, j: nat, k: nat): real
    requires j < |a| && k < |a| && j != k && Distinct(a)
  {
    l * (mjd - a[k].t) / (a[j].t - a[k].t)
  }

  /** Basis polynomial j over the first m rows, at mjd. */
  function Basis(a: seq<Sample>, m: nat, mjd: real, j: nat): real
    requires j < m <= |a| && Distinct(a)
  {
    Partial(a, mjd, j, m)
  }

  /** The sum over j < n of basis j (over the first m rows) times the
      channel of row j. */
  function Weighted(a: seq<Sample>, m: nat, mjd: real, n: nat, ch: Channel): real
    requires n <= m <= |a| && Distinct(a)
  {
    if n == 0 then 0.0 else Weighted(a, m, mjd, n - 1, ch) + Term(Basis(a, m, mjd, n - 1), Value(a[n - 1], ch))
  }

  /** A basis value times a channel value. */
  function Term(l: real, v: real): real {
    l * v
  }

  /** The Lagrange interpolation of a channel at mjd over the first m rows. */
  function Interpolated(a: seq<Sample>, m: nat, mjd: real, ch: Channel): real
    requires m <= |a| && Distinct(a)
  {
    Weighted(a, m, mjd, m, ch)
  }

  /** The result of `pos_sat_sp3`: X, Y, Z in metres and the clock in
      seconds. */
  datatype Position = Position(x: real, y: real, z: real, dte: real)

  /** The window's interpolation over its first m rows, scaled: positions
      by 1000, the clock by 10^-6. */
  function Scaled(a: seq<Sample>, m: nat, mjd: real): Position
    requires m <= |a| && Distinct(a)
  {
    Position(1000.0 * Interpolated(a, m, mjd, X), 1000.0 * Interpolated(a, m, mjd, Y),
             1000.0 * Interpolated(a, m, mjd, Z), Interpolated(a, m, mjd, Clock) * 0.000001)
  }

  /** A contiguous part of a table with distinct dates has distinct
      dates. */
  lemma DistinctSlice(orb: seq<Sample>, a: nat, b: nat)
    requires a <= b <= |orb| && Distinct(orb)
    ensures Distinct(orb[a..b])
  {
    forall i, j | 0 <= i < j < b - a ensures orb[a..b][i].t != orb[a..b][j].t {
      assert orb[a..b][i] == orb[a + i] && orb[a..b][j] == orb[a + j];
    }
  }

  lemma DistinctPySlice(orb: seq<Sample>, start: int, end: int)
    requires Distinct(orb)
    ensures Distinct(PySlice(orb, start, end))
  {
    var a, b := Bound(start, |orb|), Bound(end, |orb|);
    if a <= b {
      DistinctSlice(orb, a, b);
    }
  }

  lemma DistinctWindow(orb: seq<Sample>, nl: int, mjd: real, ordre: int)
    requires Distinct(orb) && Window(orb, nl, mjd, ordre).Ok?
    ensures Distinct(Window(orb, nl, mjd, ordre).value)
  {
    var start := Start(Anchor(Nearest(orb, mjd, |orb|)), ordre, nl);
    DistinctPySlice(orb, start, start + ordre + 1);
  }

  /** What `pos_sat_sp3` computes for the table `orb` of `nl` rows: the
      window, then, with N its number of rows, the interpolation over its
      first N - 1 rows only (`np.ones(N - 1)` raises ValueError for an
      empty window). */
  function PosSat(orb: seq<Sample>, nl: int, mjd: real, ordre: int): Result<Position>
    requires Distinct(orb)
  {
    match Window(orb, nl, mjd, ordre)
    case Err(e) => Err(e)
    case Ok(a) =>
      DistinctWindow(orb, nl, mjd, ordre);
      if |a| == 0 then Err(ValueError) else Ok(Scaled(a, |a| - 1, mjd))
  }

  /** One more factor of the inner loop. */
  lemma PartialNext(a: seq<Sample>, mjd: real, j: nat, k: nat)
    requires j < |a| && k < |a| && Distinct(a)
    ensures Partial(a, mjd, j, k + 1) == if k != j then Factor(Partial(a, mjd, j, k), a, mjd, j, k) else Partial(a, mjd, j, k)
  {
  }

  /** The inner loop for row j: `Lj[j]` is multiplied by one factor per
      k < degree other than j; the other entries are left alone. */
  method Product(lj: array<real>, a: seq<Sample>, degree: nat, mjd: real, j: nat)
    requires j < degree == lj.Length && degree <= |a| && Distinct(a) && lj[j] == 1.0
    modifies lj
    ensures lj[j] == Basis(a, degree, mjd, j)
    ensures forall i | 0 <= i < degree && i != j :: lj[i] == old(lj[i])
  {
    for k := 0 to degree
      invariant lj[j] == Partial(a, mjd, j, k)
      invariant forall i | 0 <= i < degree && i != j :: lj[i] == old(lj[i])
    {
      PartialNext(a, mjd, j, k);
      if k != j {
        ghost var l := lj[j];
        lj[j] := lj[j] * (mjd - a[k].t) / (a[j].t - a[k].t);
        assert lj[j] == Factor(l, a, mjd, j, k);
      }
    }
  }

  /** The nested loops: `Lj` starts as ones; for each j, the inner loop
      makes `Lj[j]` basis j, then the four sums take `Lj[j]` times row j. */
  method Combine(a: seq<Sample>, degree: nat, mjd: real) returns (xs: real, ys: real, zs: real, clock: real)
    requires degree <= |a| && Distinct(a)
    ensures xs == Interpolated(a, degree, mjd, X) && ys == Interpolated(a, degree, mjd, Y)
    ensures zs == Interpolated(a, degree, mjd, Z) && clock == Interpolated(a, degree, mjd, Clock)
  {
    xs, ys, zs, clock := 0.0, 0.0, 0.0, 0.0;
    var lj := new real[degree](_ => 1.0);
    for j := 0 to degree
      invariant forall i | j <= i < degree :: lj[i] == 1.0
      invariant xs == Weighted(a, degree, mjd, j, X) && ys == Weighted(a, degree, mjd, j, Y)
      invariant zs == Weighted(a, degree, mjd, j, Z) && clock == Weighted(a, degree, mjd, j, Clock)
    {
      Product(lj, a, degree, mjd, j);
      ghost var l := lj[j];
      xs := xs + lj[j] * a[j].x;
      ys := ys + lj[j] * a[j].y;
      zs := zs + lj[j] * a[j].z;
      clock := clock + lj[j] * a[j].clock;
      assert lj[j] * a[j].x == Term(l, Value(a[j], X)) && lj[j] * a[j].y == Term(l, Value(a[j], Y));
      assert lj[j] * a[j].z == Term(l, Value(a[j], Z)) && lj[j] * a[j].clock == Term(l, Value(a[j], Clock));
    }
  }

  /** `pos_sat_sp3`, given the table and its row count that `get_sp3`
      returns. */
  method PosSatSp3(orb: seq<Sample>, nl: int, mjd: real, ordre: int) returns (res: Result<Position>)
    requires Distinct(orb)
    ensures res == PosSat(orb, nl, mjd, ordre)
  {
    if orb == [] {
      return Err(ValueError);
    }
    var a := SelectWindow(orb, nl, mjd, ordre);
    DistinctWindow(orb, nl, mjd, ordre);
    var n := |a|;
    if n == 0 {
      return Err(ValueError);
    }
    var xs, ys, zs, clock := Combine(a, n - 1, mjd);
    res := Ok(Position(1.0e3 * xs, 1.0e3 * ys, 1.0e3 * zs, clock * 1.0e-6));
    assert res == Ok(Scaled(a, n - 1, mjd));
  }

  /** The rows `pos_sat_sp3` interpolates: the nearest row, its window
      start, and the slice of ordre + 1 rows from there. */
  method SelectWindow(orb: seq<Sample>, nl: int, mjd: real, ordre: int) returns (a: seq<Sample>)
    requires orb != []
    ensures Window(orb, nl, mjd, ordre) == Ok(a)
  {
    var position := Nearest(orb, mjd, |orb|);
    var index: int := if position as int - 1 > 0 then position as int - 1 else 0;
    var center := (ordre + 1) / 2;
    var startIndex;
    if index < center {
      startIndex := 0;
    } else if index > center {
      startIndex := nl - ordre - 1;
    } else {
      startIndex := index - center + 1;
    }
    assert index == Anchor(position) && startIndex == Start(index, ordre, nl);
    var endIndex := startIndex + ordre + 1;
    a := PySlice(orb, startIndex, endIndex);
  }

  // ---------------------------------------------------------------------
  // Properties of the window

  /** A date of the table is its own nearest row. */
  lemma NearestAtNode(orb: seq<Sample>, i: nat, n: nat)
    requires i < n <= |orb| && Distinct(orb)
    ensures Nearest(orb, orb[i].t, n) == i
  {
    var p := Nearest(orb, orb[i].t, n);
    assert Distance(orb[p].t, orb[i].t) <= Distance(orb[i].t, orb[i].t) == 0.0;
  }

  /** The window starts at the top of the table, at row 1 (when the anchor
      is exactly the center) or at the last ordre + 1 rows, and on a table
      of at least ordre + 2 rows it is exactly ordre + 1 consecutive rows. */
  lemma WindowInside(orb: seq<Sample>, nl: int, mjd: real, ordre: int)
    requires orb != [] && nl == |orb| && 0 <= ordre && ordre + 2 <= nl
    ensures var s := Start(Anchor(Nearest(orb, mjd, |orb|)), ordre, nl);
      (s == 0 || s == 1 || s == nl - ordre - 1) &&
      0 <= s && s + ordre + 1 <= nl &&
      Window(orb, nl, mjd, ordre) == Ok(orb[s..s + ordre + 1])
  {
    var index := Anchor(Nearest(orb, mjd, |orb|));
    var s := Start(index, ordre, nl);
    assert Window(orb, nl, mjd, ordre) == Ok(PySlice(orb, s, s + ordre + 1));
  }

  /** A window past the center is always the last ordre + 1 rows, however
      far it is from the nearest row: on a table of dates 0, 1, ..., 5 and
      ordre = 1, the request for date 3 interpolates rows 4 and 5. */
  lemma WindowMissesNearest()
    ensures var orb := Ramp(6);
      Nearest(orb, 3.0, 6) == 3 && Window(orb, 6, 3.0, 1) == Ok(orb[4..6])
  {
    var orb := Ramp(6);
    NearestAtNode(orb, 3, 6);
    assert Start(Anchor(3), 1, 6) == 4;
  }

  /** Rows dated 0, 1, ..., n - 1, every value 0. */
  function Ramp(n: nat): (r: seq<Sample>)
    ensures |r| == n && Distinct(r)
    ensures forall i | 0 <= i < n :: r[i] == Sample(i as real, 0.0, 0.0, 0.0, 0.0)
  {
    if n == 0 then [] else Ramp(n - 1) + [Sample((n - 1) as real, 0.0, 0.0, 0.0, 0.0)]
  }

  /** The window the code evidently intends: ordre + 1 rows with the anchor
      index - center + 1 as first row, moved down or up only as far as needed
      to stay inside the table. */
  function CenteredStart(index: int, ordre: int, nl: int): int {
    var s := index - Center(ordre) + 1;
    if s < 0 then 0 else if s + ordre + 1 > nl then nl - ordre - 1 else s
  }

  /** The centered window holds the nearest row and ordre + 1 rows of the
      table. */
  lemma CenteredStartHolds(position: nat, ordre: int, nl: int)
    requires 1 <= ordre && ordre + 1 <= nl && position < nl
    ensures var s := CenteredStart(Anchor(position), ordre, nl);
      0 <= s <= position < s + ordre + 1 <= nl
  {
  }

  // ---------------------------------------------------------------------
  // Properties of the combination

  /** The basis polynomial of row j is 1 at the date of row j. */
  lemma {:induction false} PartialAtOwn(a: seq<Sample>, j: nat, k: nat)
    requires j < |a| && k <= |a| && Distinct(a)
    ensures Partial(a, a[j].t, j, k) == 1.0
  {
    if k > 0 {
      PartialAtOwn(a, j, k - 1);
      if k - 1 != j {
        DistinctPair(a, j, k - 1);
        var d := a[j].t - a[k - 1].t;
        assert Partial(a, a[j].t, j, k) == 1.0 * d / d == 1.0;
      }
    }
  }

  /** Once the factor of row i is in, the basis polynomial of row j is 0 at
      the date of row i. */
  lemma {:induction false} PartialAtOther(a: seq<Sample>, i: nat, j: nat, k: nat)
    requires i < k <= |a| && j < |a| && i != j && Distinct(a)
    ensures Partial(a, a[i].t, j, k) == 0.0
  {
    var t := a[i].t;
    if k - 1 == i {
      assert Partial(a, t, j, k) == Factor(Partial(a, t, j, i), a, t, j, i);
      FactorZero(Partial(a, t, j, i), a, t, j, i);
    } else {
      PartialAtOther(a, i, j, k - 1);
      if k - 1 != j {
        assert Partial(a, t, j, k) == Factor(0.0, a, t, j, k - 1);
        FactorZero(0.0, a, t, j, k - 1);
      }
    }
  }

  /** A factor is 0 at the date of its row or when the product so far
      is 0. */
  lemma FactorZero(l: real, a: seq<Sample>, mjd: real, j: nat, k: nat)
    requires j < |a| && k < |a| && j != k && Distinct(a)
    requires mjd == a[k].t || l == 0.0
    ensures Factor(l, a, mjd, j, k) == 0.0
  {
    var n := l * (mjd - a[k].t);
    assert n == 0.0;
    assert Factor(l, a, mjd, j, k) == n / (a[j].t - a[k].t);
  }

  lemma DistinctPair(a: seq<Sample>, i: nat, j: nat)
    requires i < |a| && j < |a| && i != j && Distinct(a)
    ensures a[i].t != a[j].t
  {
    if j < i {
      assert a[j].t != a[i].t;
    }
  }

  /** The basis polynomials are 1 at their own row's date and 0 at the
      dates of the other rows they use. */
  lemma BasisAtNode(a: seq<Sample>, m: nat, i: nat, j: nat)
    requires i < m && j < m && m <= |a| && Distinct(a)
    ensures Basis(a, m, a[i].t, j) == if i == j then 1.0 else 0.0
  {
    if i == j {
      PartialAtOwn(a, j, m);
    } else {
      PartialAtOther(a, i, j, m);
    }
  }

  /** At the date of row i < m, the first n terms of the sum add up to the
      channel of row i when i < n, and to 0 otherwise. */
  lemma {:induction false} WeightedAtNode(a: seq<Sample>, m: nat, i: nat, n: nat, ch: Channel)
    requires i < m && n <= m <= |a| && Distinct(a)
    ensures Weighted(a, m, a[i].t, n, ch) == if i < n then Value(a[i], ch) else 0.0
  {
    if n > 0 {
      WeightedAtNode(a, m, i, n - 1, ch);
      BasisAtNode(a, m, i, n - 1);
    }
  }

  /** The interpolation over the first m rows reproduces each of them at
      its own date. */
  lemma InterpolatedAtNode(a: seq<Sample>, m: nat, i: nat, ch: Channel)
    requires i < m <= |a| && Distinct(a)
    ensures Interpolated(a, m, a[i].t, ch) == Value(a[i], ch)
  {
    WeightedAtNode(a, m, i, m, ch);
  }

  /** Over all of its rows, the scaled interpolation gives back each row
      at its own date. */
  lemma ScaledAtNode(a: seq<Sample>, i: nat)
    requires i < |a| && Distinct(a)
    ensures Scaled(a, |a|, a[i].t) ==
      Position(1000.0 * a[i].x, 1000.0 * a[i].y, 1000.0 * a[i].z, a[i].clock * 0.000001)
  {
    InterpolatedAtNode(a, |a|, i, X);
    InterpolatedAtNode(a, |a|, i, Y);
    InterpolatedAtNode(a, |a|, i, Z);
    InterpolatedAtNode(a, |a|, i, Clock);
  }

  lemma ScaledInSlice(orb: seq<Sample>, s: nat, e: nat, i: nat)
    requires s <= i < e <= |orb| && Distinct(orb)
    ensures Distinct(orb[s..e])
    ensures Scaled(orb[s..e], e - s, orb[i].t) ==
      Position(1000.0 * orb[i].x, 1000.0 * orb[i].y, 1000.0 * orb[i].z, orb[i].clock * 0.000001)
  {
    DistinctSlice(orb, s, e);
    assert orb[s..e][i - s] == orb[i];
    ScaledAtNode(orb[s..e], i - s);
  }

  /** The combination leaves out the last row of the window: over two rows
      dated 0 and 1 with X = 0 and 1, its X at date 1 is 0, not 1. */
  lemma LastRowDropped()
    ensures var a := [Sample(0.0, 0.0, 0.0, 0.0, 0.0), Sample(1.0, 1.0, 0.0, 0.0, 0.0)];
      Distinct(a) && Interpolated(a, |a| - 1, a[1].t, X) == 0.0 != a[1].x
  {
    var a := [Sample(0.0, 0.0, 0.0, 0.0, 0.0), Sample(1.0, 1.0, 0.0, 0.0, 0.0)];
    assert Basis(a, 1, 1.0, 0) == 1.0;
  }

  /** Hence `pos_sat_sp3` does not give back a tabulated position at its own
      date: for the two rows above, ordre = 1 and the date 1, it returns
      X = 0 m, not 1000 m. */
  lemma PosSatMissesNode()
    ensures var orb := [Sample(0.0, 0.0, 0.0, 0.0, 0.0), Sample(1.0, 1.0, 0.0, 0.0, 0.0)];
      Distinct(orb) && PosSat(orb, 2, 1.0, 1).Ok? && PosSat(orb, 2, 1.0, 1).value.x == 0.0
  {
    var orb := [Sample(0.0, 0.0, 0.0, 0.0, 0.0), Sample(1.0, 1.0, 0.0, 0.0, 0.0)];
    NearestAtNode(orb, 1, 2);
    assert Start(Anchor(1), 1, 2) == 0 && PySlice(orb, 0, 2) == orb;
    assert Window(orb, 2, 1.0, 1) == Ok(orb);
    LastRowDropped();
  }

  /** The evident intent of `pos_sat_sp3`: Lagrange interpolation over all
      the rows of the centered window. */
  function Corrected(orb: seq<Sample>, nl: int, mjd: real, ordre: int): Result<Position>
    requires Distinct(orb)
  {
    if orb == [] then Err(ValueError)
    else
      var s := CenteredStart(Anchor(Nearest(orb, mjd, |orb|)), ordre, nl);
      var a := PySlice(orb, s, s + ordre + 1);
      DistinctPySlice(orb, s, s + ordre + 1);
      Ok(Scaled(a, |a|, mjd))
  }

  lemma CorrectedIs(orb: seq<Sample>, nl: int, mjd: real, ordre: int)
    requires Distinct(orb) && orb != []
    ensures var s := CenteredStart(Anchor(Nearest(orb, mjd, |orb|)), ordre, nl);
      var a := PySlice(orb, s, s + ordre + 1);
      Distinct(a) && Corrected(orb, nl, mjd, ordre) == Ok(Scaled(a, |a|, mjd))
  {
    var s := CenteredStart(Anchor(Nearest(orb, mjd, |orb|)), ordre, nl);
    DistinctPySlice(orb, s, s + ordre + 1);
  }

  /** At a date of the table the corrected interpolation gives back that
      row's position and clock, in metres and seconds. */
  lemma CorrectedAtNode(orb: seq<Sample>, nl: int, i: nat, ordre: int)
    requires Distinct(orb) && 1 <= ordre && ordre + 1 <= nl == |orb| && i < nl
    ensures Corrected(orb, nl, orb[i].t, ordre) ==
      Ok(Position(1000.0 * orb[i].x, 1000.0 * orb[i].y, 1000.0 * orb[i].z, orb[i].clock * 0.000001))
  {
    var s := CenteredStart(Anchor(i), ordre, nl);
    CenteredStartHolds(i, ordre, nl);
    NearestAtNode(orb, i, |orb|);
    assert PySlice(orb, s, s + ordre + 1) == orb[s..s + ordre + 1];
    CorrectedIs(orb, nl, orb[i].t, ordre);
    ScaledInSlice(orb, s, s + ordre + 1, i);
  }
}
