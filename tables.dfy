/** What the readers build before handing it to pandas: rows of named cells,
    the column dictionary (`df_data = defaultdict(list)`) they append to, the
    session counters, and the per-satellite grouping
    (`satellites = defaultdict(list)`, flattened in insertion order). */
module Tables {
  import opened Fields
  import GnssTime

  /** One value of a record. */
  datatype Cell =
    | Val(f: Field)                         // a decoded field; Val(Absent) is None
    | Date(raw: seq<string>)                // the six column texts given to gnsstime
    | Moment(t: GnssTime.Instant)           // a gnsstime built from six ints
    | Count(n: int)                         // a session number
    | Label(s: string)                      // a satellite id or a constellation letter
    | Point(x: Field, y: Field, z: Field)   // a shapely Point of three decoded fields
    | NaN                                   // numpy.nan: an observation never read

  type Row<K> = map<K, Cell>

  /** Appending one record to the column dictionary: every key of the record
      gets its value appended (a new column starts empty); other columns are
      left alone. */
  function AppendRow<K>(cols: map<K, seq<Cell>>, row: Row<K>): (r: map<K, seq<Cell>>)
    ensures r.Keys == cols.Keys + row.Keys
  {
    map k | k in cols.Keys + row.Keys ::
      if k in row then (if k in cols then cols[k] else []) + [row[k]] else cols[k]
  }

  /** The column dictionary after appending every record in order. */
  function Columns<K>(rows: seq<Row<K>>): map<K, seq<Cell>>
  {
    if rows == [] then map[] else AppendRow(Columns(rows[..|rows| - 1]), rows[|rows| - 1])
  }

  /** Appending one more record appends its row to the columns. */
  lemma ColumnsSnoc<K>(rows: seq<Row<K>>, row: Row<K>)
    ensures Columns(rows + [row]) == AppendRow(Columns(rows), row)
  {
    assert (rows + [row])[..|rows|] == rows;
  }

  /** A row completed with None for every column of `keys` it lacks. */
  function Completed<K(!new)>(row: Row<K>, keys: set<K>): (r: Row<K>)
    ensures forall k :: k in r <==> k in row || k in keys
    ensures forall k | k in row :: r[k] == row[k]
    ensures forall k | k in keys && k !in row :: r[k] == Val(Absent)
  {
    row + map k | k in keys && k !in row :: Val(Absent)
  }

  predicate SameKeys<K>(rows: seq<Row<K>>, keys: set<K>) {
    forall i | 0 <= i < |rows| :: rows[i].Keys == keys
  }

  /** Column `col` holds the k-values of `rows`, one per record, in order. */
  predicate IsColumn<K>(col: seq<Cell>, rows: seq<Row<K>>, k: K) {
    |col| == |rows| && forall i | 0 <= i < |rows| :: k in rows[i] && col[i] == rows[i][k]
  }

  /** `cols` is the column dictionary of `rows` when every record has the
      keys `keys`: exactly those keys (none before the first record), and
      column k holds the k-values of the records in input order. */
  predicate UniformColumns<K>(cols: map<K, seq<Cell>>, rows: seq<Row<K>>, keys: set<K>) {
    && cols.Keys == (if rows == [] then {} else keys)
    && forall k | k in cols :: IsColumn(cols[k], rows, k)
  }

  /** When every record has the same keys, the columns are exactly those keys,
      all as long as the number of records, and column k holds the k-values of
      the records in input order. */
  lemma {:induction false} ColumnsUniform<K>(rows: seq<Row<K>>, keys: set<K>)
    requires SameKeys(rows, keys)
    ensures UniformColumns(Columns(rows), rows, keys)
  {
    if rows != [] {
      var p := rows[..|rows| - 1];
      var last := rows[|rows| - 1];
      assert SameKeys(p, keys) by {
        forall i | 0 <= i < |p| ensures p[i].Keys == keys { assert p[i] == rows[i]; }
      }
      ColumnsUniform(p, keys);
      ColumnsStep(Columns(p), p, last, keys);
      assert rows == p + [last];
    }
  }

  lemma ColumnsStep<K>(c: map<K, seq<Cell>>, p: seq<Row<K>>, last: Row<K>, keys: set<K>)
    requires last.Keys == keys
    requires UniformColumns(c, p, keys)
    ensures UniformColumns(AppendRow(c, last), p + [last], keys)
  {
    forall k | k in AppendRow(c, last) ensures IsColumn(AppendRow(c, last)[k], p + [last], k) {
      AppendRowColumn(c, p, last, k);
    }
  }

  lemma AppendRowColumn<K>(c: map<K, seq<Cell>>, p: seq<Row<K>>, last: Row<K>, k: K)
    requires k in last
    requires k in c ==> IsColumn(c[k], p, k)
    requires k !in c ==> p == []
    ensures IsColumn(AppendRow(c, last)[k], p + [last], k)
  {
    var col := AppendRow(c, last)[k];
    var rows := p + [last];
    forall i | 0 <= i < |rows| ensures k in rows[i] && col[i] == rows[i][k] {
      if i < |p| { assert rows[i] == p[i]; }
    }
  }

  /** Length of the run of equal values ending at index i: the session
      counter of the navigation readers, which restarts at 1 whenever the
      satellite differs from the previous record's. */
  function RunLength<T(==,!new)>(s: seq<T>, i: nat): (n: nat)
    requires i < |s|
    ensures 1 <= n <= i + 1
    ensures forall j | i + 1 - n <= j <= i :: s[j] == s[i]
    ensures n <= i ==> s[i - n] != s[i]
  {
    if i == 0 || s[i - 1] != s[i] then 1
    else
      var m := RunLength(s, i - 1);
      assert forall j | i - m <= j <= i - 1 :: s[j] == s[i];
      m + 1
  }

  /** The run ending at i does not depend on what comes after i. */
  lemma {:induction false} RunLengthPrefix<T(!new)>(s: seq<T>, t: seq<T>, i: nat)
    requires i < |s| && i < |t| && s[..i + 1] == t[..i + 1]
    ensures RunLength(s, i) == RunLength(t, i)
  {
    assert s[i] == s[..i + 1][i] == t[i];
    if i > 0 {
      assert s[i - 1] == s[..i + 1][i - 1] == t[i - 1];
      assert s[..i] == s[..i + 1][..i] == t[..i + 1][..i] == t[..i];
      RunLengthPrefix(s, t, i - 1);
    }
  }

  /** The run ending at a new last element: one longer than the previous
      run when the element repeats the one before it, else 1. */
  lemma RunLengthSnoc<T(!new)>(s: seq<T>, x: T)
    ensures RunLength(s + [x], |s|) ==
      if s != [] && s[|s| - 1] == x then RunLength(s, |s| - 1) + 1 else 1
  {
    var t := s + [x];
    if s != [] {
      assert t[..|s|] == s;
      assert t[..|s|][..|s|] == s[..|s|];
      RunLengthPrefix(t, s, |s| - 1);
    }
  }

  /** The rows of records in order, each built with its session number:
      the length of the run of equal keys that the record ends. */
  function Numbering<T, K(==,!new), R>(xs: seq<T>, keys: seq<K>, row: (T, nat) -> R): (rows: seq<R>)
    requires |keys| == |xs|
    ensures |rows| == |xs|
  {
    if xs == [] then []
    else
      var n := |xs| - 1;
      Numbering(xs[..n], keys[..n], row) + [row(xs[n], RunLength(keys, n))]
  }

  /** Row i is record i with the run length at i. */
  lemma {:induction false} NumberingAt<T, K(!new), R>(xs: seq<T>, keys: seq<K>, row: (T, nat) -> R, i: nat)
    requires |keys| == |xs| && i < |xs|
    ensures Numbering(xs, keys, row)[i] == row(xs[i], RunLength(keys, i))
  {
    var n := |xs| - 1;
    if i < n {
      NumberingAt(xs[..n], keys[..n], row, i);
      assert keys[..i + 1] == keys[..n][..i + 1];
      RunLengthPrefix(keys, keys[..n], i);
    }
  }

  /** `[f(i) for i in range(n)]`. */
  function Tabulate<T>(n: nat, f: nat -> T): (s: seq<T>)
    ensures |s| == n
  {
    if n == 0 then [] else Tabulate(n - 1, f) + [f(n - 1)]
  }

  lemma {:induction false} TabulateAt<T>(n: nat, f: nat -> T, i: nat)
    requires i < n
    ensures Tabulate(n, f)[i] == f(i)
  {
    if i < n - 1 {
      TabulateAt(n - 1, f, i);
    }
  }

  /** Indexing into a + b reads a below |a| and b from there on. */
  lemma ConcatAt<T>(a: seq<T>, b: seq<T>, k: nat)
    requires k < |a| + |b|
    ensures (a + b)[k] == if k < |a| then a[k] else b[k - |a|]
  {
  }

  lemma AppendAssoc<T>(a: seq<T>, b: seq<T>, c: seq<T>)
    ensures a + (b + c) == (a + b) + c
  {
  }

  lemma ButLastSnoc<T>(s: seq<T>)
    requires s != []
    ensures s == s[..|s| - 1] + [s[|s| - 1]]
  {
  }

  lemma SnocPrefix<T>(s: seq<T>, x: T)
    ensures (s + [x])[..|s|] == s && (s + [x])[|s|] == x
  {
  }

  /** Number of occurrences of x in s. */
  function Occurrences<T(==,!new)>(s: seq<T>, x: T): (n: nat)
    ensures n <= |s|
    ensures n == 0 <==> x !in s
  {
    if s == [] then 0
    else
      var p := s[..|s| - 1];
      var m := Occurrences(p, x);
      assert x in s <==> x in p || s[|s| - 1] == x by {
        assert s == p + [s[|s| - 1]];
      }
      m + if s[|s| - 1] == x then 1 else 0
  }

  /** The distinct keys of s in order of first appearance: the key order of
      a Python dict filled by `d[key].append(...)` in input order. */
  function FirstAppearance<T(==,!new)>(s: seq<T>): (r: seq<T>)
    ensures forall x :: x in r <==> x in s
    ensures forall i, j | 0 <= i < j < |r| :: r[i] != r[j]
  {
    if s == [] then []
    else
      var p := FirstAppearance(s[..|s| - 1]);
      var x := s[|s| - 1];
      assert forall y :: y in s <==> y in s[..|s| - 1] || y == x by {
        assert s == s[..|s| - 1] + [x];
      }
      if x in p then p else p + [x]
  }

  /** The values filed under key x, in input order. */
  function Select<T(==,!new), R>(keys: seq<T>, vals: seq<R>, x: T): (r: seq<R>)
    requires |keys| == |vals|
    ensures |r| == Occurrences(keys, x)
  {
    if keys == [] then []
    else
      var n := |keys| - 1;
      Select(keys[..n], vals[..n], x) + if keys[n] == x then [vals[n]] else []
  }

  /** The groups of `order`, concatenated. */
  function Concat<T(==,!new), R>(order: seq<T>, keys: seq<T>, vals: seq<R>): seq<R>
    requires |keys| == |vals|
  {
    if order == [] then [] else Select(keys, vals, order[0]) + Concat(order[1..], keys, vals)
  }

  /** The records grouped by key, keys in order of first appearance and
      records in input order within a key. */
  function Grouped<T(==,!new), R>(keys: seq<T>, vals: seq<R>): seq<R>
    requires |keys| == |vals|
  {
    Concat(FirstAppearance(keys), keys, vals)
  }

  /** Grouping loses and duplicates nothing: it is a permutation. */
  lemma {:induction false} GroupedIsPermutation<T(!new), R>(keys: seq<T>, vals: seq<R>)
    requires |keys| == |vals|
    ensures multiset(Grouped(keys, vals)) == multiset(vals)
  {
    ConcatIsPermutation(FirstAppearance(keys), keys, vals);
  }

  lemma {:induction false} ConcatIsPermutation<T(!new), R>(order: seq<T>, keys: seq<T>, vals: seq<R>)
    requires |keys| == |vals|
    requires forall i, j | 0 <= i < j < |order| :: order[i] != order[j]
    requires forall x :: x in keys ==> x in order
    ensures multiset(Concat(order, keys, vals)) == multiset(vals)
    decreases |keys|
  {
    if keys == [] {
      ConcatEmpty(order, keys, vals);
    } else {
      var n := |keys| - 1;
      var pk, pv := keys[..n], vals[..n];
      calc {
        multiset(Concat(order, keys, vals));
        == { assert keys[n] in keys; ConcatAddsOne(order, keys, vals); }
        multiset(Concat(order, pk, pv)) + multiset{vals[n]};
        == { forall y | y in pk ensures y in order { assert y in keys; }
             ConcatIsPermutation(order, pk, pv); }
        multiset(pv) + multiset{vals[n]};
        == { assert vals == pv + [vals[n]]; }
        multiset(vals);
      }
    }
  }

  lemma {:induction false} ConcatEmpty<T(!new), R>(order: seq<T>, keys: seq<T>, vals: seq<R>)
    requires |keys| == |vals| == 0
    ensures Concat(order, keys, vals) == []
    decreases |order|
  {
    if order != [] {
      ConcatEmpty(order[1..], keys, vals);
    }
  }

  /** Adding the last record adds exactly it to the group of its key. */
  lemma {:induction false} ConcatAddsOne<T(!new), R>(order: seq<T>, keys: seq<T>, vals: seq<R>)
    requires |keys| == |vals| > 0
    requires forall i, j | 0 <= i < j < |order| :: order[i] != order[j]
    requires keys[|keys| - 1] in order
    ensures var n := |keys| - 1;
      multiset(Concat(order, keys, vals)) == multiset(Concat(order, keys[..n], vals[..n])) + multiset{vals[n]}
    decreases |order|
  {
    var n := |keys| - 1;
    var x := keys[n];
    var head := order[0];
    assert Select(keys, vals, head) == Select(keys[..n], vals[..n], head) + if x == head then [vals[n]] else [];
    if x == head {
      assert x !in order[1..] by {
        forall j | 0 <= j < |order| - 1 ensures order[1..][j] != x { assert order[1..][j] == order[j + 1]; }
      }
      ConcatWithout(order[1..], keys, vals);
    } else {
      assert x in order[1..];
      assert forall i, j | 0 <= i < j < |order[1..]| :: order[1..][i] != order[1..][j] by {
        forall i, j | 0 <= i < j < |order[1..]| ensures order[1..][i] != order[1..][j] {
          assert order[1..][i] == order[i + 1] && order[1..][j] == order[j + 1];
        }
      }
      ConcatAddsOne(order[1..], keys, vals);
    }
  }

  /** A record whose key is not in `order` does not show up. */
  lemma {:induction false} ConcatWithout<T(!new), R>(order: seq<T>, keys: seq<T>, vals: seq<R>)
    requires |keys| == |vals| > 0
    requires keys[|keys| - 1] !in order
    ensures var n := |keys| - 1; Concat(order, keys, vals) == Concat(order, keys[..n], vals[..n])
    decreases |order|
  {
    if order != [] {
      ConcatWithout(order[1..], keys, vals);
    }
  }

  /** Python's `len(d[key]) + 1` / per-key counter: the number of earlier
      records with the same key, plus one. */
  function Ordinal<T(==,!new)>(keys: seq<T>, i: nat): (n: nat)
    requires i < |keys|
    ensures 1 <= n <= i + 1
  {
    Occurrences(keys[..i], keys[i]) + 1
  }

  /** A record's ordinal depends only on the keys up to it. */
  lemma OrdinalPrefix<T(!new)>(keys: seq<T>, m: nat, i: nat)
    requires i < m <= |keys|
    ensures Ordinal(keys[..m], i) == Ordinal(keys, i)
  {
    assert keys[..m][..i] == keys[..i];
  }

  /** The indices at which x occurs in keys, in increasing order. */
  function Positions<T(==,!new)>(keys: seq<T>, x: T): (r: seq<nat>)
    ensures |r| == Occurrences(keys, x)
    ensures forall j | 0 <= j < |r| :: r[j] < |keys| && keys[r[j]] == x
    ensures forall i, j | 0 <= i < j < |r| :: r[i] < r[j]
  {
    if keys == [] then []
    else
      var n := |keys| - 1;
      var q := Positions(keys[..n], x);
      assert forall j | 0 <= j < |q| :: q[j] < n && keys[q[j]] == x;
      q + if keys[n] == x then [n] else []
  }

  /** The group of x is the values at the positions of x. */
  lemma {:induction false} SelectAtPositions<T(!new), R>(keys: seq<T>, vals: seq<R>, x: T)
    requires |keys| == |vals|
    ensures var g, ps := Select(keys, vals, x), Positions(keys, x);
      |g| == |ps| && forall j | 0 <= j < |g| :: g[j] == vals[ps[j]]
  {
    if keys != [] {
      var n := |keys| - 1;
      SelectAtPositions(keys[..n], vals[..n], x);
      var g, ps := Select(keys, vals, x), Positions(keys, x);
      var g0, ps0 := Select(keys[..n], vals[..n], x), Positions(keys[..n], x);
      forall j | 0 <= j < |g| ensures g[j] == vals[ps[j]] {
        if j < |g0| { assert g[j] == g0[j] == vals[..n][ps0[j]]; }
      }
    }
  }

  /** Within the group of x, the j-th record (from 0) is the (j+1)-th
      occurrence of x: numbering by Ordinal gives 1, 2, ... in each group. */
  lemma {:induction false} PositionOrdinals<T(!new)>(keys: seq<T>, x: T)
    ensures forall j | 0 <= j < |Positions(keys, x)| :: Ordinal(keys, Positions(keys, x)[j]) == j + 1
  {
    if keys != [] {
      var n := |keys| - 1;
      var p := keys[..n];
      PositionOrdinals(p, x);
      var ps, ps0 := Positions(keys, x), Positions(p, x);
      assert ps == ps0 + if keys[n] == x then [n] else [];
      forall j | 0 <= j < |ps| ensures Ordinal(keys, ps[j]) == j + 1 {
        if j < |ps0| {
          var t := ps0[j];
          assert Ordinal(p, t) == j + 1;
          assert p[..t] == keys[..t];
        } else {
          assert keys[n] == x && ps[j] == n && j == |ps0|;
          assert keys[..n] == p;
        }
      }
    }
  }
}
