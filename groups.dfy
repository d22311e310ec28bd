/** The `satellites = defaultdict(list)` dictionary of the observation and
    SP3 readers: records are filed under their satellite as they are read,
    each record's session is one more than the length of its satellite's
    list at that moment, and the output is the lists concatenated in the
    dictionary's key order (order of first insertion). */
module Groups {
  import opened Tables

  /** `order` and `groups` are the key order and the lists of the
      dictionary after filing `vals[i]` under `keys[i]`, in input order. */
  ghost predicate Files<T(!new), R>(order: seq<T>, groups: map<T, seq<R>>, keys: seq<T>, vals: seq<R>)
    requires |keys| == |vals|
  {
    && order == FirstAppearance(keys)
    && (forall x :: x in groups <==> x in keys)
    && (forall x | x in groups :: groups[x] == Select(keys, vals, x))
  }

  /** `len(d[key])` of a defaultdict(list). */
  function Size<T, R>(groups: map<T, seq<R>>, key: T): nat {
    if key in groups then |groups[key]| else 0
  }

  /** The length of a list is the number of earlier records of its key, so
      `len(d[key]) + 1` is the key's ordinal. */
  lemma SizeIsOrdinal<T(!new), R>(order: seq<T>, groups: map<T, seq<R>>, keys: seq<T>, vals: seq<R>, key: T)
    requires |keys| == |vals| && Files(order, groups, keys, vals)
    ensures Size(groups, key) + 1 == Ordinal(keys + [key], |keys|)
  {
    assert (keys + [key])[..|keys|] == keys;
  }

  /** What one more record does to the order and to the lists. */
  lemma {:induction false} FileStep<T(!new), R>(keys: seq<T>, vals: seq<R>, key: T, val: R)
    requires |keys| == |vals|
    ensures FirstAppearance(keys + [key]) ==
      if key in keys then FirstAppearance(keys) else FirstAppearance(keys) + [key]
    ensures forall x :: Select(keys + [key], vals + [val], x) ==
                        Select(keys, vals, x) + (if x == key then [val] else [])
    ensures forall x :: x in keys + [key] <==> x in keys || x == key
  {
    var keys', vals' := keys + [key], vals + [val];
    assert keys'[..|keys|] == keys && vals'[..|vals|] == vals;
  }

  /** `d[key].append(val)`. */
  method File<T(==,!new), R>(order: seq<T>, groups: map<T, seq<R>>, key: T, val: R, ghost keys: seq<T>, ghost vals: seq<R>)
    returns (order': seq<T>, groups': map<T, seq<R>>)
    requires |keys| == |vals| && Files(order, groups, keys, vals)
    ensures Files(order', groups', keys + [key], vals + [val])
  {
    FileStep(keys, vals, key, val);
    if key in groups {
      order', groups' := order, groups[key := groups[key] + [val]];
    } else {
      order', groups' := order + [key], groups[key := [val]];
    }
  }

  /** The lists of `order`, concatenated. */
  function Flattened<T, R>(order: seq<T>, groups: map<T, seq<R>>): seq<R>
    requires forall x | x in order :: x in groups
  {
    if order == [] then []
    else Flattened(order[..|order| - 1], groups) + groups[order[|order| - 1]]
  }

  /** Concatenating the groups of one more key. */
  lemma {:induction false} ConcatSnoc<T(!new), R>(order: seq<T>, x: T, keys: seq<T>, vals: seq<R>)
    requires |keys| == |vals|
    ensures Concat(order + [x], keys, vals) == Concat(order, keys, vals) + Select(keys, vals, x)
  {
    if order == [] {
      assert [x][1..] == [];
    } else {
      assert (order + [x])[1..] == order[1..] + [x];
      ConcatSnoc(order[1..], x, keys, vals);
    }
  }

  /** Concatenating the lists is concatenating the groups. */
  lemma {:induction false} FlattenedIsConcat<T(!new), R>(order: seq<T>, groups: map<T, seq<R>>, keys: seq<T>, vals: seq<R>)
    requires |keys| == |vals|
    requires forall x | x in order :: x in groups && groups[x] == Select(keys, vals, x)
    ensures Flattened(order, groups) == Concat(order, keys, vals)
  {
    if order != [] {
      var n := |order| - 1;
      assert order == order[..n] + [order[n]];
      FlattenedIsConcat(order[..n], groups, keys, vals);
      ConcatSnoc(order[..n], order[n], keys, vals);
    }
  }

  /** The final `for _, values in d.items(): df_data.extend(values)`: the
      records grouped by key, keys in order of first appearance. */
  method Flatten<T(==,!new), R>(order: seq<T>, groups: map<T, seq<R>>, ghost keys: seq<T>, ghost vals: seq<R>)
    returns (out: seq<R>)
    requires |keys| == |vals| && Files(order, groups, keys, vals)
    ensures out == Grouped(keys, vals)
  {
    out := [];
    for i := 0 to |order|
      invariant out == Flattened(order[..i], groups)
    {
      assert order[..i + 1][..i] == order[..i];
      out := out + groups[order[i]];
    }
    assert order[..|order|] == order;
    FlattenedIsConcat(order, groups, keys, vals);
  }
}
