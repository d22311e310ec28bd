/** `camel2snake` (gnsstools/utils.py): navigation column names in camel
    case become keyword names in snake case. The regular expression puts
    `_` before an upper-case letter that is not the first character and
    either follows a lower-case letter or a digit, or comes before a
    lower-case letter; the result is then put in lower case. */
module Names {
  import opened Text
  import opened Rinex

  /** Whether the expression matches the letter at position i of s; both
      look-arounds see the original string. */
  predicate Marked(s: string, i: nat)
    requires i < |s|
  {
    && 0 < i
    && IsUpper(s[i])
    && (IsLower(s[i - 1]) || IsDigit(s[i - 1]) || (i + 1 < |s| && IsLower(s[i + 1])))
  }

  /** `compiled.sub(r'_\1', s)` on the first n characters of s. */
  function Underscored(s: string, n: nat): (t: string)
    requires n <= |s|
  {
    if n == 0 then []
    else Underscored(s, n - 1) + (if Marked(s, n - 1) then ['_', s[n - 1]] else [s[n - 1]])
  }

  /** The number of letters among the first n that get an underscore. */
  function MarksBefore(s: string, n: nat): nat
    requires n <= |s|
  {
    if n == 0 then 0 else MarksBefore(s, n - 1) + (if Marked(s, n - 1) then 1 else 0)
  }

  /** Where character i of s lands in the output for the first n
      characters: at i plus the matches up to it, preceded by an inserted
      `_` exactly when the expression matches it. */
  predicate Placed(s: string, n: nat, i: nat)
    requires i < n <= |s|
  {
    var t := Underscored(s, n);
    var p := i + MarksBefore(s, i + 1);
    && p < |t| && t[p] == s[i]
    && (Marked(s, i) ==> 0 < p && t[p - 1] == '_')
  }

  /** The substitution only inserts: the output is s plus one `_` per
      match, each character of s in order, a `_` before each matched one. */
  lemma {:induction false} UnderscoredLayout(s: string, n: nat)
    requires n <= |s|
    ensures |Underscored(s, n)| == n + MarksBefore(s, n)
    ensures forall i | 0 <= i < n :: Placed(s, n, i)
  {
    if n > 0 {
      UnderscoredLayout(s, n - 1);
      forall i | 0 <= i < n
        ensures Placed(s, n, i)
      {
        if i < n - 1 {
          PlacedStep(s, n, i);
        }
      }
    }
  }

  lemma PlacedStep(s: string, n: nat, i: nat)
    requires i < n - 1 && n <= |s| && Placed(s, n - 1, i)
    ensures Placed(s, n, i)
  {
    var t := Underscored(s, n);
    var p := Underscored(s, n - 1);
    assert t[..|p|] == p;
  }

  lemma {:induction false} MarksMonotone(s: string, m: nat, n: nat)
    requires m <= n <= |s|
    ensures MarksBefore(s, m) <= MarksBefore(s, n)
    decreases n - m
  {
    if m < n {
      MarksMonotone(s, m, n - 1);
    }
  }

  /** Every inserted character is an underscore: a position of the output
      holds either a character of s or an underscore. */
  lemma {:induction false} UnderscoredChars(s: string, n: nat)
    requires n <= |s|
    ensures forall k | 0 <= k < |Underscored(s, n)| ::
      Underscored(s, n)[k] == '_' || Underscored(s, n)[k] in s[..n]
  {
    if n > 0 {
      UnderscoredChars(s, n - 1);
      var t := Underscored(s, n);
      var p := Underscored(s, n - 1);
      assert t[..|p|] == p;
      forall k | 0 <= k < |t|
        ensures t[k] == '_' || t[k] in s[..n]
      {
        if k < |p| {
          assert t[k] == p[k];
          assert s[..n - 1] <= s[..n];
        } else {
          assert s[n - 1] == s[..n][n - 1];
        }
      }
    }
  }

  /** `camel2snake`: "" and "d" raise IndexError (characters 0 and 1 are
      read); a leading `d` before an upper-case letter is kept and the
      rest converted on its own. */
  function Camel2Snake(s: string): (r: Result<string>)
    ensures r.Err? <==> |s| == 0 || (s[0] == 'd' && |s| == 1)
    ensures r.Err? ==> r.error == IndexError
  {
    if |s| == 0 then Err(IndexError)
    else if s[0] == 'd' then
      if |s| == 1 then Err(IndexError)
      else if IsUpper(s[1]) then Ok("d" + Lower(Underscored(s[1..], |s| - 1)))
      else Ok(Lower(Underscored(s, |s|)))
    else Ok(Lower(Underscored(s, |s|)))
  }

  /** The result has no upper-case letter. */
  lemma NoUpper(s: string)
    requires Camel2Snake(s).Ok?
    ensures forall k | 0 <= k < |Camel2Snake(s).value| :: !IsUpper(Camel2Snake(s).value[k])
  {
    var r := Camel2Snake(s).value;
    forall k | 0 <= k < |r|
      ensures !IsUpper(r[k])
    {
      if s[0] == 'd' && IsUpper(s[1]) && k > 0 {
        assert r[k] == Lower(Underscored(s[1..], |s| - 1))[k - 1];
      }
    }
  }

  /** Away from the `dX` case, the result is s in lower case with an
      underscore before each matched letter, and nothing else. */
  lemma Camel2SnakeLayout(s: string)
    requires |s| > 0 && !(s[0] == 'd' && (|s| == 1 || IsUpper(s[1])))
    ensures var r := Camel2Snake(s).value;
      && |r| == |s| + MarksBefore(s, |s|)
      && (forall i | 0 <= i < |s| :: Placed(s, |s|, i))
      && r == Lower(Underscored(s, |s|))
  {
    UnderscoredLayout(s, |s|);
  }

  /** In the `dX` case the `d` stays and the rest is converted as if it
      stood alone, so its first letter never gets an underscore. */
  lemma Camel2SnakeLeadingD(s: string)
    requires |s| >= 2 && s[0] == 'd' && IsUpper(s[1])
    ensures var r := Camel2Snake(s).value; var rest := s[1..];
      && r == "d" + Lower(Underscored(rest, |rest|))
      && |r| == |s| + MarksBefore(rest, |rest|)
      && r[1] == LowerChar(s[1])
      && (forall i | 0 <= i < |rest| :: Placed(rest, |rest|, i))
  {
    var rest := s[1..];
    UnderscoredLayout(rest, |rest|);
    assert !Marked(rest, 0);
    assert MarksBefore(rest, 1) == 0;
    assert Placed(rest, |rest|, 0);
    assert Underscored(rest, |rest|)[0] == s[1];
  }

  /** "dX2" gives "dx2": the leading `d` branch. */
  lemma DX2()
    ensures Camel2Snake("dX2") == Ok("dx2")
  {
    var rest := "X2";
    assert "dX2"[1..] == rest;
    assert !Marked(rest, 0) && !Marked(rest, 1);
    assert Underscored(rest, 1) == "X";
    assert Underscored(rest, 2) == rest;
    assert Lower(rest) == "x2";
    assert "d" + Lower(rest) == "dx2";
    assert Camel2Snake("dX2") == Ok("d" + Lower(Underscored(rest, 2)));
  }
}
