/** Character classes and the handful of Python string operations that the
    readers apply to fixed-column text: clamped slicing, strip, the D/d
    exponent substitution, collapsing runs of blanks, split, substring search
    and decimal conversion. Only ASCII is modelled. */
module Text {

  /** Python's str.isspace on ASCII: tab, newline, vertical tab, form feed,
      carriage return, the four separator controls 0x1c-0x1f, and blank. */
  predicate IsSpace(c: char) {
    var n := c as int;
    n == 32 || 9 <= n <= 13 || 28 <= n <= 31
  }

  predicate IsDigit(c: char) { '0' <= c <= '9' }
  predicate IsUpper(c: char) { 'A' <= c <= 'Z' }
  predicate IsLower(c: char) { 'a' <= c <= 'z' }

  predicate AllSpace(s: string) {
    forall i | 0 <= i < |s| :: IsSpace(s[i])
  }

  /** Python's str.isdigit on ASCII: false for the empty string. */
  predicate AllDigits(s: string) {
    |s| > 0 && forall i | 0 <= i < |s| :: IsDigit(s[i])
  }

  function Min(a: int, b: int): int { if a < b then a else b }

  /** Python's s[a:b] for non-negative bounds: both ends are clamped to the
      length, so a short line yields a short or empty slice, never an error. */
  function Slice(s: string, a: nat, b: nat): (r: string)
    ensures |r| == if a < b && a < |s| then Min(b, |s|) - a else 0
    ensures forall k | 0 <= k < |r| :: r[k] == s[a + k]
  {
    if a < b && a < |s| then s[a..Min(b, |s|)] else ""
  }

  /** Python's s[a:]. */
  function From(s: string, a: nat): (r: string)
    ensures r == Slice(s, a, |s|)
  {
    if a < |s| then s[a..] else ""
  }

  /** Python's str.strip() with no argument: leading and trailing
      whitespace removed, one character at a time. */
  function Strip(s: string): (r: string)
    ensures r == [] <==> AllSpace(s)
    ensures r == [] || (!IsSpace(r[0]) && !IsSpace(r[|r| - 1]))
    ensures |r| <= |s|
    decreases |s|
  {
    if s != [] && IsSpace(s[0]) then
      var r := Strip(s[1..]);
      assert AllSpace(s[1..]) ==> AllSpace(s) by {
        if AllSpace(s[1..]) {
          assert forall i | 1 <= i < |s| :: s[i] == s[1..][i - 1];
        }
      }
      r
    else if s != [] && IsSpace(s[|s| - 1]) then
      var r := Strip(s[..|s| - 1]);
      assert s[..|s| - 1][0] == s[0];
      r
    else
      s
  }

  /** A character that the float grammar reads as an exponent marker after
      re.sub("[Dd]", "e", ...). */
  predicate IsD(c: char) { c == 'D' || c == 'd' }

  /** re.sub("[Dd]", "e", s). */
  function ReplaceD(s: string): (r: string)
    ensures |r| == |s|
    ensures forall k | 0 <= k < |s| :: r[k] == if IsD(s[k]) then 'e' else s[k]
  {
    if s == [] then [] else [if IsD(s[0]) then 'e' else s[0]] + ReplaceD(s[1..])
  }

  /** Number of blanks (the character ' ', not other whitespace) that start s. */
  function BlankRun(s: string): (n: nat)
    ensures n <= |s|
    ensures forall k | 0 <= k < n :: s[k] == ' '
    ensures n == |s| || s[n] != ' '
  {
    if s != [] && s[0] == ' ' then 1 + BlankRun(s[1..]) else 0
  }

  /** re.sub(" {minRun,}", repl, s): every maximal run of at least `minRun`
      blanks becomes `by`; shorter runs are kept. The regexes of the source are
      "  +" (minRun 2) and " +" (minRun 1). */
  function ReplaceRuns(s: string, minRun: nat, repl: string): string
    requires minRun >= 1
    decreases |s|
  {
    if s == [] then []
    else if s[0] != ' ' then [s[0]] + ReplaceRuns(s[1..], minRun, repl)
    else
      var n := BlankRun(s);
      (if n >= minRun then repl else s[..n]) + ReplaceRuns(s[n..], minRun, repl)
  }

  predicate NoDoubleBlank(c: string) {
    forall k | 0 <= k < |c| - 1 :: !(c[k] == ' ' && c[k + 1] == ' ')
  }

  /** With a single blank as replacement, no two blanks remain adjacent. */
  lemma {:induction false} CollapsedHasNoDoubleBlank(s: string)
    ensures NoDoubleBlank(ReplaceRuns(s, 2, " "))
    decreases |s|
  {
    if s != [] {
      var c := ReplaceRuns(s, 2, " ");
      if s[0] != ' ' {
        CollapsedHasNoDoubleBlank(s[1..]);
        var rest := ReplaceRuns(s[1..], 2, " ");
        assert c == [s[0]] + rest;
        forall k | 1 <= k < |c| - 1 ensures !(c[k] == ' ' && c[k + 1] == ' ') {
          assert c[k] == rest[k - 1] && c[k + 1] == rest[k];
          assert !(rest[k - 1] == ' ' && rest[k] == ' ');
        }
      } else {
        var n := BlankRun(s);
        CollapsedHasNoDoubleBlank(s[n..]);
        var rest := ReplaceRuns(s[n..], 2, " ");
        assert rest != [] ==> rest[0] != ' ' by {
          if rest != [] {
            assert s[n..] != [] && s[n..][0] != ' ';
          }
        }
        assert (if n >= 2 then " " else s[..n]) == " ";
        assert c == " " + rest;
        forall k | 1 <= k < |c| - 1 ensures !(c[k] == ' ' && c[k + 1] == ' ') {
          assert c[k] == rest[k - 1] && c[k + 1] == rest[k];
          assert !(rest[k - 1] == ' ' && rest[k] == ' ');
        }
      }
    }
  }

  /** `sep` occurs in `s` at index j. */
  predicate MatchAt(s: string, sep: string, j: nat) {
    j + |sep| <= |s| && s[j..j + |sep|] == sep
  }

  /** Index of the first occurrence of `sep` in `s` at or after `from`, or -1. */
  function FindFrom(s: string, sep: string, from: nat): (i: int)
    requires |sep| > 0
    ensures i == -1 || from <= i <= |s| - |sep|
    ensures i >= 0 ==> MatchAt(s, sep, i)
    ensures forall j: nat | from <= j && (i < 0 || j < i) :: !MatchAt(s, sep, j)
    decreases |s| - from
  {
    if from + |sep| > |s| then -1
    else if MatchAt(s, sep, from) then from
    else FindFrom(s, sep, from + 1)
  }

  /** Index of the first occurrence of `sep` in `s`, or -1. */
  function Find(s: string, sep: string): (i: int)
    requires |sep| > 0
  {
    FindFrom(s, sep, 0)
  }

  /** Python's `sep in s` / re.search(sep, s) for a pattern without special
      characters. */
  predicate Contains(s: string, sep: string)
    requires |sep| > 0
  {
    Find(s, sep) >= 0
  }

  /** Python's s.split(sep) for a non-empty separator: the pieces between
      non-overlapping occurrences, scanned from the left; empty pieces are kept
      and the empty string splits into [""]. */
  function Split(s: string, sep: string): (r: seq<string>)
    requires |sep| > 0
    ensures |r| >= 1
    decreases |s|
  {
    var i := Find(s, sep);
    if i < 0 then [s] else [s[..i]] + Split(s[i + |sep|..], sep)
  }

  /** `re.sub("  +", " ", s.strip()).split(" ")`: the blank-separated words
      of s. */
  function Words(s: string): (ws: seq<string>)
    ensures |ws| >= 1
  {
    Split(ReplaceRuns(Strip(s), 2, " "), " ")
  }

  /** Collapsing blank runs keeps a non-blank last character last. */
  lemma {:induction false} CollapsedLast(s: string)
    requires s != [] && s[|s| - 1] != ' '
    ensures var c := ReplaceRuns(s, 2, " "); c != [] && c[|c| - 1] == s[|s| - 1]
    decreases |s|
  {
    if s[0] != ' ' {
      if |s| > 1 {
        CollapsedLast(s[1..]);
      }
    } else {
      var n := BlankRun(s);
      assert n < |s|;
      CollapsedLast(s[n..]);
    }
  }

  /** A non-empty text without blanks. */
  predicate IsWord(w: string) {
    w != [] && forall k | 0 <= k < |w| :: w[k] != ' '
  }

  /** A one-character separator matches where that character is. */
  lemma MatchBlank(c: string, j: nat)
    ensures MatchAt(c, " ", j) <==> j < |c| && c[j] == ' '
  {
    if j < |c| && c[j] == ' ' { assert c[j..j + 1] == [c[j]]; }
    if MatchAt(c, " ", j) { assert c[j..j + 1][0] == c[j]; }
  }

  /** Splitting a text without leading, trailing or doubled blanks on a
      blank gives words. */
  lemma {:induction false} SplitIntoWords(c: string)
    requires c != [] && c[0] != ' ' && c[|c| - 1] != ' ' && NoDoubleBlank(c)
    ensures forall i | 0 <= i < |Split(c, " ")| :: IsWord(Split(c, " ")[i])
    decreases |c|
  {
    var i := Find(c, " ");
    var ws := Split(c, " ");
    if i < 0 {
      assert ws == [c];
      forall k | 0 <= k < |c| ensures c[k] != ' ' { MatchBlank(c, k); }
    } else {
      MatchBlank(c, i);
      MatchBlank(c, 0);
      var rest := c[i + 1..];
      assert 0 < i < |c| - 1;
      assert IsWord(c[..i]) by {
        forall k | 0 <= k < i ensures c[..i][k] != ' ' { MatchBlank(c, k); }
      }
      assert rest[0] == c[i + 1] != ' ';
      assert rest[|rest| - 1] == c[|c| - 1];
      assert NoDoubleBlank(rest) by {
        forall k | 0 <= k < |rest| - 1 ensures !(rest[k] == ' ' && rest[k + 1] == ' ') {
          assert rest[k] == c[i + 1 + k] && rest[k + 1] == c[i + 2 + k];
        }
      }
      SplitIntoWords(rest);
      var tail := Split(rest, " ");
      assert ws == [c[..i]] + tail;
      forall j | 0 <= j < |ws| ensures IsWord(ws[j]) {
        if j > 0 { assert ws[j] == tail[j - 1]; }
      }
    }
  }

  /** The words of a text that is not all whitespace are non-empty and
      contain no blank. */
  lemma WordsAreWords(s: string)
    requires !AllSpace(s)
    ensures forall i | 0 <= i < |Words(s)| :: IsWord(Words(s)[i])
  {
    var t := Strip(s);
    var c := ReplaceRuns(t, 2, " ");
    CollapsedLast(t);
    CollapsedHasNoDoubleBlank(t);
    assert c[0] == t[0] by {
      assert c == [t[0]] + ReplaceRuns(t[1..], 2, " ");
    }
    SplitIntoWords(c);
    assert Words(s) == Split(c, " ");
  }

  /** A line that is all whitespace has one empty word. */
  lemma WordsOfBlank(s: string)
    requires AllSpace(s)
    ensures Words(s) == [""]
  {
    assert Find("", " ") == -1;
  }

  predicate StartsWith(s: string, p: string) {
    |p| <= |s| && s[..|p|] == p
  }

  function DigitValue(c: char): nat
    requires IsDigit(c)
  {
    (c as int) - ('0' as int)
  }

  /** int() of a string of ASCII digits, read left to right. */
  function DecimalValue(s: string): (v: nat)
    requires forall i | 0 <= i < |s| :: IsDigit(s[i])
  {
    if s == [] then 0
    else
      var p := s[..|s| - 1];
      assert forall i | 0 <= i < |p| :: IsDigit(p[i]) by {
        forall i | 0 <= i < |p| ensures IsDigit(p[i]) { assert p[i] == s[i]; }
      }
      10 * DecimalValue(p) + DigitValue(s[|s| - 1])
  }

  /** Leading zeros do not change the value: int("00013") == int("13"). */
  lemma {:induction false} LeadingZerosIgnored(z: nat, s: string)
    requires forall i | 0 <= i < |s| :: IsDigit(s[i])
    ensures var p := seq(z, _ => '0') + s;
            (forall i | 0 <= i < |p| :: IsDigit(p[i])) && DecimalValue(p) == DecimalValue(s)
    decreases |s|
  {
    var zs := seq(z, _ => '0');
    var p := zs + s;
    assert forall i | 0 <= i < |p| :: IsDigit(p[i]) by {
      forall i | 0 <= i < |p| ensures IsDigit(p[i]) {
        if i >= z { assert p[i] == s[i - z]; }
      }
    }
    if s == [] {
      assert p == zs;
      ZerosAreZero(z);
    } else {
      var q := s[..|s| - 1];
      LeadingZerosIgnored(z, q);
      assert p[..|p| - 1] == zs + q;
      assert p[|p| - 1] == s[|s| - 1];
    }
  }

  lemma {:induction false} ZerosAreZero(z: nat)
    ensures DecimalValue(seq(z, _ => '0')) == 0
  {
    if z > 0 {
      ZerosAreZero(z - 1);
      assert seq(z, _ => '0')[..z - 1] == seq(z - 1, _ => '0');
    }
  }

  /** str(n) for a natural number. */
  function NatToString(n: nat): (r: string)
    ensures |r| >= 1 && forall i | 0 <= i < |r| :: IsDigit(r[i])
  {
    var d := ['0' + ((n % 10) as char)];
    if n < 10 then d else NatToString(n / 10) + d
  }

  /** str(n) for an integer. */
  function IntToString(n: int): string
  {
    if n < 0 then "-" + NatToString(-n) else NatToString(n)
  }

  /** Reading back what NatToString wrote gives the number. */
  lemma {:induction false} NatToStringRoundTrip(n: nat)
    ensures DecimalValue(NatToString(n)) == n
  {
    var d := ['0' + ((n % 10) as char)];
    if n < 10 {
      assert NatToString(n) == d;
    } else {
      NatToStringRoundTrip(n / 10);
      var s := NatToString(n);
      assert s == NatToString(n / 10) + d;
      assert s[..|s| - 1] == NatToString(n / 10);
    }
  }

  function LowerChar(c: char): char {
    if IsUpper(c) then (c as int + 32) as char else c
  }

  /** Python's str.lower() on ASCII. */
  function Lower(s: string): (r: string)
    ensures |r| == |s|
    ensures forall k | 0 <= k < |s| :: r[k] == LowerChar(s[k])
  {
    if s == [] then [] else [LowerChar(s[0])] + Lower(s[1..])
  }
}
