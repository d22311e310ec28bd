/** The decoded value of one fixed-column field, and the two decoders the
    readers use: `Eval` (RinexReader._eval, shared by the navigation,
    observation, SP3 and header readers) and `Eval3` (Rinex3Reader._eval).
    Floating-point values are not computed: a float is kept as the text that
    Python's float() accepted. */
module Fields {
  import opened Text

  /** None, an int, a float (as its accepted literal), or a str. */
  datatype Field = Absent | Int(n: int) | Num(text: string) | Str(text: string)

  /** The part of a literal after an optional leading sign. */
  function Unsigned(t: string): string {
    if |t| > 0 && (t[0] == '+' || t[0] == '-') then t[1..] else t
  }

  /** Digits only, possibly none. */
  predicate OnlyDigits(s: string) {
    forall i | 0 <= i < |s| :: IsDigit(s[i])
  }

  /** Index of the first '.' in s, or |s|. */
  function IndexOfDot(s: string): (i: nat)
    ensures i <= |s| && (i < |s| ==> s[i] == '.')
    ensures forall k | 0 <= k < i :: s[k] != '.'
  {
    if s == [] then 0 else if s[0] == '.' then 0 else 1 + IndexOfDot(s[1..])
  }

  /** Index of the first 'e' or 'E' in s, or |s|. */
  function IndexOfExponent(s: string): (i: nat)
    ensures i <= |s| && (i < |s| ==> s[i] == 'e' || s[i] == 'E')
    ensures forall k | 0 <= k < i :: s[k] != 'e' && s[k] != 'E'
  {
    if s == [] then 0 else if s[0] == 'e' || s[0] == 'E' then 0 else 1 + IndexOfExponent(s[1..])
  }

  /** digits, digits '.' digits?, or '.' digits. */
  predicate IsMantissa(m: string) {
    var p := IndexOfDot(m);
    if p == |m| then AllDigits(m)
    else OnlyDigits(m[..p]) && OnlyDigits(m[p + 1..]) && (p > 0 || p + 1 < |m|)
  }

  predicate IsIntLiteral(t: string) {
    AllDigits(Unsigned(t)) && (|t| > 0 && (t[0] == '+' || t[0] == '-') ==> |t| > 1)
  }

  /** The decimal literal of Python's float(): mantissa with an optional
      exponent e/E followed by an optionally signed integer. */
  predicate IsDecimalLiteral(u: string) {
    var e := IndexOfExponent(u);
    IsMantissa(u[..e]) && (e == |u| || IsIntLiteral(u[e + 1..]))
  }

  /** What Python's float() accepts once its argument is stripped. */
  predicate IsFloatLiteral(t: string) {
    var u := Unsigned(t);
    var l := Lower(u);
    l == "inf" || l == "infinity" || l == "nan" || IsDecimalLiteral(u)
  }

  function SignedValue(t: string): int
    requires IsIntLiteral(t)
  {
    var v: int := DecimalValue(Unsigned(t));
    if |t| > 0 && t[0] == '-' then 0 - v else v
  }

  /** RinexReader._eval: strip; empty gives None; all digits gives int; else
      replace every D/d by e and try float; otherwise the substituted text. */
  function Eval(s: string): (r: Field)
    ensures r == Absent <==> AllSpace(s)
    ensures r.Int? <==> AllDigits(Strip(s))
    ensures r.Int? ==> r.n >= 0
    ensures (r.Num? || r.Str?) ==> r.text == ReplaceD(Strip(s))
  {
    var t := Strip(s);
    if t == "" then Absent
    else if AllDigits(t) then Int(DecimalValue(t))
    else FloatOrText(ReplaceD(t))
  }

  /** The float attempt: the text itself, as a float when float() accepts it. */
  function FloatOrText(u: string): (r: Field)
    ensures (r.Num? || r.Str?) && r.text == u
    ensures r.Num? <==> IsFloatLiteral(u)
  {
    if IsFloatLiteral(u) then Num(u) else Str(u)
  }

  /** A text result keeps the stripped length and has no D or d left. */
  lemma EvalTextHasNoD(s: string)
    requires Eval(s).Num? || Eval(s).Str?
    ensures |Eval(s).text| == |Strip(s)|
    ensures forall k | 0 <= k < |Eval(s).text| :: !IsD(Eval(s).text[k])
  {
  }

  /** Rinex3Reader._eval: int() first (it tolerates surrounding whitespace
      and a sign), then float() after the D/d substitution, otherwise the
      substituted text WITHOUT stripping. */
  function Eval3(s: string): (r: Field)
    ensures r != Absent
    ensures r.Int? <==> IsIntLiteral(Strip(s))
    ensures r.Num? ==> r.text == Strip(ReplaceD(s))
    ensures r.Str? ==> r.text == ReplaceD(s)
  {
    var t := Strip(s);
    if IsIntLiteral(t) then Int(SignedValue(t))
    else
      var u := ReplaceD(s);
      var v := Strip(u);
      if IsFloatLiteral(v) then Num(v) else Str(u)
  }

  /** No literal is empty. */
  lemma EmptyIsNoLiteral()
    ensures !IsIntLiteral("") && !IsFloatLiteral("")
  {
    assert Unsigned("") == "";
    assert Lower("") == "";
    assert IndexOfExponent("") == 0;
    assert IndexOfDot("") == 0;
  }

  /** Unlike Eval, Eval3 never reports None: a blank field comes back as the
      blank text itself. */
  lemma {:induction false} Eval3Blank(s: string)
    requires AllSpace(s)
    ensures Eval3(s) == Str(s)
  {
    EmptyIsNoLiteral();
    var u := ReplaceD(s);
    assert u == s by {
      forall k | 0 <= k < |s| ensures u[k] == s[k] {
        assert IsSpace(s[k]);
      }
    }
  }

  /** f"{value}": how a decoded field prints inside a satellite key. */
  function Render(f: Field): string {
    match f
    case Absent => "None"
    case Int(n) => IntToString(n)
    case Num(t) => t
    case Str(t) => t
  }

  /** An int field prints as its digits, which decode back to it: a PRN
      read from a satellite key is the PRN that was printed into it. */
  lemma RenderRoundTrip(n: nat)
    ensures AllDigits(Render(Int(n)))
    ensures Eval(Render(Int(n))) == Int(n)
  {
    var s := NatToString(n);
    EvalPaddedDigits("", 0, s, "");
    assert "" + (seq(0, _ => '0') + s) + "" == s;
    NatToStringRoundTrip(n);
  }

  /** A blank-padded core is stripped back to the core. */
  lemma {:induction false} StripPadded(a: string, m: string, b: string)
    requires AllSpace(a) && AllSpace(b)
    requires m != [] && !IsSpace(m[0]) && !IsSpace(m[|m| - 1])
    ensures Strip(a + m + b) == m
  {
    assert a + m + b == a + (m + b);
    StripLeading(a, m + b);
    StripTrailing(m, b);
  }

  lemma {:induction false} StripLeading(a: string, t: string)
    requires AllSpace(a) && t != [] && !IsSpace(t[0])
    ensures Strip(a + t) == Strip(t)
    decreases |a|
  {
    if a == [] {
      assert a + t == t;
    } else {
      assert (a + t)[1..] == a[1..] + t;
      StripLeading(a[1..], t);
    }
  }

  lemma {:induction false} StripTrailing(m: string, b: string)
    requires AllSpace(b) && m != [] && !IsSpace(m[0]) && !IsSpace(m[|m| - 1])
    ensures Strip(m + b) == m
    decreases |b|
  {
    if b == [] {
      assert m + b == m;
    } else {
      var s := m + b;
      assert s[0] == m[0] && s[|s| - 1] == b[|b| - 1];
      assert s[..|s| - 1] == m + b[..|b| - 1];
      StripTrailing(m, b[..|b| - 1]);
    }
  }

  /** A blank field decodes to None. */
  lemma EvalBlank(n: nat)
    ensures Eval(seq(n, _ => ' ')) == Absent
  {
  }

  /** Digits with leading zeros and blank padding decode to the integer, the
      zeros ignored: "   00013  " gives 13. */
  lemma {:induction false} EvalPaddedDigits(a: string, zeros: nat, d: string, b: string)
    requires AllSpace(a) && AllSpace(b) && AllDigits(d)
    ensures Eval(a + (seq(zeros, _ => '0') + d) + b) == Int(DecimalValue(d))
  {
    var m := seq(zeros, _ => '0') + d;
    assert m[|m| - 1] == d[|d| - 1];
    assert m[0] == if zeros > 0 then '0' else d[0];
    StripPadded(a, m, b);
    LeadingZerosIgnored(zeros, d);
  }

  /** A sign makes the text not all digits, so "-5" takes the float path. */
  lemma {:induction false} EvalSigned(s: string)
    requires |s| > 0 && (s[0] == '-' || s[0] == '+') && AllDigits(s[1..])
    ensures Eval(s) == Num(s)
  {
    assert IsIntLiteral(s);
    IntLiteralEndsInDigit(s);
    StripUnpadded(s);
    assert !AllDigits(s) by { assert !IsDigit(s[0]); }
    ReplaceDIdentity(s);
    SignedIsFloat(s);
  }

  /** A text with no blank at either end strips to itself. */
  lemma StripUnpadded(s: string)
    requires s != [] && !IsSpace(s[0]) && !IsSpace(s[|s| - 1])
    ensures Strip(s) == s
  {
    StripPadded("", s, "");
    assert "" + s + "" == s;
  }

  /** Without D or d the substitution changes nothing. */
  lemma ReplaceDIdentity(s: string)
    requires forall k | 0 <= k < |s| :: !IsD(s[k])
    ensures ReplaceD(s) == s
  {
  }

  /** A signed integer literal is also a float literal. */
  lemma SignedIsFloat(s: string)
    requires |s| > 1 && (s[0] == '-' || s[0] == '+') && AllDigits(s[1..])
    ensures IsFloatLiteral(s)
  {
    DigitsAreDecimalLiteral(s[1..]);
    assert Unsigned(s) == s[1..];
  }

  /** An all-digit text is a float literal without point or exponent. */
  lemma DigitsAreDecimalLiteral(u: string)
    requires AllDigits(u)
    ensures IsDecimalLiteral(u)
  {
    var e := IndexOfExponent(u);
    assert e == |u|;
    assert u[..e] == u;
    assert IndexOfDot(u) == |u|;
  }

  /** A Fortran exponent marker is read as e: digits, D or d, then an
      optionally signed exponent decode to the float literal with e. */
  lemma {:induction false} EvalFortranExponent(m: string, c: char, x: string)
    requires AllDigits(m) && IsD(c) && IsIntLiteral(x)
    ensures Eval(m + [c] + x) == Num(m + "e" + x)
  {
    var t := m + [c] + x;
    IntLiteralEndsInDigit(x);
    assert !IsSpace(t[0]) by { assert t[0] == m[0]; }
    assert !IsSpace(t[|t| - 1]) by { assert t[|t| - 1] == x[|x| - 1]; }
    StripUnpadded(t);
    assert !AllDigits(t) by { assert t[|m|] == c; }
    ReplaceExponentMarker(m, c, x);
    ExponentLiteral(m, x);
  }

  lemma IntLiteralEndsInDigit(x: string)
    requires IsIntLiteral(x)
    ensures IsDigit(x[|x| - 1]) && !IsD(x[|x| - 1])
    ensures forall k | 0 <= k < |x| :: !IsD(x[k])
  {
    var v := Unsigned(x);
    assert x[|x| - 1] == v[|v| - 1];
    forall k | 0 <= k < |x| ensures !IsD(x[k]) {
      if v != x && k > 0 { assert x[k] == v[k - 1]; }
    }
  }

  lemma ReplaceExponentMarker(m: string, c: char, x: string)
    requires AllDigits(m) && IsD(c) && IsIntLiteral(x)
    ensures ReplaceD(m + [c] + x) == m + "e" + x
  {
    IntLiteralEndsInDigit(x);
    var t := m + [c] + x;
    var u := m + "e" + x;
    forall k | 0 <= k < |t| ensures ReplaceD(t)[k] == u[k] {
      if k < |m| {
        assert t[k] == m[k] && u[k] == m[k];
      } else if k > |m| {
        assert t[k] == x[k - |m| - 1] && u[k] == x[k - |m| - 1];
      }
    }
  }

  lemma ExponentLiteral(m: string, x: string)
    requires AllDigits(m) && IsIntLiteral(x)
    ensures IsFloatLiteral(m + "e" + x)
  {
    var u := m + "e" + x;
    assert Unsigned(u) == u by { assert u[0] == m[0]; }
    assert Lower(u)[0] == m[0];
    var e := IndexOfExponent(u);
    assert e == |m| by {
      assert u[|m|] == 'e';
    }
    assert u[..e] == m;
    var p := IndexOfDot(m);
    assert p == |m|;
    assert u[e + 1..] == x;
  }

  /** A field that starts with a letter which cannot begin a float (anything
      but i, n or an exponent marker) comes back as its stripped text with
      D/d replaced: "COD" decodes to "COe". */
  lemma {:induction false} EvalText(s: string)
    requires var t := Strip(s); t != [] && (IsUpper(t[0]) || IsLower(t[0]))
    requires var l := LowerChar(Strip(s)[0]); l != 'i' && l != 'n' && l != 'e' && l != 'd'
    ensures Eval(s) == Str(ReplaceD(Strip(s)))
  {
    var t := Strip(s);
    assert !AllDigits(t) by { assert !IsDigit(t[0]); }
    var u := ReplaceD(t);
    LetterIsNoFloat(u);
    assert Eval(s) == FloatOrText(u);
  }

  /** Text that starts with a letter other than i, n, e or d is no float. */
  lemma LetterIsNoFloat(u: string)
    requires u != [] && (IsUpper(u[0]) || IsLower(u[0]))
    requires var l := LowerChar(u[0]); l != 'i' && l != 'n' && l != 'e' && l != 'd'
    ensures !IsFloatLiteral(u)
  {
    assert Unsigned(u) == u;
    var l := Lower(u);
    assert l[0] == LowerChar(u[0]);
    assert l != "inf" && l != "infinity" && l != "nan" by {
      assert l[0] != 'i' && l[0] != 'n';
    }
    if IsDecimalLiteral(u) {
      DecimalLiteralStart(u);
    }
  }

  /** A decimal literal starts with a digit or a point. */
  lemma DecimalLiteralStart(u: string)
    requires IsDecimalLiteral(u)
    ensures u != [] && (IsDigit(u[0]) || u[0] == '.')
  {
    var e := IndexOfExponent(u);
    var m := u[..e];
    var p := IndexOfDot(m);
    if p < |m| && p > 0 {
      assert m[..p][0] == m[0];
    }
  }

  /** The two decoders agree on every stripped all-digit field; Eval3 alone
      also accepts a sign and never reports None. */
  lemma EvalsAgreeOnDigits(s: string)
    requires AllDigits(Strip(s))
    ensures Eval(s) == Eval3(s) == Int(DecimalValue(Strip(s)))
  {
    var t := Strip(s);
    assert t[0] != '+' && t[0] != '-';
    assert Unsigned(t) == t;
  }

  /** Eval3 reads a signed integer where Eval falls through to a float. */
  lemma Eval3Signed()
    ensures Eval3(" -5 ") == Int(-5)
  {
    var t := "-5";
    assert AllSpace(" ");
    assert !IsSpace(t[0]) && !IsSpace(t[1]);
    StripPadded(" ", t, " ");
    assert " " + t + " " == " -5 ";
    assert Unsigned(t) == "5";
    assert IsIntLiteral(t);
    assert DecimalValue("5") == 5;
  }
}
