/**
 * The Python string operations the conversion scripts use, on `seq<char>`:
 * `str(n)` and `int(s)` for integers, `float(s)` for plain decimal tokens,
 * `str.isspace`, `str.strip()`, `str.split()`, `' '.join(...)`,
 * one `readline()` of a text file, `os.path.basename`, the stem that
 * `os.path.splitext` returns, and `s.split(".")[0]`.
 */
module PyStr {
  import opened Wrappers

  // ---------------------------------------------------------------------
  // Integers as decimal text

  predicate IsDigit(c: char) {
    '0' <= c <= '9'
  }

  predicate AllDigits(s: string) {
    forall i :: 0 <= i < |s| ==> IsDigit(s[i])
  }

  function DigitChar(d: nat): (c: char)
    requires d < 10
    ensures IsDigit(c) && c as int - '0' as int == d
  {
    ('0' as int + d) as char
  }

  /** The value of a string of decimal digits, most significant first. */
  function DigitsValue(s: string): (v: nat)
    requires AllDigits(s)
  {
    if s == [] then 0
    else DigitsValue(s[..|s| - 1]) * 10 + (s[|s| - 1] as int - '0' as int)
  }

  /** `str(n)` for `n >= 0`: decimal digits with no leading zero. */
  function NatToString(n: nat): (s: string)
    ensures 1 <= |s| && AllDigits(s)
    ensures 1 < |s| ==> s[0] != '0'
  {
    if n < 10 then [DigitChar(n)] else NatToString(n / 10) + [DigitChar(n % 10)]
  }

  /** `str(n)`: a minus sign before the digits of a negative number. */
  function IntToString(n: int): (s: string)
    ensures 1 <= |s|
    ensures n < 0 <==> s[0] == '-'
  {
    if n < 0 then "-" + NatToString(-n) else NatToString(n)
  }

  /** `int()` of a single digit is that digit's value. */
  lemma ParseIntDigit(tok: string)
    requires |tok| == 1 && IsDigit(tok[0])
    ensures ParseInt(tok) == Some(tok[0] as int - '0' as int)
  {
    assert AllDigits(tok);
    assert tok[..0] == [] && DigitsValue(tok[..0]) == 0;
    assert DigitsValue(tok) == tok[0] as int - '0' as int;
  }

  /** `str(n)` is made of digits and a leading minus sign. */
  lemma IntToStringChars(n: int)
    ensures forall i :: 0 <= i < |IntToString(n)| ==> IntToString(n)[i] == '-' || IsDigit(IntToString(n)[i])
  {
    if n < 0 {
      var s := IntToString(n);
      forall i | 0 <= i < |s| ensures s[i] == '-' || IsDigit(s[i]) {
        if i > 0 {
          assert s[i] == NatToString(-n)[i - 1];
        }
      }
    }
  }

  /** Names that differ only in the number written between the same prefix and suffix differ in the number. */
  lemma NumberedNameInjective(pre: string, a: int, b: int, post: string)
    ensures pre + IntToString(a) + post == pre + IntToString(b) + post <==> a == b
  {
    var x, y := IntToString(a), IntToString(b);
    if pre + x + post == pre + y + post {
      assert |x| == |y|;
      assert x == (pre + x + post)[|pre|..|pre| + |x|];
      assert y == (pre + y + post)[|pre|..|pre| + |y|];
      IntToStringInjective(a, b);
    }
  }

  /** Reading back the digits `str(n)` produces gives `n`. */
  lemma {:induction false} NatToStringRoundTrip(n: nat)
    ensures DigitsValue(NatToString(n)) == n
  {
    if n >= 10 {
      var s := NatToString(n);
      NatToStringRoundTrip(n / 10);
      assert s[..|s| - 1] == NatToString(n / 10);
    }
  }

  /** `int(str(n)) == n`. */
  lemma {:induction false} IntToStringRoundTrip(n: int)
    ensures ParseInt(IntToString(n)) == Some(n)
  {
    NatToStringRoundTrip(if n < 0 then -n else n);
    if n < 0 {
      assert IntToString(n)[1..] == NatToString(-n);
    }
  }

  /** Different integers are written differently, so names built from them differ. */
  lemma {:induction false} IntToStringInjective(a: int, b: int)
    ensures IntToString(a) == IntToString(b) ==> a == b
  {
    IntToStringRoundTrip(a);
    IntToStringRoundTrip(b);
  }

  /**
   * `int(token)` for a token without surrounding whitespace: an optional sign
   * then one or more ASCII digits; anything else is Python's ValueError (None).
   */
  function ParseInt(tok: string): (r: Option<int>)
    ensures r.Some? ==> 1 <= |tok|
    ensures r.Some? && tok[0] != '-' && tok[0] != '+' ==> AllDigits(tok) && r.value == DigitsValue(tok)
    ensures r.Some? <==>
      (tok != [] && AllDigits(tok)) || (|tok| >= 2 && (tok[0] == '+' || tok[0] == '-') && AllDigits(tok[1..]))
    ensures tok != [] && AllDigits(tok) ==> r == Some(DigitsValue(tok))
    ensures |tok| >= 2 && tok[0] == '+' && AllDigits(tok[1..]) ==> r == Some(DigitsValue(tok[1..]))
    ensures |tok| >= 2 && tok[0] == '-' && AllDigits(tok[1..]) ==> r == Some(-(DigitsValue(tok[1..]) as int))
  {
    if |tok| >= 1 && (tok[0] == '-' || tok[0] == '+') then
      var body := tok[1..];
      if body != [] && AllDigits(body) then
        var v: int := DigitsValue(body);
        Some(if tok[0] == '-' then -v else v)
      else None
    else if tok != [] && AllDigits(tok) then Some(DigitsValue(tok))
    else None
  }

  // ---------------------------------------------------------------------
  // Decimal floating-point tokens

  function Pow10(k: nat): (p: nat)
    ensures p >= 1
  {
    if k == 0 then 1 else 10 * Pow10(k - 1)
  }

  /** Scale a value by `10^e` for a (possibly negative) exponent `e`. */
  function Scale10(v: real, e: int): real {
    if e >= 0 then v * Pow10(e) as real else v / Pow10(-e) as real
  }

  /** The value of `int_part[.frac_part]`, both strings of digits. */
  function MantissaValue(intPart: string, fracPart: string): real
    requires AllDigits(intPart) && AllDigits(fracPart)
  {
    DigitsValue(intPart) as real + DigitsValue(fracPart) as real / Pow10(|fracPart|) as real
  }

  /** Index of the first occurrence of `c` in `s`, or `|s|`. */
  function IndexOf(s: string, c: char): (i: nat)
    ensures i <= |s|
    ensures forall j :: 0 <= j < i ==> s[j] != c
    ensures i < |s| ==> s[i] == c
  {
    if s == [] then 0 else if s[0] == c then 0 else 1 + IndexOf(s[1..], c)
  }

  /** The unsigned mantissa `digits`, `digits.`, `digits.digits` or `.digits`. */
  function ParseMantissa(m: string): Option<real> {
    var p := IndexOf(m, '.');
    var intPart := m[..p];
    var fracPart := if p < |m| then m[p + 1..] else [];
    if AllDigits(intPart) && AllDigits(fracPart) && |intPart| + |fracPart| >= 1 then
      Some(MantissaValue(intPart, fracPart))
    else None
  }

  /** Index of the first `e` or `E` in `s`, or `|s|`. */
  function ExponentMark(s: string): (i: nat)
    ensures i <= |s|
    ensures i < |s| ==> s[i] == 'e' || s[i] == 'E'
  {
    if s == [] then 0 else if s[0] == 'e' || s[0] == 'E' then 0 else 1 + ExponentMark(s[1..])
  }

  /** The value of an unsigned token: a mantissa and an optional exponent `e[+-]digits`. */
  function ParseUnsigned(u: string): Option<real> {
    var k := ExponentMark(u);
    var mantissa := ParseMantissa(u[..k]);
    var exponent := if k < |u| then ParseInt(u[k + 1..]) else Some(0);
    if mantissa.None? || exponent.None? then None
    else Some(Scale10(mantissa.value, exponent.value))
  }

  /**
   * `float(token)` for decimal tokens: an optional sign, a mantissa with an
   * optional decimal point, and an optional exponent `e[+-]digits`.
   * Anything else is Python's ValueError (None).
   */
  function ParseFloat(tok: string): (r: Option<real>)
    ensures r.Some? ==> 1 <= |tok|
  {
    var neg := |tok| >= 1 && tok[0] == '-';
    var unsigned := if |tok| >= 1 && (tok[0] == '-' || tok[0] == '+') then tok[1..] else tok;
    match ParseUnsigned(unsigned)
    case None => None
    case Some(v) => Some(if neg then -v else v)
  }

  /** `0.<digits>` reads as the fraction `digits / 10^|digits|`. */
  lemma FractionToken(d: string)
    requires d != [] && AllDigits(d)
    ensures ParseFloat("0." + d) == Some(DigitsValue(d) as real / Pow10(|d|) as real)
  {
    var tok := "0." + d;
    assert tok[0] == '0' && tok[1] == '.';
    assert tok[..1] == "0" && tok[2..] == d;
    assert DigitsValue("0") == 0 by {
      assert "0"[..0] == [];
    }
    PointedToken(tok, 1);
    var v := DigitsValue(d) as real / Pow10(|d|) as real;
    assert MantissaValue(tok[..1], tok[2..]) == MantissaValue("0", d) == 0.0 + v;
  }

  lemma ScaleByNothing(v: real)
    ensures Scale10(v, 0) == v
  {
    assert Pow10(0) == 1;
  }

  /** `float("0.5")`. */
  lemma HalfToken(tok: string)
    requires tok == "0.5"
    ensures ParseFloat(tok) == Some(0.5)
  {
    FractionToken("5");
    assert "0." + "5" == tok;
    assert DigitsValue("5") == 5 by {
      assert "5"[..0] == [];
    }
    assert Pow10(1) == 10;
  }

  /** `float("0.25")`. */
  lemma QuarterToken(tok: string)
    requires tok == "0.25"
    ensures ParseFloat(tok) == Some(0.25)
  {
    FractionToken("25");
    assert "0." + "25" == tok;
    assert DigitsValue("25") == 25 by {
      assert "25"[..1] == "2" && "2"[..0] == [];
    }
    assert Pow10(2) == 100 by {
      assert Pow10(1) == 10;
    }
  }

  /** Every string `str(n)` produces is also a valid `float` token with the value `n`. */
  lemma {:induction false} ParseFloatOfInteger(n: int)
    ensures ParseFloat(IntToString(n)) == Some(n as real)
  {
    var a := if n < 0 then -n else n;
    var sign := if n < 0 then "-" else "";
    NatToStringRoundTrip(a);
    assert IntToString(n) == sign + NatToString(a);
    ParseFloatDigits(sign, NatToString(a));
    assert Signed(sign, a as real) == n as real;
  }

  lemma {:induction false} NoExponentInDigits(s: string)
    requires AllDigits(s)
    ensures ExponentMark(s) == |s|
  {
    if s != [] {
      NoExponentInDigits(s[1..]);
    }
  }

  lemma {:induction false} NoPointInDigits(s: string)
    requires AllDigits(s)
    ensures IndexOf(s, '.') == |s|
  {
    if s != [] {
      NoPointInDigits(s[1..]);
    }
  }

  /** An optional sign in front of a number. */
  predicate IsSign(s: string) {
    s == "" || s == "+" || s == "-"
  }

  /** The value `v` carries after the sign `s`. */
  function Signed(s: string, v: real): real {
    if s == "-" then -v else v
  }

  /** `digits`, `digits.`, `.digits` or `digits.digits`: at least one digit and at most one point. */
  predicate IsMantissaText(m: string) {
    (m != [] && AllDigits(m))
    || exists i :: 0 <= i < |m| && m[i] == '.' && AllDigits(m[..i]) && AllDigits(m[i + 1..]) && |m| >= 2
  }

  /** Nothing, or `e`/`E` followed by an integer token. */
  predicate IsExponentText(x: string) {
    x == [] || (|x| >= 1 && (x[0] == 'e' || x[0] == 'E') && ParseInt(x[1..]).Some?)
  }

  /** A sign, a mantissa and an exponent, in that order. */
  predicate IsFloatToken(tok: string) {
    exists a, b :: 0 <= a <= b <= |tok| && IsSign(tok[..a]) && IsMantissaText(tok[a..b]) && IsExponentText(tok[b..])
  }

  lemma {:induction false} NoExponentMark(s: string)
    requires forall i :: 0 <= i < |s| ==> s[i] != 'e' && s[i] != 'E'
    ensures ExponentMark(s) == |s|
  {
    if s != [] {
      NoExponentMark(s[1..]);
    }
  }

  lemma {:induction false} ExponentMarkAfter(a: string, mark: char, b: string)
    requires forall i :: 0 <= i < |a| ==> a[i] != 'e' && a[i] != 'E'
    requires mark == 'e' || mark == 'E'
    ensures ExponentMark(a + [mark] + b) == |a|
  {
    if a == [] {
      assert (a + [mark] + b)[0] == mark;
    } else {
      assert (a + [mark] + b)[1..] == a[1..] + [mark] + b;
      ExponentMarkAfter(a[1..], mark, b);
    }
  }

  lemma {:induction false} IndexOfAfter(a: string, c: char, b: string)
    requires forall i :: 0 <= i < |a| ==> a[i] != c
    ensures IndexOf(a + [c] + b, c) == |a|
  {
    if a == [] {
      assert (a + [c] + b)[0] == c;
    } else {
      assert (a + [c] + b)[1..] == a[1..] + [c] + b;
      IndexOfAfter(a[1..], c, b);
    }
  }

  /** A sign in front of an unsigned token only sets the sign of its value. */
  lemma SignedToken(s: string, u: string)
    requires IsSign(s) && (u == [] || (u[0] != '+' && u[0] != '-'))
    ensures ParseFloat(s + u) == match ParseUnsigned(u) case None => None case Some(v) => Some(Signed(s, v))
  {
    var t := s + u;
    if s == "" {
      assert t == u;
    } else {
      assert t[0] == s[0] && t[1..] == u;
    }
    if t != [] {
      ParseFloatBySign(t);
      assert t[..|s|] == s && t[|s|..] == u;
    }
  }

  /** `digits.digits` (either side possibly empty) is the value of the digits around the point. */
  lemma UnsignedPointed(ip: string, fp: string)
    requires AllDigits(ip) && AllDigits(fp) && |ip| + |fp| >= 1
    ensures ParseUnsigned(ip + ['.'] + fp) == Some(MantissaValue(ip, fp))
  {
    var m := ip + ['.'] + fp;
    forall i | 0 <= i < |m| ensures m[i] != 'e' && m[i] != 'E' {
      if i < |ip| {
        assert m[i] == ip[i];
      } else if i > |ip| {
        assert m[i] == fp[i - |ip| - 1];
      }
    }
    NoExponentMark(m);
    assert m[..|m|] == m;
    IndexOfAfter(ip, '.', fp);
    assert m[..|ip|] == ip && m[|ip| + 1..] == fp;
    ScaleByNothing(MantissaValue(ip, fp));
  }

  /** `float("[+-]digits.digits")` is the signed value of the digits around the point. */
  lemma ParseFloatPointed(s: string, ip: string, fp: string)
    requires IsSign(s) && AllDigits(ip) && AllDigits(fp) && |ip| + |fp| >= 1
    ensures ParseFloat(s + ip + "." + fp) == Some(Signed(s, MantissaValue(ip, fp)))
  {
    var m := ip + ['.'] + fp;
    assert s + ip + "." + fp == s + m;
    assert m[0] == (if ip != [] then ip[0] else '.');
    SignedToken(s, m);
    UnsignedPointed(ip, fp);
  }

  /** `float("[+-]digits")` is the signed value of the digits. */
  lemma ParseFloatDigits(s: string, ip: string)
    requires IsSign(s) && ip != [] && AllDigits(ip)
    ensures ParseFloat(s + ip) == Some(Signed(s, DigitsValue(ip) as real))
  {
    SignedToken(s, ip);
    NoExponentInDigits(ip);
    NoPointInDigits(ip);
    assert ip[..|ip|] == ip;
    assert MantissaValue(ip, []) == DigitsValue(ip) as real by {
      assert Pow10(0) == 1;
    }
    ScaleByNothing(DigitsValue(ip) as real);
  }

  /** Scaling by a power of ten commutes with the sign. */
  lemma ScaleSigned(s: string, v: real, e: int)
    ensures Signed(s, Scale10(v, e)) == Scale10(Signed(s, v), e)
  {
  }

  /** An exponent after an unsigned token without one scales its value. */
  lemma UnsignedExponent(u: string, mark: char, x: string)
    requires forall i :: 0 <= i < |u| ==> u[i] != 'e' && u[i] != 'E'
    requires mark == 'e' || mark == 'E'
    requires ParseUnsigned(u).Some? && ParseInt(x).Some?
    ensures ParseUnsigned(u + [mark] + x) == Some(Scale10(ParseUnsigned(u).value, ParseInt(x).value))
  {
    var t := u + [mark] + x;
    NoExponentMark(u);
    ExponentMarkAfter(u, mark, x);
    assert u[..|u|] == u;
    assert t[..|u|] == u && t[|u| + 1..] == x;
    ScaleByNothing(ParseMantissa(u).value);
  }

  /** `float()` reads the sign, then the unsigned rest. */
  lemma ParseFloatBySign(tok: string)
    requires tok != []
    ensures var a := if tok[0] == '-' || tok[0] == '+' then 1 else 0;
      ParseFloat(tok) == match ParseUnsigned(tok[a..]) case None => None case Some(v) => Some(Signed(tok[..a], v))
  {
    if tok[0] == '-' || tok[0] == '+' {
      assert tok[..1] == [tok[0]];
    } else {
      assert tok[0..] == tok;
    }
  }

  /** An exponent `e<k>` after a number without one scales its value by `10^k`. */
  lemma ParseFloatExponent(m: string, mark: char, x: string)
    requires forall i :: 0 <= i < |m| ==> m[i] != 'e' && m[i] != 'E'
    requires mark == 'e' || mark == 'E'
    requires ParseFloat(m).Some? && ParseInt(x).Some?
    ensures ParseFloat(m + [mark] + x) == Some(Scale10(ParseFloat(m).value, ParseInt(x).value))
  {
    var tok := m + [mark] + x;
    assert tok[0] == m[0];
    var a := if m[0] == '-' || m[0] == '+' then 1 else 0;
    var s, um := m[..a], m[a..];
    assert tok[..a] == s && tok[a..] == um + [mark] + x;
    assert forall i :: 0 <= i < |um| ==> um[i] == m[i + a];
    ParseFloatBySign(m);
    var v, k := ParseUnsigned(um).value, ParseInt(x).value;
    assert ParseFloat(m) == Some(Signed(s, v));
    UnsignedExponent(um, mark, x);
    ParseFloatBySign(tok);
    assert ParseFloat(tok) == Some(Signed(s, Scale10(v, k)));
    ScaleSigned(s, v, k);
  }

  /** An accepted unsigned token is a mantissa up to its exponent mark, and an exponent from there. */
  lemma UnsignedShape(u: string)
    requires ParseUnsigned(u).Some?
    ensures IsMantissaText(u[..ExponentMark(u)]) && IsExponentText(u[ExponentMark(u)..])
  {
    var k := ExponentMark(u);
    var mm := u[..k];
    var p := IndexOf(mm, '.');
    if p < |mm| {
      assert mm[p] == '.' && AllDigits(mm[..p]) && AllDigits(mm[p + 1..]);
    } else {
      assert mm[..p] == mm;
    }
    if k < |u| {
      assert u[k..][0] == u[k] && u[k..][1..] == u[k + 1..];
    }
  }

  /** Every token `float()` accepts here is a sign, a mantissa and an exponent. */
  lemma ParseFloatShape(tok: string)
    requires ParseFloat(tok).Some?
    ensures IsFloatToken(tok)
  {
    var a := if |tok| >= 1 && (tok[0] == '-' || tok[0] == '+') then 1 else 0;
    var unsigned := tok[a..];
    if a == 0 {
      assert tok[0..] == tok;
    } else {
      assert tok[..a] == [tok[0]];
    }
    assert IsSign(tok[..a]);
    UnsignedShape(unsigned);
    var b := a + ExponentMark(unsigned);
    assert tok[a..b] == unsigned[..ExponentMark(unsigned)] && tok[b..] == unsigned[ExponentMark(unsigned)..];
  }

  lemma UnsignedDigits(ip: string)
    requires ip != [] && AllDigits(ip)
    ensures ParseUnsigned(ip) == Some(DigitsValue(ip) as real)
  {
    NoExponentInDigits(ip);
    NoPointInDigits(ip);
    assert ip[..|ip|] == ip;
    assert MantissaValue(ip, []) == DigitsValue(ip) as real by {
      assert Pow10(0) == 1;
    }
    ScaleByNothing(DigitsValue(ip) as real);
  }

  /** `digits.digits` holds no exponent mark and does not start with a sign. */
  lemma PointedText(ip: string, fp: string)
    requires AllDigits(ip) && AllDigits(fp)
    ensures (ip + ['.'] + fp)[0] != '+' && (ip + ['.'] + fp)[0] != '-'
    ensures forall j :: 0 <= j < |ip + ['.'] + fp| ==> (ip + ['.'] + fp)[j] != 'e' && (ip + ['.'] + fp)[j] != 'E'
  {
    var m := ip + ['.'] + fp;
    forall j | 0 <= j < |m| ensures m[j] != 'e' && m[j] != 'E' && m[j] != '+' && m[j] != '-' {
      if j < |ip| {
        assert m[j] == ip[j];
      } else if j > |ip| {
        assert m[j] == fp[j - |ip| - 1];
      }
    }
  }

  /** A mantissa text is an accepted unsigned token with no exponent mark in it. */
  lemma MantissaParses(m: string)
    requires IsMantissaText(m)
    ensures ParseUnsigned(m).Some?
    ensures m[0] != '+' && m[0] != '-'
    ensures forall i :: 0 <= i < |m| ==> m[i] != 'e' && m[i] != 'E'
  {
    if m != [] && AllDigits(m) {
      UnsignedDigits(m);
    } else {
      var i :| 0 <= i < |m| && m[i] == '.' && AllDigits(m[..i]) && AllDigits(m[i + 1..]) && |m| >= 2;
      PointedMantissaParses(m, i);
    }
  }

  lemma PointedMantissaParses(m: string, i: nat)
    requires i < |m| && m[i] == '.' && AllDigits(m[..i]) && AllDigits(m[i + 1..]) && |m| >= 2
    ensures ParseUnsigned(m).Some?
    ensures m[0] != '+' && m[0] != '-'
    ensures forall j :: 0 <= j < |m| ==> m[j] != 'e' && m[j] != 'E'
  {
    AroundIndex(m, i);
    UnsignedPointed(m[..i], m[i + 1..]);
    PointedText(m[..i], m[i + 1..]);
  }

  /** An unsigned `digits.digits` token reads as the value of the digits around its point. */
  lemma PointedToken(tok: string, i: nat)
    requires i < |tok| && tok[i] == '.' && AllDigits(tok[..i]) && AllDigits(tok[i + 1..]) && |tok| >= 2
    ensures ParseFloat(tok) == Some(MantissaValue(tok[..i], tok[i + 1..]))
  {
    PointedMantissaParses(tok, i);
    AroundIndex(tok, i);
    UnsignedPointed(tok[..i], tok[i + 1..]);
    assert "" + tok == tok;
    SignedToken("", tok);
  }

  lemma AroundIndex<T>(t: seq<T>, i: nat)
    requires i < |t|
    ensures t == t[..i] + [t[i]] + t[i + 1..]
  {
  }

  lemma MantissaExponentParses(m: string, x: string)
    requires IsMantissaText(m) && IsExponentText(x)
    ensures ParseUnsigned(m + x).Some? && (m + x)[0] != '+' && (m + x)[0] != '-'
  {
    MantissaParses(m);
    if x == [] {
      assert m + x == m;
    } else {
      MantissaWithExponent(m, x);
    }
  }

  lemma MantissaWithExponent(m: string, x: string)
    requires IsMantissaText(m) && x != [] && (x[0] == 'e' || x[0] == 'E') && ParseInt(x[1..]).Some?
    ensures ParseUnsigned(m + x).Some? && (m + x)[0] != '+' && (m + x)[0] != '-'
  {
    MantissaParses(m);
    assert m + x == m + [x[0]] + x[1..];
    UnsignedExponent(m, x[0], x[1..]);
  }

  /** Every sign-mantissa-exponent token is accepted. */
  lemma FloatTokenParses(tok: string)
    requires IsFloatToken(tok)
    ensures ParseFloat(tok).Some?
  {
    var a, b :| 0 <= a <= b <= |tok| && IsSign(tok[..a]) && IsMantissaText(tok[a..b]) && IsExponentText(tok[b..]);
    ThreeSlices(tok, a, b);
    MantissaExponentParses(tok[a..b], tok[b..]);
    SignedAccepted(tok[..a], tok[a..b] + tok[b..]);
  }

  lemma ThreeSlices<T>(t: seq<T>, a: nat, b: nat)
    requires a <= b <= |t|
    ensures t == t[..a] + (t[a..b] + t[b..])
  {
  }

  lemma SignedAccepted(s: string, u: string)
    requires IsSign(s) && u != [] && u[0] != '+' && u[0] != '-' && ParseUnsigned(u).Some?
    ensures ParseFloat(s + u).Some?
  {
    SignedToken(s, u);
  }

  /** `float()` accepts a token exactly when it is a sign, a mantissa and an exponent. */
  lemma ParseFloatAccepts(tok: string)
    ensures ParseFloat(tok).Some? <==> IsFloatToken(tok)
  {
    if ParseFloat(tok).Some? {
      ParseFloatShape(tok);
    }
    if IsFloatToken(tok) {
      FloatTokenParses(tok);
    }
  }

  // ---------------------------------------------------------------------
  // Whitespace, strip() and split()

  /** `str.isspace()` for one character: Python's whitespace set. */
  predicate IsSpace(c: char) {
    var n := c as int;
    (9 <= n <= 13) || (28 <= n <= 32) || n == 0x85 || n == 0xA0 || n == 0x1680
    || (0x2000 <= n <= 0x200A) || n == 0x2028 || n == 0x2029 || n == 0x202F
    || n == 0x205F || n == 0x3000
  }

  predicate AllSpace(s: string) {
    forall i :: 0 <= i < |s| ==> IsSpace(s[i])
  }

  /** A token of `split()`: non-empty and free of whitespace. */
  predicate IsToken(w: string) {
    w != [] && forall i :: 0 <= i < |w| ==> !IsSpace(w[i])
  }

  /** The number of whitespace characters `s` starts with. */
  function LeadingSpace(s: string): (k: nat)
    ensures k <= |s| && AllSpace(s[..k])
    ensures k < |s| ==> !IsSpace(s[k])
  {
    if s != [] && IsSpace(s[0]) then 1 + LeadingSpace(s[1..]) else 0
  }

  /** `s.lstrip()`: drop the leading whitespace. */
  function TrimLeft(s: string): (r: string)
  {
    s[LeadingSpace(s)..]
  }

  /** `s.rstrip()`: drop the trailing whitespace. */
  function TrimRight(s: string): (r: string)
    ensures |r| <= |s| && r == s[..|r|]
    ensures AllSpace(s[|r|..])
    ensures r == [] || !IsSpace(r[|r| - 1])
  {
    if s != [] && IsSpace(s[|s| - 1]) then
      var r := TrimRight(s[..|s| - 1]);
      assert s[|r|..] == s[..|s| - 1][|r|..] + [s[|s| - 1]];
      r
    else s
  }

  /** `s.strip()`. */
  function Strip(s: string): string {
    TrimRight(TrimLeft(s))
  }

  /** Length of the leading run of non-whitespace characters. */
  function TokenLength(t: string): (n: nat)
    ensures n <= |t|
    ensures forall i :: 0 <= i < n ==> !IsSpace(t[i])
    ensures n < |t| ==> IsSpace(t[n])
  {
    if t == [] || IsSpace(t[0]) then 0 else 1 + TokenLength(t[1..])
  }

  /** Where the first token of `s` ends (its start is `LeadingSpace(s)`). */
  function TokenEnd(s: string): (e: nat)
    ensures LeadingSpace(s) <= e <= |s|
    ensures LeadingSpace(s) < |s| ==> LeadingSpace(s) < e
  {
    var b := LeadingSpace(s);
    b + TokenLength(s[b..])
  }

  /** `s.split()`: the maximal runs of non-whitespace, left to right. */
  function Split(s: string): (toks: seq<string>)
    ensures forall i :: 0 <= i < |toks| ==> IsToken(toks[i])
    decreases |s|
  {
    var b := LeadingSpace(s);
    if b == |s| then []
    else
      var e := TokenEnd(s);
      [s[b..e]] + Split(s[e..])
  }

  /** `sep.join(toks)`. */
  function Join(toks: seq<string>, sep: string): string {
    if toks == [] then []
    else if |toks| == 1 then toks[0]
    else toks[0] + sep + Join(toks[1..], sep)
  }

  /** Writing tokens joined by single spaces and splitting the text again gives the tokens back. */
  lemma {:induction false} SplitJoinRoundTrip(toks: seq<string>)
    requires forall i :: 0 <= i < |toks| ==> IsToken(toks[i])
    ensures Split(Join(toks, " ")) == toks
  {
    if |toks| == 1 {
      SplitToken(toks[0], []);
      assert toks[0] + [] == toks[0];
    } else if |toks| > 1 {
      var rest := Join(toks[1..], " ");
      assert Join(toks, " ") == toks[0] + (" " + rest);
      SplitToken(toks[0], " " + rest);
      SplitSkipsLeadingSpace(rest);
      SplitJoinRoundTrip(toks[1..]);
      HeadTail(toks);
    }
  }

  /** A non-empty sequence is its head followed by its tail. */
  lemma {:induction false} HeadTail<T>(s: seq<T>)
    requires s != []
    ensures [s[0]] + s[1..] == s
  {
  }

  /** A token followed by whitespace (or nothing) is the first thing `split()` returns. */
  lemma {:induction false} SplitToken(w: string, rest: string)
    requires IsToken(w)
    requires rest == [] || IsSpace(rest[0])
    ensures Split(w + rest) == [w] + Split(rest)
  {
    var t := w + rest;
    assert t[0] == w[0];
    assert LeadingSpace(t) == 0;
    assert t[0..] == t;
    TokenLengthOfToken(w, rest);
    assert t[0..|w|] == w && t[|w|..] == rest;
  }

  lemma {:induction false} TokenLengthOfToken(w: string, rest: string)
    requires IsToken(w)
    requires rest == [] || IsSpace(rest[0])
    ensures TokenLength(w + rest) == |w|
  {
    var t := w + rest;
    var n := TokenLength(t);
    assert forall i :: 0 <= i < |w| ==> t[i] == w[i];
    if rest != [] {
      assert t[|w|] == rest[0];
    }
  }

  lemma {:induction false} SplitSkipsLeadingSpace(s: string)
    ensures Split(" " + s) == Split(s)
  {
    var t := " " + s;
    assert t[1..] == s;
    var b := LeadingSpace(s);
    assert LeadingSpace(t) == 1 + b;
    assert t[1 + b..] == s[b..];
    assert TokenEnd(t) == 1 + TokenEnd(s);
    assert t[1 + b..1 + TokenEnd(s)] == s[b..TokenEnd(s)];
    assert t[1 + TokenEnd(s)..] == s[TokenEnd(s)..];
  }

  /** Whitespace added at the end does not change what `split()` returns. */
  lemma {:induction false} SplitIgnoresTrailingSpace(s: string, w: string)
    requires AllSpace(w)
    ensures Split(s + w) == Split(s)
    decreases |s|
  {
    LeadingSpaceAppend(s, w);
    if LeadingSpace(s) < |s| {
      var b, e := LeadingSpace(s), TokenEnd(s);
      TokenEndAppend(s, w);
      assert (s + w)[b..e] == s[b..e] && (s + w)[e..] == s[e..] + w;
      SplitIgnoresTrailingSpace(s[e..], w);
    }
  }

  /** Trailing whitespace does not move the first token. */
  lemma {:induction false} TokenEndAppend(s: string, w: string)
    requires AllSpace(w) && LeadingSpace(s) < |s|
    ensures LeadingSpace(s + w) == LeadingSpace(s) && TokenEnd(s + w) == TokenEnd(s)
  {
    LeadingSpaceAppend(s, w);
    var b := LeadingSpace(s);
    assert (s + w)[b..] == s[b..] + w;
    TokenLengthAppend(s[b..], w);
  }

  lemma {:induction false} LeadingSpaceAppend(s: string, w: string)
    requires AllSpace(w)
    ensures LeadingSpace(s) < |s| ==> LeadingSpace(s + w) == LeadingSpace(s)
    ensures LeadingSpace(s) == |s| ==> LeadingSpace(s + w) == |s + w|
    decreases |s|
  {
    if s == [] {
      AllSpaceIsLeading(w);
      assert s + w == w;
    } else if IsSpace(s[0]) {
      assert (s + w)[1..] == s[1..] + w;
      LeadingSpaceAppend(s[1..], w);
    }
  }

  lemma {:induction false} AllSpaceIsLeading(w: string)
    requires AllSpace(w)
    ensures LeadingSpace(w) == |w|
    decreases |w|
  {
    if w != [] {
      AllSpaceIsLeading(w[1..]);
    }
  }

  lemma {:induction false} TokenLengthAppend(t: string, w: string)
    requires AllSpace(w) && t != [] && !IsSpace(t[0])
    ensures TokenLength(t + w) == TokenLength(t)
  {
    var n := TokenLength(t);
    var m := TokenLength(t + w);
    assert forall i :: 0 <= i < |t| ==> (t + w)[i] == t[i];
    if n < |t| {
      assert (t + w)[n] == t[n];
    } else if w != [] {
      assert (t + w)[n] == w[0];
    }
  }

  /** Whitespace removed from the front is whitespace `split()` skips anyway. */
  lemma {:induction false} SplitIgnoresLeadingSpace(s: string)
    ensures Split(TrimLeft(s)) == Split(s)
  {
    var b := LeadingSpace(s);
    var t := TrimLeft(s);
    LeadingSpaceOfTrimmed(s);
    if b < |s| {
      assert t[0..] == t;
      assert TokenEnd(t) == TokenEnd(s) - b;
      assert t[0..TokenEnd(t)] == s[b..TokenEnd(s)];
      assert t[TokenEnd(t)..] == s[TokenEnd(s)..];
    }
  }

  lemma {:induction false} LeadingSpaceOfTrimmed(s: string)
    ensures LeadingSpace(TrimLeft(s)) == 0
  {
    var b := LeadingSpace(s);
    if b < |s| {
      assert TrimLeft(s)[0] == s[b];
    }
  }

  /** `s.strip().split() == s.split()`. */
  lemma {:induction false} SplitAfterStrip(s: string)
    ensures Split(Strip(s)) == Split(s)
  {
    var t := TrimLeft(s);
    var r := TrimRight(t);
    assert t == r + t[|r|..];
    SplitIgnoresTrailingSpace(r, t[|r|..]);
    SplitIgnoresLeadingSpace(s);
  }

  // ---------------------------------------------------------------------
  // Lines and file names

  predicate IsLineBreak(c: char) {
    c == '\n' || c == '\r'
  }

  /**
   * The first line of a text file as `readline()` gives it, without its
   * terminator: the file is opened in text mode, so `\r\n` and `\r` end a line
   * as `\n` does. The terminator itself is whitespace, which `strip()` drops.
   */
  function FirstLine(content: string): (line: string)
    ensures line <= content
    ensures forall i :: 0 <= i < |line| ==> !IsLineBreak(line[i])
    ensures |line| < |content| ==> IsLineBreak(content[|line|])
  {
    if content == [] || IsLineBreak(content[0]) then [] else [content[0]] + FirstLine(content[1..])
  }

  predicate NoLineBreak(s: string) {
    forall i :: 0 <= i < |s| ==> !IsLineBreak(s[i])
  }

  /** `readline()` stops at the first line break and reads nothing past it. */
  lemma {:induction false} FirstLineOfLines(line: string, brk: char, rest: string)
    requires NoLineBreak(line) && IsLineBreak(brk)
    ensures FirstLine(line + [brk] + rest) == line
  {
    if line != [] {
      assert (line + [brk] + rest)[1..] == line[1..] + [brk] + rest;
      FirstLineOfLines(line[1..], brk, rest);
    }
  }

  /** Tokens joined by spaces form a single line: line breaks are whitespace. */
  lemma {:induction false} JoinIsOneLine(toks: seq<string>)
    requires forall i :: 0 <= i < |toks| ==> IsToken(toks[i])
    ensures NoLineBreak(Join(toks, " "))
  {
    if |toks| > 1 {
      JoinIsOneLine(toks[1..]);
      var rest := Join(toks[1..], " ");
      var j := toks[0] + " " + rest;
      forall i | 0 <= i < |j| ensures !IsLineBreak(j[i]) {
        if i < |toks[0]| {
          assert j[i] == toks[0][i];
        } else if i > |toks[0]| {
          assert j[i] == rest[i - |toks[0]| - 1];
        }
      }
    }
  }

  /** Index just past the last `c` in `s`, or 0 when there is none. */
  function AfterLast(s: string, c: char): (i: nat)
    ensures i <= |s|
    ensures 0 < i ==> s[i - 1] == c
    ensures forall j :: i <= j < |s| ==> s[j] != c
  {
    if s == [] then 0 else if s[|s| - 1] == c then |s| else AfterLast(s[..|s| - 1], c)
  }

  /** `os.path.basename(p)`: what follows the last `/`. */
  function Basename(p: string): (b: string)
    ensures forall j :: 0 <= j < |b| ==> b[j] != '/'
    ensures |b| <= |p| && b == p[|p| - |b|..]
  {
    p[AfterLast(p, '/')..]
  }

  /** A name under a directory prefix ending in `/` has that name as its base name. */
  lemma BasenameUnderDirectory(dir: string, name: string)
    requires dir == [] || dir[|dir| - 1] == '/'
    requires forall i :: 0 <= i < |name| ==> name[i] != '/'
    ensures Basename(dir + name) == name
  {
    var s := dir + name;
    assert AfterLast(s, '/') == |dir|;
    assert s[|dir|..] == name;
  }

  predicate AllDots(s: string) {
    forall i :: 0 <= i < |s| ==> s[i] == '.'
  }

  /**
   * `os.path.splitext(name)[0]` for a base name: everything before the last
   * `.`, unless that dot is only preceded by dots (a hidden file such as
   * `.profile` has no extension).
   */
  function Stem(name: string): (stem: string)
    ensures stem <= name
  {
    var d := AfterLast(name, '.');
    if d == 0 || AllDots(name[..d - 1]) then name else name[..d - 1]
  }

  /** `name + ext` splits back into `name` when `ext` is one dot-led extension. */
  lemma {:induction false} StemOfExtension(name: string, ext: string)
    requires ext != [] && ext[0] == '.' && forall i :: 1 <= i < |ext| ==> ext[i] != '.'
    requires !AllDots(name)
    ensures Stem(name + ext) == name
  {
    var s := name + ext;
    var d := AfterLast(s, '.');
    assert s[|name|] == '.';
    assert d == |name| + 1;
    assert s[..d - 1] == name;
  }

  /** `os.path.splitext(os.path.basename(path))[0]`. */
  function PathStem(path: string): string {
    Stem(Basename(path))
  }

  /** The stem of `dir/name.ext` is `name`. */
  lemma PathStemOf(dir: string, name: string, ext: string)
    requires dir == [] || dir[|dir| - 1] == '/'
    requires forall i :: 0 <= i < |name| ==> name[i] != '/'
    requires !AllDots(name)
    requires ext != [] && ext[0] == '.' && forall i :: 1 <= i < |ext| ==> ext[i] != '.' && ext[i] != '/'
    ensures PathStem(dir + name + ext) == name
  {
    var file := name + ext;
    forall i | 0 <= i < |file| ensures file[i] != '/' {
      if i < |name| {
        assert file[i] == name[i];
      } else {
        assert file[i] == ext[i - |name|];
      }
    }
    assert dir + name + ext == dir + file;
    BasenameUnderDirectory(dir, file);
    StemOfExtension(name, ext);
  }

  /** `s.split(".")[0]`: everything before the first `.`. */
  function BeforeFirstDot(s: string): (r: string)
    ensures r <= s
    ensures forall i :: 0 <= i < |r| ==> r[i] != '.'
    ensures |r| < |s| ==> s[|r|] == '.'
  {
    s[..IndexOf(s, '.')]
  }
}
