/** Which bare tokens are JSON as they stand: exactly what prints from a numeral of the JSON grammar
    (section 6 of RFC 8259), and the three literals. */
module JsonTokens {
  import opened Common
  import opened BareValues

  predicate Decimals(s: string) {
    s != "" && forall c | c in s :: c in "0123456789"
  }

  type Digits = s: string | Decimals(s) witness "0"

  datatype Exponent = Exponent(mark: char, sign: string, digits: Digits)

  /** A JSON number: sign, whole part without leading zeros, fraction, exponent. */
  datatype Numeral = Numeral(negative: bool, whole: nat, fraction: Option<Digits>, exponent: Option<Exponent>)

  predicate Proper(n: Numeral) {
    n.exponent.Some? ==> n.exponent.value.mark in "eE" && n.exponent.value.sign in ["", "+", "-"]
  }

  function FractionText(f: Option<Digits>): string {
    match f
    case None => ""
    case Some(digits) => "." + digits
  }

  function ExponentText(e: Option<Exponent>): string {
    match e
    case None => ""
    case Some(e) => [e.mark] + e.sign + e.digits
  }

  function WholeText(negative: bool, whole: nat): string {
    (if negative then "-" else "") + Decimal(whole)
  }

  function Print(n: Numeral): string {
    WholeText(n.negative, n.whole) + FractionText(n.fraction) + ExponentText(n.exponent)
  }

  // --- the parts -------------------------------------------------------------

  lemma DigitIs(c: char)
    ensures c in "0123456789" <==> '0' <= c <= '9'
    ensures c in "0123456789" ==> c == Digit((c - '0') as nat) && (c - '0') as nat < 10
  {
    assert "0123456789" == ['0', '1', '2', '3', '4', '5', '6', '7', '8', '9'];
  }

  lemma AreDigits(s: string)
    ensures AllDigits(s) && s != "" <==> Decimals(s)
  {
    forall i | 0 <= i < |s| ensures '0' <= s[i] <= '9' <==> s[i] in "0123456789" {
      DigitIs(s[i]);
    }
    if AllDigits(s) {
      forall c | c in s ensures c in "0123456789" {
        var i :| 0 <= i < |s| && s[i] == c;
        DigitIs(c);
      }
    }
  }

  lemma FrontIsInt(s: string)
    requires IsInt(s) && |s| > 1
    ensures IsInt(s[..|s| - 1]) && s[..|s| - 1] != "0"
  {
  }

  lemma LastIsDigit(s: string) returns (d: nat)
    requires IsInt(s)
    ensures d < 10 && s[|s| - 1] == Digit(d)
  {
    DigitIs(s[|s| - 1]);
    d := (s[|s| - 1] - '0') as nat;
  }

  lemma AppendDigit(m: nat, d: nat)
    requires d < 10
    ensures Decimal(m) != "0" ==> Decimal(10 * m + d) == Decimal(m) + [Digit(d)]
    ensures Decimal(d) == [Digit(d)]
  {
  }

  lemma {:induction false} IntIsDecimal(s: string) returns (n: nat)
    requires IsInt(s)
    ensures Decimal(n) == s
  {
    var k := |s| - 1;
    var d := LastIsDigit(s);
    if k == 0 {
      AppendDigit(0, d);
      assert s == [s[0]];
      n := d;
    } else {
      FrontIsInt(s);
      hide *;
      var m := IntIsDecimal(s[..k]);
      AppendDigit(m, d);
      n := 10 * m + d;
      assert s == s[..k] + [s[k]];
    }
  }

  lemma WholeIff(s: string)
    ensures IsSignedInt(s) <==> exists negative: bool, whole: nat :: WholeText(negative, whole) == s
  {
    if IsSignedInt(s) {
      if IsInt(s) {
        var n := IntIsDecimal(s);
        assert WholeText(false, n) == s;
      } else {
        var n := IntIsDecimal(s[1..]);
        assert s == "-" + s[1..];
        assert WholeText(true, n) == s;
      }
    }
    if negative: bool, whole: nat :| WholeText(negative, whole) == s {
      DecimalIsInt(whole);
      if negative {
        assert s[0] == '-' && s[1..] == Decimal(whole);
      }
    }
  }

  lemma FractionIff(s: string)
    ensures IsFraction(s) <==> exists f: Option<Digits> :: FractionText(f) == s
  {
    if IsFraction(s) {
      if s == "" {
        assert FractionText(None) == s;
      } else {
        AreDigits(s[1..]);
        assert s == "." + s[1..];
        assert FractionText(Some(s[1..])) == s;
      }
    }
    if f: Option<Digits> :| FractionText(f) == s && f.Some? {
      AreDigits(f.value);
      assert s[1..] == f.value;
    }
  }

  ghost predicate ProperExponent(e: Option<Exponent>) {
    e.Some? ==> e.value.mark in "eE" && e.value.sign in ["", "+", "-"]
  }

  /** The two shapes of an exponent that is there. */
  predicate Bare(s: string) {
    |s| > 1 && s[0] in "eE" && AllDigits(s[1..])
  }

  predicate Signed(s: string) {
    |s| > 2 && s[0] in "eE" && s[1] in "+-" && AllDigits(s[2..])
  }

  lemma ExponentShapes(s: string)
    ensures IsExponent(s) <==> s == "" || Bare(s) || Signed(s)
  {
    hide AllDigits;
  }

  lemma BareText(s: string) returns (e: Option<Exponent>)
    requires Bare(s)
    ensures ProperExponent(e) && ExponentText(e) == s
  {
    AreDigits(s[1..]);
    hide AllDigits, Decimals;
    e := Some(Exponent(s[0], "", s[1..]));
    assert s == [s[0]] + s[1..];
  }

  lemma SignedText(s: string) returns (e: Option<Exponent>)
    requires Signed(s)
    ensures ProperExponent(e) && ExponentText(e) == s
  {
    AreDigits(s[2..]);
    hide AllDigits, Decimals;
    e := Some(Exponent(s[0], [s[1]], s[2..]));
    assert s == [s[0]] + [s[1]] + s[2..];
  }

  lemma TextIsExponent(e: Exponent)
    requires ProperExponent(Some(e))
    ensures Bare(ExponentText(Some(e))) || Signed(ExponentText(Some(e)))
  {
    AreDigits(e.digits);
    hide AllDigits, Decimals;
    var s := ExponentText(Some(e));
    assert s[0] == e.mark;
    if e.sign == "" {
      assert s[1..] == e.digits;
    } else {
      assert s[1] == e.sign[0] && s[2..] == e.digits;
    }
  }

  lemma ExponentIff(s: string)
    ensures IsExponent(s) <==> exists e: Option<Exponent> :: ProperExponent(e) && ExponentText(e) == s
  {
    ExponentShapes(s);
    hide IsExponent, Bare, Signed;
    if s == "" {
      assert ProperExponent(None) && ExponentText(None) == s;
    } else if Bare(s) {
      var e := BareText(s);
    } else if Signed(s) {
      var e := SignedText(s);
    } else if e: Option<Exponent> :| ProperExponent(e) && ExponentText(e) == s && e.Some? {
      TextIsExponent(e.value);
    }
  }

  // --- the tokens ------------------------------------------------------------

  /** A token is taken for a number exactly when it is the text of a JSON numeral. */
  lemma NumberIff(token: string)
    ensures IsNumber(token) <==> exists n: Numeral :: Proper(n) && Print(n) == token
  {
    hide IsSignedInt, IsFraction, IsExponent, WholeText, FractionText, ExponentText;
    if IsNumber(token) {
      var i, j :| 0 <= i <= j <= |token| && IsSignedInt(token[..i]) && IsFraction(token[i..j])
        && IsExponent(token[j..]);
      WholeIff(token[..i]);
      FractionIff(token[i..j]);
      ExponentIff(token[j..]);
      var negative: bool, whole: nat :| WholeText(negative, whole) == token[..i];
      var f: Option<Digits> :| FractionText(f) == token[i..j];
      var e: Option<Exponent> :| ProperExponent(e) && ExponentText(e) == token[j..];
      var n := Numeral(negative, whole, f, e);
      assert token == token[..i] + token[i..j] + token[j..];
      assert Proper(n) && Print(n) == token;
    }
    if n: Numeral :| Proper(n) && Print(n) == token {
      var a, b, c := WholeText(n.negative, n.whole), FractionText(n.fraction), ExponentText(n.exponent);
      WholeIff(a);
      FractionIff(b);
      assert ProperExponent(n.exponent);
      ExponentIff(c);
      var i, j := |a|, |a| + |b|;
      assert token[..i] == a && token[i..j] == b && token[j..] == c;
    }
  }

  /** A bare token is left as it is exactly when it is true, false, null or a JSON number. */
  lemma JsonIff(token: string)
    ensures IsJson(token) <==>
      token == "true" || token == "false" || token == "null" || exists n: Numeral :: Proper(n) && Print(n) == token
  {
    NumberIff(token);
    hide IsNumber, Print, Proper;
  }

  // --- the pattern -----------------------------------------------------------

  /** The pattern's classes. A token is of letters, digits, underscores, dots and hyphens, and begins
      with neither of the last two; it ends the value at a comma or a closing bracket. */
  lemma PatternClasses(c: char)
    ensures IsTokenStart(c) <==> c in UPPER || c in LOWER || c in "0123456789" || c == '_'
    ensures IsTokenChar(c) <==> IsTokenStart(c) || c in {'.', '-'}
    ensures IsTerminator(c) <==> c in {',', '}', ']'}
  {
    UpperCase(c);
    LowerCase(c);
    DigitIs(c);
  }

  const UPPER := "ABCDEFGHIJKLMNOPQRSTUVWXYZ"
  const LOWER := "abcdefghijklmnopqrstuvwxyz"

  /** The white space of Unicode, as Python counts it. */
  function Whites(): set<char> {
    { ' ', '\t', '\n', '\U{0B}', '\U{0C}', '\r', '\U{1C}', '\U{1D}', '\U{1E}', '\U{1F}', '\U{85}', '\U{A0}',
      '\U{1680}', '\U{2000}', '\U{2001}', '\U{2002}', '\U{2003}', '\U{2004}', '\U{2005}', '\U{2006}', '\U{2007}',
      '\U{2008}', '\U{2009}', '\U{200A}', '\U{2028}', '\U{2029}', '\U{202F}', '\U{205F}', '\U{3000}' }
  }

  lemma SpaceClass(c: char)
    ensures IsSpace(c) <==> c in Whites()
  {
  }

  lemma UpperCase(c: char)
    ensures c in UPPER <==> 'A' <= c <= 'Z'
  {
  }

  lemma LowerCase(c: char)
    ensures c in LOWER <==> 'a' <= c <= 'z'
  {
  }
}
