// The grammar of numbers, literals and string contents, as sections 3, 6 and 7 of RFC 8259 give it.
module JsonGrammar {
  import opened Options
  import opened Json
  import Text

  // Numbers

  predicate Digits(s: string) {
    s != "" && forall k :: 0 <= k < |s| ==> 48 <= s[k] as int <= 57
  }

  predicate Fraction(s: string) {
    s == "" || (s[0] == '.' && Digits(s[1..]))
  }

  predicate Exponent(s: string) {
    s == "" || (s[0] in {'e', 'E'} && (Digits(s[1..]) || (|s| > 1 && s[1] in {'+', '-'} && Digits(s[2..]))))
  }

  predicate NumberOf(s: string, minus: string, whole: string, frac: string, exp: string) {
    && s == minus + (whole + (frac + exp)) && minus in {"", "-"}
    && Digits(whole) && (whole[0] == '0' ==> |whole| == 1) && Fraction(frac) && Exponent(exp)
  }

  ghost predicate IsNumber(s: string) {
    exists minus, whole, frac, exp :: NumberOf(s, minus, whole, frac, exp)
  }

  lemma RunSays(digits: string, rest: string)
    requires Digits(digits) && (rest == "" || !Text.IsDigit(rest[0]))
    ensures Text.DigitRun(digits + rest) == |digits| && (digits + rest)[|digits|..] == rest
  {
    Text.DigitRunOf(digits, rest);
  }

  lemma RunDigits(s: string)
    ensures var n := Text.DigitRun(s); n > 0 ==> Digits(s[..n])
  {
    var n := Text.DigitRun(s);
    assert forall k :: 0 <= k < n ==> Text.IsDigit(s[..n][k]);
  }

  lemma AllRun(s: string)
    ensures s != "" && Text.DigitRun(s) == |s| <==> Digits(s)
  {
    RunDigits(s);
    assert s[..|s|] == s;
    if Digits(s) {
      RunSays(s, "");
      assert s + "" == s;
    }
  }

  lemma ExponentSays(s: string)
    ensures ExponentText(s) <==> Exponent(s)
  {
    if s != "" {
      AllRun(s[1..]);
      if |s| > 1 {
        AllRun(s[2..]);
        assert Digits(s[1..]) ==> s[1] == s[1..][0];
      }
    }
  }

  lemma FractionMet(frac: string, exp: string)
    requires Fraction(frac) && Exponent(exp)
    ensures FractionText(frac + exp)
  {
    var s := frac + exp;
    ExponentSays(exp);
    if frac == "" {
      assert s == exp;
    } else {
      assert s[1..] == frac[1..] + exp;
      RunSays(frac[1..], exp);
      assert s[1 + |frac[1..]|..] == exp;
    }
  }

  lemma FractionFound(s: string) returns (frac: string, exp: string)
    requires FractionText(s)
    ensures s == frac + exp && Fraction(frac) && Exponent(exp)
  {
    if s == "" || s[0] != '.' {
      ExponentSays(s);
      frac, exp := "", s;
    } else {
      var n := 1 + Text.DigitRun(s[1..]);
      RunDigits(s[1..]);
      ExponentSays(s[n..]);
      frac, exp := s[..n], s[n..];
      assert frac[1..] == s[1..][..n - 1];
    }
  }

  lemma NumberMet(s: string, minus: string, whole: string, frac: string, exp: string)
    requires NumberOf(s, minus, whole, frac, exp)
    ensures NumberText(s)
  {
    var t, rest := whole + (frac + exp), frac + exp;
    assert t[0] == whole[0];
    assert if minus == "" then s == t else s[1..] == t;
    assert rest != "" ==> rest[0] == (if frac != "" then frac[0] else exp[0]);
    RunSays(whole, rest);
    FractionMet(frac, exp);
    hide FractionText;
  }

  lemma NumberFound(s: string)
    requires NumberText(s)
    ensures IsNumber(s)
  {
    var minus := if s != "" && s[0] == '-' then "-" else "";
    var t := s[|minus|..];
    var n := Text.DigitRun(t);
    RunDigits(t);
    var frac, exp := FractionFound(t[n..]);
    hide FractionText;
    assert s == minus + (t[..n] + (frac + exp));
    assert NumberOf(s, minus, t[..n], frac, exp);
  }

  lemma CharsOf(s: string, minus: string, whole: string, frac: string, exp: string)
    requires NumberOf(s, minus, whole, frac, exp)
    ensures forall k :: 0 <= k < |s| ==> ScalarChar(s[k])
  {
    assert forall k :: 0 <= k < |frac| - 1 ==> frac[k + 1] == frac[1..][k];
    FractionChars(frac);
    ExponentChars(exp);
    hide Fraction;
    hide Exponent;
    hide ScalarChar;
    DigitChars(whole);
    var rest := whole + (frac + exp);
    assert forall k :: 0 <= k < |minus| ==> ScalarChar(minus[k]) by { assert ScalarChar('-') by { MinusChar(); } }
    assert forall k :: 0 <= k < |rest| ==> ScalarChar(rest[k]);
  }

  lemma MinusChar()
    ensures ScalarChar('-')
  {
  }

  lemma DigitChars(s: string)
    requires Digits(s)
    ensures forall k :: 0 <= k < |s| ==> ScalarChar(s[k])
  {
  }

  lemma FractionChars(s: string)
    requires Fraction(s)
    ensures forall k :: 0 <= k < |s| ==> ScalarChar(s[k])
  {
    assert forall k :: 0 < k < |s| ==> s[k] == s[1..][k - 1];
  }

  lemma ExponentChars(s: string)
    requires Exponent(s)
    ensures forall k :: 0 <= k < |s| ==> ScalarChar(s[k])
  {
    assert forall k :: 0 < k < |s| ==> s[k] == s[1..][k - 1];
    assert |s| > 1 ==> forall k :: 1 < k < |s| ==> s[k] == s[2..][k - 2];
  }

  /** What stands by itself: `true`, `false`, `null` and the numbers. */
  lemma ScalarSays(s: string)
    ensures ScalarText(s) <==> s in {"true", "false", "null"} || IsNumber(s)
  {
    if NumberText(s) {
      NumberFound(s);
    }
    if IsNumber(s) {
      var minus, whole, frac, exp :| NumberOf(s, minus, whole, frac, exp);
      NumberMet(s, minus, whole, frac, exp);
      CharsOf(s, minus, whole, frac, exp);
    }
    hide NumberText;
  }

  // String contents

  function Hex(c: char): int {
    if 48 <= c as int <= 57 then c as int - 48
    else if 65 <= c as int <= 70 then c as int - 55
    else if 97 <= c as int <= 102 then c as int - 87
    else -1
  }

  /** Some text of a string and the code unit it stands for: itself, an escape, or four hexadecimal digits. */
  predicate StandsFor(piece: string, unit: int) {
    || (|piece| == 1 && piece[0] !in {'\"', '\\'} && 32 <= piece[0] as int == unit)
    || (|piece| == 2 && piece[0] == '\\' && (piece[1], unit) in {
          ('\"', 34), ('\\', 92), ('/', 47), ('b', 8), ('f', 12), ('n', 10), ('r', 13), ('t', 9)
        })
    || (|piece| == 6 && piece[..2] == "\\u" && (forall k :: 2 <= k < 6 ==> Hex(piece[k]) >= 0)
        && unit == Hex(piece[2]) * 4096 + Hex(piece[3]) * 256 + Hex(piece[4]) * 16 + Hex(piece[5]))
  }

  lemma HexSays(c: char)
    ensures HexDigit(c) == if Hex(c) >= 0 then Some(Hex(c)) else None
  {
  }

  /** The units of a string are what its pieces stand for, in order, */
  lemma DecodeSays(piece: string, unit: int, rest: string)
    requires StandsFor(piece, unit)
    ensures Decode(piece + rest) == if Decode(rest).Some? then Some([unit] + Decode(rest).value) else None
  {
    var raw := piece + rest;
    assert raw[|piece|..] == rest;
    assert forall k :: 0 <= k < |piece| ==> raw[k] == piece[k];
    if |piece| == 6 {
      assert piece[..2][0] == piece[0] && piece[..2][1] == piece[1];
      HexSays(piece[2]);
      HexSays(piece[3]);
      HexSays(piece[4]);
      HexSays(piece[5]);
    }
    hide HexDigit;
  }

  /** and there are none where some text stands for nothing. */
  lemma DecodeOnly(raw: string) returns (piece: string, unit: int, rest: string)
    requires raw != "" && Decode(raw).Some?
    ensures raw == piece + rest && StandsFor(piece, unit) && Decode(rest).Some?
  {
    var n := if raw[0] != '\\' then 1 else if raw[1] == 'u' then 6 else 2;
    piece, rest := raw[..n], raw[n..];
    if n == 6 {
      HexSays(raw[2]);
      HexSays(raw[3]);
      HexSays(raw[4]);
      HexSays(raw[5]);
      assert piece[..2] == "\\u";
    }
    unit := Decode(raw).value[0];
    hide HexDigit;
  }
}
