/** The decision logic of src/services/aiSentimentService.js: reading the
    model's JSON verdicts on a tweet (anti-national threat, and geographic
    sentiment) with their defaults and error records, and combining the two
    into an overall threat level and an attention flag.  The reply text is
    an input; `JSON.parse` is an input function from text to an optional
    record. */
module AiThreat {
  import opened Wrappers
  import opened JsText

  // ------------------------------------------------------------- JSON values

  /** A scalar JSON value, as a field of the parsed object may hold it. */
  datatype JsonScalar = JNull | JBool(b: bool) | JNum(n: real) | JStr(s: string)

  /** JavaScript truthiness of a present field. */
  predicate Truthy(v: JsonScalar) {
    match v
    case JNull => false
    case JBool(b) => b
    case JNum(n) => n != 0.0
    case JStr(s) => s != []
  }

  /** `field || otherwise` for a string field (absent or empty: the default). */
  function StrOr(field: Option<string>, otherwise: string): (r: string)
    ensures r == otherwise || (field.Some? && r == field.value && r != [])
    ensures otherwise != [] ==> r != []
  {
    if field.Some? && field.value != [] then field.value else otherwise
  }

  /** A JavaScript number value as `Number` produces it from text. */
  datatype JsNumber = NaN | PosInfinity | NegInfinity | Finite(x: real)

  /** Unary minus on a number that is not NaN. */
  function Negate(n: JsNumber): JsNumber {
    match n
    case NaN => NaN
    case PosInfinity => NegInfinity
    case NegInfinity => PosInfinity
    case Finite(x) => Finite(-x)
  }

  /** Ten to an integer power. */
  function Pow10(e: int): (r: real)
    ensures r > 0.0
    decreases if e < 0 then -e else e
  {
    if e == 0 then 1.0 else if e > 0 then 10.0 * Pow10(e - 1) else Pow10(e + 1) / 10.0
  }

  /** `m` times ten to the power `e`. */
  function Scale(m: real, e: int): (r: real)
    ensures m >= 0.0 ==> r >= 0.0
  {
    m * Pow10(e)
  }

  /** The value of a digit character in any radix up to 36: `0`-`9`, then
      `a`/`A` for 10 up to `z`/`Z` for 35; any other character is 36, a
      digit in no radix. */
  function DigitValue(c: char): nat {
    if '0' <= c <= '9' then c as nat - '0' as nat
    else if 'a' <= c <= 'z' then c as nat - 'a' as nat + 10
    else if 'A' <= c <= 'Z' then c as nat - 'A' as nat + 10
    else 36
  }

  predicate RadixDigits(s: string, radix: nat) {
    forall i :: 0 <= i < |s| ==> DigitValue(s[i]) < radix
  }

  /** The value of a digit string in the given radix, most significant first. */
  function RadixValue(s: string, radix: nat): nat
    requires RadixDigits(s, radix)
  {
    if s == [] then 0 else RadixValue(s[..|s| - 1], radix) * radix + DigitValue(s[|s| - 1])
  }

  /** Decimal digit strings have the same value here as in `DigitsValue`. */
  lemma {:induction false} DecimalRadix(s: string)
    requires forall i :: 0 <= i < |s| ==> IsDigit(s[i])
    ensures RadixDigits(s, 10) && RadixValue(s, 10) == DigitsValue(s)
  {
    if s != [] {
      DecimalRadix(s[..|s| - 1]);
    }
  }

  /** The exponent after `e` or `E`: an optional sign and at least one
      decimal digit. */
  function Exponent(s: string): (r: Option<int>)
    ensures s != [] && RadixDigits(s, 10) ==> r == Some(RadixValue(s, 10))
    ensures |s| > 1 && s[0] == '-' && RadixDigits(s[1..], 10) ==> r == Some(-(RadixValue(s[1..], 10) as int))
    ensures r.None? ==> s == [] || !RadixDigits(s, 10)
  {
    var signed := s != [] && (s[0] == '+' || s[0] == '-');
    var digits := if signed then s[1..] else s;
    if digits != [] && RadixDigits(digits, 10) then
      var e: int := RadixValue(digits, 10);
      Some(if signed && s[0] == '-' then -e else e)
    else None
  }

  /** A decimal mantissa: digits, or digits with a point and more digits,
      with at least one digit in all. */
  /** The value of a decimal fraction: the whole digits' value plus the
      fraction digits' value over ten to the number of fraction digits. */
  function Decimal(whole: nat, fraction: nat, places: nat): (r: real)
    ensures r >= 0.0
  {
    var d := Pow10(places);
    assert fraction as real / d >= 0.0;
    whole as real + fraction as real / d
  }

  function Mantissa(s: string): (r: Option<real>)
    ensures r.Some? ==> r.value >= 0.0
    ensures s != [] && RadixDigits(s, 10) ==> r == Some(RadixValue(s, 10) as real)
  {
    match FirstOf(s, '.')
    case None =>
      if s != [] && RadixDigits(s, 10) then Some(RadixValue(s, 10) as real) else None
    case Some(k) =>
      var whole, fraction := s[..k], s[k + 1..];
      if (whole != [] || fraction != []) && RadixDigits(whole, 10) && RadixDigits(fraction, 10) then
        Some(Decimal(RadixValue(whole, 10), RadixValue(fraction, 10), |fraction|))
      else None
  }

  /** The index of the exponent mark, `e` first. */
  function ExponentMark(s: string): (r: Option<nat>)
    ensures r.Some? ==> r.value < |s| && s[r.value] in "eE"
    ensures r.None? <==> 'e' !in s && 'E' !in s
  {
    var k := FirstOf(s, 'e');
    if k.Some? then k else FirstOf(s, 'E')
  }

  /** An unsigned decimal literal of the StringToNumber grammar:
      `Infinity`, or a mantissa with an optional exponent part; `None`
      when the text is not one. */
  function UnsignedDecimal(s: string): (r: Option<JsNumber>)
    ensures r.Some? ==> r.value.PosInfinity? || (r.value.Finite? && r.value.x >= 0.0)
  {
    if s == "Infinity" then Some(PosInfinity)
    else
      match ExponentMark(s)
      case None =>
        if Mantissa(s).Some? then Some(Finite(Mantissa(s).value)) else None
      case Some(k) =>
        var m, e := Mantissa(s[..k]), Exponent(s[k + 1..]);
        if m.Some? && e.Some? then Some(Finite(Scale(m.value, e.value))) else None
  }

  /** `Number(s)` for a string, following the StringToNumber grammar of
      ECMAScript: surrounding whitespace is ignored, blank text is 0, a
      `0x`/`0o`/`0b` prefix reads hexadecimal, octal or binary digits,
      and otherwise an optionally signed decimal literal with fraction and
      exponent, or `Infinity`; anything else is NaN. */
  function TextNumber(s: string): (r: JsNumber)
    ensures Trim(s) == [] ==> r == Finite(0.0)
    ensures r.NaN? ==> Trim(s) != [] && !AllDigits(Trim(s))
  {
    var w := Trim(s);
    if w == [] then Finite(0.0)
    else if |w| > 2 && w[0] == '0' && w[1] in "xXoObB" then
      var radix := if w[1] in "xX" then 16 else if w[1] in "oO" then 8 else 2;
      if RadixDigits(w[2..], radix) then Finite(RadixValue(w[2..], radix) as real) else NaN
    else if w[0] == '+' || w[0] == '-' then
      match UnsignedDecimal(w[1..])
      case None => NaN
      case Some(n) => if w[0] == '-' then Negate(n) else n
    else UnsignedDecimal(w).GetOr(NaN)
  }

  /** Text of decimal digits, whitespace aside, is read as its value. */
  lemma TextNumberOfDigits(s: string)
    requires AllDigits(Trim(s))
    ensures TextNumber(s) == Finite(DigitsValue(Trim(s)) as real)
  {
    var w := Trim(s);
    DecimalRadix(w);
    assert IsDigit(w[0]);
    forall i | 0 <= i < |w|
      ensures w[i] != 'e' && w[i] != 'E' && w[i] != '.'
    {
      assert IsDigit(w[i]);
    }
  }

  /** Text that begins with a decimal digit and ends with no whitespace is
      read as an unsigned decimal literal. */
  lemma DecimalText(s: string)
    requires s != [] && IsDigit(s[0]) && !IsJsSpace(s[|s| - 1]) && (|s| > 1 ==> s[1] !in "xXoObB")
    ensures TextNumber(s) == UnsignedDecimal(s).GetOr(NaN)
  {
    TrimOfTrimmed(s);
  }

  /** Without an exponent mark, an unsigned decimal literal is its mantissa. */
  lemma MantissaOnly(s: string)
    requires s != [] && IsDigit(s[0]) && 'e' !in s && 'E' !in s
    ensures UnsignedDecimal(s) == if Mantissa(s).Some? then Some(Finite(Mantissa(s).value)) else None
  {
    assert s != "Infinity" by {
      assert IsDigit(s[0]);
    }
  }

  /** Digits, a point and digits: the decimal fraction they spell. */
  lemma {:induction false} FractionMantissa(whole: string, fraction: string)
    requires (forall i :: 0 <= i < |whole| ==> IsDigit(whole[i])) && (forall i :: 0 <= i < |fraction| ==> IsDigit(fraction[i]))
    requires whole != [] || fraction != []
    ensures Mantissa(whole + "." + fraction) ==
            Some(Decimal(DigitsValue(whole), DigitsValue(fraction), |fraction|))
  {
    var s := whole + "." + fraction;
    assert '.' !in whole by {
      forall i | 0 <= i < |whole| ensures whole[i] != '.' {
        assert IsDigit(whole[i]);
      }
    }
    assert s == whole + ("." + fraction);
    FirstAfter(whole, "." + fraction, '.');
    PointSplit(whole, fraction);
    DecimalRadix(whole);
    DecimalRadix(fraction);
    MantissaAt(s, whole, fraction);
  }

  lemma PointSplit(whole: string, fraction: string)
    ensures var s := whole + "." + fraction;
      s[..|whole|] == whole && s[|whole| + 1..] == fraction
  {
  }

  /** `Mantissa` of digits, a first point and digits. */
  lemma MantissaAt(s: string, whole: string, fraction: string)
    requires FirstOf(s, '.') == Some(|whole|) && s[..|whole|] == whole && s[|whole| + 1..] == fraction
    requires (whole != [] || fraction != []) && RadixDigits(whole, 10) && RadixDigits(fraction, 10)
    ensures Mantissa(s) == Some(Decimal(RadixValue(whole, 10), RadixValue(fraction, 10), |fraction|))
  {
  }

  /** Digits, a point and digits are read by `Number` as the decimal
      fraction they spell. */
  lemma {:induction false} FractionText(whole: string, fraction: string)
    requires AllDigits(whole) && forall i :: 0 <= i < |fraction| ==> IsDigit(fraction[i])
    ensures TextNumber(whole + "." + fraction) ==
            Finite(Decimal(DigitsValue(whole), DigitsValue(fraction), |fraction|))
  {
    var s := whole + "." + fraction;
    assert s[0] == whole[0] && IsDigit(whole[0]);
    assert |s| > 1 ==> s[1] !in "xXoObB" by {
      if |whole| > 1 {
        assert s[1] == whole[1] && IsDigit(whole[1]);
      }
    }
    assert s[|s| - 1] == '.' || IsDigit(s[|s| - 1]) by {
      if fraction != [] {
        assert s[|s| - 1] == fraction[|fraction| - 1];
      }
    }
    forall i | 0 <= i < |s|
      ensures s[i] != 'e' && s[i] != 'E'
    {
      if i < |whole| {
        assert s[i] == whole[i] && IsDigit(whole[i]);
      } else if i > |whole| {
        assert s[i] == fraction[i - |whole| - 1];
        assert IsDigit(fraction[i - |whole| - 1]);
      }
    }
    DecimalText(s);
    MantissaOnly(s);
    FractionMantissa(whole, fraction);
  }

  /** Digits, an exponent mark and digits: the digits scaled by that power
      of ten. */
  lemma {:induction false} ExponentLiteral(digits: string, exponent: string)
    requires AllDigits(digits) && AllDigits(exponent)
    ensures UnsignedDecimal(digits + "e" + exponent) == Some(Finite(Scale(DigitsValue(digits) as real, DigitsValue(exponent))))
  {
    var s := digits + "e" + exponent;
    assert s != "Infinity" by {
      assert s[0] == digits[0] && IsDigit(digits[0]);
    }
    assert 'e' !in digits && '.' !in digits by {
      forall i | 0 <= i < |digits| ensures digits[i] != 'e' && digits[i] != '.' {
        assert IsDigit(digits[i]);
      }
    }
    assert s == digits + ("e" + exponent);
    FirstAfter(digits, "e" + exponent, 'e');
    assert s[..|digits|] == digits && s[|digits| + 1..] == exponent;
    DecimalRadix(digits);
    DecimalRadix(exponent);
    assert Mantissa(digits) == Some(DigitsValue(digits) as real);
    assert Exponent(exponent) == Some(DigitsValue(exponent));
    UnsignedAtMark(s, |digits|);
  }

  /** A literal with an exponent mark is its mantissa scaled by its exponent. */
  lemma UnsignedAtMark(s: string, k: nat)
    requires s != "Infinity" && ExponentMark(s) == Some(k)
    requires Mantissa(s[..k]).Some? && Exponent(s[k + 1..]).Some?
    ensures UnsignedDecimal(s) == Some(Finite(Scale(Mantissa(s[..k]).value, Exponent(s[k + 1..]).value)))
  {
  }

  /** Digits, an exponent mark and digits are read by `Number` as the
      digits scaled by that power of ten. */
  lemma {:induction false} ExponentNumberText(digits: string, exponent: string)
    requires AllDigits(digits) && AllDigits(exponent)
    ensures TextNumber(digits + "e" + exponent) == Finite(Scale(DigitsValue(digits) as real, DigitsValue(exponent)))
  {
    var s := digits + "e" + exponent;
    assert s[0] == digits[0] && IsDigit(digits[0]);
    assert |s| > 1 ==> s[1] !in "xXoObB" by {
      if |digits| > 1 {
        assert s[1] == digits[1] && IsDigit(digits[1]);
      }
    }
    assert s[|s| - 1] == exponent[|exponent| - 1] && IsDigit(exponent[|exponent| - 1]);
    DecimalText(s);
    ExponentLiteral(digits, exponent);
  }

  /** A character absent from `p` is first found in `p + q` where it is
      first found in `q`, shifted by `|p|`. */
  lemma FirstAfter(p: string, q: string, c: char)
    requires c !in p && q != [] && q[0] == c
    ensures FirstOf(p + q, c) == Some(|p|)
  {
    var s := p + q;
    assert s[|p|] == c && s[..|p|] == p;
  }

  /** Example: a decimal fraction. */
  lemma DecimalFractionText()
    ensures TextNumber("85.5") == Finite(85.5)
  {
    FractionText("85", "5");
    FractionSpelled();
  }

  lemma FractionSpelled()
    ensures "85" + "." + "5" == "85.5"
    ensures Decimal(DigitsValue("85"), DigitsValue("5"), |"5"|) == 85.5
  {
    assert "85"[..1] == "8" && "8"[..0] == [] && "5"[..0] == [];
    assert DigitsValue("8") == 8;
    assert DigitsValue("85") == 85;
    assert DigitsValue("5") == 5;
    assert Pow10(1) == 10.0 * Pow10(0) == 10.0;
  }

  /** Example: an exponent. */
  lemma ExponentText()
    ensures TextNumber("1e2") == Finite(100.0)
  {
    ExponentNumberText("1", "2");
    ExponentSpelled();
  }

  lemma ExponentSpelled()
    ensures "1" + "e" + "2" == "1e2"
    ensures Scale(DigitsValue("1") as real, DigitsValue("2")) == 100.0
  {
    assert DigitsValue("1") == 1 && DigitsValue("2") == 2 && Pow10(2) == 100.0;
  }

  /** A leading minus sign negates, with surrounding whitespace ignored. */
  lemma SignedText()
    ensures TextNumber(" -3 ") == Finite(-3.0)
  {
    assert Trim(" -3 ") == "-3";
    assert "-3"[1..] == "3";
  }

  /** A `0x` prefix reads hexadecimal digits. */
  lemma HexText()
    ensures TextNumber("0x10") == Finite(16.0)
  {
    assert Trim("0x10") == "0x10";
    assert "0x10"[2..] == "10";
    assert RadixValue("10", 16) == 16;
  }

  /** `Infinity` may be signed. */
  lemma InfinityText()
    ensures TextNumber("-Infinity") == NegInfinity
  {
    assert Trim("-Infinity") == "-Infinity";
    assert "-Infinity"[1..] == "Infinity";
  }

  /** A word is not a numeral. */
  lemma WordText()
    ensures TextNumber("high") == NaN
  {
    var w := "high";
    TrimOfTrimmed(w);
    assert ExponentMark(w).None?;
    assert Mantissa(w).None?;
    assert UnsignedDecimal(w).None?;
  }

  /** Decimal formatting and `Number` are inverse on naturals. */
  lemma NumberOfNatText(n: nat)
    ensures TextNumber(NatToString(n)) == Finite(n as real)
  {
    var s := NatToString(n);
    assert JsTrimmed(s) by {
      assert IsDigit(s[0]) && IsDigit(s[|s| - 1]);
    }
    TrimOfTrimmed(s);
    TextNumberOfDigits(s);
  }

  /** `Math.min(Math.max(field || 0, 0), 100)` as written: `None` is NaN,
      which both `Math.max` and `Math.min` pass on; the infinities clamp
      to the bounds. */
  function ConfidenceAsWritten(field: Option<JsonScalar>): (r: Option<real>)
    ensures r.Some? ==> 0.0 <= r.value <= 100.0
    ensures field.None? || !Truthy(field.value) ==> r == Some(0.0)
    ensures field.Some? && field.value.JNum? ==> r.Some?
    ensures field.Some? && field.value.JStr? && Truthy(field.value) ==> (r.None? <==> TextNumber(field.value.s).NaN?)
  {
    var n: JsNumber :=
      if field.None? || !Truthy(field.value) then Finite(0.0)
      else match field.value
        case JBool(_) => Finite(1.0)
        case JNum(x) => Finite(x)
        case JStr(s) => TextNumber(s)
        case JNull => Finite(0.0);
    match n
    case NaN => None
    case PosInfinity => Some(100.0)
    case NegInfinity => Some(0.0)
    case Finite(x) =>
      var low := if x > 0.0 then x else 0.0;
      Some(if low < 100.0 then low else 100.0)
  }

  /** A confidence given as decimal text is read as its number. */
  lemma ConfidenceOfDecimalText()
    ensures ConfidenceAsWritten(Some(JStr("85.5"))) == Some(85.5)
  {
    DecimalFractionText();
  }

  /** A confidence the model writes as a word is not clamped: it is NaN. */
  lemma ConfidenceWordIsNaN()
    ensures ConfidenceAsWritten(Some(JStr("high"))) == None
  {
    WordText();
  }

  /** The clamp as intended: always a number in [0, 100], NaN read as 0, and
      the same number as the code whenever the code yields one. */
  function Confidence(field: Option<JsonScalar>): (r: real)
    ensures 0.0 <= r <= 100.0
    ensures ConfidenceAsWritten(field).Some? ==> r == ConfidenceAsWritten(field).value
    ensures ConfidenceAsWritten(field).None? ==> r == 0.0
  {
    ConfidenceAsWritten(field).GetOr(0.0)
  }

  /** A number inside the range is kept; outside it, the nearer bound. */
  lemma ConfidenceClamps(x: real)
    ensures 0.0 <= x <= 100.0 ==> Confidence(Some(JNum(x))) == x
    ensures x < 0.0 ==> Confidence(Some(JNum(x))) == 0.0
    ensures x > 100.0 ==> Confidence(Some(JNum(x))) == 100.0
  {
  }

  // ----------------------------------------------------------- reply reading

  /** The index of the first `c` in `s`. */
  function FirstOf(s: string, c: char): (r: Option<nat>)
    ensures r.Some? ==> r.value < |s| && s[r.value] == c && c !in s[..r.value]
    ensures r.None? <==> c !in s
    decreases |s|
  {
    if s == [] then None
    else if s[0] == c then
      assert s[..0] == [];
      Some(0)
    else
      var r := FirstOf(s[1..], c);
      assert s == [s[0]] + s[1..];
      if r.Some? then
        assert s[..r.value + 1] == [s[0]] + s[1..][..r.value];
        Some(r.value + 1)
      else None
  }

  /** The index of the last `c` in `s`. */
  function LastOf(s: string, c: char): (r: Option<nat>)
    ensures r.Some? ==> r.value < |s| && s[r.value] == c && c !in s[r.value + 1..]
    ensures r.None? <==> c !in s
    decreases |s|
  {
    if s == [] then None
    else if s[|s| - 1] == c then
      assert s[|s|..] == [];
      Some(|s| - 1)
    else
      var r := LastOf(s[..|s| - 1], c);
      assert s == s[..|s| - 1] + [s[|s| - 1]];
      if r.Some? then
        assert s[r.value + 1..] == s[..|s| - 1][r.value + 1..] + [s[|s| - 1]];
        r
      else r
  }

  /** `reply.match(/\{[\s\S]*\}/)`: from the first `{` to the last `}`
      after it. */
  function JsonText(reply: string): (r: Option<string>)
    ensures r.Some? ==> |r.value| >= 2 && r.value[0] == '{' && r.value[|r.value| - 1] == '}'
    ensures r.None? <==> ('{' !in reply || forall j :: FirstOf(reply, '{').value < j < |reply| ==> reply[j] != '}')
  {
    match FirstOf(reply, '{')
    case None => None
    case Some(i) =>
      match LastOf(reply, '}')
      case None => None
      case Some(j) =>
        if j > i then Some(reply[i..j + 1])
        else
          assert forall k :: i < k < |reply| ==> reply[k] != '}' by {
            forall k | i < k < |reply| ensures reply[k] != '}' {
              assert reply[j + 1..][k - j - 1] == reply[k];
            }
          }
          None
  }

  /** The braces of a reply that wraps a JSON object in prose delimit
      exactly that object. */
  lemma JsonTextOfWrapped(before: string, body: string, after: string)
    requires '{' !in before && '}' !in after && '{' !in body
    ensures JsonText(before + ("{" + body + "}") + after) == Some("{" + body + "}")
  {
    var reply := before + ("{" + body + "}") + after;
    var b := |before|;
    assert reply[b] == '{' && '{' !in reply[..b] by {
      assert reply[..b] == before;
    }
    var e := b + |body| + 1;
    assert reply[e] == '}' && '}' !in reply[e + 1..] by {
      assert reply[e + 1..] == after;
    }
    assert reply[b..e + 1] == "{" + body + "}";
  }

  // ---------------------------------------------------- anti-national verdict

  /** The fields of the parsed anti-national verdict; `None`: absent. */
  datatype RawThreat = RawThreat(isAntiNational: Option<JsonScalar>, severity: Option<string>,
                                 confidence: Option<JsonScalar>, threats: Option<seq<string>>,
                                 reasoning: Option<string>, recommendedAction: Option<string>)

  /** The anti-national verdict handed on; the error records have no
      recommended action. */
  datatype ThreatReport = ThreatReport(isAntiNational: bool, severity: string, confidence: real,
                                       threats: seq<string>, reasoning: string,
                                       recommendedAction: Option<string>)

  function ThreatFailure(reasoning: string): ThreatReport {
    ThreatReport(false, "UNKNOWN", 0.0, [], reasoning, None)
  }

  /** `parseAntiNationalResponse`.  `parse` is `JSON.parse`: the object's
      fields, or the error message. */
  function ParseThreat(reply: string, parse: string -> Result<RawThreat, string>): (r: ThreatReport)
    ensures 0.0 <= r.confidence <= 100.0 && r.severity != []
    ensures JsonText(reply).None? ==> r == ThreatFailure("Parse error: No JSON found in AI response")
    ensures JsonText(reply).Some? && parse(JsonText(reply).value).Failure? ==>
      r == ThreatFailure("Parse error: " + parse(JsonText(reply).value).error)
    ensures r.recommendedAction.None? <==> JsonText(reply).None? || parse(JsonText(reply).value).Failure?
  {
    match JsonText(reply)
    case None => ThreatFailure("Parse error: No JSON found in AI response")
    case Some(text) =>
      match parse(text)
      case Failure(message) => ThreatFailure("Parse error: " + message)
      case Success(a) =>
        ThreatReport(a.isAntiNational.Some? && Truthy(a.isAntiNational.value),
                     StrOr(a.severity, "NONE"), Confidence(a.confidence), a.threats.GetOr([]),
                     StrOr(a.reasoning, "No reasoning provided"), Some(StrOr(a.recommendedAction, "no_action")))
  }

  /** A parsed object with none of the fields reads as "not anti-national,
      no severity, nothing to do". */
  lemma EmptyVerdictDefaults(reply: string, parse: string -> Result<RawThreat, string>)
    requires JsonText(reply).Some?
    requires parse(JsonText(reply).value) == Success(RawThreat(None, None, None, None, None, None))
    ensures ParseThreat(reply, parse) == ThreatReport(false, "NONE", 0.0, [], "No reasoning provided", Some("no_action"))
  {
  }

  /** `analyzeAntiNationalSentiment`: `None` is a failed request.  Only a
      reply holding a readable JSON object yields a verdict with a
      recommended action; every other outcome is a record that is not
      anti-national, has severity UNKNOWN, confidence 0 and no threats. */
  function AnalyzeThreat(reply: Option<string>, parse: string -> Result<RawThreat, string>): (r: ThreatReport)
    ensures 0.0 <= r.confidence <= 100.0 && r.severity != []
    ensures r.recommendedAction.Some? <==>
      reply.Some? && JsonText(reply.value).Some? && parse(JsonText(reply.value).value).Success?
    ensures r.recommendedAction.None? ==>
      !r.isAntiNational && r.severity == "UNKNOWN" && r.confidence == 0.0 && r.threats == []
    ensures reply.None? ==> r.reasoning == "AI analysis failed"
    ensures r.recommendedAction.Some? ==> r.recommendedAction.value != []
  {
    if reply.None? then ThreatFailure("AI analysis failed") else ParseThreat(reply.value, parse)
  }

  // -------------------------------------------------------- geo sentiment

  /** The fields of the parsed geographic verdict; `None`: absent. */
  datatype RawGeo = RawGeo(sentiment: Option<string>, confidence: Option<JsonScalar>, district: Option<string>,
                           districtsMentioned: Option<seq<string>>, intensity: Option<string>, reasoning: Option<string>)

  /** The geographic verdict handed on. */
  datatype GeoReport = GeoReport(sentiment: string, confidence: real, district: Option<string>,
                                 districtsMentioned: seq<string>, intensity: string, reasoning: string)

  function GeoFailure(reasoning: string): GeoReport {
    GeoReport("neutral", 0.0, None, [], "neutral", reasoning)
  }

  /** `parseGeoSentimentResponse`. */
  function ParseGeo(reply: string, parse: string -> Result<RawGeo, string>): (r: GeoReport)
    ensures 0.0 <= r.confidence <= 100.0 && r.sentiment != []
    ensures JsonText(reply).None? ==> r.sentiment == "neutral" && r.confidence == 0.0 && r.district.None?
    ensures JsonText(reply).Some? && parse(JsonText(reply).value).Failure? ==>
      r.sentiment == "neutral" && r.confidence == 0.0 && r.district.None?
    ensures JsonText(reply).Some? && parse(JsonText(reply).value).Success? ==>
      r.district == parse(JsonText(reply).value).value.district
  {
    match JsonText(reply)
    case None => GeoFailure("Parse error: No JSON found in AI response")
    case Some(text) =>
      match parse(text)
      case Failure(message) => GeoFailure("Parse error: " + message)
      case Success(a) =>
        GeoReport(StrOr(a.sentiment, "neutral"), Confidence(a.confidence), a.district,
                  a.districtsMentioned.GetOr([]), StrOr(a.intensity, "neutral"),
                  StrOr(a.reasoning, "No reasoning provided"))
  }

  /** `analyzeGeoSentiment`: `None` is a failed request. */
  function AnalyzeGeo(reply: Option<string>, parse: string -> Result<RawGeo, string>): (r: GeoReport)
    ensures reply.None? ==> r.sentiment == "neutral" && r.confidence == 0.0 && r.district.None?
    ensures reply.Some? ==> r == ParseGeo(reply.value, parse)
  {
    if reply.None? then GeoFailure("AI analysis failed") else ParseGeo(reply.value, parse)
  }

  // ---------------------------------------------------------- the decisions

  /** `calculateOverallThreatLevel`: the first rule that applies, in order. */
  function ThreatLevel(threat: ThreatReport, geo: GeoReport): (r: string)
    ensures r in {"CRITICAL", "HIGH", "MEDIUM", "LOW", "NONE"}
    ensures r == "CRITICAL" <==> threat.severity == "CRITICAL"
    ensures r == "HIGH" <==> threat.severity == "HIGH"
    ensures r == "MEDIUM" <==> threat.severity == "MEDIUM"
    ensures r == "LOW" <==>
      threat.severity !in {"CRITICAL", "HIGH", "MEDIUM"} && geo.sentiment == "negative" && geo.confidence > 80.0
  {
    if threat.severity == "CRITICAL" then "CRITICAL"
    else if threat.severity == "HIGH" then "HIGH"
    else if threat.severity == "MEDIUM" then "MEDIUM"
    else if geo.sentiment == "negative" && geo.confidence > 80.0 then "LOW"
    else "NONE"
  }

  /** `requiresAttention`: every level the severity raises needs
      attention, and so does an anti-national verdict, a failed analysis
      (severity UNKNOWN) or any other severity but NONE; without these, only a negative sentiment held
      with confidence above 90 does, so no attention leaves the level at
      LOW or NONE. */
  function RequiresAttention(threat: ThreatReport, geo: GeoReport): (r: bool)
    ensures ThreatLevel(threat, geo) in {"CRITICAL", "HIGH", "MEDIUM"} ==> r
    ensures threat.isAntiNational || threat.severity == "UNKNOWN" ==> r
    ensures threat.severity != "NONE" ==> r
    ensures !threat.isAntiNational && threat.severity == "NONE" ==>
      (r <==> geo.sentiment == "negative" && geo.confidence > 90.0)
    ensures !r ==> ThreatLevel(threat, geo) in {"LOW", "NONE"}
  {
    threat.isAntiNational || threat.severity != "NONE" || (geo.sentiment == "negative" && geo.confidence > 90.0)
  }

  /** A LOW severity from the verdict alone is no threat level at all, yet
      it needs attention. */
  lemma LowSeverityAlone(threat: ThreatReport, geo: GeoReport)
    requires threat.severity == "LOW" && geo.sentiment != "negative"
    ensures ThreatLevel(threat, geo) == "NONE" && RequiresAttention(threat, geo)
  {
  }

  /** Level LOW without attention: no severity, and a negative sentiment
      held with confidence above 80 but not above 90. */
  lemma LowWithoutAttention(threat: ThreatReport, geo: GeoReport)
    requires !threat.isAntiNational && threat.severity == "NONE"
    requires geo.sentiment == "negative" && 80.0 < geo.confidence <= 90.0
    ensures ThreatLevel(threat, geo) == "LOW" && !RequiresAttention(threat, geo)
  {
  }

  /** A failed or unreadable anti-national analysis has severity UNKNOWN,
      so it always needs attention, though its level depends on the
      geographic verdict alone. */
  lemma FailureNeedsAttention(reply: Option<string>, parse: string -> Result<RawThreat, string>, geo: GeoReport)
    requires AnalyzeThreat(reply, parse).recommendedAction.None?
    ensures RequiresAttention(AnalyzeThreat(reply, parse), geo)
    ensures ThreatLevel(AnalyzeThreat(reply, parse), geo) in {"LOW", "NONE"}
  {
  }
}
