/** `VInput`: the text field. The pure part is the numeric recogniser behind
    the arrow-key step (`parseNumericInput`); the imperative part is the
    value/interaction state and its hand-off to the auto-submit manager.
    The form control's status, the key event and `String(number)` are
    parameters; `onChange`, `onInputChanged` and `onEnterPressed` are logs. */
module Input {
  import opened Common
  import opened Validators
  import opened AutoSubmit

  // ---------------------------------------------------------------------------
  // The numeric literal the recogniser accepts:
  //   [+-]? (digits | digits? '.' digits) '.'?

  datatype Sign = NoSign | Plus | Minus

  /** A literal split into its parts: the sign, the digits before the point,
      the digits after it (when there is a point followed by digits), and
      whether one more `.` ends it. */
  datatype NumericLiteral = NumericLiteral(sign: Sign, whole: string, fraction: Option<string>, trailingDot: bool)

  /** Well formed: digits only, at least one digit before a missing fraction,
      at least one digit in a present fraction. */
  predicate WellFormed(lit: NumericLiteral)
  {
    && AllDigits(lit.whole)
    && (lit.fraction.None? ==> lit.whole != [])
    && (lit.fraction.Some? ==> lit.fraction.value != [] && AllDigits(lit.fraction.value))
  }

  function SignText(sg: Sign): string
  {
    match sg
    case NoSign => ""
    case Plus => "+"
    case Minus => "-"
  }

  /** The text of a literal after its sign. */
  function Body(lit: NumericLiteral): string
  {
    lit.whole
    + (if lit.fraction.Some? then "." + lit.fraction.value else "")
    + (if lit.trailingDot then "." else "")
  }

  /** The text of a literal. */
  function Render(lit: NumericLiteral): string
  {
    SignText(lit.sign) + Body(lit)
  }

  /** The leading digits of `s`, and what follows them. */
  function SplitDigits(s: string): (p: (string, string))
    ensures p.0 + p.1 == s && AllDigits(p.0)
    ensures p.1 != [] ==> !IsDigit(p.1[0])
  {
    var n := LeadingDigits(s);
    assert s[..n] + s[n..] == s;
    (s[..n], s[n..])
  }

  /** Recognises the fraction digits and the optional `.` after a point. */
  function LexFraction(sg: Sign, whole: string, s: string): Option<NumericLiteral>
  {
    var p := SplitDigits(s);
    if p.0 != [] && (p.1 == [] || p.1 == ".") then
      Some(NumericLiteral(sg, whole, Some(p.0), p.1 == "."))
    else None
  }

  /** Recognises the text after the sign. */
  function LexUnsigned(sg: Sign, s: string): Option<NumericLiteral>
  {
    var p := SplitDigits(s);
    if p.1 == [] then
      if p.0 != [] then Some(NumericLiteral(sg, p.0, None, false)) else None
    else if p.1 == "." then
      if p.0 != [] then Some(NumericLiteral(sg, p.0, None, true)) else None
    else if p.1[0] == '.' then LexFraction(sg, p.0, p.1[1..])
    else None
  }

  /** The two regular expressions of `parseNumericInput` together: an
      optional sign, then digits or `digits?.digits`, then an optional `.`. */
  function Lex(s: string): Option<NumericLiteral>
  {
    if s != [] && s[0] == '+' then LexUnsigned(Plus, s[1..])
    else if s != [] && s[0] == '-' then LexUnsigned(Minus, s[1..])
    else LexUnsigned(NoSign, s)
  }

  /** Splitting digits followed by a non-digit gives back exactly those parts. */
  lemma SplitDigitsOf(d: string, t: string)
    requires AllDigits(d) && (t != [] ==> !IsDigit(t[0]))
    ensures SplitDigits(d + t) == (d, t)
  {
    var s := d + t;
    if t == [] {
      assert s == d;
      LeadingDigitsOfDigits(d);
    } else {
      assert s[..|d|] == d;
      LeadingDigitsPrefix(s, |d|);
    }
  }

  /** The body of a well-formed literal is read back as that literal. */
  lemma LexUnsignedBody(lit: NumericLiteral)
    requires WellFormed(lit)
    ensures LexUnsigned(lit.sign, Body(lit)) == Some(lit)
  {
    var dot := if lit.trailingDot then "." else "";
    if lit.fraction.Some? {
      var f := lit.fraction.value;
      var rest := "." + f + dot;
      assert Body(lit) == lit.whole + rest;
      SplitDigitsOf(lit.whole, rest);
      assert rest[1..] == f + dot;
      SplitDigitsOf(f, dot);
    } else {
      assert Body(lit) == lit.whole + dot;
      SplitDigitsOf(lit.whole, dot);
    }
  }

  /** A body never starts with a sign, so the sign is read first and alone. */
  lemma LexSigned(sg: Sign, u: string)
    requires u == [] || (u[0] != '+' && u[0] != '-')
    ensures Lex(SignText(sg) + u) == LexUnsigned(sg, u)
  {
    if sg != NoSign {
      assert (SignText(sg) + u)[1..] == u;
    } else {
      assert SignText(sg) + u == u;
    }
  }

  /** Every well-formed literal is recognised, and read back unchanged. */
  lemma LexRender(lit: NumericLiteral)
    requires WellFormed(lit)
    ensures Lex(Render(lit)) == Some(lit)
  {
    LexUnsignedBody(lit);
    var b := Body(lit);
    if lit.whole != [] {
      assert b[0] == lit.whole[0];
    } else if lit.fraction.Some? {
      assert b[0] == '.';
    }
    LexSigned(lit.sign, b);
  }

  /** What the fraction reader accepts is well formed and spells the text. */
  lemma LexFractionSound(sg: Sign, whole: string, s: string)
    requires AllDigits(whole) && LexFraction(sg, whole, s).Some?
    ensures var lit := LexFraction(sg, whole, s).value;
            WellFormed(lit) && lit.sign == sg && lit.whole == whole && Body(lit) == whole + "." + s
  {
  }

  /** What the unsigned reader accepts is well formed and spells the text. */
  lemma LexUnsignedSound(sg: Sign, s: string)
    requires LexUnsigned(sg, s).Some?
    ensures WellFormed(LexUnsigned(sg, s).value) && LexUnsigned(sg, s).value.sign == sg
    ensures Body(LexUnsigned(sg, s).value) == s
  {
    var p := SplitDigits(s);
    if p.1 != [] && p.1 != "." {
      LexFractionSound(sg, p.0, p.1[1..]);
      assert p.1 == "." + p.1[1..];
    }
  }

  /** Everything recognised is well formed, and is the text of what was read. */
  lemma LexSound(s: string)
    requires Lex(s).Some?
    ensures WellFormed(Lex(s).value) && Render(Lex(s).value) == s
  {
    if s != [] && s[0] == '+' {
      LexUnsignedSound(Plus, s[1..]);
      assert s == "+" + s[1..];
    } else if s != [] && s[0] == '-' {
      LexUnsignedSound(Minus, s[1..]);
      assert s == "-" + s[1..];
    } else {
      LexUnsignedSound(NoSign, s);
    }
  }

  /** The recognised texts never hold a comma. */
  lemma LexRejectsComma(s: string)
    requires ',' in s
    ensures Lex(s) == None
  {
    if Lex(s).Some? {
      LexSound(s);
      var i :| 0 <= i < |s| && s[i] == ',';
      NoCommaInRender(Lex(s).value, i);
    }
  }

  lemma NoCommaInRender(lit: NumericLiteral, i: int)
    requires WellFormed(lit) && 0 <= i < |Render(lit)|
    ensures Render(lit)[i] != ','
  {
    var a := SignText(lit.sign);
    var b := lit.whole;
    var c := if lit.fraction.Some? then "." + lit.fraction.value else "";
    var d := if lit.trailingDot then "." else "";
    assert Render(lit) == a + b + c + d;
    if i < |a| {
    } else if i < |a| + |b| {
      assert Render(lit)[i] == b[i - |a|];
    } else if i < |a| + |b| + |c| {
      assert Render(lit)[i] == c[i - |a| - |b|];
      if i > |a| + |b| {
        assert c[i - |a| - |b|] == lit.fraction.value[i - |a| - |b| - 1];
      }
    } else {
      assert Render(lit)[i] == d[i - |a| - |b| - |c|];
    }
  }

  // ---------------------------------------------------------------------------
  // The value of a literal (`Number(...)` after the trailing `.` is cut off)

  function Pow10(n: nat): (p: nat)
    ensures p >= 1
  {
    if n == 0 then 1 else 10 * Pow10(n - 1)
  }

  /** The value of the digits after a point: `0.d1d2...`. */
  function FractionValue(f: string): (v: real)
    requires AllDigits(f)
    ensures 0.0 <= v
  {
    (DigitsValue(f) as real) / (Pow10(|f|) as real)
  }

  /** The exact value of a literal; a trailing `.` adds nothing. */
  function LiteralValue(lit: NumericLiteral): real
    requires WellFormed(lit)
  {
    var magnitude :=
      (DigitsValue(lit.whole) as real)
      + (if lit.fraction.Some? then FractionValue(lit.fraction.value) else 0.0);
    if lit.sign == Minus then -magnitude else magnitude
  }

  /** What `parseNumericInput` returns on success. */
  datatype ParsedNumber = ParsedNumber(value: real, usesComma: bool)

  /** Whether the trimmed text uses a comma as its decimal separator. */
  function UsesComma(t: string): (b: bool)
    ensures b <==> ',' in t && '.' !in t
  {
    IncludesChar(t, ',');
    IncludesChar(t, '.');
    Includes(t, [',']) && !Includes(t, ['.'])
  }

  /** The text the regular expressions are tested on: the first comma becomes
      a point when the text uses a comma. */
  function Normalize(t: string): (n: string)
    ensures |n| == |t|
    ensures !UsesComma(t) ==> n == t
    ensures UsesComma(t) ==> n == t[FirstIndex(t, ',') := '.']
  {
    if UsesComma(t) then ReplaceFirst(t, ',', '.') else t
  }

  /** `parseNumericInput`: blank text reads as 0; otherwise the normalised
      text must be a literal, whose value is returned with the comma flag. */
  function ParseNumericInput(raw: string): Option<ParsedNumber>
  {
    var t := Trim(raw);
    if t == [] then Some(ParsedNumber(0.0, false))
    else
      match Lex(Normalize(t))
      case None => None
      case Some(lit) =>
        LexSound(Normalize(t));
        Some(ParsedNumber(LiteralValue(lit), UsesComma(t)))
  }

  /** Non-blank text is accepted exactly when, after trimming and the comma
      replacement, it is the text of a well-formed literal; the value is that
      literal's, and the comma flag says whether the trimmed text has a comma
      and no point. */
  lemma ParseAcceptsExactlyLiterals(raw: string)
    requires Trim(raw) != []
    ensures ParseNumericInput(raw).Some? <==>
              exists lit :: WellFormed(lit) && Render(lit) == Normalize(Trim(raw))
    ensures ParseNumericInput(raw).Some? ==>
              var lit := Lex(Normalize(Trim(raw))).value;
              WellFormed(lit) && Render(lit) == Normalize(Trim(raw))
              && ParseNumericInput(raw).value == ParsedNumber(LiteralValue(lit), UsesComma(Trim(raw)))
              && (ParseNumericInput(raw).value.usesComma <==> ',' in Trim(raw) && '.' !in Trim(raw))
  {
    var n := Normalize(Trim(raw));
    if Lex(n).Some? {
      LexSound(n);
    }
    if exists lit :: WellFormed(lit) && Render(lit) == n {
      var lit :| WellFormed(lit) && Render(lit) == n;
      LexRender(lit);
    }
  }

  /** Whitespace-only text reads as the number 0 without a comma. */
  lemma ParseBlankIsZero(raw: string)
    requires IsBlank(raw)
    ensures ParseNumericInput(raw) == Some(ParsedNumber(0.0, false))
  {
    TrimEmptyIffBlank(raw);
  }

  /** A text with a comma, no point and a second comma is refused: only the
      first comma is replaced, and the second one remains. */
  lemma ParseRejectsTwoCommas(t: string, i: int, j: int)
    requires IsTrimmed(t) && 0 <= i < j < |t| && t[i] == ',' && t[j] == ',' && '.' !in t
    ensures ParseNumericInput(t) == None
  {
    TrimTrimmed(t);
    NormalizeKeepsLaterComma(t, i, j);
  }

  lemma NormalizeKeepsLaterComma(t: string, i: int, j: int)
    requires 0 <= i < j < |t| && t[i] == ',' && t[j] == ',' && '.' !in t
    ensures Lex(Normalize(t)) == None
  {
    assert UsesComma(t);
    var k := FirstIndex(t, ',');
    assert k <= i;
    var n := Normalize(t);
    assert n == t[k := '.'];
    assert n[j] == ',';
    LexRejectsComma(n);
  }

  /** A point anywhere disables the comma reading, so a comma then makes the
      text unreadable. */
  lemma ParseRejectsCommaWithPoint(t: string)
    requires IsTrimmed(t) && t != [] && ',' in t && '.' in t
    ensures ParseNumericInput(t) == None
  {
    TrimTrimmed(t);
    LexRejectsComma(t);
  }

  /** The text of a literal neither starts nor ends with white space. */
  lemma RenderTrimmed(lit: NumericLiteral)
    requires WellFormed(lit)
    ensures IsTrimmed(Render(lit))
  {
    var s := Render(lit);
    var b := Body(lit);
    assert s == SignText(lit.sign) + b;
    if lit.whole != [] {
      assert b[0] == lit.whole[0];
    } else {
      assert b[0] == '.';
    }
    if lit.trailingDot {
      assert s[|s| - 1] == '.';
    } else if lit.fraction.Some? {
      var f := lit.fraction.value;
      assert b == lit.whole + "." + f;
      assert s[|s| - 1] == f[|f| - 1];
    } else {
      assert b == lit.whole;
      assert s[|s| - 1] == lit.whole[|lit.whole| - 1];
    }
  }

  /** On trimmed, non-empty text the parser is the recogniser applied to the
      normalised text. */
  lemma ParseTrimmed(t: string)
    requires IsTrimmed(t) && t != []
    ensures Lex(Normalize(t)).None? ==> ParseNumericInput(t) == None
    ensures Lex(Normalize(t)).Some? ==>
              WellFormed(Lex(Normalize(t)).value)
              && ParseNumericInput(t) == Some(ParsedNumber(LiteralValue(Lex(Normalize(t)).value), UsesComma(t)))
  {
    TrimTrimmed(t);
    if Lex(Normalize(t)).Some? {
      LexSound(Normalize(t));
    }
  }

  /** A well-formed literal reads as its value, without the comma flag. */
  lemma ParseLiteral(lit: NumericLiteral)
    requires WellFormed(lit)
    ensures ParseNumericInput(Render(lit)) == Some(ParsedNumber(LiteralValue(lit), false))
  {
    var s := Render(lit);
    RenderTrimmed(lit);
    LexRender(lit);
    if ',' in s {
      LexRejectsComma(s);
    }
    assert Normalize(s) == s;
    ParseTrimmed(s);
  }

  /** The text of a literal with a fraction, written with a comma. */
  function CommaRender(lit: NumericLiteral): string
    requires lit.fraction.Some?
  {
    SignText(lit.sign) + lit.whole + "," + lit.fraction.value
  }

  /** Where the comma stands in `CommaRender(lit)`. */
  function CommaIndex(lit: NumericLiteral): nat
  {
    |SignText(lit.sign)| + |lit.whole|
  }

  /** The comma text differs from the literal's text only at the separator,
      and holds no other separator. */
  lemma CommaRenderShape(lit: NumericLiteral)
    requires WellFormed(lit) && lit.fraction.Some? && !lit.trailingDot
    ensures var c, s, k := CommaRender(lit), Render(lit), CommaIndex(lit);
            |c| == |s| && k < |c| - 1 && c[k] == ',' && s[k] == '.'
            && forall m :: 0 <= m < |c| && m != k ==> c[m] == s[m] && c[m] != ',' && c[m] != '.'
  {
    var c := CommaRender(lit);
    var s := Render(lit);
    var k := CommaIndex(lit);
    assert s == SignText(lit.sign) + lit.whole + "." + lit.fraction.value;
    forall m | 0 <= m < |c| && m != k
      ensures c[m] == s[m] && c[m] != ',' && c[m] != '.'
    {
      NoCommaInRender(lit, m);
      if m < k {
        assert c[m] == (SignText(lit.sign) + lit.whole)[m];
      } else {
        assert c[m] == lit.fraction.value[m - k - 1];
      }
    }
  }

  /** Written with a comma, a literal with a fraction uses the comma, and
      normalising gives back its text with a point. */
  lemma CommaRenderNormalizes(lit: NumericLiteral)
    requires WellFormed(lit) && lit.fraction.Some? && !lit.trailingDot
    ensures UsesComma(CommaRender(lit))
    ensures Normalize(CommaRender(lit)) == Render(lit)
  {
    var c, s, k := CommaRender(lit), Render(lit), CommaIndex(lit);
    CommaRenderShape(lit);
    assert '.' !in c;
    assert ',' !in c[..k];
    assert FirstIndex(c, ',') == k;
    assert s == c[k := '.'];
  }

  /** The comma text has no white space at its ends. */
  lemma CommaRenderTrimmed(lit: NumericLiteral)
    requires WellFormed(lit) && lit.fraction.Some? && !lit.trailingDot
    ensures IsTrimmed(CommaRender(lit))
  {
    var c, s, k := CommaRender(lit), Render(lit), CommaIndex(lit);
    CommaRenderShape(lit);
    RenderTrimmed(lit);
    if k != 0 {
      assert c[0] == s[0];
    }
    assert c[|c| - 1] == s[|s| - 1];
  }

  /** Written with a comma, a literal with a fraction reads as the same value,
      with the comma flag. */
  lemma ParseCommaLiteral(lit: NumericLiteral)
    requires WellFormed(lit) && lit.fraction.Some? && !lit.trailingDot
    ensures ParseNumericInput(CommaRender(lit)) == Some(ParsedNumber(LiteralValue(lit), true))
  {
    var c := CommaRender(lit);
    CommaRenderNormalizes(lit);
    CommaRenderTrimmed(lit);
    LexRender(lit);
    ParseTrimmed(c);
  }

  /** A trailing point is dropped before the conversion. */
  lemma TrailingDotIgnored(lit: NumericLiteral)
    requires WellFormed(lit) && !lit.trailingDot
    ensures Render(lit.(trailingDot := true)) == Render(lit) + "."
    ensures Lex(Render(lit) + ".") == Some(lit.(trailingDot := true))
    ensures LiteralValue(lit.(trailingDot := true)) == LiteralValue(lit)
  {
    assert Body(lit.(trailingDot := true)) == Body(lit) + ".";
    LexRender(lit.(trailingDot := true));
  }

  /** The values of the literals 1.5, -.5 and 12. */
  lemma ExampleValues()
    ensures WellFormed(NumericLiteral(NoSign, "1", Some("5"), false))
    ensures LiteralValue(NumericLiteral(NoSign, "1", Some("5"), false)) == 1.5
    ensures WellFormed(NumericLiteral(Minus, "", Some("5"), false))
    ensures LiteralValue(NumericLiteral(Minus, "", Some("5"), false)) == -0.5
    ensures WellFormed(NumericLiteral(NoSign, "12", None, true))
    ensures LiteralValue(NumericLiteral(NoSign, "12", None, true)) == 12.0
  {
    assert DigitsValue("5") == 5 && DigitsValue("1") == 1 && DigitsValue("") == 0;
    assert DigitsValue("12") == 12 by {
      assert "12"[..1] == "1";
    }
  }

  /** "1,5" reads as 1.5, written with a comma. */
  lemma ParseCommaExample(lit: NumericLiteral)
    requires lit == NumericLiteral(NoSign, "1", Some("5"), false)
    ensures ParseNumericInput(CommaRender(lit)) == Some(ParsedNumber(1.5, true))
  {
    ExampleValues();
    ParseCommaLiteral(lit);
  }

  /** The literal of the example above, written with a comma, is "1,5". */
  lemma CommaRenderExample(lit: NumericLiteral)
    requires lit == NumericLiteral(NoSign, "1", Some("5"), false)
    ensures CommaRender(lit) == "1,5"
  {
  }

  /** "-.5" reads as -0.5. */
  lemma ParseSignExample(lit: NumericLiteral)
    requires lit == NumericLiteral(Minus, "", Some("5"), false)
    ensures Render(lit) == "-.5"
    ensures ParseNumericInput(Render(lit)) == Some(ParsedNumber(-0.5, false))
  {
    ExampleValues();
    ParseLiteral(lit);
  }

  /** "12." reads as 12. */
  lemma ParseTrailingDotExample(lit: NumericLiteral)
    requires lit == NumericLiteral(NoSign, "12", None, true)
    ensures Render(lit) == "12."
    ensures ParseNumericInput(Render(lit)) == Some(ParsedNumber(12.0, false))
  {
    ExampleValues();
    ParseLiteral(lit);
  }

  /** The recogniser refuses a lone point and an exponent. */
  lemma LexRefusals()
    ensures Lex(".") == None
    ensures Lex("1e5") == None
  {
    SplitDigitsOf("", ".");
    assert "" + "." == ".";
    SplitDigitsOf("1", "e5");
    assert "1" + "e5" == "1e5";
  }

  lemma ParseRefusesPoint()
    ensures ParseNumericInput(".") == None
  {
    LexRefusals();
    assert Normalize(".") == "." by {
      assert ',' !in ".";
    }
    ParseTrimmed(".");
  }

  lemma ParseRefusesExponent()
    ensures ParseNumericInput("1e5") == None
  {
    LexRefusals();
    assert Normalize("1e5") == "1e5" by {
      assert ',' !in "1e5";
    }
    ParseTrimmed("1e5");
  }

  /** A lone point and an exponent are refused. */
  lemma ParseRefusedExamples()
    ensures ParseNumericInput(".") == None
    ensures ParseNumericInput("1e5") == None
  {
    ParseRefusesPoint();
    ParseRefusesExponent();
  }

  // ---------------------------------------------------------------------------
  // The component

  datatype InputType = TypeText | TypePassword | TypeEmail | TypeNumber | TypeTel | TypeUrl
  datatype InputMode = ModeNone | ModeText | ModeNumeric | ModeDecimal | ModeTel | ModeEmail | ModeUrl | ModeSearch

  /** The settings the logic reads (the configuration merged over the
      defaults). */
  datatype Settings = Settings(
    isDisabled: bool,
    isReadonly: bool,
    inputType: InputType,
    inputmode: InputMode,
    errorMessage: string,
    isTextarea: bool,
    isAutoSubmitEnabled: bool)

  const DefaultSettings := Settings(false, false, TypeText, ModeText, "", false, false)

  /** The bound form control's status: disabled, valid, and its errors in key
      order (`None` when `errors` is null). */
  datatype ControlStatus = ControlStatus(disabled: bool, valid: bool, errors: Option<seq<FieldError>>)

  /** `isNumericLike`: the arrow keys step the number only in these fields. */
  predicate IsNumericLike(s: Settings)
  {
    s.inputType == TypeNumber || s.inputmode == ModeNumeric || s.inputmode == ModeDecimal
  }

  /** The text an arrow step writes back: `String(next)`, with its first point
      turned into a comma when the input used a comma. */
  function SteppedText(p: ParsedNumber, up: bool, fmt: real -> string): (t: string)
    ensures var next := p.value + (if up then 1.0 else -1.0);
            && |t| == |fmt(next)|
            && (!p.usesComma ==> t == fmt(next))
  {
    var next := p.value + (if up then 1.0 else -1.0);
    if p.usesComma then ReplaceFirst(fmt(next), '.', ',') else fmt(next)
  }

  /** With the comma flag, the step writes the number's text with its first
      point, if any, turned into a comma, and nothing else changed. */
  lemma SteppedTextComma(p: ParsedNumber, up: bool, fmt: real -> string)
    requires p.usesComma
    ensures var text := fmt(p.value + (if up then 1.0 else -1.0));
            && ('.' !in text ==> SteppedText(p, up, fmt) == text)
            && ('.' in text ==> SteppedText(p, up, fmt) == text[FirstIndex(text, '.') := ','])
  {
  }

  /** Stepping "1,5" up writes "2,5" when the number 2.5 is written "2.5". */
  lemma SteppedTextExample(fmt: real -> string)
    requires fmt(2.5) == "2.5"
    ensures SteppedText(ParsedNumber(1.5, true), true, fmt) == "2,5"
  {
    assert ReplaceFirst("2.5", '.', ',') == "2,5" by {
      assert FirstIndex("2.5", '.') == 1;
    }
  }

  /** What `applyArrowStep` writes, or `None` when it refuses: the step runs
      only in a numeric-like single-line field the user may edit, holding
      readable text. */
  function ArrowStep(s: Settings, raw: string, up: bool, fmt: real -> string): Option<string>
  {
    if s.isTextarea || s.isDisabled || s.isReadonly || !IsNumericLike(s) then None
    else match ParseNumericInput(raw)
      case None => None
      case Some(p) => Some(SteppedText(p, up, fmt))
  }

  /** The step is refused exactly for a textarea, a disabled or read-only
      field, a field that is not numeric-like, or unreadable text; otherwise
      it writes the number plus or minus one. */
  lemma ArrowStepGate(s: Settings, raw: string, up: bool, fmt: real -> string)
    ensures ArrowStep(s, raw, up, fmt).None? <==>
              s.isTextarea || s.isDisabled || s.isReadonly || !IsNumericLike(s) || ParseNumericInput(raw).None?
    ensures ArrowStep(s, raw, up, fmt).Some? ==>
              var p := ParseNumericInput(raw).value;
              var next := p.value + (if up then 1.0 else -1.0);
              |ArrowStep(s, raw, up, fmt).value| == |fmt(next)|
              && (!p.usesComma ==> ArrowStep(s, raw, up, fmt).value == fmt(next))
  {
    if ArrowStep(s, raw, up, fmt).Some? {
      var p := ParseNumericInput(raw).value;
      assert ArrowStep(s, raw, up, fmt) == Some(SteppedText(p, up, fmt));
    }
  }

  /** `isControlValid`: no form control, or no control behind it, counts as
      valid; a disabled control does not. */
  function IsControlValid(hasNgControl: bool, control: Option<ControlStatus>): (b: bool)
    ensures b <==> !hasNgControl || control.None? || (!control.value.disabled && control.value.valid)
  {
    if !hasNgControl then true
    else if control.None? then true
    else if control.value.disabled then false
    else control.value.valid
  }

  /** The component's `getValidationErrorMessage`: the message for the first
      error key, or "" when there is no control or no error. */
  function ControlErrorMessage(hasNgControl: bool, control: Option<ControlStatus>, fmt: real -> string): (m: string)
    ensures !hasNgControl || control.None? || control.value.errors.None? ==> m == ""
    ensures hasNgControl && control.Some? && control.value.errors.Some? && control.value.errors.value != [] ==>
              m == ValidationErrorMessage(control.value.errors.value[0].key, control.value.errors.value[0].value, fmt)
    ensures hasNgControl && control.Some? && control.value.errors == Some([]) ==> m == FallbackMessage
  {
    if !hasNgControl || control.None? || control.value.errors.None? then ""
    else
      var errs := control.value.errors.value;
      // With an empty errors object the first key is `undefined`, which has no entry.
      if errs == [] then ValidationErrorMessage("undefined", FlagInfo(true), fmt)
      else ValidationErrorMessage(errs[0].key, errs[0].value, fmt)
  }

  class VInput {
    const settings: Settings
    const hasNgControl: bool
    const manager: AutoSubmitManager
    var ngControlValue: string
    var value: string
    var hasInteracted: bool
    var isImeComposing: bool
    /** Values passed to the form's `onChange`, oldest first. */
    var changes: seq<string>
    /** How many times `onInputChanged` and `onEnterPressed` were emitted. */
    var inputEvents: nat
    var enterPresses: nat

    ghost predicate Valid()
      reads this, manager
    {
      manager.Valid()
    }

    constructor (settings: Settings, hasNgControl: bool)
      ensures Valid() && fresh(manager)
      ensures this.settings == settings && this.hasNgControl == hasNgControl
      ensures ngControlValue == "" && value == "" && !hasInteracted && !isImeComposing
      ensures changes == [] && inputEvents == 0 && enterPresses == 0
      ensures manager.state == Idle && manager.NoTimerPending()
    {
      this.settings := settings;
      this.hasNgControl := hasNgControl;
      manager := new AutoSubmitManager();
      ngControlValue := "";
      value := "";
      hasInteracted := false;
      isImeComposing := false;
      changes := [];
      inputEvents := 0;
      enterPresses := 0;
    }

    /** The `isEnabled` the manager is given. */
    predicate AutoSubmitEnabled()
      reads this
    {
      settings.isAutoSubmitEnabled && !settings.isDisabled && !settings.isReadonly
    }

    /** `displayValue$$`. */
    function DisplayValue(): string
      reads this
    {
      if hasNgControl then ngControlValue else value
    }

    /** `errorMessage$$`: nothing before the user has typed; then the
        configured message, or else the control's validation message. */
    function ErrorMessage(control: Option<ControlStatus>, fmt: real -> string): (m: string)
      reads this
      ensures !hasInteracted ==> m == ""
      ensures hasInteracted && settings.errorMessage != "" ==> m == settings.errorMessage
      ensures hasInteracted && settings.errorMessage == "" ==> m == ControlErrorMessage(hasNgControl, control, fmt)
    {
      if !hasInteracted then ""
      else if settings.errorMessage != "" then settings.errorMessage
      else ControlErrorMessage(hasNgControl, control, fmt)
    }

    /** `writeValue`: the form writes a value (`None` for null/undefined; a
        number arrives already as its text). Interaction is reset. */
    method WriteValue(v: Option<string>)
      requires Valid()
      modifies this`ngControlValue, this`hasInteracted, manager`lastSubmittedValue
      ensures Valid()
      ensures ngControlValue == (if v.Some? then v.value else "")
      ensures !hasInteracted
      ensures manager.lastSubmittedValue ==
                (if AutoSubmitEnabled() then ngControlValue else old(manager.lastSubmittedValue))
    {
      var text := if v.Some? then v.value else "";
      ngControlValue := text;
      hasInteracted := false;
      manager.WriteValue(AutoSubmitEnabled(), text);
    }

    /** `applyKeyboardValue`: the user's text becomes the field's value. */
    method ApplyKeyboardValue(newValue: string)
      modifies this`hasInteracted, this`ngControlValue, this`value, this`changes
      ensures hasInteracted && DisplayValue() == newValue
      ensures hasNgControl ==> value == old(value) && changes == old(changes) + [newValue]
      ensures !hasNgControl ==> ngControlValue == old(ngControlValue) && changes == old(changes)
    {
      hasInteracted := true;
      if hasNgControl {
        ngControlValue := newValue;
        changes := changes + [newValue];
      } else {
        value := newValue;
      }
    }

    /** `onInputChange`: stores the typed text, emits the event and tells the
        auto-submit manager. `control` is the control's status after the
        change. */
    method OnInputChange(newValue: string, control: Option<ControlStatus>)
      requires Valid()
      modifies this`hasInteracted, this`ngControlValue, this`value, this`changes, this`inputEvents, manager
      ensures Valid()
      ensures hasInteracted && DisplayValue() == newValue
      ensures hasNgControl ==> value == old(value) && changes == old(changes) + [newValue]
      ensures !hasNgControl ==> ngControlValue == old(ngControlValue) && changes == old(changes)
      ensures inputEvents == old(inputEvents) + 1
      ensures manager.submitted == old(manager.submitted)
      ensures !AutoSubmitEnabled() ==> manager.state == old(manager.state)
      ensures AutoSubmitEnabled() && old(manager.state) != Submitting
              && IsControlValid(hasNgControl, control) && newValue != old(manager.lastSubmittedValue) ==>
                manager.state == Idle && manager.countdownStartPending && !manager.delayPending
      ensures AutoSubmitEnabled() && old(manager.state) != Submitting
              && !(IsControlValid(hasNgControl, control) && newValue != old(manager.lastSubmittedValue)) ==>
                !manager.countdownStartPending && !manager.delayPending
    {
      hasInteracted := true;
      if hasNgControl {
        ngControlValue := newValue;
        changes := changes + [newValue];
      } else {
        value := newValue;
      }
      inputEvents := inputEvents + 1;
      manager.HandleChange(AutoSubmitEnabled(), IsControlValid(hasNgControl, control), DisplayValue());
    }

    /** `applyArrowStep`: steps a readable number by one and writes it back,
        or reports false and changes nothing. */
    method ApplyArrowStep(up: bool, raw: string, fmt: real -> string) returns (applied: bool)
      modifies this`hasInteracted, this`ngControlValue, this`value, this`changes, this`inputEvents
      ensures applied <==> ArrowStep(settings, raw, up, fmt).Some?
      ensures !applied ==> unchanged(this)
      ensures applied ==> hasInteracted && inputEvents == old(inputEvents) + 1
      ensures applied ==> DisplayValue() == ArrowStep(settings, raw, up, fmt).value
      ensures applied && hasNgControl ==> value == old(value) && changes == old(changes) + [DisplayValue()]
      ensures applied && !hasNgControl ==> ngControlValue == old(ngControlValue) && changes == old(changes)
    {
      var stepped := ArrowStep(settings, raw, up, fmt);
      if stepped.None? {
        return false;
      }
      var text := stepped.value;
      ApplyKeyboardValue(text);
      inputEvents := inputEvents + 1;
      assert DisplayValue() == text;
      applied := true;
    }

    /** `onKeydown`. In a single-line field an arrow key steps the number when
        it can; Enter outside IME composition triggers the submit when
        auto-submit is configured, then is reported. A textarea ignores keys.
        `raw` is the text in the field, `control` the control's status. */
    method OnKeydown(key: string, isComposing: bool, raw: string, control: Option<ControlStatus>, fmt: real -> string)
      requires Valid()
      modifies this`hasInteracted, this`ngControlValue, this`value, this`changes, this`inputEvents,
               this`enterPresses, manager
      ensures Valid()
      ensures settings.isTextarea ==> unchanged(this) && unchanged(manager)
      ensures key != "Enter" ==> enterPresses == old(enterPresses) && unchanged(manager)
      ensures (key == "ArrowUp" || key == "ArrowDown") && ArrowStep(settings, raw, key == "ArrowUp", fmt).Some? ==>
                DisplayValue() == ArrowStep(settings, raw, key == "ArrowUp", fmt).value
                && hasInteracted && inputEvents == old(inputEvents) + 1
                && (hasNgControl ==> value == old(value) && changes == old(changes) + [DisplayValue()])
                && (!hasNgControl ==> ngControlValue == old(ngControlValue) && changes == old(changes))
      ensures key != "Enter"
              && !((key == "ArrowUp" || key == "ArrowDown") && ArrowStep(settings, raw, key == "ArrowUp", fmt).Some?) ==>
                unchanged(this) && unchanged(manager)
      ensures key == "Enter" ==>
                hasInteracted == old(hasInteracted) && value == old(value) && ngControlValue == old(ngControlValue)
                && changes == old(changes) && inputEvents == old(inputEvents)
      ensures key == "Enter" && (isComposing || old(isImeComposing)) ==> unchanged(this) && unchanged(manager)
      ensures key == "Enter" && !settings.isTextarea && !isComposing && !old(isImeComposing) ==>
                enterPresses == old(enterPresses) + 1
                && (!settings.isAutoSubmitEnabled ==> unchanged(manager))
                && (settings.isAutoSubmitEnabled
                    && !(AutoSubmitEnabled() && IsControlValid(hasNgControl, control) && old(manager.state) != Submitting) ==>
                      unchanged(manager))
                && (settings.isAutoSubmitEnabled && AutoSubmitEnabled()
                    && IsControlValid(hasNgControl, control) && old(manager.state) != Submitting ==>
                      manager.state == Submitting && manager.submitted == old(manager.submitted) + [DisplayValue()]
                      && manager.NoTimerPending() && manager.stateChanges == old(manager.stateChanges) + [Submitting]
                      && manager.lastSubmittedValue == old(manager.lastSubmittedValue))
      ensures !(key == "Enter" && !settings.isTextarea && !isComposing && !old(isImeComposing)
                && settings.isAutoSubmitEnabled && AutoSubmitEnabled()
                && IsControlValid(hasNgControl, control) && old(manager.state) != Submitting) ==>
                manager.submitted == old(manager.submitted)
    {
      if !settings.isTextarea {
        if key == "ArrowUp" || key == "ArrowDown" {
          var didApply := ApplyArrowStep(key == "ArrowUp", raw, fmt);
          if didApply {
            return;
          }
        }
        if key == "Enter" {
          if isComposing || isImeComposing {
            return;
          }
          if settings.isAutoSubmitEnabled {
            manager.TriggerSubmit(AutoSubmitEnabled(), IsControlValid(hasNgControl, control), DisplayValue());
          }
          enterPresses := enterPresses + 1;
        }
      }
    }

    method OnCompositionStart()
      modifies this`isImeComposing
      ensures isImeComposing
    {
      isImeComposing := true;
    }

    method OnCompositionEnd()
      modifies this`isImeComposing
      ensures !isImeComposing
    {
      isImeComposing := false;
    }

    /** `autoSubmitResultEffect`: a result set in the configuration (`None`
        for null) is handed to the manager. */
    method OnAutoSubmitResult(result: Option<SubmitResult>)
      requires Valid()
      modifies manager
      ensures Valid()
      ensures result.None? ==> unchanged(manager)
      ensures result.Some? ==>
                !manager.countdownStartPending && !manager.delayPending && manager.resetPending
                && manager.submitted == old(manager.submitted)
      ensures result == Some(SubmitSucceeded) ==>
                manager.state == Success && manager.lastSubmittedValue == DisplayValue()
                && manager.stateChanges == old(manager.stateChanges) + [Success]
      ensures result == Some(SubmitFailed) ==>
                manager.state == Error && manager.lastSubmittedValue == old(manager.lastSubmittedValue)
                && manager.stateChanges == old(manager.stateChanges) + [Error]
    {
      if result.None? {
        return;
      }
      manager.HandleResult(result.value, DisplayValue());
    }

    /** `ngOnDestroy`: cancels the manager's timers. */
    method Destroy()
      requires Valid()
      modifies manager`countdownStartPending, manager`delayPending, manager`resetPending
      ensures Valid() && manager.NoTimerPending()
    {
      manager.Destroy();
    }
  }
}
