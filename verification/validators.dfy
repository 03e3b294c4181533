/** The form validators of `v-input` and the table that turns a validation
    error into the text shown under the field. A control's value is a
    JavaScript value; only the shapes a form control holds are modelled.
    `String(number)` and `parseFloat(string)` are parameters (`fmt`, `parse`). */
module Validators {
  import opened Common

  /** A form control's value: null/undefined, a string, a number or a boolean. */
  datatype FormValue = Absent | Text(s: string) | Num(x: real) | Flag(b: bool)

  /** The payload stored under an error key. */
  datatype ErrorValue =
    | RangeInfo(min: real, max: real, actual: real)
    | PatternInfo(requiredPattern: string, actualValue: string)
    | FlagInfo(flag: bool)

  /** One entry of Angular's `ValidationErrors` object. */
  datatype FieldError = FieldError(key: string, value: ErrorValue)

  // ---------------------------------------------------------------------------
  // ERROR_MESSAGES and getValidationErrorMessage

  /** "От " (Cyrillic O, te, then a space). */
  const FromWord: string := "\U{041E}\U{0442} "
  /** " до " (Cyrillic de, o, between spaces). */
  const ToWord: string := " \U{0434}\U{043E} "
  /** "ХХ.Х или ХХ", written with the Cyrillic letter Kha. */
  const BodyWeightMessage: string :=
    "\U{0425}\U{0425}.\U{0425} \U{0438}\U{043B}\U{0438} \U{0425}\U{0425}"
  /** "Обязательноe поле": every letter is Cyrillic except the Latin `e`
      that ends the first word. */
  const RequiredMessage: string :=
    "\U{041E}\U{0431}\U{044F}\U{0437}\U{0430}\U{0442}\U{0435}\U{043B}\U{044C}\U{043D}\U{043E}e"
    + " \U{043F}\U{043E}\U{043B}\U{0435}"
  /** "Ошибка": the text for a key without an entry. */
  const FallbackMessage: string := "\U{041E}\U{0448}\U{0438}\U{0431}\U{043A}\U{0430}"

  /** The keys that have an entry in the message table. */
  predicate HasMessage(key: string) { key == "range" || key == "bodyWeight" || key == "required" }

  /** `${err.min}` / `${err.max}`: the bound as text, or "undefined" when the
      payload has no such field. */
  function RangeBoundText(v: ErrorValue, upper: bool, fmt: real -> string): string
  {
    if v.RangeInfo? then (if upper then fmt(v.max) else fmt(v.min)) else "undefined"
  }

  /** `getValidationErrorMessage`: the table entry for the key, applied to the
      payload, or the fallback text. */
  function ValidationErrorMessage(key: string, v: ErrorValue, fmt: real -> string): (m: string)
    ensures key == "range" ==> m == FromWord + RangeBoundText(v, false, fmt) + ToWord + RangeBoundText(v, true, fmt)
    ensures key == "bodyWeight" ==> m == BodyWeightMessage
    ensures key == "required" ==> m == RequiredMessage
    ensures !HasMessage(key) ==> m == FallbackMessage
    ensures HasMessage(key) ==> m != FallbackMessage
  {
    if key == "range" then
      var m := FromWord + RangeBoundText(v, false, fmt) + ToWord + RangeBoundText(v, true, fmt);
      assert m[2] != FallbackMessage[2];
      m
    else if key == "bodyWeight" then
      assert BodyWeightMessage[0] != FallbackMessage[0];
      BodyWeightMessage
    else if key == "required" then
      assert RequiredMessage[1] != FallbackMessage[1];
      RequiredMessage
    else FallbackMessage
  }

  /** The four texts the table can produce for fixed keys are all different. */
  lemma MessagesDistinct()
    ensures BodyWeightMessage != RequiredMessage
    ensures BodyWeightMessage != FallbackMessage && RequiredMessage != FallbackMessage
  {
    assert BodyWeightMessage[0] != RequiredMessage[0];
    assert BodyWeightMessage[0] != FallbackMessage[0];
    assert RequiredMessage[1] != FallbackMessage[1];
  }

  // ---------------------------------------------------------------------------
  // The guard both validators share

  /** `!value && value !== 0`: the value is falsy but not the number 0, so
      the validator passes it without looking. */
  predicate SkipsValidation(v: FormValue)
  {
    v == Absent || v == Text("") || v == Flag(false)
  }

  // ---------------------------------------------------------------------------
  // rangeValidator

  /** `parseFloat(value)`: strings go through `parse`; a number converts to
      itself; a boolean reads as "true"/"false", which is NaN. */
  function ParseFloat(v: FormValue, parse: string -> Option<real>): Option<real>
  {
    match v
    case Text(s) => parse(s)
    case Num(x) => Some(x)
    case _ => None
  }

  /** `rangeValidator(min, max)` applied to a value: an error iff the value
      parses and lies outside the inclusive interval. */
  function RangeValidator(min: real, max: real, v: FormValue, parse: string -> Option<real>): (r: Option<FieldError>)
    ensures SkipsValidation(v) ==> r == None
    ensures r.Some? <==>
              !SkipsValidation(v) && ParseFloat(v, parse).Some?
              && (ParseFloat(v, parse).value < min || ParseFloat(v, parse).value > max)
    ensures r.Some? ==> r.value == FieldError("range", RangeInfo(min, max, ParseFloat(v, parse).value))
  {
    if SkipsValidation(v) then None
    else match ParseFloat(v, parse)
      case None => None
      case Some(x) =>
        if x < min || x > max then Some(FieldError("range", RangeInfo(min, max, x))) else None
  }

  /** Both bounds are accepted, and the error text for a rejected value names
      the two bounds. */
  lemma RangeValidatorInclusive(min: real, max: real, v: FormValue, parse: string -> Option<real>, fmt: real -> string)
    requires min <= max
    ensures ParseFloat(v, parse) == Some(min) ==> RangeValidator(min, max, v, parse) == None
    ensures ParseFloat(v, parse) == Some(max) ==> RangeValidator(min, max, v, parse) == None
    ensures RangeValidator(min, max, v, parse).Some? ==>
              var e := RangeValidator(min, max, v, parse).value;
              ValidationErrorMessage(e.key, e.value, fmt) == FromWord + fmt(min) + ToWord + fmt(max)
  {
  }

  /** The number 0 is checked, not skipped. */
  lemma RangeValidatorChecksZero(min: real, max: real, parse: string -> Option<real>)
    requires 0.0 < min <= max
    ensures RangeValidator(min, max, Num(0.0), parse) == Some(FieldError("range", RangeInfo(min, max, 0.0)))
  {
  }

  // ---------------------------------------------------------------------------
  // weightValidator: the pattern ^\d{2,3}([.,]\d)?$

  /** `pattern.source`. */
  const WeightPatternSource: string := "^\\d{2,3}([.,]\\d)?$"

  predicate IsDecimalSeparator(c: char) { c == '.' || c == ',' }

  /** The number of leading ASCII digits of `s`. */
  function LeadingDigits(s: string): (n: nat)
    ensures n <= |s| && AllDigits(s[..n])
    ensures n < |s| ==> !IsDigit(s[n])
  {
    if s != [] && IsDigit(s[0]) then
      var n := 1 + LeadingDigits(s[1..]);
      assert s[..n] == [s[0]] + s[1..][..n - 1];
      n
    else 0
  }

  /** `([.,]\d)?$`: nothing, or a separator and one digit. */
  predicate MatchesFraction(t: string)
  {
    t == [] || (|t| == 2 && IsDecimalSeparator(t[0]) && IsDigit(t[1]))
  }

  /** The regular expression's test, the way a backtracking matcher runs it:
      `\d{2,3}` first takes three digits when it can, then falls back to two. */
  predicate WeightPatternTest(s: string)
  {
    var n := LeadingDigits(s);
    (n >= 3 && MatchesFraction(s[3..])) || (n >= 2 && MatchesFraction(s[2..]))
  }

  /** The strings the pattern describes, by length: two or three digits, or
      two or three digits, a `.` or `,`, and one digit. */
  predicate IsWeightText(s: string)
  {
    || (2 <= |s| <= 3 && AllDigits(s))
    || (4 <= |s| <= 5 && AllDigits(s[..|s| - 2]) && IsDecimalSeparator(s[|s| - 2]) && IsDigit(s[|s| - 1]))
  }

  /** The matcher accepts exactly the strings the pattern describes. */
  lemma WeightPatternTestCorrect(s: string)
    ensures WeightPatternTest(s) <==> IsWeightText(s)
  {
    var n := LeadingDigits(s);
    if IsWeightText(s) {
      if 2 <= |s| <= 3 {
        LeadingDigitsOfDigits(s);
        assert s[|s|..] == [];
      } else {
        var k := |s| - 2;
        LeadingDigitsPrefix(s, k);
        assert s[k..] == [s[k], s[k + 1]];
      }
    }
    if WeightPatternTest(s) {
      var k := if n >= 3 && MatchesFraction(s[3..]) then 3 else 2;
      assert AllDigits(s[..k]) by {
        assert forall i :: 0 <= i < k ==> s[..k][i] == s[..n][i];
      }
      if |s| > k {
        assert s[..|s| - 2] == s[..k];
      } else {
        assert s == s[..k];
      }
    }
  }

  lemma {:induction false} LeadingDigitsOfDigits(s: string)
    requires AllDigits(s)
    ensures LeadingDigits(s) == |s|
  {
    if s != [] {
      LeadingDigitsOfDigits(s[1..]);
    }
  }

  lemma {:induction false} LeadingDigitsPrefix(s: string, k: nat)
    requires k < |s| && AllDigits(s[..k]) && !IsDigit(s[k])
    ensures LeadingDigits(s) == k
  {
    if k > 0 {
      assert IsDigit(s[..k][0]);
      assert s[1..][..k - 1] == s[..k][1..];
      LeadingDigitsPrefix(s[1..], k - 1);
    }
  }

  /** `String(value)`: text stays itself, a number goes through `fmt`, a
      boolean becomes "true"/"false". */
  function ToJsString(v: FormValue, fmt: real -> string): string
  {
    match v
    case Absent => "null"
    case Text(s) => s
    case Num(x) => fmt(x)
    case Flag(b) => if b then "true" else "false"
  }

  /** `weightValidator()` applied to a value: an error iff the value's text is
      not a two- or three-digit weight with at most one decimal, carrying the
      pattern and the text. */
  function WeightValidator(v: FormValue, fmt: real -> string): (r: Option<FieldError>)
    ensures SkipsValidation(v) ==> r == None
    ensures r.Some? <==> !SkipsValidation(v) && !IsWeightText(ToJsString(v, fmt))
    ensures r.Some? ==> r.value == FieldError("bodyWeight", PatternInfo(WeightPatternSource, ToJsString(v, fmt)))
  {
    if SkipsValidation(v) then None
    else
      var text := ToJsString(v, fmt);
      WeightPatternTestCorrect(text);
      if !WeightPatternTest(text) then
        Some(FieldError("bodyWeight", PatternInfo(WeightPatternSource, text)))
      else None
  }

  /** The number 0 is not skipped: written as "0", it fails the pattern. */
  lemma WeightValidatorRejectsZero(fmt: real -> string)
    requires fmt(0.0) == "0"
    ensures WeightValidator(Num(0.0), fmt) == Some(FieldError("bodyWeight", PatternInfo(WeightPatternSource, "0")))
  {
  }

  /** Typical weights that pass: "72", "72.5" and "105,3". */
  lemma WeightValidatorAcceptsExamples(fmt: real -> string)
    ensures WeightValidator(Text("72"), fmt) == None
    ensures WeightValidator(Text("72.5"), fmt) == None
    ensures WeightValidator(Text("105,3"), fmt) == None
  {
  }

  /** Typical weights that fail: "7", "1000" and "72.55". */
  lemma WeightValidatorRejectsExamples(fmt: real -> string)
    ensures WeightValidator(Text("7"), fmt).Some?
    ensures WeightValidator(Text("1000"), fmt).Some?
    ensures WeightValidator(Text("72.55"), fmt).Some?
  {
    assert !IsDigit("1000"[3]) ==> false;
    assert !IsDecimalSeparator("72.55"[3]);
  }
}
