/** Amounts of credit as typed by an administrator, and the micros ledger. */
module CreditAmount {
  import opened Text
  import opened Ordered
  import opened Decimals

  const I64_MAX: nat := 9223372036854775807
  const MICROS: nat := 1000000

  // ------------------------------------------------------------- the check

  function FirstDot(s: string): (r: nat)
    ensures r <= |s| && (r < |s| ==> s[r] == '.')
    ensures forall i :: 0 <= i < r ==> s[i] != '.'
  {
    if s == "" || s[0] == '.' then 0 else 1 + FirstDot(s[1..])
  }

  /** `str::split('.')`. */
  function SplitDot(s: string): (parts: seq<string>)
    ensures parts != []
    decreases |s|
  {
    var k := FirstDot(s);
    if k == |s| then [s] else [s[..k]] + SplitDot(s[k + 1..])
  }

  predicate WellFormed(value: string) {
    var parts := SplitDot(value);
    && value != ""
    && parts[0] != "" && AllDigits(parts[0])
    && (|parts| > 1 ==> parts[1] != "" && |parts[1]| <= 6 && AllDigits(parts[1]))
    && |parts| <= 2
  }

  function Pow10(n: nat): nat { if n == 0 then 1 else 10 * Pow10(n - 1) }

  lemma Pow10Positive(n: nat)
    ensures Pow10(n) > 0
  {
  }

  /** The exact decimal that a well-formed amount denotes. */
  function Amount(value: string): real
    requires WellFormed(value)
  {
    var parts := SplitDot(value);
    var whole := Value(parts[0]) as real;
    if |parts| == 1 then whole
    else
      Pow10Positive(|parts[1]|);
      whole + (Value(parts[1]) as real) / (Pow10(|parts[1]|) as real)
  }

  const LARGEST: real := (I64_MAX as real) / (MICROS as real)

  /** `validate_credit_redemption_amount`. */
  predicate Accepts(input: string) {
    var value := Trim(input);
    WellFormed(value) && 0.0 < Amount(value) <= LARGEST
  }

  // ------------------------------------------------------------ the meaning

  /** `value` is a plain decimal notation of `n` micros: digits, or digits, a
      point and one to six more digits. */
  ghost predicate Spells(value: string, n: nat) {
    || (value != "" && AllDigits(value) && n == Value(value) * MICROS)
    || (exists k :: 0 < k && SpellsAt(value, k, n))
  }

  predicate SpellsAt(value: string, k: nat, n: nat) {
    && k + 1 < |value| <= k + 7 && value[k] == '.'
    && AllDigits(value[..k]) && AllDigits(value[k + 1..])
    && n == Value(value[..k]) * MICROS + Value(value[k + 1..]) * Pow10(6 - (|value| - k - 1))
  }

  lemma DigitsHaveNoDot(s: string)
    requires AllDigits(s)
    ensures FirstDot(s) == |s|
  {
  }

  lemma SplitSpelled(value: string, k: nat)
    requires k < |value| && value[k] == '.' && AllDigits(value[..k]) && AllDigits(value[k + 1..])
    ensures SplitDot(value) == [value[..k], value[k + 1..]]
  {
    assert forall i :: 0 <= i < k ==> IsDigit(value[..k][i]) && value[..k][i] == value[i];
    assert FirstDot(value) == k;
    DigitsHaveNoDot(value[k + 1..]);
  }

  /** The micros of a well-formed amount. */
  function Micros(value: string): nat
    requires WellFormed(value)
  {
    var parts := SplitDot(value);
    Value(parts[0]) * MICROS + (if |parts| == 1 then 0 else Value(parts[1]) * Pow10(6 - |parts[1]|))
  }

  lemma ScaleFraction(f: nat, k: nat)
    requires 1 <= k <= 6
    ensures Pow10(k) > 0
    ensures (f as real) / (Pow10(k) as real) * 1000000.0 == (f * Pow10(6 - k)) as real
  {
    assert Pow10(0) == 1 && Pow10(1) == 10 && Pow10(2) == 100;
    assert Pow10(3) == 1000 && Pow10(4) == 10000 by { assert Pow10(3) == 10 * Pow10(2); }
    assert Pow10(5) == 100000 && Pow10(6) == 1000000 by { assert Pow10(5) == 10 * Pow10(4); }
  }

  lemma AmountInMicros(value: string)
    requires WellFormed(value)
    ensures Amount(value) * 1000000.0 == Micros(value) as real
  {
    var parts := SplitDot(value);
    if |parts| == 2 { ScaleFraction(Value(parts[1]), |parts[1]|); }
  }

  lemma RangeInMicros(value: string)
    requires WellFormed(value)
    ensures 0.0 < Amount(value) <= LARGEST <==> 1 <= Micros(value) <= I64_MAX
  {
    AmountInMicros(value);
    assert LARGEST * 1000000.0 == I64_MAX as real;
  }

  lemma WellFormedSpells(value: string)
    requires WellFormed(value)
    ensures Spells(value, Micros(value))
  {
    var k := FirstDot(value);
    if k < |value| {
      var rest := value[k + 1..];
      assert SplitDot(value)[1] == SplitDot(rest)[0];
      assert |SplitDot(rest)| == 1;
      assert FirstDot(rest) == |rest|;
      assert SpellsAt(value, k, Micros(value));
    }
  }

  lemma SpelledIsWellFormed(value: string, n: nat)
    requires Spells(value, n)
    ensures WellFormed(value) && Micros(value) == n
  {
    if value != "" && AllDigits(value) && n == Value(value) * MICROS {
      DigitsHaveNoDot(value);
    } else {
      var k :| 0 < k && SpellsAt(value, k, n);
      SplitSpelled(value, k);
    }
  }

  /** An amount is accepted exactly when, trimmed, it spells some number of micros
      between 1 and the largest ledger value, however long the string is. */
  lemma AcceptsIff(input: string)
    ensures Accepts(input) <==>
      exists value, n :: TrimsTo(input, value) && 1 <= n <= 9223372036854775807 && Spells(value, n)
  {
    TrimIff(input, Trim(input));
    if Accepts(input) {
      RangeInMicros(Trim(input));
      WellFormedSpells(Trim(input));
    }
    if value, n :| TrimsTo(input, value) && 1 <= n <= 9223372036854775807 && Spells(value, n) {
      TrimIff(input, value);
      SpelledIsWellFormed(value, n);
      RangeInMicros(value);
    }
  }

  /** A string spells at most one number of micros. */
  lemma SpellsUnique(value: string, m: nat, n: nat)
    requires Spells(value, m) && Spells(value, n)
    ensures m == n
  {
    SpelledIsWellFormed(value, m);
    SpelledIsWellFormed(value, n);
  }

  // -------------------------------------------------------------- round trip

  /** `d` written with exactly `width` digits. */
  function Padded(d: nat, width: nat): (s: string)
    ensures |s| == width && AllDigits(s)
    decreases width
  {
    if width == 0 then "" else Padded(d / 10, width - 1) + [DigitChar(d % 10)]
  }

  lemma {:induction false} PaddedValue(d: nat, width: nat)
    requires d < Pow10(width)
    ensures Value(Padded(d, width)) == d
    decreases width
  {
    if width > 0 {
      PaddedValue(d / 10, width - 1);
      var s := Padded(d, width);
      assert s[..|s| - 1] == Padded(d / 10, width - 1);
    }
  }

  /** The canonical notation of `n` micros. */
  function Format(n: nat): string {
    Decimal(n / MICROS) + "." + Padded(n % MICROS, 6)
  }

  lemma FormatSpells(n: nat)
    ensures Spells(Format(n), n)
  {
    var whole, fraction := Decimal(n / MICROS), Padded(n % MICROS, 6);
    var value := Format(n);
    DecimalRoundTrip(n / MICROS);
    assert Pow10(6) == 1000 * Pow10(3) && Pow10(3) == 1000;
    PaddedValue(n % MICROS, 6);
    assert value[..|whole|] == whole && value[|whole| + 1..] == fraction;
    assert SpellsAt(value, |whole|, n);
  }

  lemma FormatTrimmed(n: nat)
    ensures Trim(Format(n)) == Format(n)
  {
    var whole, fraction := Decimal(n / MICROS), Padded(n % MICROS, 6);
    assert Format(n)[0] == whole[0] && Format(n)[|Format(n)| - 1] == fraction[5];
    assert IsDigit(whole[0]) && IsDigit(fraction[5]);
    TrimNormalizes(Format(n));
  }

  lemma SpelledIsAccepted(value: string, n: nat)
    requires Trim(value) == value && Spells(value, n) && 1 <= n <= I64_MAX
    ensures Accepts(value)
  {
    TrimIff(value, value);
    AcceptsIff(value);
  }

  /** Every ledger amount can be typed: its canonical notation is accepted and
      denotes it. */
  lemma FormatAccepted(n: nat)
    requires 1 <= n <= I64_MAX
    ensures Spells(Format(n), n) && Accepts(Format(n))
  {
    FormatSpells(n);
    FormatTrimmed(n);
    SpelledIsAccepted(Format(n), n);
  }

  // ------------------------------------------------------- redemption codes

  const CODE_MIN := 8
  const CODE_MAX := 128

  predicate CodeChar(c: char) { 'A' <= c <= 'Z' || IsDigit(c) || c == '-' }

  /** `normalize_credit_redemption_code`. */
  function NormalizeCode(input: string): Option<string> {
    var code := Upper(Trim(input));
    if CODE_MIN <= |code| <= CODE_MAX && forall i :: 0 <= i < |code| ==> CodeChar(code[i])
    then Some(code) else None
  }

  /** A code is accepted exactly if, trimmed and upper-cased, it has 8 to 128
      capitals, digits or dashes, and that is its normal form. */
  lemma NormalizeCodeIff(input: string, code: string)
    ensures NormalizeCode(input) == Some(code) <==>
      && (exists t :: TrimsTo(input, t) && UppersTo(t, code))
      && 8 <= |code| <= 128
      && forall i :: 0 <= i < |code| ==> 'A' <= code[i] <= 'Z' || '0' <= code[i] <= '9' || code[i] == '-'
  {
    TrimIff(input, Trim(input));
    UpperIff(Trim(input), code);
    if t :| TrimsTo(input, t) && UppersTo(t, code) { TrimIff(input, t); }
  }

  lemma CodesAreTrimmed(code: string)
    requires code != "" && forall i :: 0 <= i < |code| ==> CodeChar(code[i])
    ensures Trim(code) == code
  {
    assert CodeChar(code[0]) && CodeChar(code[|code| - 1]);
    TrimNormalizes(code);
  }

  /** A normalised code is its own normal form. */
  lemma NormalizeCodeIdempotent(input: string)
    requires NormalizeCode(input).Some?
    ensures NormalizeCode(NormalizeCode(input).value) == NormalizeCode(input)
  {
    CodesAreTrimmed(NormalizeCode(input).value);
    UpperIdempotent(Trim(input));
  }
}
