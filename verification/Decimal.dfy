/** Decimal text: the parser and the printer of fixed-point values. */
module Decimal {
  import opened Money

  const DECIMALS := 8

  datatype Parsed = Number(value: int) | Bad(why: Problem)

  datatype Problem = Required | Invalid | TooPrecise | TooLarge

  // ---------------------------------------------------------------- characters

  predicate IsDigit(c: char) {
    '0' <= c <= '9'
  }

  predicate AllDigits(text: string) {
    forall c | c in text :: IsDigit(c)
  }

  /** The white space that `strings.TrimSpace` removes. */
  predicate IsSpace(c: char) {
    || c in {'\t', '\n', '\U{0B}', '\U{0C}', '\r', ' ', '\U{85}', '\U{A0}', '\U{1680}'}
    || '\U{2000}' <= c <= '\U{200A}'
    || c in {'\U{2028}', '\U{2029}', '\U{202F}', '\U{205F}', '\U{3000}'}
  }

  function DigitOf(c: char): (d: nat)
    requires IsDigit(c)
    ensures d < 10
  {
    c as int - '0' as int
  }

  function CharOf(d: nat): (c: char)
    requires d < 10
    ensures IsDigit(c) && DigitOf(c) == d
  {
    ('0' as int + d) as char
  }

  /** `isDigits` */
  method IsDigits(text: string) returns (yes: bool)
    ensures yes <==> AllDigits(text)
  {
    for i := 0 to |text|
      invariant AllDigits(text[..i])
    {
      if text[i] < '0' || text[i] > '9' {
        assert text[i] in text;
        return false;
      }
      assert text[..i + 1] == text[..i] + [text[i]];
    }
    assert text[..|text|] == text;
    return true;
  }

  // ---------------------------------------------------------------- numerals

  function Pow10(n: nat): nat {
    if n == 0 then 1 else 10 * Pow10(n - 1)
  }

  function NatOf(digits: string): nat
    requires AllDigits(digits)
  {
    if digits == "" then 0
    else 10 * NatOf(digits[..|digits| - 1]) + DigitOf(digits[|digits| - 1])
  }

  /** `%d` for a non-negative number. */
  function NatText(n: nat): (s: string)
    ensures AllDigits(s) && s != ""
  {
    if n < 10 then [CharOf(n)] else NatText(n / 10) + [CharOf(n % 10)]
  }

  /** `%0*d`: exactly `width` digits. */
  function FixedText(n: nat, width: nat): (s: string)
    ensures AllDigits(s) && |s| == width
  {
    if width == 0 then "" else FixedText(n / 10, width - 1) + [CharOf(n % 10)]
  }

  lemma {:induction false} NatOfText(n: nat)
    ensures NatOf(NatText(n)) == n
  {
    if n >= 10 {
      NatOfText(n / 10);
      assert NatText(n)[..|NatText(n)| - 1] == NatText(n / 10);
    }
  }

  lemma {:induction false} NatOfFixed(n: nat, width: nat)
    requires n < Pow10(width)
    ensures NatOf(FixedText(n, width)) == n
  {
    if width > 0 {
      NatOfFixed(n / 10, width - 1);
      assert FixedText(n, width)[..width - 1] == FixedText(n / 10, width - 1);
    }
  }

  lemma LastDigit(digits: string)
    requires AllDigits(digits) && digits != ""
    ensures var init, last := digits[..|digits| - 1], digits[|digits| - 1];
      && AllDigits(init) && IsDigit(last)
      && NatOf(digits) / 10 == NatOf(init) && NatOf(digits) % 10 == DigitOf(last)
      && (forall c: char | IsDigit(c) && DigitOf(c) == DigitOf(last) :: c == last)
  {
    var init, last := digits[..|digits| - 1], digits[|digits| - 1];
    assert last in digits && forall c | c in init :: c in digits;
    assert NatOf(digits) == 10 * NatOf(init) + DigitOf(last);
  }

  lemma {:induction false} FixedOfNat(digits: string)
    requires AllDigits(digits)
    ensures FixedText(NatOf(digits), |digits|) == digits && NatOf(digits) < Pow10(|digits|)
  {
    if digits != "" {
      var init, last := digits[..|digits| - 1], digits[|digits| - 1];
      LastDigit(digits);
      FixedOfNat(init);
      assert NatOf(digits) / 10 == NatOf(init) && NatOf(digits) % 10 == DigitOf(last);
      assert CharOf(DigitOf(last)) == last;
      assert digits == init + [last];
    }
  }

  /** A numeral without a leading zero, or "0". */
  predicate Plain(digits: string) {
    digits != "" && AllDigits(digits) && (digits[0] == '0' ==> digits == "0")
  }

  lemma {:induction false} TextOfNat(digits: string)
    requires Plain(digits)
    ensures NatText(NatOf(digits)) == digits
    ensures NatOf(digits) == 0 <==> digits == "0"
  {
    if |digits| > 1 {
      var init, last := digits[..|digits| - 1], digits[|digits| - 1];
      LastDigit(digits);
      assert init[0] == digits[0];
      TextOfNat(init);
      assert CharOf(DigitOf(last)) == last;
      assert digits == init + [last];
    } else {
      assert digits[..0] == "";
      assert CharOf(DigitOf(digits[0])) == digits[0];
    }
  }

  lemma {:induction false} TextIsPlain(n: nat)
    ensures Plain(NatText(n))
    ensures n > 0 ==> NatText(n)[0] != '0'
  {
    if n >= 10 { TextIsPlain(n / 10); }
  }

  lemma {:induction false} NatOfJoin(a: string, b: string)
    requires AllDigits(a) && AllDigits(b)
    ensures AllDigits(a + b) && NatOf(a + b) == NatOf(a) * Pow10(|b|) + NatOf(b)
  {
    if b == "" {
      assert a + b == a;
    } else {
      var init := b[..|b| - 1];
      NatOfJoin(a, init);
      assert (a + b)[..|a + b| - 1] == a + init;
      assert 10 * (NatOf(a) * Pow10(|init|)) == NatOf(a) * Pow10(|b|);
    }
  }

  function Zeros(n: nat): (s: string)
    ensures |s| == n && AllDigits(s)
  {
    seq(n, _ => '0')
  }

  lemma {:induction false} ZerosAreZero(n: nat)
    ensures NatOf(Zeros(n)) == 0
  {
    if n > 0 {
      ZerosAreZero(n - 1);
      assert Zeros(n)[..n - 1] == Zeros(n - 1);
    }
  }

  // ---------------------------------------------------------------- trimming and splitting

  function TrimLeft(text: string): string {
    if text != "" && IsSpace(text[0]) then TrimLeft(text[1..]) else text
  }

  function TrimRight(text: string): string {
    if text != "" && IsSpace(text[|text| - 1]) then TrimRight(text[..|text| - 1]) else text
  }

  function Trim(text: string): string {
    TrimRight(TrimLeft(text))
  }

  predicate AllSpace(text: string) {
    forall c | c in text :: IsSpace(c)
  }

  predicate NoSpaceAround(text: string) {
    text != "" ==> !IsSpace(text[0]) && !IsSpace(text[|text| - 1])
  }

  lemma {:induction false} TrimLeftSplits(text: string) returns (before: string)
    ensures AllSpace(before) && text == before + TrimLeft(text)
    ensures TrimLeft(text) != "" ==> !IsSpace(TrimLeft(text)[0])
  {
    if text != "" && IsSpace(text[0]) {
      var rest := TrimLeftSplits(text[1..]);
      before := [text[0]] + rest;
    } else {
      before := "";
    }
  }

  lemma {:induction false} TrimRightSplits(text: string) returns (after: string)
    ensures AllSpace(after) && text == TrimRight(text) + after
    ensures TrimRight(text) != "" ==> !IsSpace(TrimRight(text)[|TrimRight(text)| - 1])
  {
    if text != "" && IsSpace(text[|text| - 1]) {
      var rest := TrimRightSplits(text[..|text| - 1]);
      after := rest + [text[|text| - 1]];
    } else {
      after := "";
    }
  }

  /** Trimming takes off white space at both ends and nothing else. */
  lemma TrimSplits(text: string) returns (before: string, after: string)
    ensures AllSpace(before) && AllSpace(after) && text == before + Trim(text) + after
    ensures NoSpaceAround(Trim(text))
  {
    before := TrimLeftSplits(text);
    after := TrimRightSplits(TrimLeft(text));
    var trimmed := Trim(text);
    if trimmed != "" { assert TrimLeft(text)[0] == trimmed[0]; }
  }

  lemma {:induction false} TrimLeftOf(before: string, core: string)
    requires AllSpace(before) && (core != "" ==> !IsSpace(core[0]))
    ensures TrimLeft(before + core) == core
  {
    if before == "" {
      assert before + core == core;
    } else {
      assert before[0] in before && forall c | c in before[1..] :: c in before;
      TrimLeftOf(before[1..], core);
      assert (before + core)[1..] == before[1..] + core;
    }
  }

  lemma {:induction false} TrimRightOf(core: string, after: string)
    requires AllSpace(after) && (core != "" ==> !IsSpace(core[|core| - 1]))
    ensures TrimRight(core + after) == core
  {
    if after == "" {
      assert core + after == core;
    } else {
      var init := after[..|after| - 1];
      assert after[|after| - 1] in after && forall c | c in init :: c in after;
      TrimRightOf(core, init);
      assert (core + after)[..|core + after| - 1] == core + init;
    }
  }

  lemma TrimOf(before: string, core: string, after: string)
    requires AllSpace(before) && AllSpace(after) && core != "" && NoSpaceAround(core)
    ensures Trim(before + core + after) == core
  {
    assert before + core + after == before + (core + after);
    TrimLeftOf(before, core + after);
    TrimRightOf(core, after);
  }

  /** `strings.Split(text, ".")` */
  function Split(text: string): (parts: seq<string>)
    ensures |parts| >= 1
  {
    if text == "" then [""]
    else
      var rest := Split(text[1..]);
      if text[0] == '.' then [""] + rest else [[text[0]] + rest[0]] + rest[1..]
  }

  lemma {:induction false} SplitPlain(text: string)
    requires '.' !in text
    ensures Split(text) == [text]
  {
    if text != "" {
      SplitPlain(text[1..]);
      assert [text[0]] + text[1..] == text;
    }
  }

  lemma {:induction false} SplitAtDot(a: string, b: string)
    requires '.' !in a
    ensures Split(a + "." + b) == [a] + Split(b)
  {
    if a == "" {
      assert (a + "." + b)[1..] == b;
    } else {
      SplitAtDot(a[1..], b);
      assert (a + "." + b)[1..] == a[1..] + "." + b;
      assert [a[0]] + a[1..] == a;
    }
  }

  /** The parts of a split, put together with dots, are the text. */
  lemma {:induction false} SplitJoins(text: string)
    ensures |Split(text)| == 1 ==> text == Split(text)[0]
    ensures |Split(text)| == 2 ==> text == Split(text)[0] + "." + Split(text)[1]
  {
    if text != "" {
      SplitJoins(text[1..]);
      assert text == [text[0]] + text[1..];
    }
  }

  // ---------------------------------------------------------------- the parser

  function Signed(negative: bool, n: nat): int {
    if negative then 0 - n else n
  }

  /** `parseDecimal` after the sign. */
  function ParseUnsigned(negative: bool, text: string): Parsed {
    var parts := Split(text);
    if text == "" || |parts| > 2 then Bad(Invalid)
    else
      var whole := if parts[0] == "" then "0" else parts[0];
      var fraction := if |parts| == 2 then parts[1] else "";
      if !AllDigits(whole) || !AllDigits(fraction) then Bad(Invalid)
      else if |fraction| > DECIMALS then Bad(TooPrecise)
      else
        NatOfJoin(whole, fraction + Zeros(DECIMALS - |fraction|));
        var value := Signed(negative, NatOf(whole + (fraction + Zeros(DECIMALS - |fraction|))));
        if IsInt64(value) then Number(value) else Bad(TooLarge)
  }

  function Parse(text: string): Parsed {
    var trimmed := Trim(text);
    if trimmed == "" then Bad(Required)
    else if trimmed[0] == '-' then ParseUnsigned(true, trimmed[1..])
    else if trimmed[0] == '+' then ParseUnsigned(false, trimmed[1..])
    else ParseUnsigned(false, trimmed)
  }

  /** `parseDecimal` */
  method ParseDecimal(text: string) returns (r: Parsed)
    ensures r == Parse(text)
  {
    hide NatOf, Pow10, Zeros, Split, Trim, IsInt64;
    var trimmed := Trim(text);
    if trimmed == "" { return Bad(Required); }
    var negative := false;
    if trimmed[0] == '-' {
      negative := true;
      trimmed := trimmed[1..];
    } else if trimmed[0] == '+' {
      trimmed := trimmed[1..];
    }
    if trimmed == "" { return Bad(Invalid); }

    var parts := Split(trimmed);
    if |parts| > 2 { return Bad(Invalid); }
    var whole := parts[0];
    var fraction := "";
    if |parts| == 2 { fraction := parts[1]; }
    if whole == "" { whole := "0"; }

    var wholeDigits := IsDigits(whole);
    var fractionDigits := IsDigits(fraction);
    if !wholeDigits || !fractionDigits { return Bad(Invalid); }
    if |fraction| > DECIMALS { return Bad(TooPrecise); }
    fraction := fraction + Zeros(DECIMALS - |fraction|);

    NatOfJoin(whole, fraction);
    var number: int := NatOf(whole + fraction);
    if negative { number := -number; }
    if !IsInt64(number) { return Bad(TooLarge); }
    return Number(number);
  }

  // ---------------------------------------------------------------- the grammar

  /** [space] [sign] digits [. digits] [space], not without any digit or dot. */
  datatype Numeral = Numeral(before: string, sign: string, whole: string, dotted: bool, fraction: string, after: string)

  function Spelled(n: Numeral): string {
    n.before + (n.sign + (n.whole + if n.dotted then "." + n.fraction else "")) + n.after
  }

  predicate IsNumeral(n: Numeral) {
    && AllSpace(n.before) && AllSpace(n.after)
    && n.sign in {"", "+", "-"}
    && AllDigits(n.whole) && AllDigits(n.fraction)
    && (!n.dotted ==> n.whole != "" && n.fraction == "")
  }

  predicate WellSpelled(n: Numeral) {
    IsNumeral(n) && |n.fraction| <= DECIMALS
  }

  function Denoted(n: Numeral): int
    requires WellSpelled(n)
  {
    Signed(n.sign == "-", NatOf(n.whole) * SCALE + NatOf(n.fraction) * Pow10(DECIMALS - |n.fraction|))
  }

  lemma DigitsAreNeither(text: string)
    requires AllDigits(text)
    ensures '.' !in text
    ensures text != "" ==> !IsSpace(text[0]) && !IsSpace(text[|text| - 1]) && text[0] != '-' && text[0] != '+'
  {
    if text != "" { assert text[0] in text && text[|text| - 1] in text; }
  }

  lemma PaddedValue(whole: string, fraction: string)
    requires AllDigits(whole) && AllDigits(fraction) && |fraction| <= DECIMALS
    ensures var padded := fraction + Zeros(DECIMALS - |fraction|);
      && AllDigits(whole + padded)
      && NatOf(whole + padded) == NatOf(whole) * SCALE + NatOf(fraction) * Pow10(DECIMALS - |fraction|)
  {
    hide NatOf, Pow10, Zeros;
    var zeros := Zeros(DECIMALS - |fraction|);
    NatOfJoin(fraction, zeros);
    ZerosAreZero(DECIMALS - |fraction|);
    NatOfJoin(whole, fraction + zeros);
    TenToTheEighth();
  }

  lemma TenToTheEighth()
    ensures Pow10(DECIMALS) == SCALE
  {
    assert Pow10(4) == 10000;
    assert Pow10(8) == 10000 * Pow10(4);
  }

  lemma DigitsSplit(whole: string, dotted: bool, fraction: string)
    requires AllDigits(whole) && AllDigits(fraction)
    ensures Split(whole + if dotted then "." + fraction else "") == if dotted then [whole, fraction] else [whole]
  {
    hide Split;
    DigitsAreNeither(whole);
    DigitsAreNeither(fraction);
    if dotted {
      SplitAtDot(whole, fraction);
      SplitPlain(fraction);
      assert whole + "." + fraction == whole + ("." + fraction);
    } else {
      SplitPlain(whole);
      assert whole + "" == whole;
    }
  }

  lemma NoDigitsIsZero()
    ensures AllDigits("0") && NatOf("0") == NatOf("")
  {
    assert "0"[..0] == "";
  }

  lemma UnsignedDenotes(negative: bool, whole: string, dotted: bool, fraction: string)
    requires AllDigits(whole) && AllDigits(fraction) && |fraction| <= DECIMALS
    requires !dotted ==> whole != "" && fraction == ""
    ensures var value := Signed(negative, NatOf(whole) * SCALE + NatOf(fraction) * Pow10(DECIMALS - |fraction|));
      ParseUnsigned(negative, whole + if dotted then "." + fraction else "")
      == if IsInt64(value) then Number(value) else Bad(TooLarge)
  {
    hide NatOf, Pow10, Zeros, Split, AllDigits, IsInt64, Signed;
    NoDigitsIsZero();
    var text := whole + if dotted then "." + fraction else "";
    DigitsSplit(whole, dotted, fraction);
    var part := if whole == "" then "0" else whole;
    PaddedValue(part, fraction);
    assert NatOf(part) == NatOf(whole);
    assert text != "" by { if dotted { assert |text| >= 1; } }
    var parts := Split(text);
    assert parts[0] == whole && fraction == if |parts| == 2 then parts[1] else "";
  }

  /** A sign is read off the front of digits; without one the digits start at once. */
  lemma SignReads(sign: string, digits: string)
    requires sign in {"", "+", "-"} && digits != "" && digits[0] != '-' && digits[0] != '+'
    requires NoSpaceAround(digits)
    ensures var core := sign + digits;
      && core != "" && NoSpaceAround(core)
      && (sign == "" ==> core[0] != '-' && core[0] != '+' && core == digits)
      && (sign != "" ==> core[0] == sign[0] && core[1..] == digits)
  {
  }

  lemma DigitsAreSolid(whole: string, dotted: bool, fraction: string)
    requires AllDigits(whole) && AllDigits(fraction) && (!dotted ==> whole != "" && fraction == "")
    ensures var digits := whole + if dotted then "." + fraction else "";
      digits != "" && digits[0] != '-' && digits[0] != '+' && NoSpaceAround(digits)
  {
    hide AllDigits;
    DigitsAreNeither(whole);
    DigitsAreNeither(fraction);
    var digits := whole + if dotted then "." + fraction else "";
    if dotted {
      assert digits[|whole|] == '.';
      if fraction != "" { assert digits[|digits| - 1] == fraction[|fraction| - 1]; }
    }
    if whole != "" { assert digits[0] == whole[0]; }
  }

  /** A well-spelled numeral parses to what it denotes, or overflows. */
  lemma SpelledParses(n: Numeral)
    requires WellSpelled(n)
    ensures Parse(Spelled(n)) == if IsInt64(Denoted(n)) then Number(Denoted(n)) else Bad(TooLarge)
  {
    hide NatOf, Pow10, Zeros, Split, Trim, ParseUnsigned, Signed, AllDigits, AllSpace, NoSpaceAround, IsInt64;
    var digits := n.whole + if n.dotted then "." + n.fraction else "";
    DigitsAreSolid(n.whole, n.dotted, n.fraction);
    SignReads(n.sign, digits);
    TrimOf(n.before, n.sign + digits, n.after);
    UnsignedDenotes(n.sign == "-", n.whole, n.dotted, n.fraction);
  }

  /** Digits that are not invalid are a whole part, perhaps a dot and a fraction. */
  lemma UnsignedIsSpelled(negative: bool, text: string) returns (whole: string, dotted: bool, fraction: string)
    requires ParseUnsigned(negative, text) != Bad(Invalid)
    ensures text == whole + if dotted then "." + fraction else ""
    ensures AllDigits(whole) && AllDigits(fraction)
    ensures !dotted ==> whole != "" && fraction == ""
  {
    hide NatOf, Zeros, Split, Signed;
    SplitJoins(text);
    var parts := Split(text);
    whole, dotted := parts[0], |parts| == 2;
    if dotted {
      fraction := parts[1];
      assert whole + "." + fraction == whole + ("." + fraction);
    } else {
      fraction := "";
      assert whole + "" == whole;
    }
  }

  /** Whatever is neither missing nor invalid is a numeral. */
  lemma ParsedIsSpelled(text: string) returns (n: Numeral)
    requires Parse(text) != Bad(Required) && Parse(text) != Bad(Invalid)
    ensures IsNumeral(n) && Spelled(n) == text
  {
    hide ParseUnsigned, Trim, IsSpace, AllSpace, AllDigits;
    var before, after := TrimSplits(text);
    var trimmed := Trim(text);
    var sign := if trimmed[0] == '-' then "-" else if trimmed[0] == '+' then "+" else "";
    var digits := if sign == "" then trimmed else trimmed[1..];
    assert sign + digits == trimmed;
    var whole, dotted, fraction := UnsignedIsSpelled(sign == "-", digits);
    n := Numeral(before, sign, whole, dotted, fraction, after);
  }

  lemma UnsignedTooPrecise(negative: bool, whole: string, fraction: string)
    requires AllDigits(whole) && AllDigits(fraction) && |fraction| > DECIMALS
    ensures ParseUnsigned(negative, whole + ("." + fraction)) == Bad(TooPrecise)
  {
    hide NatOf, Pow10, Zeros, Split, AllDigits, IsInt64, Signed;
    NoDigitsIsZero();
    DigitsSplit(whole, true, fraction);
    assert (whole + ("." + fraction))[|whole|] == '.';
  }

  /** Any numeral parses, overflows, or has too many decimals: never more than one of the three. */
  lemma NumeralParses(n: Numeral)
    requires IsNumeral(n)
    ensures Parse(Spelled(n)) ==
      if |n.fraction| > DECIMALS then Bad(TooPrecise)
      else if IsInt64(Denoted(n)) then Number(Denoted(n)) else Bad(TooLarge)
  {
    hide NatOf, Pow10, Zeros, Split, Trim, ParseUnsigned, Signed, AllDigits, AllSpace, NoSpaceAround, IsInt64;
    if |n.fraction| <= DECIMALS {
      SpelledParses(n);
    } else {
      var digits := n.whole + ("." + n.fraction);
      DigitsAreSolid(n.whole, n.dotted, n.fraction);
      SignReads(n.sign, digits);
      TrimOf(n.before, n.sign + digits, n.after);
      UnsignedTooPrecise(n.sign == "-", n.whole, n.fraction);
    }
  }

  lemma BlankIff(text: string)
    ensures Trim(text) == "" <==> AllSpace(text)
  {
    var before, after := TrimSplits(text);
    var trimmed := Trim(text);
    if trimmed != "" {
      assert text[|before|] == trimmed[0] && text[|before|] in text;
    } else {
      assert text == before + after;
    }
  }

  lemma UnsignedNeverRequired(negative: bool, text: string)
    ensures ParseUnsigned(negative, text) != Bad(Required)
  {
    hide NatOf, Zeros, Split, Signed, AllDigits;
  }

  /**
    Which error: a blank text is missing, a numeral with more than eight decimals is too precise,
    and any other text that is not a numeral is invalid.
  */
  lemma ErrorsIff(text: string)
    ensures Parse(text) == Bad(Required) <==> AllSpace(text)
    ensures Parse(text) == Bad(TooPrecise) <==> exists n :: IsNumeral(n) && Spelled(n) == text && |n.fraction| > 8
    ensures Parse(text) == Bad(Invalid) <==> !AllSpace(text) && !exists n :: IsNumeral(n) && Spelled(n) == text
  {
    hide ParseUnsigned, Trim, AllSpace, IsNumeral, Spelled;
    BlankIff(text);
    UnsignedNeverRequired(true, Trim(text)[if Trim(text) == "" then 0 else 1..]);
    UnsignedNeverRequired(false, Trim(text)[if Trim(text) == "" then 0 else 1..]);
    UnsignedNeverRequired(false, Trim(text));
    if Parse(text) != Bad(Required) && Parse(text) != Bad(Invalid) {
      var n := ParsedIsSpelled(text);
      NumeralParses(n);
    }
    if n :| IsNumeral(n) && Spelled(n) == text && |n.fraction| > 8 {
      NumeralParses(n);
    }
    if n :| IsNumeral(n) && Spelled(n) == text {
      NumeralParses(n);
      NumeralsAreNotBlank(n);
    }
  }

  lemma NumeralsAreNotBlank(n: Numeral)
    requires IsNumeral(n)
    ensures !AllSpace(Spelled(n))
  {
    hide AllDigits, AllSpace;
    var digits := n.whole + if n.dotted then "." + n.fraction else "";
    DigitsAreSolid(n.whole, n.dotted, n.fraction);
    SignReads(n.sign, digits);
    TrimOf(n.before, n.sign + digits, n.after);
    BlankIff(Spelled(n));
  }

  /** The parser accepts exactly the grammar, with exactly its meaning. */
  lemma ParseIff(text: string, value: int)
    ensures Parse(text) == Number(value)
            <==> IsInt64(value) && exists n :: WellSpelled(n) && Spelled(n) == text && Denoted(n) == value
    ensures Parse(text) == Bad(TooLarge)
            <==> exists n :: WellSpelled(n) && Spelled(n) == text && !IsInt64(Denoted(n))
  {
    if Parse(text) == Number(value) || Parse(text) == Bad(TooLarge) {
      var n := ParsedIsSpelled(text);
      NumeralParses(n);
    }
    if n :| WellSpelled(n) && Spelled(n) == text && Denoted(n) == value {
      SpelledParses(n);
    }
    if n :| WellSpelled(n) && Spelled(n) == text && !IsInt64(Denoted(n)) {
      SpelledParses(n);
    }
  }

  // ---------------------------------------------------------------- the printer

  /** `formatDecimal`; the smallest int64 has no positive counterpart and is spelled out. */
  function Format(value: int): string {
    if value == MIN_INT64 then "-92233720368.54775808"
    else
      var n: nat := if value < 0 then -value else value;
      (if value < 0 then "-" else "") + NatText(n / SCALE) + "." + FixedText(n % SCALE, DECIMALS)
  }

  function Printed(value: int): Numeral {
    var n: nat := if value < 0 then -value else value;
    Numeral("", if value < 0 then "-" else "", NatText(n / SCALE), true, FixedText(n % SCALE, DECIMALS), "")
  }

  lemma SmallestSpelledOut()
    ensures Format(MIN_INT64) == Spelled(Printed(MIN_INT64))
  {
    hide NatText, FixedText;
    var n := 0x8000_0000_0000_0000;
    assert n / SCALE == 92233720368 && n % SCALE == 54775808;
    SmallestWhole();
    SmallestFraction();
  }

  lemma SmallestWhole()
    ensures NatText(92233720368) == "92233720368"
  {
    assert NatText(9) == "9";
    assert NatText(92) == "92";
    assert NatText(922) == "922";
    assert NatText(9223) == "9223";
    assert NatText(92233) == "92233";
    assert NatText(922337) == "922337";
    assert NatText(9223372) == "9223372";
    assert NatText(92233720) == "92233720";
    assert NatText(922337203) == "922337203";
    assert NatText(9223372036) == "9223372036";
  }

  lemma SmallestFraction()
    ensures FixedText(54775808, 8) == "54775808"
  {
    assert FixedText(5, 1) == "5";
    assert FixedText(54, 2) == "54";
    assert FixedText(547, 3) == "547";
    assert FixedText(5477, 4) == "5477";
    assert FixedText(54775, 5) == "54775";
    assert FixedText(547758, 6) == "547758";
    assert FixedText(5477580, 7) == "5477580";
  }

  lemma PrintedSpells(value: int)
    ensures WellSpelled(Printed(value)) && Format(value) == Spelled(Printed(value)) && Denoted(Printed(value)) == value
  {
    PrintedDenotes(value);
    hide WellSpelled, Denoted, NatText, FixedText;
    if value == MIN_INT64 {
      SmallestSpelledOut();
    } else {
      var p := Printed(value);
      assert Spelled(p) == p.sign + p.whole + "." + p.fraction;
    }
  }

  lemma PrintedDenotes(value: int)
    ensures WellSpelled(Printed(value)) && Denoted(Printed(value)) == value
  {
    var n: nat := if value < 0 then -value else value;
    NatOfText(n / SCALE);
    TenToTheEighth();
    NatOfFixed(n % SCALE, DECIMALS);
    assert Pow10(0) == 1;
    hide NatOf, Pow10, NatText, FixedText, AllDigits, IsSpace;
    assert n / SCALE * SCALE + n % SCALE == n;
  }

  /** Printing and parsing gives every int64 back, the smallest included. */
  lemma FormatRoundTrip(value: int)
    requires IsInt64(value)
    ensures Parse(Format(value)) == Number(value)
  {
    PrintedSpells(value);
    SpelledParses(Printed(value));
  }

  // ---------------------------------------------------------------- canonical text

  /** Minus sign or nothing, no leading zero, eight decimals, no negative zero. */
  predicate CanonicalParts(n: Numeral) {
    && n.before == "" && n.after == "" && n.dotted
    && n.sign in {"", "-"}
    && Plain(n.whole)
    && |n.fraction| == DECIMALS && AllDigits(n.fraction)
    && (n.sign == "-" ==> n.whole != "0" || NatOf(n.fraction) != 0)
  }

  ghost predicate Canonical(text: string) {
    exists n :: CanonicalParts(n) && text == Spelled(n)
  }

  lemma PrintedIsCanonical(value: int)
    ensures CanonicalParts(Printed(value))
  {
    var n: nat := if value < 0 then -value else value;
    TextIsPlain(n / SCALE);
    TextOfNat(NatText(n / SCALE));
    NatOfText(n / SCALE);
    TenToTheEighth();
    NatOfFixed(n % SCALE, DECIMALS);
  }

  lemma CanonicalIsPrinted(n: Numeral)
    requires CanonicalParts(n)
    ensures WellSpelled(n) && Printed(Denoted(n)) == n
  {
    CanonicalDigits(n);
    hide CanonicalParts, WellSpelled, NatOf, Pow10, NatText, FixedText, AllDigits;
    QuotientAndRemainder(NatOf(n.whole), NatOf(n.fraction));
  }

  lemma CanonicalDigits(n: Numeral)
    requires CanonicalParts(n)
    ensures WellSpelled(n) && n.before == n.after == "" && n.dotted
    ensures var w, f := NatOf(n.whole), NatOf(n.fraction);
      && f < SCALE && NatText(w) == n.whole && FixedText(f, DECIMALS) == n.fraction
      && n.sign == (if Denoted(n) < 0 then "-" else "")
      && Denoted(n) == Signed(n.sign == "-", w * SCALE + f)
  {
    hide NatText, FixedText, IsSpace, NatOf;
    TenToTheEighth();
    assert Pow10(0) == 1;
    FixedOfNat(n.fraction);
    TextOfNat(n.whole);
  }

  lemma QuotientAndRemainder(whole: nat, fraction: nat)
    requires fraction < SCALE
    ensures (whole * SCALE + fraction) / SCALE == whole && (whole * SCALE + fraction) % SCALE == fraction
  {
  }

  /** Each int64 has one canonical text, the printed one: printing is the inverse of parsing on canonical text. */
  lemma CanonicalIff(text: string, value: int)
    requires IsInt64(value)
    ensures Format(value) == text <==> Canonical(text) && Parse(text) == Number(value)
  {
    FormatRoundTrip(value);
    PrintedSpells(value);
    PrintedIsCanonical(value);
    if Canonical(text) && Parse(text) == Number(value) {
      var n :| CanonicalParts(n) && text == Spelled(n);
      CanonicalIsPrinted(n);
      SpelledParses(n);
    }
  }

  /** Any accepted text can be replaced by its canonical form without changing its value. */
  lemma Normalises(text: string)
    requires Parse(text).Number?
    ensures Canonical(Format(Parse(text).value)) && Parse(Format(Parse(text).value)) == Parse(text)
  {
    var n := ParsedIsSpelled(text);
    NumeralParses(n);
    CanonicalIff(Format(Parse(text).value), Parse(text).value);
  }
}
