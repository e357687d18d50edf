/** The student identifier printed on a card: the caller's own value when
    one is given, otherwise a generated one in one of two formats. The random
    draws are inputs: three numbers for the numeric format, three letter
    positions and nine digits for the alphanumeric one. */
module StudentId {
  import opened JsText

  /** The alphabet the alphanumeric format draws from. */
  const Letters: string := "ABCDEFGHIJKLMNOPQRSTUVWXYZ"

  /** The values `Math.random` supplies to one call, already scaled and
      floored: `part1` and `part2` in 100..999, `part3` in 1000..9999,
      three letter positions in 0..25 and nine digits in 0..9. */
  datatype Draws = Draws(part1: int, part2: int, part3: int, letters: seq<int>, digits: seq<int>)

  predicate ValidDraws(d: Draws) {
    100 <= d.part1 <= 999 && 100 <= d.part2 <= 999 && 1000 <= d.part3 <= 9999
    && |d.letters| == 3 && (forall i :: 0 <= i < 3 ==> 0 <= d.letters[i] < 26)
    && |d.digits| == 9 && (forall i :: 0 <= i < 9 ==> 0 <= d.digits[i] < 10)
  }

  /** `ddd-ddd-dddd`. */
  predicate IsNumericId(id: string) {
    |id| == 12 && id[3] == '-' && id[7] == '-'
    && forall i :: 0 <= i < 12 && i != 3 && i != 7 ==> IsDecimalDigit(id[i])
  }

  /** Three upper-case letters, then nine digits. */
  predicate IsAlphanumericId(id: string) {
    |id| == 12
    && (forall i :: 0 <= i < 3 ==> 'A' <= id[i] <= 'Z')
    && (forall i :: 3 <= i < 12 ==> IsDecimalDigit(id[i]))
  }

  /** A number with `k` decimal digits prints as exactly `k` characters. */
  lemma {:induction false} DecimalWidth(n: nat, k: nat)
    requires 1 <= k && Pow10(k - 1) <= n < Pow10(k)
    ensures |Decimal(n)| == k
  {
    if k > 1 {
      assert Pow10(k - 2) <= n / 10 < Pow10(k - 1);
      DecimalWidth(n / 10, k - 1);
    } else {
      assert n < 10;
    }
  }

  /** The numeric format: the three parts joined by hyphens. Each group reads
      back as the part it was printed from. */
  function NumericId(part1: int, part2: int, part3: int): (id: string)
    requires 100 <= part1 <= 999 && 100 <= part2 <= 999 && 1000 <= part3 <= 9999
    ensures IsNumericId(id)
    ensures Value(id[0..3], 10) == part1
    ensures Value(id[4..7], 10) == part2
    ensures Value(id[8..12], 10) == part3
  {
    DecimalWidth(part1, 3);
    DecimalWidth(part2, 3);
    DecimalWidth(part3, 4);
    ValueOfDecimal(part1);
    ValueOfDecimal(part2);
    ValueOfDecimal(part3);
    HyphenGroups(Decimal(part1), Decimal(part2), Decimal(part3));
    IntText(part1) + "-" + IntText(part2) + "-" + IntText(part3)
  }

  /** Digit groups of widths 3, 3 and 4 joined by hyphens have the numeric
      shape, and each group sits at its fixed position. */
  lemma HyphenGroups(a: string, b: string, c: string)
    requires |a| == 3 && |b| == 3 && |c| == 4
    requires forall i :: 0 <= i < |a| ==> IsDecimalDigit(a[i])
    requires forall i :: 0 <= i < |b| ==> IsDecimalDigit(b[i])
    requires forall i :: 0 <= i < |c| ==> IsDecimalDigit(c[i])
    ensures var id := a + "-" + b + "-" + c;
      IsNumericId(id) && id[0..3] == a && id[4..7] == b && id[8..12] == c
  {
    var id := a + "-" + b + "-" + c;
    assert forall i :: 0 <= i < 3 ==> id[i] == a[i];
    assert forall i :: 4 <= i < 7 ==> id[i] == b[i - 4];
    assert forall i :: 8 <= i < 12 ==> id[i] == c[i - 8];
  }

  /** `letters.charAt(k)`: the `k`-th letter after 'A', which reads back as
      digit `10 + k` of base 36. */
  function LetterOf(k: int): (c: char)
    requires 0 <= k < 26
    ensures c == ('A' as int + k) as char
    ensures 'A' <= c <= 'Z' && DigitValue(c) == 10 + k
  {
    Letters[k]
  }

  /** `String(d)` for one drawn digit: a single decimal digit of value `d`. */
  function DigitText(d: int): (r: string)
    requires 0 <= d < 10
    ensures r == IntText(d)
    ensures |r| == 1 && IsDecimalDigit(r[0]) && DigitValue(r[0]) == d
  {
    assert IntText(d) == [DigitChar(d)];
    IntText(d)
  }

  /** The alphanumeric format, built up one character at a time: three drawn
      letters, then nine drawn digits. Every letter and digit can be read
      back from the result. */
  method AlphanumericId(letterDraws: seq<int>, digitDraws: seq<int>) returns (id: string)
    requires |letterDraws| == 3 && forall i :: 0 <= i < 3 ==> 0 <= letterDraws[i] < 26
    requires |digitDraws| == 9 && forall i :: 0 <= i < 9 ==> 0 <= digitDraws[i] < 10
    ensures IsAlphanumericId(id)
    ensures forall i :: 0 <= i < 3 ==> id[i] == LetterOf(letterDraws[i]) && DigitValue(id[i]) == 10 + letterDraws[i]
    ensures forall j :: 0 <= j < 9 ==> DigitValue(id[3 + j]) == digitDraws[j]
  {
    id := "";
    for i := 0 to 3
      invariant |id| == i
      invariant forall k :: 0 <= k < i ==> id[k] == LetterOf(letterDraws[k])
    {
      id := id + [LetterOf(letterDraws[i])];
    }
    for i := 0 to 9
      invariant |id| == 3 + i
      invariant forall k :: 0 <= k < 3 ==> id[k] == LetterOf(letterDraws[k])
      invariant forall k :: 3 <= k < 3 + i ==> IsDecimalDigit(id[k]) && DigitValue(id[k]) == digitDraws[k - 3]
    {
      id := id + DigitText(digitDraws[i]);
    }
  }

  /** `format === '1' || format === 1`. */
  predicate IsNumericFormat(format: Param)
    ensures IsNumericFormat(format) ==> Truthy(format) && LooselyEqualsOne(format)
  {
    IntTextEqualsOneIff(1);
    assert IntText(1) == "1";
    format == Text("1") || format == Integer(1)
  }

  /** `generateStudentId(format)`: the numeric format for the string "1" or
      the number 1, the alphanumeric format for anything else. */
  method GenerateStudentId(format: Param, d: Draws) returns (id: string)
    requires ValidDraws(d)
    ensures IsNumericFormat(format) ==> id == NumericId(d.part1, d.part2, d.part3)
    ensures !IsNumericFormat(format) ==>
              (IsAlphanumericId(id)
               && (forall i :: 0 <= i < 3 ==> id[i] == LetterOf(d.letters[i]))
               && (forall j :: 0 <= j < 9 ==> DigitValue(id[3 + j]) == d.digits[j]))
  {
    if format == Text("1") || format == Integer(1) {
      id := NumericId(d.part1, d.part2, d.part3);
    } else {
      id := AlphanumericId(d.letters, d.digits);
    }
  }

  /** `String(value)` for a parameter that is present. */
  function ParamText(p: Param): (r: string)
    ensures p.Text? ==> r == p.s
    ensures p.Integer? ==> r == IntText(p.n) && ParseIntText(r) == Some(p.n)
    ensures Truthy(p) ==> r != ""
  {
    ParseIntOfIntText(if p.Integer? then p.n else 0);
    match p
    case Absent => "undefined"
    case Text(s) => s
    case Integer(n) => IntText(n)
  }

  /** `params.id_value || generateStudentId(params.id || '1')`: the caller's
      identifier when it is truthy; otherwise a generated one, numeric unless
      the `id` parameter asks for another format. */
  method DisplayedStudentId(idValue: Param, idFormat: Param, d: Draws) returns (text: string)
    requires ValidDraws(d)
    ensures Truthy(idValue) ==> text == ParamText(idValue)
    ensures !Truthy(idValue) && IsNumericFormat(OrElse(idFormat, "1")) ==>
              text == NumericId(d.part1, d.part2, d.part3) && IsNumericId(text)
    ensures !Truthy(idValue) && !IsNumericFormat(OrElse(idFormat, "1")) ==>
              (IsAlphanumericId(text)
               && (forall i :: 0 <= i < 3 ==> text[i] == LetterOf(d.letters[i]))
               && (forall j :: 0 <= j < 9 ==> DigitValue(text[3 + j]) == d.digits[j]))
  {
    if Truthy(idValue) {
      text := ParamText(idValue);
    } else {
      text := GenerateStudentId(OrElse(idFormat, "1"), d);
    }
  }

  /** Without an `id` parameter (or with an empty one, or the number 0) the
      numeric format is used; the text "01" or " 1" selects the alphanumeric
      format. */
  lemma DefaultFormatIsNumeric()
    ensures IsNumericFormat(OrElse(Absent, "1"))
    ensures IsNumericFormat(OrElse(Text(""), "1"))
    ensures IsNumericFormat(OrElse(Integer(0), "1"))
    ensures !IsNumericFormat(OrElse(Text("01"), "1"))
    ensures !IsNumericFormat(OrElse(Text(" 1"), "1"))
    ensures !IsNumericFormat(OrElse(Text("2"), "1"))
  {
  }
}
