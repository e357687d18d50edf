/** The JavaScript string and value primitives that the card generator leans on:
    request parameters and their truthiness, white space and `trim`,
    `split(' ')`, ASCII upper-casing, `String(n)` for integers, `parseInt`
    and the loose comparison `x == 1`. */
module JsText {

  datatype Option<T> = None | Some(value: T)

  /** A request parameter as the handler sees it: missing, a string (query
      strings, form bodies, JSON strings) or an integral JSON number. */
  datatype Param = Absent | Text(s: string) | Integer(n: int)

  /** JavaScript truthiness: `undefined`, `""` and `0` are falsy. */
  predicate Truthy(p: Param)
    ensures !Truthy(p) <==> p == Absent || p == Text("") || p == Integer(0)
  {
    match p
    case Absent => false
    case Text(s) => s != ""
    case Integer(n) => n != 0
  }

  /** `p || d` for a string default `d`. */
  function OrElse(p: Param, d: string): (r: Param)
    ensures Truthy(p) ==> r == p
    ensures !Truthy(p) ==> r == Text(d)
    ensures d != "" ==> Truthy(r)
  {
    if Truthy(p) then p else Text(d)
  }

  // ---------------------------------------------------------------------
  // White space and trim
  // ---------------------------------------------------------------------

  /** ECMAScript WhiteSpace and LineTerminator code points: what `trim`,
      `parseInt` and string-to-number conversion skip. */
  predicate IsSpace(c: char) {
    c == '\t' || c == '\n' || c == '\U{B}' || c == '\U{C}' || c == '\r' || c == ' '
    || c == '\U{A0}' || c == '\U{1680}' || ('\U{2000}' <= c <= '\U{200A}')
    || c == '\U{2028}' || c == '\U{2029}' || c == '\U{202F}' || c == '\U{205F}'
    || c == '\U{3000}' || c == '\U{FEFF}'
  }

  /** Number of white-space characters at the start of `s`. */
  function LeadingSpaces(s: string): (k: nat)
    ensures k <= |s|
    ensures forall i :: 0 <= i < k ==> IsSpace(s[i])
    ensures k < |s| ==> !IsSpace(s[k])
  {
    if s == [] || !IsSpace(s[0]) then 0 else 1 + LeadingSpaces(s[1..])
  }

  /** Number of white-space characters at the end of `s`. */
  function TrailingSpaces(s: string): (k: nat)
    ensures k <= |s|
    ensures forall i :: |s| - k <= i < |s| ==> IsSpace(s[i])
    ensures k < |s| ==> !IsSpace(s[|s| - 1 - k])
  {
    if s == [] || !IsSpace(s[|s| - 1]) then 0 else 1 + TrailingSpaces(s[..|s| - 1])
  }

  /** `String.prototype.trim`. */
  function Trim(s: string): (r: string)
    ensures |r| <= |s|
    ensures r == "" <==> forall i :: 0 <= i < |s| ==> IsSpace(s[i])
    ensures r != "" ==> !IsSpace(r[0]) && !IsSpace(r[|r| - 1])
  {
    var t := s[LeadingSpaces(s)..];
    t[..|t| - TrailingSpaces(t)]
  }

  /** What `Trim` keeps is a slice of `s` cut out between white space only. */
  lemma TrimCuts(s: string)
    ensures exists p, q ::
              (0 <= p <= q <= |s| && Trim(s) == s[p..q]
               && (forall i :: 0 <= i < p ==> IsSpace(s[i]))
               && (forall i :: q <= i < |s| ==> IsSpace(s[i])))
  {
    var p := LeadingSpaces(s);
    var t := s[p..];
    var q := p + |t| - TrailingSpaces(t);
    assert Trim(s) == s[p..q];
    assert forall i :: q <= i < |s| ==> s[i] == t[i - p];
  }

  /** Trimming a string that neither starts nor ends in white space changes nothing. */
  lemma TrimKeeps(s: string)
    requires s != [] ==> !IsSpace(s[0]) && !IsSpace(s[|s| - 1])
    ensures Trim(s) == s
  {
  }

  // ---------------------------------------------------------------------
  // split(' ') and its inverse join(' ')
  // ---------------------------------------------------------------------

  /** `words.join(' ')`. */
  function Join(ws: seq<string>): string
    requires |ws| >= 1
  {
    if |ws| == 1 then ws[0] else ws[0] + " " + Join(ws[1..])
  }

  /** `s.split(' ')`: cut at every single space, so that consecutive spaces and
      spaces at either end produce empty words. */
  function Split(s: string): (ws: seq<string>)
    ensures |ws| >= 1
    ensures forall i :: 0 <= i < |ws| ==> ' ' !in ws[i]
    ensures Join(ws) == s
    decreases |s|
  {
    if s == [] then [""]
    else if s[0] == ' ' then [""] + Split(s[1..])
    else
      var rest := Split(s[1..]);
      assert Join(rest) == s[1..];
      JoinHead([s[0]] + rest[0], rest[1..]);
      JoinHead(rest[0], rest[1..]);
      assert rest == [rest[0]] + rest[1..];
      [[s[0]] + rest[0]] + rest[1..]
  }

  /** Joining a word in front of a list puts it first, followed by a space. */
  lemma JoinHead(w: string, ws: seq<string>)
    ensures Join([w] + ws) == if ws == [] then w else w + " " + Join(ws)
  {
    if ws != [] {
      assert ([w] + ws)[1..] == ws;
    }
  }

  /** Joining two non-empty lists of words puts one space between their joins. */
  lemma {:induction false} JoinAppend(a: seq<string>, b: seq<string>)
    requires |a| >= 1 && |b| >= 1
    ensures Join(a + b) == Join(a) + " " + Join(b)
  {
    if |a| == 1 {
      JoinHead(a[0], b);
      assert a + b == [a[0]] + b;
    } else {
      JoinAppend(a[1..], b);
      assert (a + b)[1..] == a[1..] + b;
      assert Join(a + b) == a[0] + " " + Join(a[1..] + b);
    }
  }

  /** Splitting a word without spaces yields that word alone. */
  lemma {:induction false} SplitWord(w: string)
    requires ' ' !in w
    ensures Split(w) == [w]
    decreases |w|
  {
    if w != [] {
      assert w[0] in w;
      assert forall c :: c in w[1..] ==> c in w;
      SplitWord(w[1..]);
      assert [w[0]] + w[1..] == w;
    }
  }

  /** A string splits into exactly one word if and only if it holds no space. */
  lemma SingleWordIff(s: string)
    ensures |Split(s)| == 1 <==> ' ' !in s
  {
    if ' ' !in s {
      SplitWord(s);
    }
  }

  /** `split(' ')` followed by `join(' ')` is the identity on words that contain
      no space. */
  lemma {:induction false} SplitJoin(ws: seq<string>)
    requires |ws| >= 1
    requires forall i :: 0 <= i < |ws| ==> ' ' !in ws[i]
    ensures Split(Join(ws)) == ws
  {
    if |ws| == 1 {
      SplitWord(ws[0]);
    } else {
      SplitJoin(ws[1..]);
      SplitAfterWord(ws[0], Join(ws[1..]));
      assert ws == [ws[0]] + ws[1..];
    }
  }

  /** A word without spaces, a space, and then `t` splits into that word and the
      words of `t`. */
  lemma {:induction false} SplitAfterWord(w: string, t: string)
    requires ' ' !in w
    ensures Split(w + " " + t) == [w] + Split(t)
    decreases |w|
  {
    if w == [] {
      assert w + " " + t == [' '] + t;
      assert (w + " " + t)[1..] == t;
    } else {
      var s := w + " " + t;
      assert s[0] == w[0] != ' ';
      assert s[1..] == w[1..] + " " + t;
      assert ' ' !in w[1..] by { assert forall c :: c in w[1..] ==> c in w; }
      SplitAfterWord(w[1..], t);
      var rest := Split(s[1..]);
      assert rest[0] == w[1..] && rest[1..] == Split(t);
      assert [s[0]] + rest[0] == w;
    }
  }

  // ---------------------------------------------------------------------
  // Upper-casing
  // ---------------------------------------------------------------------

  /** `toUpperCase` on one character, over ASCII letters. */
  function UpperChar(c: char): char {
    if 'a' <= c <= 'z' then (c as int - 32) as char else c
  }

  /** `toUpperCase` over ASCII letters: every other character is kept. */
  function Upper(s: string): (r: string)
    ensures |r| == |s|
    ensures forall i :: 0 <= i < |s| ==> r[i] == UpperChar(s[i])
  {
    seq(|s|, i requires 0 <= i < |s| => UpperChar(s[i]))
  }

  // ---------------------------------------------------------------------
  // Digits, String(n) and parseInt
  // ---------------------------------------------------------------------

  predicate IsDecimalDigit(c: char) {
    '0' <= c <= '9'
  }

  /** The value of `c` read as a digit of base 36, or 36 if it is no digit. */
  function DigitValue(c: char): (v: nat)
    ensures v <= 36
  {
    if '0' <= c <= '9' then c as int - '0' as int
    else if 'a' <= c <= 'z' then c as int - 'a' as int + 10
    else if 'A' <= c <= 'Z' then c as int - 'A' as int + 10
    else 36
  }

  predicate IsRadixDigit(c: char, radix: nat) {
    DigitValue(c) < radix
  }

  /** The character that prints the decimal digit `d`. */
  function DigitChar(d: nat): (c: char)
    requires d < 10
    ensures IsDecimalDigit(c) && DigitValue(c) == d
  {
    ('0' as int + d) as char
  }

  /** `String(n)` for a natural number: its decimal digits, most significant first. */
  function Decimal(n: nat): (r: string)
    ensures 1 <= |r|
    ensures forall i :: 0 <= i < |r| ==> IsDecimalDigit(r[i])
    ensures n > 0 ==> r[0] != '0'
  {
    if n < 10 then [DigitChar(n)] else Decimal(n / 10) + [DigitChar(n % 10)]
  }

  /** `String(n)` for an integer. */
  function IntText(n: int): (r: string)
    ensures r != "" && (r[0] == '-' <==> n < 0)
    ensures forall i :: (if n < 0 then 1 else 0) <= i < |r| ==> IsDecimalDigit(r[i])
  {
    if n < 0 then "-" + Decimal(-n) else Decimal(n)
  }

  /** Number of characters at the start of `s` that are digits of base `radix`. */
  function DigitRun(s: string, radix: nat): (k: nat)
    ensures k <= |s|
    ensures forall i :: 0 <= i < k ==> IsRadixDigit(s[i], radix)
    ensures k < |s| ==> !IsRadixDigit(s[k], radix)
  {
    if s == [] || !IsRadixDigit(s[0], radix) then 0 else 1 + DigitRun(s[1..], radix)
  }

  /** The number that the digits `ds` denote in base `radix`. */
  function Value(ds: string, radix: nat): nat {
    if ds == [] then 0
    else Value(ds[..|ds| - 1], radix) * radix + DigitValue(ds[|ds| - 1])
  }

  /** `10` raised to `e`. */
  function Pow10(e: nat): (r: nat)
    ensures r >= 1
  {
    if e == 0 then 1 else 10 * Pow10(e - 1)
  }

  /** Reading back the decimal digits of `n` gives `n`. */
  lemma {:induction false} ValueOfDecimal(n: nat)
    ensures Value(Decimal(n), 10) == n
  {
    if n >= 10 {
      ValueOfDecimal(n / 10);
      var d := Decimal(n);
      assert d[..|d| - 1] == Decimal(n / 10);
    }
  }

  /** The unsigned part of `parseInt`: base 16 after `0x` or `0X`, base 10
      otherwise, reading the longest run of digits; `None` when there is none. */
  function ParseUnsigned(u: string): Option<nat> {
    var hex := |u| >= 2 && u[0] == '0' && (u[1] == 'x' || u[1] == 'X');
    var radix := if hex then 16 else 10;
    var digits := if hex then u[2..] else u;
    var k := DigitRun(digits, radix);
    if k == 0 then None else Some(Value(digits[..k], radix))
  }

  /** `parseInt(s)` with no radix: skip leading white space, take an optional
      sign, then read digits as `ParseUnsigned` does; `None` stands for `NaN`. */
  function ParseIntText(s: string): (r: Option<int>)
    ensures (forall i :: 0 <= i < |s| ==> IsSpace(s[i])) ==> r == None
    ensures r.Some? && r.value < 0 ==> LeadingSpaces(s) < |s| && s[LeadingSpaces(s)] == '-'
  {
    var t := s[LeadingSpaces(s)..];
    var negative := |t| > 0 && t[0] == '-';
    var u := if |t| > 0 && (t[0] == '-' || t[0] == '+') then t[1..] else t;
    match ParseUnsigned(u)
    case None => None
    case Some(v) => Some(if negative then 0 - v else v)
  }

  /** The unsigned reader reads back the decimal digits of `m`. */
  lemma ParseUnsignedDecimal(m: nat)
    ensures ParseUnsigned(Decimal(m)) == Some(m)
  {
    var d := Decimal(m);
    ValueOfDecimal(m);
    assert DigitRun(d, 10) == |d|;
    assert d[..|d|] == d;
  }

  /** `parseInt` reads back exactly the integer that `String(n)` printed. */
  lemma ParseIntOfIntText(n: int)
    ensures ParseIntText(IntText(n)) == Some(n)
  {
    var m: nat := if n < 0 then -n else n;
    var s := IntText(n);
    ParseUnsignedDecimal(m);
    assert !IsSpace(s[0]);
    assert s[LeadingSpaces(s)..] == s;
    if n < 0 {
      assert s[1..] == Decimal(m);
    }
  }

  /** `parseInt(undefined)` reads the text "undefined", which has no digits. */
  lemma UndefinedIsNaN()
    ensures ParseIntText("undefined") == None
  {
    var s := "undefined";
    assert !IsSpace(s[0]);
    assert s[LeadingSpaces(s)..] == s;
    assert !IsRadixDigit(s[0], 10);
    assert DigitRun(s, 10) == 0;
  }

  /** `parseInt` stops at the first character that is not a digit: digits
      followed by any other text (`"3px"`, `"03"`) read as the digits alone,
      unless the text turns a lone `0` into a `0x` prefix. */
  lemma {:induction false} ParseIntStopsAtNonDigit(ds: string, t: string)
    requires ds != [] && forall i :: 0 <= i < |ds| ==> IsDecimalDigit(ds[i])
    requires t == [] || !IsDecimalDigit(t[0])
    requires ds != "0" || t == [] || (t[0] != 'x' && t[0] != 'X')
    ensures ParseIntText(ds + t) == Some(Value(ds, 10) as int)
  {
    var u := ds + t;
    assert !IsSpace(u[0]);
    assert u[LeadingSpaces(u)..] == u;
    assert forall i :: 0 <= i < |ds| ==> u[i] == ds[i] && IsRadixDigit(u[i], 10);
    if t != [] {
      assert u[|ds|] == t[0] && !IsRadixDigit(u[|ds|], 10);
    }
    assert DigitRun(u, 10) == |ds|;
    assert u[..|ds|] == ds;
  }

  /** `parseInt(p)` for a parameter: a number goes through `String(n)` first;
      a missing parameter is the text "undefined". */
  function ParseIntParam(p: Param): (r: Option<int>)
    ensures p.Integer? ==> r == Some(p.n)
    ensures p == Absent ==> r == None
  {
    ParseIntOfIntText(if p.Integer? then p.n else 0);
    UndefinedIsNaN();
    match p
    case Absent => ParseIntText("undefined")
    case Text(s) => ParseIntText(s)
    case Integer(n) => ParseIntText(IntText(n))
  }

  // ---------------------------------------------------------------------
  // The loose comparison `x == 1`
  // ---------------------------------------------------------------------

  /** The exponent part of a decimal literal: empty (exponent 0), or `e`/`E`,
      an optional sign and at least one digit, up to the end of the text. */
  function ExponentPart(s: string): Option<int> {
    if s == [] then Some(0)
    else if s[0] != 'e' && s[0] != 'E' then None
    else
      var t := s[1..];
      var negative := |t| > 0 && t[0] == '-';
      var ds := if |t| > 0 && (t[0] == '-' || t[0] == '+') then t[1..] else t;
      if ds != [] && DigitRun(ds, 10) == |ds| then
        var v: int := Value(ds, 10);
        Some(if negative then -v else v)
      else None
  }

  /** The text is an unsigned decimal literal (`12`, `1.`, `.5`, `1.0e0`, ...)
      whose exact value is 1: mantissa digits M with f of them after the point
      and exponent e denote M * 10^(e - f). */
  predicate DecimalLiteralIsOne(u: string) {
    var i := DigitRun(u, 10);
    var rest := if i < |u| && u[i] == '.' then u[i + 1..] else u[i..];
    var f := DigitRun(rest, 10);
    var e := ExponentPart(rest[f..]);
    i + f > 0 && e.Some? && f - e.value >= 0
    && Value(u[..i] + rest[..f], 10) == Pow10(f - e.value)
  }

  /** A string is loosely equal to 1 when its numeric value is 1: surrounding
      white space is ignored, and the rest is a decimal literal with an
      optional `+`, or a `0x`, `0o` or `0b` literal without sign. */
  predicate TextEqualsOne(s: string)
    ensures TextEqualsOne(s) ==> Trim(s) != ""
  {
    var t := Trim(s);
    if |t| >= 2 && t[0] == '0' && t[1] in "xXoObB" then
      var radix := if t[1] in "xX" then 16 else if t[1] in "oO" then 8 else 2;
      var ds := t[2..];
      ds != [] && DigitRun(ds, radix) == |ds| && Value(ds, radix) == 1
    else
      DecimalLiteralIsOne(if |t| > 0 && t[0] == '+' then t[1..] else t)
  }

  /** `p == 1` with JavaScript's loose equality. */
  predicate LooselyEqualsOne(p: Param)
    ensures LooselyEqualsOne(p) ==> Truthy(p)
  {
    match p
    case Absent => false
    case Text(s) => TextEqualsOne(s)
    case Integer(n) => n == 1
  }

  /** A number and its decimal text compare alike against 1. */
  lemma IntTextEqualsOneIff(n: int)
    ensures TextEqualsOne(IntText(n)) <==> n == 1
  {
    if n >= 0 {
      DecimalEqualsOneIff(n);
    } else {
      var t := IntText(n);
      TrimKeeps(t);
      PlainLiteral(t);
      NegativeLiteralIsNotOne(t);
    }
  }

  /** The decimal text of a natural number compares to 1 by its value. */
  lemma DecimalEqualsOneIff(n: nat)
    ensures TextEqualsOne(Decimal(n)) <==> n == 1
  {
    var t := Decimal(n);
    TrimKeeps(t);
    ValueOfDecimal(n);
    PlainLiteral(t);
    DigitsLiteralIsOne(t);
  }

  /** Trimmed text that starts with neither `0` followed by more, nor `+`, is
      compared to 1 as an unsigned decimal literal. */
  lemma PlainLiteral(t: string)
    requires Trim(t) == t && t != []
    requires !(|t| >= 2 && t[0] == '0') && t[0] != '+'
    ensures TextEqualsOne(t) <==> DecimalLiteralIsOne(t)
  {
  }

  /** A plain run of decimal digits denotes its own value. */
  lemma DigitsLiteralIsOne(ds: string)
    requires ds != [] && DigitRun(ds, 10) == |ds|
    ensures DecimalLiteralIsOne(ds) <==> Value(ds, 10) == 1
  {
    assert ds[|ds|..] == [];
    assert ds[..|ds|] + [] == ds;
  }

  /** Text starting with a minus sign is no unsigned decimal literal. */
  lemma NegativeLiteralIsNotOne(t: string)
    requires t != [] && t[0] == '-'
    ensures !DecimalLiteralIsOne(t)
  {
    assert DigitRun(t, 10) == 0;
    assert t[0..] == t;
  }
}
