# Student ID card generator: the decision logic of `/generate`

The service draws a student ID card on a 1280 × 804 canvas and returns it as
a PNG. This project models the text and layout decisions made while drawing
one card. It covers:

- which card family (`set1` or `set2`) and which background artwork a request selects;
- which institution name and address the card shows: a custom pair, the first
  college of the selected country in the college table, or literal defaults;
- how much of the address is printed;
- how the upper-cased institution name is wrapped greedily onto two lines, and
  where each line is drawn; a first word longer than 28 characters leaves
  line 1 empty and starts line 2 (`LongFirstWord`, `LongSingleWord`);
- how the student identifier is chosen or generated, in the `ddd-ddd-dddd`
  format or as three letters followed by nine digits;
- how the endpoint answers: 400 without a name, a JSON envelope around the PNG
  bytes when `rawByte == 1`, the PNG itself otherwise, and 500 when rendering
  fails.

The JavaScript semantics the code relies on are written out in `JsText`:
- truthiness and `||` defaults;
- `trim`, over the ECMAScript white-space set;
- `split(' ')`, which yields empty words for doubled spaces;
- `parseInt`, with leading white space, a sign, `0x` and the longest digit run;
- `String(n)`;
- the loose comparison `== 1`.

A request parameter is `Absent`, a string or an integer (`Param`). The random
draws of the identifier generator and the outcome of rendering are inputs.

Modules:
- `JsText` (jstext.dfy): the JavaScript string and number operations.
- `Templates` (templates.dfy): card family, artwork tables and style.
- `Institution` (institution.dfy): college table, country selection,
  custom name and address, address truncation.
- `CollegeNameLayout` (namelayout.dfy): the wrap loop, its functional
  specification and the anchor of each line.
- `StudentId` (studentid.dfy): the identifier generator and the
  `id_value` / `id` parameters.
- `Handler` (handler.dfy): the status and body of the response.

## Model

| member | source | states |
|---|---|---|
| JsText.Truthy | server.js:75 | a parameter is falsy exactly when it is missing, the empty string or the number 0 (also lines 136, 178, 282, 287) |
| JsText.OrElse | server.js:75 | `p || d` keeps a truthy parameter and otherwise gives the default text, so with a non-empty default the result is always truthy (also lines 136, 178, 287) |
| JsText.Trim | server.js:142-143 | the trimmed text is empty exactly when every character is white space; otherwise it neither starts nor ends with white space |
| JsText.TrimCuts | server.js:142-143 | trimming keeps one slice of the text, cutting only white space from either end |
| JsText.Split | server.js:229 | `split(' ')` yields at least one word; no word holds a space; joining the words with single spaces gives the text back |
| JsText.SplitJoin | server.js:229 | splitting space-free words joined by single spaces gives back exactly those words |
| JsText.SingleWordIff | server.js:255-256 | a text splits into exactly one word if and only if it holds no space |
| JsText.Upper | server.js:228 | upper-casing keeps the length and maps each character through ASCII upper-casing |
| JsText.Decimal | server.js:45 | the decimal text of a number is non-empty, all digits, and has no leading zero unless the number is 0 |
| JsText.ValueOfDecimal | server.js:45 | reading back the decimal text of `n` gives `n` |
| JsText.IntText | server.js:45 | `String(n)` is non-empty, starts with `-` exactly for a negative number, and is decimal digits after that sign; `parseInt` reads it back (`ParseIntOfIntText`) (also line 53) |
| JsText.ParseIntText | server.js:75 | `parseInt` of blank text is `NaN`, and a negative result comes from a `-` right after the leading white space (also line 136) |
| JsText.ParseIntStopsAtNonDigit | server.js:75 | `parseInt` reads digits up to the first non-digit, so "3px" and "03" read as 3, except that a lone `0` followed by `x` starts a hexadecimal number (also line 136) |
| JsText.ParseIntParam | server.js:75 | `parseInt` of a number gives the number back, and of a missing parameter gives `NaN` (also line 136) |
| JsText.ParseIntOfIntText | server.js:75 | `parseInt(String(n)) == n` for every integer, negative ones included |
| JsText.TextEqualsOne | server.js:296 | a string loosely equal to 1 is not blank (blank text converts to 0) |
| JsText.LooselyEqualsOne | server.js:296 | a value loosely equal to 1 is truthy |
| JsText.IntTextEqualsOneIff | server.js:296 | the decimal text of `n` is loosely equal to 1 if and only if `n == 1` |
| Templates.CardSetFor | server.js:287-288 | the second family is chosen if and only if the `template` parameter is exactly the string "2" |
| Templates.StyleIndex | server.js:75 | a missing, empty or zero style gives index 1 (style "2"), and a non-zero numeric style n gives index n - 1 |
| Templates.TemplatePath | server.js:75-81 | an artwork path exists if and only if `parseInt(style or '2') - 1` is a number in 0..5, and it is the entry at that index in the chosen family's table |
| Templates.ArtworkNames | server.js:76-79 | the n-th artwork of each family is named after style number n |
| Templates.StyleSelectsArtwork | server.js:75-81 | style "n" for n in 1..6 selects `public/temp<n>.png` or `public/temp2_<n>.png` |
| Templates.StyleOutOfRange | server.js:75-81 | a style number outside 1..6 selects no artwork (`undefined`) |
| Templates.StyleDefaults | server.js:75 | a missing or empty style behaves like "2", giving `public/temp2.png` and `public/temp2_2.png` |
| Templates.StyleNumber | server.js:75 | a numeric style reads like its decimal text, except 0, which is falsy and falls back to "2" |
| Institution.CountryIndex | server.js:136 | a missing, empty or zero country gives index 0, and a numeric country gives itself |
| Institution.SelectedCountry | server.js:136-138 | a country is selected if and only if the table is non-empty; the parsed index is selected when it lies inside the table on an entry with a non-empty key, and entry 0 otherwise |
| Institution.CountryCollege | server.js:140 | there is a college record if and only if the selected country has at least one college, and the record is that country's first college |
| Institution.HasCustom | server.js:142-143 | a custom field counts only when it is a string with at least one character that is not white space, so it is truthy |
| Institution.ChooseCollege | server.js:142-151 | with both custom fields non-blank, the name and address are the trimmed inputs, non-empty and without white space at either end; otherwise the selected country's first college, or the literal defaults without one |
| Institution.PartialCustomIgnored | server.js:142-151 | supplying only one of the custom name and address gives the same result as supplying neither |
| Institution.CustomPairWins | server.js:145-151 | a complete custom pair, trimmed, wins over every country choice and table |
| Institution.CountryByIndex | server.js:136-138 | a decimal index inside the table, on an entry with a non-empty key, selects that entry |
| Institution.CountryRecord | server.js:136-151 | without a custom pair, a decimal index of an entry with a non-empty key and at least one college shows that entry's first college |
| Institution.CountryFallback | server.js:136-138 | an index that is not a number, is out of range, or names an empty key selects the first entry |
| Institution.CountryDefault | server.js:136-138 | a missing country parameter selects the first entry |
| Institution.DefaultsWithoutRecord | server.js:140-151 | with no usable custom pair and no college record for the selected country (an empty table, or a selected country without colleges, even when others have some), the card shows "Westminster International University in Tashkent" / "628, Kanaikhali, Natore" |
| Institution.PrintedAddress | server.js:180 | the printed address is exactly the first min(30, length) characters of the address, with nothing added (also line 202) |
| Institution.PrintedAddressShort | server.js:180 | an address of at most 30 characters is printed whole, and truncating twice is truncating once |
| CollegeNameLayout.AppendWord | server.js:236 | adding a word to an empty line gives the word alone, and to a non-empty line adds one separating space, so the length grows by the word's length plus one (also line 244) |
| CollegeNameLayout.FirstOverflow | server.js:234-242 | the position of the first word whose arrival would push line 1 past 28 characters; every earlier word fits |
| CollegeNameLayout.Wrap | server.js:229-246 | when every word fits as it arrives, line 1 is all the words packed and line 2 is empty |
| CollegeNameLayout.WrapWords | server.js:230-246 | the loop over the words with `line1`, `line2` and `line1Full` produces exactly the greedy wrap `Wrap` |
| CollegeNameLayout.WrapLine1Bound | server.js:236-238 | line 1 is never longer than 28 characters |
| CollegeNameLayout.WrapIsGreedy | server.js:234-246 | if the first k words fit and word k does not, line 1 is words 0..k-1 and line 2 is every later word in order, even short ones |
| CollegeNameLayout.LongFirstWord | server.js:236-241 | a first word longer than 28 characters leaves line 1 empty, and line 2 starts with it and holds all the words |
| CollegeNameLayout.LaterWordsGoToLine2 | server.js:234-245 | after the first overflow, each further word leaves line 1 unchanged, however short the word, and is appended to line 2 |
| CollegeNameLayout.LaterShortWordStaysOnLine2 | server.js:243-245 | an example: in "ABCDEFGHIJKLMNOPQRSTUVWXY LONGWORD C", "C" would fit after the first word on line 1 but goes to line 2 |
| CollegeNameLayout.RejoinAt | server.js:229-246 | cutting non-empty words at any point into two packed lines and reading them together gives the words joined by single spaces |
| CollegeNameLayout.WrapRejoin | server.js:229-246 | the two wrapped lines read together are the words joined by single spaces |
| CollegeNameLayout.WrapRebuildsName | server.js:228-246 | for a name without empty words, the two lines read together give back the upper-cased name exactly |
| CollegeNameLayout.XOffset | server.js:248 | the horizontal shift is 0 on the first family and 380 on the second |
| CollegeNameLayout.YOffset | server.js:249 | the vertical shift is 0 on the first family and 110 on the second |
| CollegeNameLayout.NameDraws | server.js:248-261 | one draw at (165, 130) if and only if line 2 is empty; otherwise line 1 at (158, 112) and line 2 at y 149, x 300 for a single trimmed word and x 200 otherwise, all shifted by (380, 110) on the second family |
| CollegeNameLayout.LayoutCollegeName | server.js:228-261 | upper-casing, splitting, the wrap loop and the anchor choice give the draws of the wrap specification |
| CollegeNameLayout.SecondLineShiftIff | server.js:251-260 | for plain words, two lines are drawn if and only if some word overflows; line 2 is at x 300 if and only if only the last word overflowed |
| CollegeNameLayout.LongSingleWord | server.js:236-257 | any single word (no space) over 28 characters is drawn as an empty line 1 at (158, 112) and the word at (300, 149) |
| CollegeNameLayout.FiveWordLayout | server.js:234-259 | five plain words, where the first two fit and the third overflows, are drawn as two words at (158, 112) and three at (200, 149) |
| CollegeNameLayout.DefaultNameLayout | server.js:228-261 | the words of the default name are drawn as "WESTMINSTER INTERNATIONAL" at (158, 112) and "UNIVERSITY IN TASHKENT" at (200, 149) |
| StudentId.DecimalWidth | server.js:42-45 | a number between 10^(k-1) and 10^k prints as exactly k digits |
| StudentId.NumericId | server.js:42-45 | the numeric identifier has the shape `ddd-ddd-dddd`, and each group reads back as the number drawn for it |
| StudentId.HyphenGroups | server.js:45 | digit groups of widths 3, 3 and 4 joined by hyphens have the numeric shape, each group at its fixed position |
| StudentId.DigitText | server.js:53 | appending one drawn digit appends the single decimal digit of that value, which is `String(d)` |
| StudentId.LetterOf | server.js:47-50 | `letters.charAt(k)` is the k-th letter after 'A' |
| StudentId.AlphanumericId | server.js:47-55 | the two loops build three upper-case letters then nine digits, and every drawn letter and digit reads back from its position |
| StudentId.IsNumericFormat | server.js:41 | the strict test accepts only the string "1" and the number 1, both truthy and loosely equal to 1 |
| StudentId.ParamText | server.js:178-179 | the text drawn for `id_value`: a string as given, a number as its decimal text `String(n)`, which `parseInt` reads back as the number, and never empty for a truthy value |
| StudentId.GenerateStudentId | server.js:40-57 | the numeric format for the string "1" or the number 1, and the alphanumeric format with the drawn letters and digits for anything else |
| StudentId.DisplayedStudentId | server.js:178 | a truthy `id_value` is shown as given; otherwise the identifier generated from the draws: the numeric one unless the `id` parameter selects the other format, then the drawn letters and digits (also line 200) |
| StudentId.DefaultFormatIsNumeric | server.js:178 | a missing, empty or zero `id` selects the numeric format; "01", " 1" and "2" select the alphanumeric one |
| Handler.Respond | server.js:282-316 | status 400 if and only if the name is falsy; 500 if and only if rendering failed, with its message; otherwise 200 with the envelope if and only if `rawByte == 1`, carrying the PNG bytes and their count, or the PNG inline |
| Handler.NameCheckFirst | server.js:282-284 | without a name the answer is 400 whatever rendering would have done |
| Handler.SameImageEitherWay | server.js:296-312 | `rawByte` changes only the packaging: both answers carry the same image bytes |
| Handler.RawByteFlag | server.js:296 | the number n or its decimal text asks for the envelope if and only if n is 1; no flag gives the PNG |
| Handler.RawByteText | server.js:296 | a string `rawByte` asks for the envelope if and only if the string is loosely equal to 1 |
| Handler.LooseOneExamples | server.js:296 | " 1 ", "1.0" and "0x1" are loosely equal to 1, and "true" is not |

## Left out

- Canvas painting (fonts, colours, shadows, the photo clip, the signature and the other text fields) is not modelled; only the anchor coordinates of the institution name are.
- Image loading from URLs and files, and font registration, are I/O and are not modelled.
- The watermark opacity uses `parseFloat` and floating point; it is not modelled.
- `Math.random` is not modelled. Its scaled and floored results are inputs (`StudentId.Draws`), within the ranges it guarantees.
- `formatDate` is not used by the program; the date of birth is drawn as given.
- JsText.Upper: upper-cases ASCII letters only. Unicode case mapping, which can change the length of the text (`ß` becomes `SS`), is not modelled.
- CollegeNameLayout.Fits: counts Dafny characters, not UTF-16 code units. A character outside the Basic Multilingual Plane counts once here and twice in JavaScript.
- Institution.PrintedAddress: counts Dafny characters, not the UTF-16 code units `substring(0, 30)` counts. An address of characters outside the Basic Multilingual Plane is cut later here than in JavaScript, and JavaScript can cut one such character in half.
- Request parameters are absent, strings or integers. Arrays, objects, booleans and non-integer numbers are not modelled.
- JsText.IntText: gives the plain decimal text of an integer. It does not give the exponent form JavaScript uses from 1e21 up.
- JsText.TextEqualsOne: compares the exact decimal value of the text with 1. Rounding to a double (for example "1.00000000000000000001" equals 1 in JavaScript) is not modelled.
- Handler.Respond: `data` holds the PNG bytes before base64 encoding. Base64 and PNG encoding, `console.error` logging, the choice between query and body by HTTP method, and the Express plumbing are not modelled.
- The health endpoint and the server start-up are I/O and are not modelled.
- The college table is read from a JSON file. It is an input here (`seq<Country>`) whose order is taken to be the `Object.keys` order.
- CollegeNameLayout.DefaultNameLayout: is stated on the five upper-case words of the default name, not on `Institution.DefaultName` itself. Proving that upper-casing and splitting the 48-character default name gives these five words takes more proof resources than this model allows.
