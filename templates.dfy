/** Choice of the card family (`template`) and of the background artwork
    (`style`) for one request. */
module Templates {
  import opened JsText

  /** The two card families: `set1` and `set2`. */
  datatype CardSet = Set1 | Set2

  /** Background artwork of the first family, style 1 first. */
  const Set1Templates: seq<string> := [
    "public/temp1.png", "public/temp2.png", "public/temp3.png",
    "public/temp4.png", "public/temp5.png", "public/temp6.png"]

  /** Background artwork of the second family, style 1 first. */
  const Set2Templates: seq<string> := [
    "public/temp2_1.png", "public/temp2_2.png", "public/temp2_3.png",
    "public/temp2_4.png", "public/temp2_5.png", "public/temp2_6.png"]

  /** `(params.template || '1') === '2' ? 'set2' : 'set1'`: only the exact
      string "2" selects the second family. */
  function CardSetFor(template: Param): (s: CardSet)
    ensures s == Set2 <==> template == Text("2")
  {
    if OrElse(template, "1") == Text("2") then Set2 else Set1
  }

  /** `parseInt(params.style || '2') - 1`, the 0-based index into the
      artwork table; `None` stands for `NaN`. */
  function StyleIndex(style: Param): (r: Option<int>)
    ensures !Truthy(style) ==> r == Some(1)
    ensures style.Integer? && style.n != 0 ==> r == Some(style.n - 1)
  {
    ParseIntOfIntText(2);
    assert IntText(2) == "2";
    ParseIntOfIntText(if style.Integer? then style.n else 2);
    match ParseIntParam(OrElse(style, "2"))
    case None => None
    case Some(n) => Some(n - 1)
  }

  /** The artwork path for the style, or `None` (`undefined`) when the index
      falls outside the six-entry table of the family. */
  function TemplatePath(style: Param, family: CardSet): (r: Option<string>)
    ensures r.Some? <==> StyleIndex(style).Some? && 0 <= StyleIndex(style).value < 6
    ensures r.Some? ==> r.value == (if family == Set2 then Set2Templates else Set1Templates)[StyleIndex(style).value]
  {
    var table := if family == Set2 then Set2Templates else Set1Templates;
    match StyleIndex(style)
    case Some(i) => if 0 <= i < |table| then Some(table[i]) else None
    case None => None
  }

  /** The n-th artwork of each family is named after the style number `n`. */
  lemma ArtworkNames(n: int)
    requires 1 <= n <= 6
    ensures Set1Templates[n - 1] == "public/temp" + [DigitChar(n)] + ".png"
    ensures Set2Templates[n - 1] == "public/temp2_" + [DigitChar(n)] + ".png"
  {
  }

  /** The 1-based style `n` written in decimal selects the n-th artwork of the
      family, for both families. */
  lemma StyleSelectsArtwork(n: int)
    requires 1 <= n <= 6
    ensures TemplatePath(Text(IntText(n)), Set1) == Some("public/temp" + IntText(n) + ".png")
    ensures TemplatePath(Text(IntText(n)), Set2) == Some("public/temp2_" + IntText(n) + ".png")
  {
    ParseIntOfIntText(n);
    ArtworkNames(n);
    assert IntText(n) == [DigitChar(n)];
  }

  /** A style written as a number outside 1..6 selects no artwork. */
  lemma StyleOutOfRange(n: int, family: CardSet)
    requires n < 1 || n > 6
    ensures TemplatePath(Text(IntText(n)), family) == None
  {
    ParseIntOfIntText(n);
    assert IntText(n) != "";
  }

  /** A missing or empty style behaves as style "2". */
  lemma StyleDefaults(family: CardSet)
    ensures TemplatePath(Absent, family) == TemplatePath(Text("2"), family)
    ensures TemplatePath(Text(""), family) == TemplatePath(Text("2"), family)
    ensures TemplatePath(Absent, Set1) == Some("public/temp2.png")
    ensures TemplatePath(Absent, Set2) == Some("public/temp2_2.png")
  {
    ParseIntOfIntText(2);
    assert IntText(2) == "2";
  }

  /** A numeric style is read like its decimal text, except the number 0,
      which is falsy and so falls back to style "2". */
  lemma {:induction false} StyleNumber(n: int, family: CardSet)
    ensures n != 0 ==> TemplatePath(Integer(n), family) == TemplatePath(Text(IntText(n)), family)
    ensures n == 0 ==> TemplatePath(Integer(n), family) == TemplatePath(Text("2"), family)
  {
    if n != 0 {
      StyleIndexOfText(n);
      SameIndexSamePath(Integer(n), Text(IntText(n)), family);
    } else {
      StyleIndexOfText(2);
      assert IntText(2) == "2";
      SameIndexSamePath(Integer(n), Text("2"), family);
    }
  }

  /** A style written in decimal reads as its number. */
  lemma StyleIndexOfText(n: int)
    ensures StyleIndex(Text(IntText(n))) == Some(n - 1)
  {
    ParseIntOfIntText(n);
    assert IntText(n) != "";
  }

  /** The artwork depends on the style only through its index. */
  lemma SameIndexSamePath(a: Param, b: Param, family: CardSet)
    requires StyleIndex(a) == StyleIndex(b)
    ensures TemplatePath(a, family) == TemplatePath(b, family)
  {
  }
}
