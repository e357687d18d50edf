/** Layout of the institution name on a card: the upper-cased name is split
    on single spaces and greedily packed into a first line of at most 28
    characters; the first word that does not fit starts the second line,
    which then takes every later word. The number of lines, and the number of
    words on the second line, choose where the lines are drawn. */
module CollegeNameLayout {
  import opened JsText
  import opened Templates

  /** Longest first line, in characters. */
  const Line1Limit: nat := 28

  /** `line ? line + ' ' + word : word`: an empty line takes the word as it
      is, a non-empty one takes a space and the word. */
  function AppendWord(line: string, word: string): (r: string)
    ensures |r| == if line == "" then |word| else |line| + 1 + |word|
  {
    if line != "" then line + " " + word else word
  }

  /** The text of a line that starts empty and receives `words` one by one. */
  function LineOf(words: seq<string>): string {
    if words == [] then "" else AppendWord(LineOf(words[..|words| - 1]), words[|words| - 1])
  }

  /** The first `j + 1` words, packed as one line, stay within the limit. */
  predicate Fits(words: seq<string>, j: nat)
    requires j < |words|
  {
    |LineOf(words[..j + 1])| <= Line1Limit
  }

  /** The position, from `from` on, of the first word whose arrival would push
      the first line past the limit, or `|words|` when every word fits. */
  function FirstOverflow(words: seq<string>, from: nat): (k: nat)
    requires from <= |words|
    ensures from <= k <= |words|
    ensures forall j :: from <= j < k ==> Fits(words, j)
    ensures k < |words| ==> !Fits(words, k)
    decreases |words| - from
  {
    if from == |words| || !Fits(words, from) then from else FirstOverflow(words, from + 1)
  }

  datatype Lines = Lines(line1: string, line2: string)

  /** The wrap: the words before the first overflow make line 1, that word and
      all after it make line 2. */
  function Wrap(words: seq<string>): (r: Lines)
    ensures (forall j :: 0 <= j < |words| ==> Fits(words, j)) ==> r == Lines(LineOf(words), "")
  {
    var k := FirstOverflow(words, 0);
    assert k == |words| ==> words[..k] == words && words[k..] == [];
    Lines(LineOf(words[..k]), LineOf(words[k..]))
  }

  /** The loop of the card generator over the words, with its three variables
      `line1`, `line2` and `line1Full`. */
  method WrapWords(words: seq<string>) returns (line1: string, line2: string)
    ensures Lines(line1, line2) == Wrap(words)
  {
    line1, line2 := "", "";
    var line1Full := false;
    ghost var k := FirstOverflow(words, 0);
    for i := 0 to |words|
      invariant !line1Full ==> i <= k && line1 == LineOf(words[..i]) && line2 == ""
      invariant line1Full ==> k < i && line1 == LineOf(words[..k]) && line2 == LineOf(words[k..i])
    {
      var word := words[i];
      if !line1Full {
        assert words[..i + 1][..i] == words[..i];
        var testLine := if line1 != "" then line1 + " " + word else word;
        assert testLine == LineOf(words[..i + 1]);
        if |testLine| <= Line1Limit {
          line1 := testLine;
        } else {
          assert !Fits(words, i);
          assert k == i;
          line1Full := true;
          line2 := word;
          assert words[k..i + 1] == [word];
          assert [word][..0] == [];
        }
      } else {
        assert words[k..i + 1][..i - k] == words[k..i];
        line2 := line2 + (if line2 != "" then " " else "") + word;
      }
    }
    assert words[..|words|] == words;
  }

  /** Line 1 never exceeds the limit: it only ever takes a candidate that fits. */
  lemma WrapLine1Bound(words: seq<string>)
    ensures |Wrap(words).line1| <= Line1Limit
  {
    var k := FirstOverflow(words, 0);
    if k > 0 {
      assert Fits(words, k - 1);
      assert words[..(k - 1) + 1] == words[..k];
    }
  }

  /** The wrap is the greedy split: if the first `k` words each fit when
      added and word `k` (if any) does not, line 1 holds exactly words
      `0..k` and line 2 every later word, in order, even words short
      enough for line 1. */
  lemma WrapIsGreedy(words: seq<string>, k: nat)
    requires k <= |words|
    requires forall j :: 0 <= j < k ==> Fits(words, j)
    requires k < |words| ==> !Fits(words, k)
    ensures Wrap(words) == Lines(LineOf(words[..k]), LineOf(words[k..]))
  {
  }

  /** A first word longer than the limit leaves line 1 empty; line 2 then
      holds that word and all later ones. */
  lemma LongFirstWord(words: seq<string>)
    requires |words| > 0 && |words[0]| > Line1Limit
    ensures Wrap(words) == Lines("", LineOf(words))
  {
    assert words[..1][..0] == [];
    assert !Fits(words, 0);
    assert words[0..] == words;
  }

  /** Once a word has overflowed, every later word goes to line 2, however
      short: adding word `j` leaves line 1 as it was and appends the word to
      line 2. */
  lemma {:induction false} LaterWordsGoToLine2(words: seq<string>, j: nat)
    requires FirstOverflow(words, 0) < j < |words|
    ensures Wrap(words[..j + 1]).line1 == Wrap(words[..j]).line1
    ensures Wrap(words[..j + 1]).line2 == AppendWord(Wrap(words[..j]).line2, words[j])
  {
    WrapOfPrefix(words, j);
    WrapOfPrefix(words, j + 1);
    LineOfExtend(words, FirstOverflow(words, 0), j);
  }

  /** Adding word `j` to the packed words `k..j` appends it to their line. */
  lemma LineOfExtend(words: seq<string>, k: nat, j: nat)
    requires k <= j < |words|
    ensures LineOf(words[k..j + 1]) == AppendWord(LineOf(words[k..j]), words[j])
  {
    var tail := words[k..j + 1];
    assert tail[..|tail| - 1] == words[k..j] && tail[|tail| - 1] == words[j];
  }

  /** A prefix reaching past the first overflow wraps at the same place. */
  lemma {:induction false} WrapOfPrefix(words: seq<string>, n: nat)
    requires FirstOverflow(words, 0) < n <= |words|
    ensures Wrap(words[..n]) == Lines(LineOf(words[..FirstOverflow(words, 0)]),
                                      LineOf(words[FirstOverflow(words, 0)..n]))
  {
    var k := FirstOverflow(words, 0);
    OverflowOfPrefix(words, n);
    assert words[..n][..k] == words[..k];
    assert words[..n][k..] == words[k..n];
  }

  /** The first overflow is found within any prefix that reaches past it. */
  lemma {:induction false} OverflowOfPrefix(words: seq<string>, n: nat)
    requires FirstOverflow(words, 0) < n <= |words|
    ensures FirstOverflow(words[..n], 0) == FirstOverflow(words, 0)
  {
    var k := FirstOverflow(words, 0);
    forall j | 0 <= j <= k
      ensures Fits(words[..n], j) == Fits(words, j)
    {
      assert words[..n][..j + 1] == words[..j + 1];
    }
  }

  /** Once a word has overflowed, a later word that would still fit on line 1
      goes to line 2 all the same: an example. */
  lemma LaterShortWordStaysOnLine2()
    ensures var words := ["ABCDEFGHIJKLMNOPQRSTUVWXY", "LONGWORD", "C"];
      Wrap(words) == Lines("ABCDEFGHIJKLMNOPQRSTUVWXY", "LONGWORD C")
      && |AppendWord(words[0], words[2])| <= Line1Limit
  {
    var words := ["ABCDEFGHIJKLMNOPQRSTUVWXY", "LONGWORD", "C"];
    assert words[..1] == [words[0]] && words[..1][..0] == [];
    assert LineOf(words[..1]) == words[0];
    assert words[..2][..1] == words[..1];
    assert LineOf(words[..2]) == words[0] + " " + words[1];
    WrapIsGreedy(words, 1);
    assert words[1..] == ["LONGWORD", "C"];
    assert words[1..][..1] == ["LONGWORD"] && ["LONGWORD"][..0] == [];
  }

  // ---------------------------------------------------------------------
  // Rebuilding the name from its two lines
  // ---------------------------------------------------------------------

  /** No word is empty: the name has no leading, trailing or doubled space. */
  predicate NonEmptyWords(ws: seq<string>) {
    forall i :: 0 <= i < |ws| ==> ws[i] != ""
  }

  /** The name as the two lines read together: one space between them when
      both hold text. */
  function Rejoin(l: Lines): string {
    if l.line1 == "" then l.line2 else if l.line2 == "" then l.line1 else l.line1 + " " + l.line2
  }

  /** Packing non-empty words into one line is joining them with single spaces. */
  lemma {:induction false} LineOfIsJoin(ws: seq<string>)
    requires |ws| >= 1 && NonEmptyWords(ws)
    ensures LineOf(ws) == Join(ws)
    ensures LineOf(ws) != ""
    decreases |ws|
  {
    var init := ws[..|ws| - 1];
    var last := ws[|ws| - 1];
    if |ws| == 1 {
      assert init == [];
    } else {
      LineOfIsJoin(init);
      JoinAppend(init, [last]);
      assert init + [last] == ws;
    }
  }

  /** Cutting the words anywhere into two packed lines and reading the
      lines together gives the words joined by single spaces. */
  lemma {:induction false} RejoinAt(ws: seq<string>, k: nat)
    requires |ws| >= 1 && NonEmptyWords(ws) && k <= |ws|
    ensures Rejoin(Lines(LineOf(ws[..k]), LineOf(ws[k..]))) == Join(ws)
  {
    if k == 0 {
      assert ws[..0] == [] && ws[0..] == ws;
      LineOfIsJoin(ws);
    } else if k == |ws| {
      assert ws[..|ws|] == ws && ws[|ws|..] == [];
      LineOfIsJoin(ws);
    } else {
      RejoinInside(ws[..k], ws[k..]);
      assert ws[..k] + ws[k..] == ws;
    }
  }

  /** Two non-empty runs of non-empty words, packed, read together as the
      join of both runs. */
  lemma RejoinInside(front: seq<string>, back: seq<string>)
    requires |front| >= 1 && |back| >= 1
    requires NonEmptyWords(front + back)
    ensures Rejoin(Lines(LineOf(front), LineOf(back))) == Join(front + back)
  {
    forall i | 0 <= i < |front|
      ensures front[i] != ""
    {
      assert front[i] == (front + back)[i];
    }
    forall i | 0 <= i < |back|
      ensures back[i] != ""
    {
      assert back[i] == (front + back)[|front| + i];
    }
    LineOfIsJoin(front);
    LineOfIsJoin(back);
    JoinAppend(front, back);
  }

  /** Read together, the two lines of a wrap are the words joined by single
      spaces. */
  lemma WrapRejoin(ws: seq<string>)
    requires |ws| >= 1 && NonEmptyWords(ws)
    ensures Rejoin(Wrap(ws)) == Join(ws)
  {
    RejoinAt(ws, FirstOverflow(ws, 0));
  }

  /** For a name whose words are all non-empty, the two lines read together
      give back the upper-cased name exactly. */
  lemma WrapRebuildsName(name: string)
    requires NonEmptyWords(Split(Upper(name)))
    ensures Rejoin(Wrap(Split(Upper(name)))) == Upper(name)
  {
    WrapRejoin(Split(Upper(name)));
  }

  // ---------------------------------------------------------------------
  // Where the lines are drawn
  // ---------------------------------------------------------------------

  /** A piece of text drawn at a pixel position. */
  datatype TextDraw = TextDraw(text: string, x: int, y: int)

  /** The second family draws the name block shifted right and down. */
  function XOffset(family: CardSet): (dx: int)
    ensures family == Set1 ==> dx == 0
    ensures family == Set2 ==> dx == 380
  {
    if family == Set2 then 380 else 0
  }

  function YOffset(family: CardSet): (dy: int)
    ensures family == Set1 ==> dy == 0
    ensures family == Set2 ==> dy == 110
  {
    if family == Set2 then 110 else 0
  }

  /** The two lines of the name, with their anchors: a lone line 1 at
      (165, 130); otherwise line 1 at (158, 112) and line 2 at y 149, at x 300
      when line 2 is a single word and at x 200 when it has more, all shifted
      by the family's offset. */
  function NameDraws(lines: Lines, family: CardSet): (d: seq<TextDraw>)
    ensures |d| == 1 <==> lines.line2 == ""
    ensures |d| == 1 ==> d[0] == TextDraw(lines.line1, 165 + XOffset(family), 130 + YOffset(family))
    ensures |d| != 1 ==> (
      |d| == 2
      && d[0] == TextDraw(lines.line1, 158 + XOffset(family), 112 + YOffset(family))
      && d[1].text == lines.line2 && d[1].y == 149 + YOffset(family)
      && d[1].x == (if ' ' !in Trim(lines.line2) then 300 else 200) + XOffset(family))
  {
    var dx, dy := XOffset(family), YOffset(family);
    if lines.line2 == "" then
      [TextDraw(lines.line1, 165 + dx, 130 + dy)]
    else
      var secondLineWords := Split(Trim(lines.line2));
      SingleWordIff(Trim(lines.line2));
      var x2 := if |secondLineWords| == 1 then 300 + dx else 200 + dx;
      [TextDraw(lines.line1, 158 + dx, 112 + dy), TextDraw(lines.line2, x2, 149 + dy)]
  }

  /** Upper-case, split, wrap and place the institution name. */
  method LayoutCollegeName(collegeName: string, family: CardSet) returns (draws: seq<TextDraw>)
    ensures draws == NameDraws(Wrap(Split(Upper(collegeName))), family)
  {
    var college := Upper(collegeName);
    var words := Split(college);
    var line1, line2 := WrapWords(words);
    draws := NameDraws(Lines(line1, line2), family);
  }

  /** Every word is non-empty and neither starts nor ends in white space. */
  predicate PlainWords(ws: seq<string>) {
    forall i :: 0 <= i < |ws| ==>
      ws[i] != "" && !IsSpace(ws[i][0]) && !IsSpace(ws[i][|ws[i]| - 1])
  }

  /** The text of a packed line starts with its first word and ends with its
      last word. */
  lemma {:induction false} LineOfEnds(ws: seq<string>)
    requires |ws| >= 1 && NonEmptyWords(ws)
    ensures LineOf(ws) != ""
    ensures LineOf(ws)[0] == ws[0][0]
    ensures LineOf(ws)[|LineOf(ws)| - 1] == ws[|ws| - 1][|ws[|ws| - 1]| - 1]
    decreases |ws|
  {
    var init := ws[..|ws| - 1];
    if |ws| == 1 {
      assert init == [];
    } else {
      LineOfEnds(init);
    }
  }

  /** A line packed from plain words without spaces is its own trim, and
      holds a space exactly when it holds more than one word. */
  lemma PackedLineSpaces(ws: seq<string>)
    requires |ws| >= 1 && PlainWords(ws)
    requires forall i :: 0 <= i < |ws| ==> ' ' !in ws[i]
    ensures LineOf(ws) != ""
    ensures Trim(LineOf(ws)) == LineOf(ws)
    ensures ' ' !in LineOf(ws) <==> |ws| == 1
  {
    PackedLineTrimmed(ws);
    LineOfIsJoin(ws);
    JoinHasSpace(ws);
  }

  /** A line packed from plain words is not empty and is its own trim. */
  lemma PackedLineTrimmed(ws: seq<string>)
    requires |ws| >= 1 && PlainWords(ws)
    ensures LineOf(ws) != "" && Trim(LineOf(ws)) == LineOf(ws)
  {
    var line := LineOf(ws);
    LineOfEnds(ws);
    assert !IsSpace(line[0]) && !IsSpace(line[|line| - 1]);
    TrimKeeps(line);
  }

  /** Words without spaces, joined: a space appears exactly when there are
      at least two words. */
  lemma JoinHasSpace(ws: seq<string>)
    requires |ws| >= 1
    requires forall i :: 0 <= i < |ws| ==> ' ' !in ws[i]
    ensures ' ' in Join(ws) <==> |ws| > 1
  {
    if |ws| > 1 {
      var j := Join(ws);
      assert j == ws[0] + " " + Join(ws[1..]);
      assert j[|ws[0]|] == ' ';
    }
  }

  /** For a name of plain words, the name takes two lines exactly when some
      word overflows line 1, and line 2 is drawn at the shifted x of 300
      exactly when it holds a single word, the last one. */
  lemma SecondLineShiftIff(name: string, family: CardSet)
    requires PlainWords(Split(Upper(name)))
    ensures var ws := Split(Upper(name));
      var d := NameDraws(Wrap(ws), family);
      (|d| == 2 <==> FirstOverflow(ws, 0) < |ws|)
      && (|d| == 2 ==> (d[1].x == 300 + XOffset(family) <==> FirstOverflow(ws, 0) == |ws| - 1))
  {
    var ws := Split(Upper(name));
    var k := FirstOverflow(ws, 0);
    var l := Wrap(ws);
    assert l.line2 == LineOf(ws[k..]);
    if k < |ws| {
      PackedLineSpaces(ws[k..]);
    } else {
      assert ws[k..] == [];
    }
  }

  /** Upper-casing neither creates nor removes spaces or other white space. */
  lemma UpperKeepsSpaces(s: string)
    ensures forall i :: 0 <= i < |s| ==> (IsSpace(Upper(s)[i]) <==> IsSpace(s[i]))
    ensures ' ' in Upper(s) <==> ' ' in s
  {
    var u := Upper(s);
    if ' ' in u {
      var i :| 0 <= i < |u| && u[i] == ' ';
      assert s[i] == ' ';
    }
    if ' ' in s {
      var i :| 0 <= i < |s| && s[i] == ' ';
      assert u[i] == ' ';
    }
  }

  /** A single word longer than the limit is not put on line 1: line 1 is
      drawn empty at (158, 112) and the word alone on line 2 at x 300. */
  lemma LongSingleWord(w: string, family: CardSet)
    requires ' ' !in w && |w| > Line1Limit
    ensures NameDraws(Wrap(Split(Upper(w))), family)
      == [TextDraw("", 158 + XOffset(family), 112 + YOffset(family)),
          TextDraw(Upper(w), 300 + XOffset(family), 149 + YOffset(family))]
  {
    var u := Upper(w);
    UpperKeepsSpaces(w);
    LongWordWraps(u);
    TrimCuts(u);
    assert ' ' !in Trim(u);
    var d := NameDraws(Lines("", u), family);
    assert d[1] == TextDraw(u, 300 + XOffset(family), 149 + YOffset(family));
    assert d == [d[0], d[1]];
  }

  /** A word without spaces that is longer than the limit wraps to an empty
      line 1 and itself as line 2. */
  lemma LongWordWraps(u: string)
    requires ' ' !in u && |u| > Line1Limit
    ensures Wrap(Split(u)) == Lines("", u)
  {
    SplitWord(u);
    LongFirstWord([u]);
    assert [u][..0] == [];
    assert LineOf([u]) == u;
  }

  /** Two and three non-empty words packed as one line. */
  lemma PackTwoThree(a: string, b: string, c: string)
    requires a != "" && b != ""
    ensures LineOf([a, b]) == a + " " + b
    ensures LineOf([a, b, c]) == a + " " + b + " " + c
  {
    assert [a, b][..1] == [a] && [a][..0] == [];
    assert LineOf([a]) == a;
    assert [a, b, c][..2] == [a, b];
  }

  /** Five words of which the first two fit on line 1 and the third does not:
      the wrap falls after the second word. */
  lemma FiveWordWrap(a: string, b: string, c: string, d: string, e: string)
    requires a != "" && b != "" && c != "" && d != "" && e != ""
    requires |a| + 1 + |b| <= Line1Limit < |a| + 1 + |b| + 1 + |c|
    ensures Wrap([a, b, c, d, e]) == Lines(a + " " + b, c + " " + d + " " + e)
  {
    var ws := [a, b, c, d, e];
    assert ws[..1] == [a] && [a][..0] == [];
    assert LineOf([a]) == a;
    assert ws[..2] == [a, b] && ws[..3] == [a, b, c] && ws[2..] == [c, d, e];
    PackTwoThree(a, b, c);
    PackTwoThree(c, d, e);
    WrapIsGreedy(ws, 2);
  }

  /** A second line whose trimmed text holds a space is drawn at x 200. */
  lemma SeveralWordSecondLine(line1: string, line2: string, family: CardSet)
    requires line2 != "" && ' ' in Trim(line2)
    ensures NameDraws(Lines(line1, line2), family)
      == [TextDraw(line1, 158 + XOffset(family), 112 + YOffset(family)),
          TextDraw(line2, 200 + XOffset(family), 149 + YOffset(family))]
  {
    var dr := NameDraws(Lines(line1, line2), family);
    assert dr == [dr[0], dr[1]];
  }

  /** Three plain words packed as one line: their text is its own trim and
      holds a space. */
  lemma ThreeWordLine(c: string, d: string, e: string)
    requires PlainWords([c, d, e])
    ensures Trim(c + " " + d + " " + e) == c + " " + d + " " + e
    ensures ' ' in Trim(c + " " + d + " " + e)
  {
    PackedLineTrimmed([c, d, e]);
    assert [c, d, e][0] != "" && [c, d, e][1] != "";
    PackTwoThree(c, d, e);
    assert (c + " " + d + " " + e)[|c|] == ' ';
  }

  /** Such five plain words are drawn on two lines, the second one holding
      three words and so drawn at x 200. */
  lemma FiveWordLayout(a: string, b: string, c: string, d: string, e: string, family: CardSet)
    requires PlainWords([a, b, c, d, e])
    requires |a| + 1 + |b| <= Line1Limit < |a| + 1 + |b| + 1 + |c|
    ensures NameDraws(Wrap([a, b, c, d, e]), family)
      == [TextDraw(a + " " + b, 158 + XOffset(family), 112 + YOffset(family)),
          TextDraw(c + " " + d + " " + e, 200 + XOffset(family), 149 + YOffset(family))]
  {
    var ws := [a, b, c, d, e];
    assert ws[0] != "" && ws[1] != "" && ws[2] != "" && ws[3] != "" && ws[4] != "";
    FiveWordWrap(a, b, c, d, e);
    assert PlainWords([c, d, e]) by {
      assert [c, d, e] == ws[2..];
    }
    ThreeWordLine(c, d, e);
    SeveralWordSecondLine(a + " " + b, c + " " + d + " " + e, family);
  }

  /** The upper-cased words of the default institution name are drawn on two
      lines on a first-family card: "WESTMINSTER INTERNATIONAL" at (158, 112)
      and "UNIVERSITY IN TASHKENT" at (200, 149). */
  lemma DefaultNameLayout()
    ensures NameDraws(Wrap(["WESTMINSTER", "INTERNATIONAL", "UNIVERSITY", "IN", "TASHKENT"]), Set1)
      == [TextDraw("WESTMINSTER" + " " + "INTERNATIONAL", 158, 112),
          TextDraw("UNIVERSITY" + " " + "IN" + " " + "TASHKENT", 200, 149)]
  {
    assert XOffset(Set1) == 0 && YOffset(Set1) == 0;
    FiveWordLayout("WESTMINSTER", "INTERNATIONAL", "UNIVERSITY", "IN", "TASHKENT", Set1);
  }
}
