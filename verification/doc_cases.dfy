/**
 The worked examples from the decoders' documentation, decoded by the model.
 */
module DocCases {
  import opened Wrappers
  import opened Text
  import opened Patterns
  import opened OutputParser

  /** The evaluation output shown in the documentation of the evaluation decoder. */
  const EvalText := "Equity: +0.234" + "\n" + "Win: 56.2%" + "\n" + "Win G: 12.3%" + "\n" + "Win BG: 0.8%"

  lemma EquityLabel()
    ensures LabelEnd(Lower(EvalText), 0, Word("equity")) == Some(6)
  {
    var t := Lower(EvalText);
    assert forall k | 0 <= k < 6 :: t[k] == "equity"[k];
    OccursAtSpelled(t, "equity", 0);
  }

  lemma EquitySeparator()
    ensures RunEnd(EvalText, 6, Separator) == 8
  {
    RunEndIs(EvalText, 6, Separator, 8);
  }

  lemma EquityNumber()
    ensures NumberEnd(EvalText, 8, SignedDecimal) == Some(14)
  {
    RunEndIs(EvalText, 9, Digit, 10);
    RunEndIs(EvalText, 11, Digit, 14);
  }

  lemma EquityMatch()
    ensures MatchAt(EvalText, 0, EquityPattern) == Some("+0.234")
  {
    EquityLabel();
    EquitySeparator();
    EquityNumber();
    assert EvalText[8..14] == "+0.234";
  }

  lemma EquityOfEvalText()
    ensures Search(EvalText, EquityPattern) == Some(Found(0, "+0.234"))
  {
    EquityMatch();
    SearchIs(EvalText, EquityPattern, 0, "+0.234");
  }

  lemma OneDigit(s: string)
    requires |s| == 1 && AllDigits(s)
    ensures DigitsValue(s) == DigitValue(s[0])
  {
    assert s[..0] == [];
  }

  lemma TwoDigits(s: string)
    requires |s| == 2 && AllDigits(s)
    ensures DigitsValue(s) == 10 * DigitValue(s[0]) + DigitValue(s[1])
  {
    OneDigit(s[..1]);
  }

  lemma ThreeDigits(s: string)
    requires |s| == 3 && AllDigits(s)
    ensures DigitsValue(s) == 100 * DigitValue(s[0]) + 10 * DigitValue(s[1]) + DigitValue(s[2])
  {
    TwoDigits(s[..2]);
  }

  lemma ValueOfEquity()
    ensures ParseFloat("+0.234") == Some(0.234)
  {
    ZeroPointThree("234");
    DecimalLiteral("+0.234", "+", "0", "234", 0.234);
  }

  lemma WinLabel()
    ensures LabelEnd(Lower(EvalText), 15, Word("win")) == Some(18)
  {
    var t := Lower(EvalText);
    assert forall k | 0 <= k < 3 :: t[15 + k] == "win"[k];
    OccursAtSpelled(t, "win", 15);
  }

  lemma WinNumber()
    ensures RunEnd(EvalText, 18, Separator) == 20
    ensures NumberEnd(EvalText, 20, Percentage) == Some(24)
  {
    RunEndIs(EvalText, 18, Separator, 20);
    RunEndIs(EvalText, 20, DigitOrPoint, 24);
  }

  lemma NoWinBefore()
    ensures forall j | 0 <= j < 15 :: MatchAt(EvalText, j, WinPattern).None?
  {
    NoMatchWithoutInitials(EvalText, WinPattern, 0, 15);
  }

  lemma WinOfEvalText()
    ensures Search(EvalText, WinPattern) == Some(Found(15, "56.2"))
  {
    var s := EvalText;
    WinLabel();
    WinNumber();
    assert s[20..24] == "56.2";
    assert MatchAt(s, 15, WinPattern) == Some("56.2");
    NoWinBefore();
    SearchIs(s, WinPattern, 15, "56.2");
  }

  /** The `Win G` line is the first gammon match: the `Win` of the line before it is not
      followed by whitespace. */
  lemma GammonNotAtWin()
    ensures MatchAt(EvalText, 15, GammonPattern).None?
  {
    var t := Lower(EvalText);
    WinLabel();
    RunEndIs(t, 18, Whitespace, 18);
    NotOccursAt(t, "gammon", 15, 0);
    assert LabelEnd(t, 15, GammonPattern.labels[0]).None?;
    assert LabelEnd(t, 15, GammonPattern.labels[1]).None?;
    MatchNeedsLabel(EvalText, 15, GammonPattern.labels, Percentage);
  }

  lemma GammonLabel()
    ensures LabelEnd(Lower(EvalText), 26, TwoWords("win", "g")) == Some(31)
  {
    var t := Lower(EvalText);
    assert forall k | 0 <= k < 3 :: t[26 + k] == "win"[k];
    OccursAtSpelled(t, "win", 26);
    RunEndIs(t, 29, Whitespace, 30);
    OccursAtSpelled(t, "g", 30);
  }

  lemma GammonNumber()
    ensures RunEnd(EvalText, 31, Separator) == 33
    ensures NumberEnd(EvalText, 33, Percentage) == Some(37)
  {
    RunEndIs(EvalText, 31, Separator, 33);
    RunEndIs(EvalText, 33, DigitOrPoint, 37);
  }

  lemma GammonMatch()
    ensures MatchAt(EvalText, 26, GammonPattern) == Some("12.3")
  {
    GammonLabel();
    GammonNumber();
    assert EvalText[33..37] == "12.3";
  }

  lemma NoGammonBefore()
    ensures forall j | 0 <= j < 15 :: MatchAt(EvalText, j, GammonPattern).None?
    ensures forall j | 16 <= j < 26 :: MatchAt(EvalText, j, GammonPattern).None?
  {
    NoMatchWithoutInitials(EvalText, GammonPattern, 0, 15);
    NoMatchWithoutInitials(EvalText, GammonPattern, 16, 26);
  }

  /** Joins a stretch without matches, a position without a match and another stretch. */
  lemma NoMatchAcross(s: string, p: Pattern, a: nat, c: nat)
    requires a < c <= |s|
    requires forall j | 0 <= j < a :: MatchAt(s, j, p).None?
    requires MatchAt(s, a, p).None?
    requires forall j | a < j < c :: MatchAt(s, j, p).None?
    ensures forall j | 0 <= j < c :: MatchAt(s, j, p).None?
  {
  }

  lemma NoGammonBeforeSecondLine()
    ensures forall j | 0 <= j < 26 :: MatchAt(EvalText, j, GammonPattern).None?
  {
    NoGammonBefore();
    GammonNotAtWin();
    NoMatchAcross(EvalText, GammonPattern, 15, 26);
  }

  lemma GammonOfEvalText()
    ensures Search(EvalText, GammonPattern) == Some(Found(26, "12.3"))
  {
    NoGammonBeforeSecondLine();
    GammonMatch();
    SearchIs(EvalText, GammonPattern, 26, "12.3");
  }

  lemma BackgammonNotAtWin()
    ensures MatchAt(EvalText, 15, BackgammonPattern).None?
    ensures MatchAt(EvalText, 26, BackgammonPattern).None?
  {
    BackgammonNotAtFirstWin();
    BackgammonNotAtGammon();
  }

  lemma BackgammonNotAtFirstWin()
    ensures MatchAt(EvalText, 15, BackgammonPattern).None?
  {
    var t := Lower(EvalText);
    WinLabel();
    RunEndIs(t, 18, Whitespace, 18);
    NotOccursAt(t, "backgammon", 15, 0);
    assert LabelEnd(t, 15, BackgammonPattern.labels[0]).None?;
    assert LabelEnd(t, 15, BackgammonPattern.labels[1]).None?;
    MatchNeedsLabel(EvalText, 15, BackgammonPattern.labels, Percentage);
  }

  lemma BackgammonNotAtGammon()
    ensures MatchAt(EvalText, 26, BackgammonPattern).None?
  {
    var t := Lower(EvalText);
    RunEndIs(t, 29, Whitespace, 30);
    NotOccursAt(t, "bg", 30, 0);
    NotOccursAt(t, "backgammon", 26, 0);
    assert LabelEnd(t, 26, BackgammonPattern.labels[0]).None?;
    assert LabelEnd(t, 26, BackgammonPattern.labels[1]).None?;
    MatchNeedsLabel(EvalText, 26, BackgammonPattern.labels, Percentage);
  }

  lemma BackgammonLabel()
    ensures LabelEnd(Lower(EvalText), 39, TwoWords("win", "bg")) == Some(45)
  {
    var t := Lower(EvalText);
    assert forall k | 0 <= k < 3 :: t[39 + k] == "win"[k];
    OccursAtSpelled(t, "win", 39);
    RunEndIs(t, 42, Whitespace, 43);
    assert forall k | 0 <= k < 2 :: t[43 + k] == "bg"[k];
    OccursAtSpelled(t, "bg", 43);
  }

  lemma BackgammonNumber()
    ensures RunEnd(EvalText, 45, Separator) == 47
    ensures NumberEnd(EvalText, 47, Percentage) == Some(50)
  {
    RunEndIs(EvalText, 45, Separator, 47);
    RunEndIs(EvalText, 47, DigitOrPoint, 50);
  }

  lemma BackgammonMatch()
    ensures MatchAt(EvalText, 39, BackgammonPattern) == Some("0.8")
  {
    BackgammonLabel();
    BackgammonNumber();
    assert EvalText[47..50] == "0.8";
  }

  lemma NoBackgammonOnFirstLines()
    ensures forall j | 0 <= j < 15 :: MatchAt(EvalText, j, BackgammonPattern).None?
    ensures forall j | 16 <= j < 26 :: MatchAt(EvalText, j, BackgammonPattern).None?
  {
    NoMatchWithoutInitials(EvalText, BackgammonPattern, 0, 15);
    NoMatchWithoutInitials(EvalText, BackgammonPattern, 16, 26);
  }

  lemma NoBackgammonOnThirdLine()
    ensures forall j | 27 <= j < 39 :: MatchAt(EvalText, j, BackgammonPattern).None?
  {
    NoMatchWithoutInitials(EvalText, BackgammonPattern, 27, 39);
  }

  lemma NoBackgammonBefore()
    ensures forall j | 0 <= j < 39 :: MatchAt(EvalText, j, BackgammonPattern).None?
  {
    NoBackgammonOnFirstLines();
    NoBackgammonOnThirdLine();
    BackgammonNotAtWin();
    NoMatchAcross(EvalText, BackgammonPattern, 15, 26);
    NoMatchAcross(EvalText, BackgammonPattern, 26, 39);
  }

  lemma BackgammonOfEvalText()
    ensures Search(EvalText, BackgammonPattern) == Some(Found(39, "0.8"))
  {
    NoBackgammonBefore();
    BackgammonMatch();
    SearchIs(EvalText, BackgammonPattern, 39, "0.8");
  }

  /** Decimal text with no sign or a plus sign reads as the value of its digits, stated
      for a literal `s` whose parts are given separately. */
  lemma DecimalLiteral(s: string, sign: string, whole: string, frac: string, x: real)
    requires sign == "" || sign == "+"
    requires whole != [] && frac != [] && AllDigits(whole) && AllDigits(frac)
    requires s == sign + whole + "." + frac && DecimalValue(whole, frac) == x
    ensures ParseFloat(s) == Some(x)
  {
    ParseFloatOfDecimal(sign, whole, frac);
  }

  /** The value of `0.` followed by three digits. */
  lemma ZeroPointThree(frac: string)
    requires |frac| == 3 && AllDigits(frac)
    ensures DecimalValue("0", frac) ==
      (100 * DigitValue(frac[0]) + 10 * DigitValue(frac[1]) + DigitValue(frac[2])) as real / 1000.0
  {
    ThreeDigits(frac);
    OneDigit("0");
    assert Pow10(3) == 1000;
  }

  lemma WinValue()
    ensures ParseFloat("56.2") == Some(56.2)
  {
    TwoDigits("56");
    OneDigit("2");
    DecimalLiteral("56.2", "", "56", "2", 56.2);
  }

  lemma GammonValue()
    ensures ParseFloat("12.3") == Some(12.3)
  {
    TwoDigits("12");
    OneDigit("3");
    DecimalLiteral("12.3", "", "12", "3", 12.3);
  }

  lemma BackgammonValue()
    ensures ParseFloat("0.8") == Some(0.8)
  {
    OneDigit("0");
    OneDigit("8");
    DecimalLiteral("0.8", "", "0", "8", 0.8);
  }

  /** The documented evaluation decodes to equity 0.234 and probabilities 0.562, 0.123
      and 0.008. */
  lemma EvaluationDocExample()
    ensures ParseEvaluation(EvalText) == Some(PositionEvaluation(0.234, 0.562, 0.123, 0.008))
  {
    EquityOfEvalText();
    ValueOfEquity();
    WinOfEvalText();
    GammonOfEvalText();
    BackgammonOfEvalText();
    WinValue();
    GammonValue();
    BackgammonValue();
  }

  // ---------------------------------------------------------------------------
  // A backgammon line read by the gammon search as well

  /** The search is by substring, so `gammon` also matches inside `Backgammon`. */
  const BgText := "Backgammon: 0.8%"

  lemma BgSeparatorAndNumber()
    ensures RunEnd(BgText, 10, Separator) == 12
    ensures NumberEnd(BgText, 12, Percentage) == Some(15)
    ensures BgText[12..15] == "0.8"
  {
    RunEndIs(BgText, 10, Separator, 12);
    RunEndIs(BgText, 12, DigitOrPoint, 15);
  }

  lemma BgBackgammonMatch()
    ensures MatchAt(BgText, 0, BackgammonPattern) == Some("0.8")
  {
    var t := Lower(BgText);
    NotOccursAt(t, "win", 0, 0);
    assert forall k | 0 <= k < 10 :: t[k] == "backgammon"[k];
    OccursAtSpelled(t, "backgammon", 0);
    assert LabelEnd(t, 0, BackgammonPattern.labels[0]).None?;
    BgSeparatorAndNumber();
  }

  lemma BgGammonMatch()
    ensures MatchAt(BgText, 4, GammonPattern) == Some("0.8")
  {
    var t := Lower(BgText);
    NotOccursAt(t, "win", 4, 0);
    assert forall k | 0 <= k < 6 :: t[4 + k] == "gammon"[k];
    OccursAtSpelled(t, "gammon", 4);
    assert LabelEnd(t, 4, GammonPattern.labels[0]).None?;
    BgSeparatorAndNumber();
  }

  lemma BgNoEquity()
    ensures Search(BgText, EquityPattern) == None
  {
    NotFoundWithoutInitials(BgText, EquityPattern);
  }

  lemma BgNoWin()
    ensures Search(BgText, WinPattern) == None
  {
    NotFoundWithoutInitials(BgText, WinPattern);
  }

  lemma BgBackgammon()
    ensures Search(BgText, BackgammonPattern) == Some(Found(0, "0.8"))
  {
    BgBackgammonMatch();
    SearchIs(BgText, BackgammonPattern, 0, "0.8");
  }

  lemma BgNoGammonBefore()
    ensures forall j | 0 <= j < 4 :: MatchAt(BgText, j, GammonPattern).None?
  {
    NoMatchWithoutInitials(BgText, GammonPattern, 0, 4);
  }

  lemma BgGammon()
    ensures Search(BgText, GammonPattern) == Some(Found(4, "0.8"))
  {
    BgGammonMatch();
    BgNoGammonBefore();
    SearchIs(BgText, GammonPattern, 4, "0.8");
  }

  /** A lone backgammon line sets the gammon probability too, and leaves equity and
      win at zero. */
  lemma BackgammonAlsoGammon()
    ensures ParseEvaluation(BgText) == Some(PositionEvaluation(0.0, 0.0, 0.008, 0.008))
  {
    BgNoEquity();
    BgNoWin();
    BgBackgammon();
    BgGammon();
    BackgammonValue();
  }

  // ---------------------------------------------------------------------------
  // The documented hint output

  const Gap := "                      "
  const Line1Head := "1. Cubeful 2-ply    8/5 8/4" + Gap + "Eq.: "
  const Line1 := Line1Head + "+0.200"
  const Line2 := "   0.571 0.000 0.000" + " - 0.429 0.000 0.000"
  const Line3Head := "2. Cubeful 2-ply    8/4 6/3" + Gap + "Eq.: "
  const Line3 := Line3Head + "+0.177 (-0.023)"
  const Line4 := "   0.565 0.000 0.000" + " - 0.435 0.000 0.000"

  /** A one-digit rank converts to its digit. */
  lemma ParseOneDigit(s: string)
    requires |s| == 1 && IsDigit(s[0])
    ensures ParseInt(s) == Some(DigitValue(s[0]))
  {
    StripKeeps(s, 0, 1);
    assert s[0..1] == s;
    OneDigit(s);
  }

  lemma Line1Stripped()
    ensures Strip(Line1) == Line1
  {
    StripKeeps(Line1, 0, |Line1|);
    assert Line1[0..|Line1|] == Line1;
  }

  lemma Line1Rank()
    ensures IndexOf(Line1, '.') == Some(1)
    ensures ParseInt(Line1[..1]) == Some(1)
  {
    assert Line1[..1] == "1";
    IndexOfIs(Line1, '.', 1);
    ParseOneDigit("1");
  }

  lemma Line1MarkerAt()
    ensures OccursAt(Lower(Line1), EquityMarker, 49)
  {
    var t := Lower(Line1);
    assert forall k | 0 <= k < 4 :: t[49 + k] == EquityMarker[k];
    OccursAtSpelled(t, EquityMarker, 49);
  }

  lemma Line1NoMarkerBefore()
    ensures forall j | 0 <= j < 49 :: !OccursAt(Lower(Line1), EquityMarker, j)
  {
    var t := Lower(Line1);
    assert forall j | 0 <= j < 49 :: t[j] != 'e' || t[j + 1] != 'q';
    NotOccursBefore(t, EquityMarker, 49);
  }

  lemma Line1Marker()
    ensures Find(Lower(Line1), EquityMarker) == Some(49)
  {
    Line1MarkerAt();
    Line1NoMarkerBefore();
    FindIs(Lower(Line1), EquityMarker, 49);
  }

  lemma Line1Landmarks()
    ensures FindLandmarks(Line1) == Some(Landmarks(1, 1, 49))
  {
    Line1Rank();
    Line1Marker();
  }

  /** Four words found one after the other in `s[lo..hi]`, with nothing after the last. */
  lemma FourWords(s: string, lo: nat, a1: nat, b1: nat, a2: nat, b2: nat, a3: nat, b3: nat,
                  a4: nat, hi: nat)
    requires lo <= a1 < b1 <= a2 < b2 <= a3 < b3 <= a4 < hi <= |s|
    requires Words(s[lo..hi]) == [s[a1..b1]] + Words(s[b1..hi])
    requires Words(s[b1..hi]) == [s[a2..b2]] + Words(s[b2..hi])
    requires Words(s[b2..hi]) == [s[a3..b3]] + Words(s[b3..hi])
    requires Words(s[b3..hi]) == [s[a4..hi]] + Words(s[hi..hi])
    ensures Words(s[lo..hi]) == [s[a1..b1], s[a2..b2], s[a3..b3], s[a4..hi]]
  {
    WordsOfSpaces(s[hi..hi]);
    ChainOfFour(Words(s[lo..hi]), Words(s[b1..hi]), Words(s[b2..hi]), Words(s[b3..hi]),
      Words(s[hi..hi]), s[a1..b1], s[a2..b2], s[a3..b3], s[a4..hi]);
  }

  /** Four lists, each one element longer than the next, ending in the empty list. */
  lemma ChainOfFour(w0: seq<string>, w1: seq<string>, w2: seq<string>, w3: seq<string>,
                    w4: seq<string>, x1: string, x2: string, x3: string, x4: string)
    requires w0 == [x1] + w1 && w1 == [x2] + w2 && w2 == [x3] + w3 && w3 == [x4] + w4
    requires w4 == []
    ensures w0 == [x1, x2, x3, x4]
  {
  }

  /** Of the four words, the two holding a `/` are kept. */
  lemma LastTwoTokens(a: string, b: string, c: string, d: string)
    requires '/' !in a && '/' !in b && '/' in c && '/' in d
    ensures SlashTokens([a, b, c, d]) == [c, d]
  {
    var ws := [a, b, c, d];
    assert ws[3..] == [d] && ws[3..][1..] == [];
    assert SlashTokens(ws[3..]) == [d];
    assert ws[2..][1..] == ws[3..];
    assert SlashTokens(ws[2..]) == [c, d];
    assert ws[1..][1..] == ws[2..];
    assert SlashTokens(ws[1..]) == [c, d];
  }

  lemma Line1Section()
    ensures Strip(Line1[2..49]) == Line1[3..27]
  {
    StripWindow(Line1, 2, 3, 27, 49);
  }

  lemma Line1Word1()
    ensures Words(Line1[3..27]) == [Line1[3..10]] + Words(Line1[10..27])
  {
    WordsWindow(Line1, 3, 3, 10, 27);
  }

  lemma Line1Word2()
    ensures Words(Line1[10..27]) == [Line1[11..16]] + Words(Line1[16..27])
  {
    WordsWindow(Line1, 10, 11, 16, 27);
  }

  lemma Line1Word3()
    ensures Words(Line1[16..27]) == [Line1[20..23]] + Words(Line1[23..27])
  {
    WordsWindow(Line1, 16, 20, 23, 27);
  }

  lemma Line1Word4()
    ensures Words(Line1[23..27]) == [Line1[24..27]] + Words(Line1[27..27])
  {
    WordsWindow(Line1, 23, 24, 27, 27);
  }

  lemma Line1Words()
    ensures Words(Line1[3..27]) == [Line1[3..10], Line1[11..16], Line1[20..23], Line1[24..27]]
  {
    Line1Word1();
    Line1Word2();
    Line1Word3();
    Line1Word4();
    FourWords(Line1, 3, 3, 10, 11, 16, 20, 23, 24, 27);
  }

  lemma Line1Tokens()
    ensures SlashTokens([Line1[3..10], Line1[11..16], Line1[20..23], Line1[24..27]]) == ["8/5", "8/4"]
  {
    assert forall k | 0 <= k < 7 :: Line1[3 + k] == "Cubeful"[k];
    assert Line1[3..10] == "Cubeful";
    assert Line1[11..16] == "2-ply";
    assert Line1[20..23] == "8/5" && Line1[24..27] == "8/4";
    assert forall k | 0 <= k < 7 :: "Cubeful"[k] != '/';
    assert forall k | 0 <= k < 5 :: "2-ply"[k] != '/';
    assert "8/5"[1] == '/' && "8/4"[1] == '/';
    LastTwoTokens("Cubeful", "2-ply", "8/5", "8/4");
  }

  /** Two moves joined by a space. */
  lemma JoinTwo(a: string, b: string)
    ensures Join([a, b], " ") == a + " " + b
  {
    assert [a, b][1..] == [b];
  }

  /** The notation of a section, from its stripped text, its words and the kept tokens. */
  lemma NotationOf(section: string, stripped: string, ws: seq<string>, ts: seq<string>)
    requires Strip(section) == stripped && Words(stripped) == ws && SlashTokens(ws) == ts
    ensures Notation(section) == Join(ts, " ")
  {
  }

  lemma Line1Notation()
    ensures Notation(Line1[2..49]) == "8/5 8/4"
  {
    Line1NotationJoined();
    JoinTwo("8/5", "8/4");
    LitJoin();
  }

  lemma Line1NotationJoined()
    ensures Notation(Line1[2..49]) == Join(["8/5", "8/4"], " ")
  {
    Line1Section();
    Line1Words();
    Line1Tokens();
    NotationOf(Line1[2..49], Line1[3..27], [Line1[3..10], Line1[11..16], Line1[20..23], Line1[24..27]], ["8/5", "8/4"]);
  }

  /** The two notations of the hint example, spelled out. */
  lemma LitJoin()
    ensures "8/5" + " " + "8/4" == "8/5 8/4"
    ensures "8/4" + " " + "6/3" == "8/4 6/3"
  {
  }

  /** A move at known landmarks, from its notation and the number after the marker. */
  lemma MoveAtIs(t: string, l: Landmarks, notation: string, rest: string, c: string, v: real)
    requires l.dot < l.eq && l.eq + |EquityMarker| <= |t|
    requires Notation(t[l.dot + 1..l.eq]) == notation && notation != []
    requires Strip(t[l.eq + |EquityMarker|..]) == rest
    requires LeadingNumber(rest) == Some(c) && ParseFloat(c) == Some(v)
    ensures MoveAt(t, l) == Some(MoveAnalysis(l.rank, notation, v))
  {
  }

  /** A line whose trimmed text has landmarks and a move there reads as that move. */
  lemma MoveLineIs(line: string, t: string, l: Landmarks, m: MoveAnalysis)
    requires Strip(line) == t && FindLandmarks(t) == Some(l)
    requires l.dot < l.eq && l.eq + |EquityMarker| <= |t|
    requires MoveAt(t, l) == Some(m)
    ensures ParseMoveLine(line) == Some(m)
  {
  }

  lemma Line1TailStrip()
    ensures Strip(Line1[53..]) == Line1[54..60]
  {
    assert Line1[53..] == Line1[53..60];
    StripWindow(Line1, 53, 54, 60, 60);
  }

  lemma Line1Tail()
    ensures Strip(Line1[53..]) == "+0.200"
  {
    Line1TailStrip();
    assert |Line1Head| == 54;
    assert Line1[54..60] == "+0.200";
  }

  lemma Line1Number()
    ensures LeadingNumber("+0.200") == Some("+0.200")
  {
    assert "+0.200" == "+0.200" + "";
    LeadingDecimalAt("+0.200", "+0.200", "", 2);
  }

  lemma Line1Value()
    ensures ParseFloat("+0.200") == Some(0.2)
  {
    ZeroPointThree("200");
    DecimalLiteral("+0.200", "+", "0", "200", 0.2);
  }

  /** The first move line of the hint example. */
  lemma Line1Move()
    ensures ParseMoveLine(Line1) == Some(MoveAnalysis(1, "8/5 8/4", 0.2))
  {
    Line1Stripped();
    Line1Landmarks();
    Line1Notation();
    Line1Tail();
    Line1Number();
    Line1Value();
    MoveAtIs(Line1, Landmarks(1, 1, 49), "8/5 8/4", "+0.200", "+0.200", 0.2);
    MoveLineIs(Line1, Line1, Landmarks(1, 1, 49), MoveAnalysis(1, "8/5 8/4", 0.2));
  }

  lemma Line3Stripped()
    ensures Strip(Line3) == Line3
  {
    StripKeeps(Line3, 0, |Line3|);
    assert Line3[0..|Line3|] == Line3;
  }

  lemma Line3Rank()
    ensures IndexOf(Line3, '.') == Some(1)
    ensures ParseInt(Line3[..1]) == Some(2)
  {
    assert Line3[..1] == "2";
    IndexOfIs(Line3, '.', 1);
    ParseOneDigit("2");
  }

  lemma Line3MarkerAt()
    ensures OccursAt(Lower(Line3), EquityMarker, 49)
  {
    var t := Lower(Line3);
    assert forall k | 0 <= k < 4 :: t[49 + k] == EquityMarker[k];
    OccursAtSpelled(t, EquityMarker, 49);
  }

  lemma Line3NoMarkerBefore()
    ensures forall j | 0 <= j < 49 :: !OccursAt(Lower(Line3), EquityMarker, j)
  {
    var t := Lower(Line3);
    assert forall j | 0 <= j < 49 :: t[j] != 'e' || t[j + 1] != 'q';
    NotOccursBefore(t, EquityMarker, 49);
  }

  lemma Line3Marker()
    ensures Find(Lower(Line3), EquityMarker) == Some(49)
  {
    Line3MarkerAt();
    Line3NoMarkerBefore();
    FindIs(Lower(Line3), EquityMarker, 49);
  }

  lemma Line3Landmarks()
    ensures FindLandmarks(Line3) == Some(Landmarks(1, 2, 49))
  {
    Line3Rank();
    Line3Marker();
  }

  lemma Line3Section()
    ensures Strip(Line3[2..49]) == Line3[3..27]
  {
    StripWindow(Line3, 2, 3, 27, 49);
  }

  lemma Line3Word1()
    ensures Words(Line3[3..27]) == [Line3[3..10]] + Words(Line3[10..27])
  {
    WordsWindow(Line3, 3, 3, 10, 27);
  }

  lemma Line3Word2()
    ensures Words(Line3[10..27]) == [Line3[11..16]] + Words(Line3[16..27])
  {
    WordsWindow(Line3, 10, 11, 16, 27);
  }

  lemma Line3Word3()
    ensures Words(Line3[16..27]) == [Line3[20..23]] + Words(Line3[23..27])
  {
    WordsWindow(Line3, 16, 20, 23, 27);
  }

  lemma Line3Word4()
    ensures Words(Line3[23..27]) == [Line3[24..27]] + Words(Line3[27..27])
  {
    WordsWindow(Line3, 23, 24, 27, 27);
  }

  lemma Line3Words()
    ensures Words(Line3[3..27]) == [Line3[3..10], Line3[11..16], Line3[20..23], Line3[24..27]]
  {
    Line3Word1();
    Line3Word2();
    Line3Word3();
    Line3Word4();
    FourWords(Line3, 3, 3, 10, 11, 16, 20, 23, 24, 27);
  }

  lemma Line3Tokens()
    ensures SlashTokens([Line3[3..10], Line3[11..16], Line3[20..23], Line3[24..27]]) == ["8/4", "6/3"]
  {
    assert forall k | 0 <= k < 7 :: Line3[3 + k] == "Cubeful"[k];
    assert Line3[3..10] == "Cubeful";
    assert Line3[11..16] == "2-ply";
    assert Line3[20..23] == "8/4" && Line3[24..27] == "6/3";
    assert forall k | 0 <= k < 7 :: "Cubeful"[k] != '/';
    assert forall k | 0 <= k < 5 :: "2-ply"[k] != '/';
    assert "8/4"[1] == '/' && "6/3"[1] == '/';
    LastTwoTokens("Cubeful", "2-ply", "8/4", "6/3");
  }

  lemma Line3Notation()
    ensures Notation(Line3[2..49]) == "8/4 6/3"
  {
    Line3NotationJoined();
    JoinTwo("8/4", "6/3");
    LitJoin();
  }

  lemma Line3NotationJoined()
    ensures Notation(Line3[2..49]) == Join(["8/4", "6/3"], " ")
  {
    Line3Section();
    Line3Words();
    Line3Tokens();
    NotationOf(Line3[2..49], Line3[3..27], [Line3[3..10], Line3[11..16], Line3[20..23], Line3[24..27]], ["8/4", "6/3"]);
  }

  lemma Line3TailStrip()
    ensures Strip(Line3[53..]) == Line3[54..69]
  {
    assert Line3[53..] == Line3[53..69];
    StripWindow(Line3, 53, 54, 69, 69);
  }

  lemma Line3Tail()
    ensures Strip(Line3[53..]) == "+0.177 (-0.023)"
  {
    Line3TailStrip();
    assert |Line3Head| == 54;
    assert Line3[54..69] == "+0.177 (-0.023)";
  }

  /** The bracketed difference after the equity is not part of the number. */
  lemma Line3Number()
    ensures LeadingNumber("+0.177 (-0.023)") == Some("+0.177")
  {
    LeadingDecimalAt("+0.177 (-0.023)", "+0.177", " (-0.023)", 2);
  }

  lemma Line3Value()
    ensures ParseFloat("+0.177") == Some(0.177)
  {
    ZeroPointThree("177");
    DecimalLiteral("+0.177", "+", "0", "177", 0.177);
  }

  /** The second move line: the trailing difference is ignored. */
  lemma Line3Move()
    ensures ParseMoveLine(Line3) == Some(MoveAnalysis(2, "8/4 6/3", 0.177))
  {
    Line3Stripped();
    Line3Landmarks();
    Line3Notation();
    Line3Tail();
    Line3Number();
    Line3Value();
    MoveAtIs(Line3, Landmarks(1, 2, 49), "8/4 6/3", "+0.177 (-0.023)", "+0.177", 0.177);
    MoveLineIs(Line3, Line3, Landmarks(1, 2, 49), MoveAnalysis(2, "8/4 6/3", 0.177));
  }

  /** A summary line has no `e`, so it has no marker and is skipped. */
  lemma SkippedWithoutMarker(line: string)
    requires forall i | 0 <= i < |line| :: line[i] != 'e' && line[i] != 'E'
    ensures ParseMoveLine(line) == None
  {
    var lo, hi := StripParts(line);
    var t := Lower(Strip(line));
    forall i | 0 <= i < |t| ensures t[i] != EquityMarker[0] {
      assert Strip(line)[i] == line[lo + i];
    }
    NotFoundWithoutInitial(t, EquityMarker);
  }

  lemma Line2Skipped()
    ensures ParseMoveLine(Line2) == None
  {
    SkippedWithoutMarker(Line2);
  }

  lemma Line4Skipped()
    ensures ParseMoveLine(Line4) == None
  {
    SkippedWithoutMarker(Line4);
  }

  /** Text without a line break is a single line. */
  lemma SingleLine(line: string)
    requires forall i | 0 <= i < |line| :: line[i] != '\n'
    ensures ParseMoveAnalysis(line) == if ParseMoveLine(line).Some? then [ParseMoveLine(line).value] else []
  {
    assert '\n' !in line;
    assert Split(line, '\n') == [line];
    assert [line][1..] == [];
  }

  /** A single line that reads as a move. */
  lemma SingleMove(line: string, m: MoveAnalysis)
    requires forall i | 0 <= i < |line| :: line[i] != '\n'
    requires ParseMoveLine(line) == Some(m)
    ensures ParseMoveAnalysis(line) == [m]
  {
    SingleLine(line);
  }

  lemma Line1Unbroken()
    ensures forall i | 0 <= i < |Line1| :: Line1[i] != '\n'
  {
  }

  lemma Line3Unbroken()
    ensures forall i | 0 <= i < |Line3| :: Line3[i] != '\n'
  {
  }

  lemma Line1Alone()
    ensures ParseMoveAnalysis(Line1) == [MoveAnalysis(1, "8/5 8/4", 0.2)]
  {
    Line1Move();
    Line1Unbroken();
    SingleMove(Line1, MoveAnalysis(1, "8/5 8/4", 0.2));
  }

  lemma Line2Unbroken()
    ensures forall i | 0 <= i < |Line2| :: Line2[i] != '\n'
  {
  }

  lemma Line2Alone()
    ensures ParseMoveAnalysis(Line2) == []
  {
    Line2Skipped();
    Line2Unbroken();
    SingleLine(Line2);
  }

  lemma Line3Alone()
    ensures ParseMoveAnalysis(Line3) == [MoveAnalysis(2, "8/4 6/3", 0.177)]
  {
    Line3Move();
    Line3Unbroken();
    SingleMove(Line3, MoveAnalysis(2, "8/4 6/3", 0.177));
  }

  lemma Line4Unbroken()
    ensures forall i | 0 <= i < |Line4| :: Line4[i] != '\n'
  {
  }

  lemma Line4Alone()
    ensures ParseMoveAnalysis(Line4) == []
  {
    Line4Skipped();
    Line4Unbroken();
    SingleLine(Line4);
  }

  /** Four lines read one after the other. */
  lemma FourLines(a: string, b: string, c: string, d: string)
    ensures ParseMoveAnalysis(a + "\n" + b + "\n" + c + "\n" + d) ==
      ParseMoveAnalysis(a) + ParseMoveAnalysis(b) + ParseMoveAnalysis(c) + ParseMoveAnalysis(d)
  {
    MoveAnalysisConcat(a, b);
    MoveAnalysisConcat(a + "\n" + b, c);
    MoveAnalysisConcat(a + "\n" + b + "\n" + c, d);
  }

  const HintText := Line1 + "\n" + Line2 + "\n" + Line3 + "\n" + Line4

  /** The documented hint output yields its two ranked moves in order; the equity
      differences in brackets and the probability lines are ignored. */
  lemma HintDocExample()
    ensures ParseMoveAnalysis(HintText) ==
      [MoveAnalysis(1, "8/5 8/4", 0.2), MoveAnalysis(2, "8/4 6/3", 0.177)]
  {
    Line1Alone();
    Line2Alone();
    Line3Alone();
    Line4Alone();
    FourLines(Line1, Line2, Line3, Line4);
  }
}
