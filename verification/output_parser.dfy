/**
 Decoders that turn the analysis engine's free-text output into records: a position
 evaluation, a ranked list of moves and a cube decision. Unrecognised text never makes
 them fail, with one exception: a percentage such as `1.2.3%` in an evaluation, which
 the conversion to a number rejects.
 */
module OutputParser {
  import opened Wrappers
  import opened Text
  import opened Patterns
  import opened Lists

  /** Equity and the probabilities of winning, winning a gammon and winning a backgammon. */
  datatype PositionEvaluation = PositionEvaluation(
    equity: real, winProb: real, gammonProb: real, backgammonProb: real)

  /** One candidate move: its rank in the engine's list, its notation (`8/5 8/4`) and
      its equity. */
  datatype MoveAnalysis = MoveAnalysis(rank: int, notation: string, equity: real)

  /** The three answers to a cube decision. */
  datatype Recommendation = NoDouble | Double | TooGood

  /** The equities of the three cube actions, the recommendation and the raw output. */
  datatype CubeDecision = CubeDecision(
    noDoubleEq: real, doubleTakeEq: real, doublePassEq: real,
    recommendation: Recommendation, details: Option<string>)

  /** The name under which a recommendation is reported: each action under its own name. */
  function RecommendationName(r: Recommendation): (name: string)
    ensures name == "NoDouble" <==> r == NoDouble
    ensures name == "Double" <==> r == Double
    ensures name == "TooGood" <==> r == TooGood
  {
    match r
    case NoDouble => "NoDouble"
    case Double => "Double"
    case TooGood => "TooGood"
  }

  /** The recommendation reported under `name`, if any. */
  function RecommendationOfName(name: string): (r: Option<Recommendation>)
    ensures r.Some? <==> name in {"NoDouble", "Double", "TooGood"}
  {
    if name == "NoDouble" then Some(NoDouble)
    else if name == "Double" then Some(Double)
    else if name == "TooGood" then Some(TooGood)
    else None
  }

  /** A reported name reads back as the recommendation it reports, and every name that
      reads back is the name of what it reads as. */
  lemma RecommendationNameRoundTrip(r: Recommendation, name: string)
    ensures RecommendationOfName(RecommendationName(r)) == Some(r)
    ensures RecommendationOfName(name).Some? ==> RecommendationName(RecommendationOfName(name).value) == name
  {
  }

  /** Distinct recommendations are reported under distinct names. */
  lemma RecommendationNamesDistinct(a: Recommendation, b: Recommendation)
    ensures RecommendationName(a) == RecommendationName(b) <==> a == b
  {
    if a != b {
      var x, y := RecommendationName(a), RecommendationName(b);
      assert x[0] != y[0] || |x| != |y|;
    }
  }

  // ---------------------------------------------------------------------------
  // Position evaluation

  const EquityPattern := Pattern([Word("equity")], SignedDecimal)
  const WinPattern := Pattern([Word("win")], Percentage)
  const GammonPattern := Pattern([TwoWords("win", "g"), Word("gammon")], Percentage)
  const BackgammonPattern := Pattern([TwoWords("win", "bg"), Word("backgammon")], Percentage)

  /** A signed-decimal field: the captured number, or 0.0 when the pattern is not found.
      The capture is always a valid number, so this conversion never fails. */
  function SignedField(text: string, p: Pattern): (v: real)
    requires p.number == SignedDecimal
    ensures Search(text, p).None? ==> v == 0.0
    ensures Search(text, p).Some? ==> ParseFloat(Search(text, p).value.text) == Some(v)
  {
    match Search(text, p)
    case None => 0.0
    case Some(f) =>
      CaptureShape(text, f.at, p.labels, p.number);
      SignedDecimalParses(f.text);
      ParseFloat(f.text).value
  }

  /** A percentage field as a fraction: 0.0 when the pattern is not found, otherwise the
      captured number divided by 100; `None` when the capture is not a valid number. */
  function PercentField(text: string, p: Pattern): (r: Option<real>)
    requires p.number == Percentage
    ensures Search(text, p).None? ==> r == Some(0.0)
    ensures Search(text, p).Some? ==>
      (r.None? <==> ParseFloat(Search(text, p).value.text).None?)
    ensures Search(text, p).Some? && r.Some? ==>
      r.value == ParseFloat(Search(text, p).value.text).value / 100.0
    ensures r.Some? ==> r.value >= 0.0
  {
    match Search(text, p)
    case None => Some(0.0)
    case Some(f) =>
      CaptureShape(text, f.at, p.labels, p.number);
      var c := f.text;
      ParseFloatDigitsAndDots(c);
      match ParseFloat(c)
      case None => None
      case Some(v) => Some(v / 100.0)
  }

  /** The position evaluation in `text`: each field is looked up on its own and keeps
      its 0.0 default when its label is absent. `None` when a captured percentage is
      not a valid number (the conversion raises). */
  function ParseEvaluation(text: string): (r: Option<PositionEvaluation>)
    ensures r.None? <==>
      PercentField(text, WinPattern).None? || PercentField(text, GammonPattern).None?
      || PercentField(text, BackgammonPattern).None?
    ensures r.Some? ==> r.value.equity == SignedField(text, EquityPattern)
    ensures r.Some? ==> Some(r.value.winProb) == PercentField(text, WinPattern)
    ensures r.Some? ==> Some(r.value.gammonProb) == PercentField(text, GammonPattern)
    ensures r.Some? ==> Some(r.value.backgammonProb) == PercentField(text, BackgammonPattern)
    ensures r.Some? ==>
      r.value.winProb >= 0.0 && r.value.gammonProb >= 0.0 && r.value.backgammonProb >= 0.0
  {
    var win := PercentField(text, WinPattern);
    var gammon := PercentField(text, GammonPattern);
    var backgammon := PercentField(text, BackgammonPattern);
    if win.Some? && gammon.Some? && backgammon.Some? then
      Some(PositionEvaluation(
        SignedField(text, EquityPattern), win.value, gammon.value, backgammon.value))
    else None
  }

  /** A percentage with two points, such as `1.2.3%`, is captured but does not convert,
      so the whole evaluation fails, whichever of the three percentages it is. */
  lemma TwoPointPercentFails(text: string, p: Pattern, a: string, b: string, c: string)
    requires p == WinPattern || p == GammonPattern || p == BackgammonPattern
    requires Search(text, p).Some? && Search(text, p).value.text == a + "." + b + "." + c
    requires a != [] && c != [] && AllDigits(a) && AllDigits(b) && AllDigits(c)
    ensures ParseEvaluation(text).None?
  {
    ParseFloatRejectsTwoPoints(a, b, c);
    assert PercentField(text, p).None?;
  }

  /** Fields whose label does not occur keep their zero defaults: text without any label
      evaluates to all zeros. */
  lemma EvaluationDefaults(text: string)
    requires Search(text, EquityPattern).None? && Search(text, WinPattern).None?
    requires Search(text, GammonPattern).None? && Search(text, BackgammonPattern).None?
    ensures ParseEvaluation(text) == Some(PositionEvaluation(0.0, 0.0, 0.0, 0.0))
  {
  }

  // ---------------------------------------------------------------------------
  // Move analysis

  /** The marker that introduces a move's equity, matched case-insensitively. */
  const EquityMarker := "eq.:"

  /** The tokens that contain a `/`, in their original order. */
  function SlashTokens(ws: seq<string>): (r: seq<string>)
    ensures |r| <= |ws|
    ensures forall k | 0 <= k < |r| :: '/' in r[k] && r[k] in ws
    ensures forall k | 0 <= k < |ws| :: '/' in ws[k] ==> ws[k] in r
  {
    if ws == [] then []
    else (if '/' in ws[0] then [ws[0]] else []) + SlashTokens(ws[1..])
  }

  /** Keeping the slash tokens of two lists one after the other keeps their order. */
  lemma {:induction false} SlashTokensAppend(a: seq<string>, b: seq<string>)
    ensures SlashTokens(a + b) == SlashTokens(a) + SlashTokens(b)
  {
    if a != [] {
      assert (a + b)[1..] == a[1..] + b;
      SlashTokensAppend(a[1..], b);
    } else {
      assert a + b == b;
    }
  }

  /** The move notation in the text between the rank and the marker: its slash-bearing
      tokens joined by single spaces. Splitting the notation on whitespace gives those
      tokens back, it is laid out with single spaces, and it is empty only when there are
      none. */
  function Notation(section: string): (n: string)
    ensures Words(n) == SlashTokens(Words(Strip(section)))
    ensures SingleSpaced(n)
    ensures n == [] <==> SlashTokens(Words(Strip(section))) == []
  {
    var tokens := SlashTokens(Words(Strip(section)));
    WordsOfJoin(tokens);
    JoinSingleSpaced(tokens);
    Join(tokens, " ")
  }

  /** A rank prefix that starts with a digit and converts to a number is made of digits,
      possibly followed by whitespace. */
  lemma RankPrefixChars(prefix: string)
    requires prefix != [] && IsDigit(prefix[0])
    requires ParseInt(prefix).Some?
    ensures forall i | 0 <= i < |prefix| :: IsDigit(prefix[i]) || IsSpace(prefix[i])
    ensures ParseInt(prefix).value >= 0
  {
    var lo, hi := StripParts(prefix);
    var digits := Strip(prefix);
    assert lo == 0;
    assert digits[0] == prefix[0];
    assert AllDigits(digits);
    forall i | 0 <= i < |prefix| ensures IsDigit(prefix[i]) || IsSpace(prefix[i]) {
      assert i < hi ==> prefix[i] == digits[i];
    }
  }

  /** Once the rank prefix of a trimmed line converts to a number, the marker, if any,
      lies after the first point, so the notation section between them is well formed. */
  lemma MarkerFollowsRank(t: string, dot: nat, eq: nat)
    requires t != [] && IsDigit(t[0])
    requires IndexOf(t, '.') == Some(dot)
    requires ParseInt(t[..dot]).Some?
    requires Find(Lower(t), EquityMarker) == Some(eq)
    ensures dot < eq
  {
    assert t[..dot][0] == t[0];
    RankPrefixChars(t[..dot]);
    OccursAtChar(Lower(t), EquityMarker, eq, 0);
    assert LowerChar(t[eq]) == 'e';
    assert !IsDigit(t[eq]) && !IsSpace(t[eq]) && t[eq] != '.';
    assert forall i | 0 <= i < dot :: t[..dot][i] == t[i];
  }

  /** Where the parts of a move line are: the first point, the rank before it and the
      marker. */
  datatype Landmarks = Landmarks(dot: nat, rank: int, eq: nat)

  /** The first checks on a trimmed line: a leading digit, a first point whose prefix
      converts to the rank, and the marker, which then always comes after the point. */
  function FindLandmarks(t: string): (r: Option<Landmarks>)
    ensures r.None? <==>
      || t == [] || !IsDigit(t[0])
      || IndexOf(t, '.').None?
      || ParseInt(t[..IndexOf(t, '.').value]).None?
      || Find(Lower(t), EquityMarker).None?
    ensures r.Some? ==>
      && IndexOf(t, '.') == Some(r.value.dot)
      && ParseInt(t[..r.value.dot]) == Some(r.value.rank)
      && Find(Lower(t), EquityMarker) == Some(r.value.eq)
    ensures r.Some? ==>
      r.value.rank >= 0 && r.value.dot < r.value.eq && r.value.eq + |EquityMarker| <= |t|
  {
    if t == [] || !IsDigit(t[0]) then None
    else
      match IndexOf(t, '.')
      case None => None
      case Some(dot) =>
        match ParseInt(t[..dot])
        case None => None
        case Some(rank) =>
          match Find(Lower(t), EquityMarker)
          case None => None
          case Some(eq) =>
            assert t[..dot][0] == t[0];
            RankPrefixChars(t[..dot]);
            MarkerFollowsRank(t, dot, eq);
            Some(Landmarks(dot, rank, eq))
  }

  /** The last checks on a line with landmarks: a notation between the point and the
      marker, and a number right after the marker (whatever follows it is ignored). The
      conversion of that number never fails. */
  function MoveAt(t: string, l: Landmarks): (r: Option<MoveAnalysis>)
    requires l.dot < l.eq && l.eq + |EquityMarker| <= |t|
    ensures r.Some? <==>
      && SlashTokens(Words(Strip(t[l.dot + 1..l.eq]))) != []
      && LeadingNumber(Strip(t[l.eq + |EquityMarker|..])).Some?
    ensures r.Some? ==>
      && r.value.rank == l.rank
      && r.value.notation != []
      && Words(r.value.notation) == SlashTokens(Words(Strip(t[l.dot + 1..l.eq])))
      && SingleSpaced(r.value.notation)
      && ParseFloat(LeadingNumber(Strip(t[l.eq + |EquityMarker|..])).value) == Some(r.value.equity)
  {
    var notation := Notation(t[l.dot + 1..l.eq]);
    if notation == [] then None
    else
      var rest := Strip(t[l.eq + |EquityMarker|..]);
      match LeadingNumber(rest)
      case None => None
      case Some(c) =>
        LeadingNumberParses(rest);
        match ParseFloat(c)
        case None => None
        case Some(equity) => Some(MoveAnalysis(l.rank, notation, equity))
  }

  /** One line of hint output read as a ranked move; `None` when the line is skipped.
      Lines that are empty once trimmed, do not start with a digit, have no point or no
      marker are always skipped; a kept move has a natural rank and a non-empty notation
      whose every token holds a `/`. */
  function ParseMoveLine(line: string): (r: Option<MoveAnalysis>)
    ensures Strip(line) == [] || !IsDigit(Strip(line)[0]) ==> r.None?
    ensures '.' !in Strip(line) ==> r.None?
    ensures !Contains(Lower(Strip(line)), EquityMarker) ==> r.None?
    ensures r.Some? ==> r.value.rank >= 0 && r.value.notation != []
    ensures r.Some? ==> forall k | 0 <= k < |Words(r.value.notation)| ::
      '/' in Words(r.value.notation)[k]
  {
    var t := Strip(line);
    match FindLandmarks(t)
    case None => None
    case Some(l) => MoveAt(t, l)
  }

  /** The ranked moves in hint output, one per line that reads as a move, in line order;
      there are never more moves than lines, and every move comes from a line. */
  function ParseMoveAnalysis(text: string): (r: seq<MoveAnalysis>)
    ensures |r| <= |Split(text, '\n')|
    ensures forall k | 0 <= k < |r| :: r[k].notation != [] && r[k].rank >= 0
    ensures forall k | 0 <= k < |r| ::
      exists i | 0 <= i < |Split(text, '\n')| :: ParseMoveLine(Split(text, '\n')[i]) == Some(r[k])
  {
    var lines := Split(text, '\n');
    var r := FilterMap(ParseMoveLine, lines);
    forall k | 0 <= k < |r|
      ensures exists i | 0 <= i < |lines| :: ParseMoveLine(lines[i]) == Some(r[k])
    {
      FilterMapSound(ParseMoveLine, lines, k);
    }
    r
  }

  /** Every line of the output that reads as a move contributes that move. */
  lemma MoveAnalysisComplete(text: string, i: nat)
    requires i < |Split(text, '\n')|
    ensures ParseMoveLine(Split(text, '\n')[i]).Some? ==>
      ParseMoveLine(Split(text, '\n')[i]).value in ParseMoveAnalysis(text)
  {
    if ParseMoveLine(Split(text, '\n')[i]).Some? {
      FilterMapComplete(ParseMoveLine, Split(text, '\n'), i);
    }
  }

  /** Joining two outputs with a line break joins their move lists. */
  lemma MoveAnalysisConcat(a: string, b: string)
    ensures ParseMoveAnalysis(a + "\n" + b) == ParseMoveAnalysis(a) + ParseMoveAnalysis(b)
  {
    var xs := Split(a, '\n');
    var ys := Split(b, '\n');
    SplitConcat(a, b, '\n');
    FilterMapAppend(ParseMoveLine, xs, ys);
  }

  // ---------------------------------------------------------------------------
  // Cube decision

  const NoDoublePattern := Pattern([TwoWords("no", "double")], SignedDecimal)
  const DoubleTakePattern := Pattern([TwoWords("double,", "take")], SignedDecimal)
  const DoublePassPattern := Pattern([TwoWords("double,", "pass")], SignedDecimal)

  /** The recommendation read off the three equities: the action whose equity is strictly
      greater than both others, and no double when no action is strictly best. */
  function InferRecommendation(noDouble: real, take: real, pass: real): (r: Recommendation)
    ensures forall o: Recommendation :: StrictlyBest(o, noDouble, take, pass) ==> r == o
    ensures (forall o: Recommendation :: !StrictlyBest(o, noDouble, take, pass)) ==> r == NoDouble
  {
    assert EquityOf(NoDouble, noDouble, take, pass) == noDouble;
    assert EquityOf(Double, noDouble, take, pass) == take;
    assert EquityOf(TooGood, noDouble, take, pass) == pass;
    if take > noDouble && take > pass then
      assert StrictlyBest(Double, noDouble, take, pass);
      Double
    else if pass > noDouble && pass > take then
      assert StrictlyBest(TooGood, noDouble, take, pass);
      TooGood
    else NoDouble
  }

  /** The equity of an action. */
  function EquityOf(r: Recommendation, noDouble: real, take: real, pass: real): real {
    match r
    case NoDouble => noDouble
    case Double => take
    case TooGood => pass
  }

  /** `r`'s equity beats that of every other action. */
  predicate StrictlyBest(r: Recommendation, noDouble: real, take: real, pass: real) {
    forall o: Recommendation {:trigger EquityOf(o, noDouble, take, pass)} | o != r ::
      EquityOf(o, noDouble, take, pass) < EquityOf(r, noDouble, take, pass)
  }

  const CorrectDouble := "correct cube action: double"
  const CorrectNoDouble := "correct cube action: no double"
  const TooGoodPhrase := "too good"

  /** The final recommendation: an explicit verdict in the output overrides the inferred
      one, a stated double first, then a stated no double, then "too good". */
  function CubeRecommendation(text: string, inferred: Recommendation): (r: Recommendation)
    ensures Contains(Lower(text), CorrectDouble) ==> r == Double
    ensures !Contains(Lower(text), CorrectDouble) && Contains(Lower(text), CorrectNoDouble)
      ==> r == NoDouble
    ensures (!Contains(Lower(text), CorrectDouble) && !Contains(Lower(text), CorrectNoDouble)
      && Contains(Lower(text), TooGoodPhrase)) ==> r == TooGood
    ensures (!Contains(Lower(text), CorrectDouble) && !Contains(Lower(text), CorrectNoDouble)
      && !Contains(Lower(text), TooGoodPhrase)) ==> r == inferred
  {
    var lower := Lower(text);
    if Contains(lower, CorrectDouble) then Double
    else if Contains(lower, CorrectNoDouble) then NoDouble
    else if Contains(lower, TooGoodPhrase) then TooGood
    else inferred
  }

  /** A verdict stated in the output decides alone: whatever was inferred from the
      equities is overridden. */
  lemma StatedVerdictOverrides(text: string, a: Recommendation, b: Recommendation)
    requires Contains(Lower(text), CorrectDouble) || Contains(Lower(text), CorrectNoDouble)
      || Contains(Lower(text), TooGoodPhrase)
    ensures CubeRecommendation(text, a) == CubeRecommendation(text, b)
  {
  }

  /** The cube decision in `text`: the three equities (0.0 for each label that is absent),
      the recommendation, and the whole output kept verbatim as details. */
  function ParseCubeDecision(text: string): (r: CubeDecision)
    ensures r.details == Some(text)
    ensures Search(text, NoDoublePattern).None? ==> r.noDoubleEq == 0.0
    ensures Search(text, DoubleTakePattern).None? ==> r.doubleTakeEq == 0.0
    ensures Search(text, DoublePassPattern).None? ==> r.doublePassEq == 0.0
    ensures Search(text, NoDoublePattern).Some? ==>
      ParseFloat(Search(text, NoDoublePattern).value.text) == Some(r.noDoubleEq)
    ensures Search(text, DoubleTakePattern).Some? ==>
      ParseFloat(Search(text, DoubleTakePattern).value.text) == Some(r.doubleTakeEq)
    ensures Search(text, DoublePassPattern).Some? ==>
      ParseFloat(Search(text, DoublePassPattern).value.text) == Some(r.doublePassEq)
    ensures r.recommendation == CubeRecommendation(text,
      InferRecommendation(r.noDoubleEq, r.doubleTakeEq, r.doublePassEq))
  {
    var noDouble := SignedField(text, NoDoublePattern);
    var take := SignedField(text, DoubleTakePattern);
    var pass := SignedField(text, DoublePassPattern);
    CubeDecision(noDouble, take, pass,
      CubeRecommendation(text, InferRecommendation(noDouble, take, pass)), Some(text))
  }
}
