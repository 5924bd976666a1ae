/**
 What the HTTP layer adds to the engine driver: the default search depth, the command
 lists for positions given in the engine's native form, and the cube response without
 the raw output.
 */
module App {
  import opened Wrappers
  import opened Text
  import opened OutputParser
  import opened GnubgRunner

  /** The search depth used when a request does not give one. */
  const DefaultPlies := 2

  /** The search depth of a request. */
  function PliesOrDefault(plies: Option<int>): (r: int)
    ensures plies.None? ==> r == DefaultPlies
    ensures plies.Some? ==> r == plies.value
  {
    plies.GetOr(DefaultPlies)
  }

  // ---------------------------------------------------------------------------
  // Requests carrying a game record

  /** The endpoints that load the position from a game record. */
  datatype Endpoint = Evaluate | HintMoves | CubeAction

  /** The commands each endpoint sends after loading the position; the neural-net flag
      is never given, so it keeps its default. */
  function SgfCommands(e: Endpoint, plies: Option<int>): (r: seq<string>)
    ensures |r| >= 5 && r[..4] == CommonPrefix(PliesOrDefault(plies))
    ensures e == Evaluate ==> r == BuildEvaluationCommands(PliesOrDefault(plies), true)
    ensures e == HintMoves ==> r == BuildHintCommands(PliesOrDefault(plies), true)
    ensures e == CubeAction ==> r == BuildCubeCommands(PliesOrDefault(plies), true)
  {
    var p := PliesOrDefault(plies);
    match e
    case Evaluate => BuildEvaluationCommands(p, true)
    case HintMoves => BuildHintCommands(p, true)
    case CubeAction => BuildCubeCommands(p, true)
  }

  // ---------------------------------------------------------------------------
  // Requests in the engine's native form

  /** A native request: position code, dice, side to move and depth, each possibly
      absent from the request body. */
  datatype NativeRequest = NativeRequest(
    position: Option<string>, dice: Option<seq<int>>, player: Option<string>, plies: Option<int>)

  /** The two native endpoints differ only in their final command. */
  datatype NativeMode = NativeHint | NativeEval

  /** Why a native request produces no command list. */
  datatype NativeError =
    | MissingPositionOrDice  // position or dice absent or empty: rejected as a bad request
    | DiceIndexError         // a single die: reading the second one raises

  /** The request names a non-empty position and a non-empty dice list. */
  predicate HasPositionAndDice(req: NativeRequest)
  {
    req.position.Some? && req.position.value != [] && req.dice.Some? && req.dice.value != []
  }

  const NewGame := "new game"
  const SetBoard := "set board "
  const SetDice := "set dice "

  function FinalCommand(mode: NativeMode): string
  {
    match mode
    case NativeHint => Hint
    case NativeEval => Eval
  }

  /** The inline command list of a native request: the first five commands of a hint
      list with the neural net, then a new game, the board, the dice and the final
      command; the side to move plays no part. */
  function NativeCommands(req: NativeRequest, mode: NativeMode): (r: Result<seq<string>, NativeError>)
    ensures r == Failure(MissingPositionOrDice) <==> !HasPositionAndDice(req)
    ensures r == Failure(DiceIndexError) <==> HasPositionAndDice(req) && |req.dice.value| == 1
    ensures r.Success? ==>
      && |r.value| == 9
      && r.value[..5] == BuildHintCommands(PliesOrDefault(req.plies), true)[..5]
      && r.value[5] == NewGame
      && r.value[6] == SetBoard + req.position.value
      && r.value[7] == SetDice + IntToString(req.dice.value[0]) + " " + IntToString(req.dice.value[1])
      && r.value[8] == FinalCommand(mode)
  {
    if !HasPositionAndDice(req) then Failure(MissingPositionOrDice)
    else if |req.dice.value| < 2 then Failure(DiceIndexError)
    else
      var p := PliesOrDefault(req.plies);
      var d := req.dice.value;
      Success(CommonPrefix(p) + [ChequerCubefulOff, NewGame, SetBoard + req.position.value,
        SetDice + IntToString(d[0]) + " " + IntToString(d[1]), FinalCommand(mode)])
  }

  /** The side to move is read from the request but never changes the commands. */
  lemma PlayerIgnored(req: NativeRequest, mode: NativeMode, player: Option<string>)
    ensures NativeCommands(req.(player := player), mode) == NativeCommands(req, mode)
  {
  }

  /** The native hint and evaluation lists are the same but for the last command, which
      is `hint` and `eval` respectively, and neither asks the engine to quit. */
  lemma NativeModesDifferLast(req: NativeRequest)
    requires NativeCommands(req, NativeHint).Success?
    ensures var h := NativeCommands(req, NativeHint).value;
      var e := NativeCommands(req, NativeEval).value;
      h[..8] == e[..8] && h[8] == Hint && e[8] == Eval
    ensures Quit !in NativeCommands(req, NativeHint).value
    ensures Quit !in NativeCommands(req, NativeEval).value
  {
    var h := NativeCommands(req, NativeHint).value;
    var e := NativeCommands(req, NativeEval).value;
    PrefixHasNoQuit(PliesOrDefault(req.plies));
    assert h[..4] == e[..4] == CommonPrefix(PliesOrDefault(req.plies));
    forall k | 0 <= k < 4 ensures h[k] != Quit && e[k] != Quit {
      assert h[k] == h[..4][k] && e[k] == e[..4][k];
    }
    assert |h[6]| > 4 && |h[7]| > 4;
  }

  /** The board and the dice come right before the final command, after a new game, and
      the dice read back as the request's two dice. */
  lemma NativeDiceReadBack(req: NativeRequest, mode: NativeMode)
    requires NativeCommands(req, mode).Success?
    ensures var c := NativeCommands(req, mode).value;
      var d := req.dice.value;
      Split(c[7][|SetDice|..], ' ') == [IntToString(d[0]), IntToString(d[1])]
      && ParseInt(IntToString(d[0])) == Some(d[0]) && ParseInt(IntToString(d[1])) == Some(d[1])
  {
    var c := NativeCommands(req, mode).value;
    var d := req.dice.value;
    var a, b := IntToString(d[0]), IntToString(d[1]);
    assert c[7][|SetDice|..] == a + " " + b;
    assert ' ' !in a && ' ' !in b by {
      IntStringHasNoSpace(d[0]);
      IntStringHasNoSpace(d[1]);
    }
    assert [a, b][1..] == [b];
    assert Join([a, b], " ") == a + " " + b;
    SplitOfJoin([a, b], ' ');
    IntToStringRoundTrip(d[0]);
    IntToStringRoundTrip(d[1]);
  }

  /** A written integer is a sign and digits, never a space. */
  lemma IntStringHasNoSpace(n: int)
    ensures ' ' !in IntToString(n)
  {
    var s := IntToString(n);
    var m := if n < 0 then -n else n;
    var digits := NatToString(m);
    forall i | 0 <= i < |s| ensures s[i] != ' ' {
      if n < 0 && i > 0 {
        assert s[i] == digits[i - 1];
      }
    }
  }

  /** Without an explicit depth every endpoint searches two plies deep. */
  lemma DefaultPliesEverywhere(e: Endpoint, req: NativeRequest, mode: NativeMode)
    requires req.plies.None? && NativeCommands(req, mode).Success?
    ensures PliesSetting(SgfCommands(e, None)[2], ChequerPlies) == Some(DefaultPlies)
    ensures PliesSetting(SgfCommands(e, None)[3], CubePlies) == Some(DefaultPlies)
    ensures PliesSetting(NativeCommands(req, mode).value[2], ChequerPlies) == Some(DefaultPlies)
    ensures PliesSetting(NativeCommands(req, mode).value[3], CubePlies) == Some(DefaultPlies)
  {
    var s := SgfCommands(e, None);
    var n := NativeCommands(req, mode).value;
    var h := BuildHintCommands(DefaultPlies, true);
    assert s[2] == s[..4][2] && s[3] == s[..4][3];
    assert n[2] == n[..5][2] == h[..5][2] == h[..4][2];
    assert n[3] == n[..5][3] == h[..5][3] == h[..4][3];
    CommonPrefixPlies(DefaultPlies);
  }

  /** Why a native request produced no output: it was rejected, or the engine run failed. */
  datatype NativeFailure = Rejected(reason: NativeError) | EngineFailed(error: RunError)

  /** A native request runs its commands, if it has any, on the engine. */
  function RunNative(engine: string -> ProcessOutcome, req: NativeRequest, mode: NativeMode):
    (r: Result<string, NativeFailure>)
    ensures NativeCommands(req, mode).Failure? ==>
      r == Failure(Rejected(NativeCommands(req, mode).error))
    ensures NativeCommands(req, mode).Success? ==>
      (r.Success? <==> Execute(engine, NativeCommands(req, mode).value).Success?)
    ensures r.Success? ==> r.value == Execute(engine, NativeCommands(req, mode).value).value
    ensures r.Failure? && r.error.EngineFailed? ==>
      r.error.error == Execute(engine, NativeCommands(req, mode).value).error
    ensures NativeCommands(req, mode).Success? && r.Failure? ==>
      r.error == EngineFailed(Execute(engine, NativeCommands(req, mode).value).error)
  {
    match NativeCommands(req, mode)
    case Failure(e) => Failure(Rejected(e))
    case Success(commands) =>
      match Execute(engine, commands)
      case Success(out) => Success(out)
      case Failure(e) => Failure(EngineFailed(e))
  }

  /** A rejected request never reaches the engine: any two engines give the same
      answer. */
  lemma RejectedBeforeRunning(e1: string -> ProcessOutcome, e2: string -> ProcessOutcome,
                              req: NativeRequest, mode: NativeMode)
    requires !HasPositionAndDice(req)
    ensures RunNative(e1, req, mode) == RunNative(e2, req, mode) == Failure(Rejected(MissingPositionOrDice))
  {
  }

  // ---------------------------------------------------------------------------
  // The cube response

  /** The cube decision as returned to the caller: the raw engine output is dropped. */
  datatype CubeSummary = CubeSummary(
    noDoubleEq: real, doubleTakeEq: real, doublePassEq: real, recommendation: string)

  function Summarize(d: CubeDecision): (s: CubeSummary)
    ensures s.noDoubleEq == d.noDoubleEq && s.doubleTakeEq == d.doubleTakeEq
    ensures s.doublePassEq == d.doublePassEq
    ensures s.recommendation == RecommendationName(d.recommendation)
    ensures RecommendationOfName(s.recommendation) == Some(d.recommendation)
  {
    RecommendationNameRoundTrip(d.recommendation, "");
    CubeSummary(d.noDoubleEq, d.doubleTakeEq, d.doublePassEq, RecommendationName(d.recommendation))
  }

  /** The summary loses the details and nothing else: two decisions have the same
      summary exactly when they agree on everything but the details. */
  lemma SummaryDropsOnlyDetails(d1: CubeDecision, d2: CubeDecision)
    ensures Summarize(d1) == Summarize(d2) <==> d1.(details := None) == d2.(details := None)
  {
    RecommendationNamesDistinct(d1.recommendation, d2.recommendation);
  }
}
