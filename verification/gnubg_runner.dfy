/**
 The engine driver: the command lists for each kind of analysis, the script piped to
 the engine, how a finished or timed-out engine run is classified, the availability
 probe, and the run that loads a position from a scratch game-record file.

 The engine process itself is a parameter: a function from the script it is fed to the
 outcome of the run. The file system is a map from path to content.
 */
module GnubgRunner {
  import opened Wrappers
  import opened Text

  // ---------------------------------------------------------------------------
  // Command builders

  const AutoGameOff := "set automatic game off"
  const AutoRollOff := "set automatic roll off"
  const ChequerPlies := "set evaluation chequerplay" + " evaluation plies "
  const CubePlies := "set evaluation cubedecision" + " evaluation plies "
  const ChequerCubefulOff := "set evaluation chequerplay" + " evaluation cubeful off"
  const ChequerCubefulOn := "set evaluation chequerplay" + " evaluation cubeful on"
  const CubeCubefulOn := "set evaluation cubedecision" + " evaluation cubeful on"
  const Eval := "eval"
  const Hint := "hint"
  const HintCube := "hint cube"
  const Quit := "quit"

  /** The four settings every analysis starts with: no automatic play, and the search
      depth for chequer play and for cube decisions. */
  function CommonPrefix(plies: int): (r: seq<string>)
    ensures |r| == 4
  {
    [AutoGameOff, AutoRollOff, ChequerPlies + IntToString(plies), CubePlies + IntToString(plies)]
  }

  /** The number a depth setting carries, read back from the command text. */
  function PliesSetting(cmd: string, prefix: string): Option<int>
  {
    if |prefix| <= |cmd| && cmd[..|prefix|] == prefix then ParseInt(cmd[|prefix|..]) else None
  }

  /** Both depth settings of the common prefix carry `plies`, whatever its sign, after
      the two commands that switch automatic play off. */
  lemma CommonPrefixPlies(plies: int)
    ensures CommonPrefix(plies)[0] == AutoGameOff && CommonPrefix(plies)[1] == AutoRollOff
    ensures PliesSetting(CommonPrefix(plies)[2], ChequerPlies) == Some(plies)
    ensures PliesSetting(CommonPrefix(plies)[3], CubePlies) == Some(plies)
  {
    var s := IntToString(plies);
    IntToStringRoundTrip(plies);
    assert (ChequerPlies + s)[..|ChequerPlies|] == ChequerPlies;
    assert (ChequerPlies + s)[|ChequerPlies|..] == s;
    assert (CubePlies + s)[..|CubePlies|] == CubePlies;
    assert (CubePlies + s)[|CubePlies|..] == s;
  }

  /** None of the settings is the command that ends a session. */
  lemma PrefixHasNoQuit(plies: int)
    ensures Quit !in CommonPrefix(plies)
  {
    var r := CommonPrefix(plies);
    assert |r[2]| > 4 && |r[3]| > 4;
  }

  /** `build_evaluation_commands`: five commands, six with the neural net, where
      cubeful chequer-play evaluation is switched off; the last one is `eval`. */
  function BuildEvaluationCommands(plies: int, useNeuralNet: bool): (r: seq<string>)
    ensures |r| == if useNeuralNet then 6 else 5
    ensures r[..4] == CommonPrefix(plies)
    ensures useNeuralNet ==> r[4] == ChequerCubefulOff
    ensures r[|r| - 1] == Eval
    ensures Quit !in r
  {
    PrefixHasNoQuit(plies);
    CommonPrefix(plies) + (if useNeuralNet then [ChequerCubefulOff] else []) + [Eval]
  }

  /** `build_hint_commands`: as for evaluation, ending in `hint`. */
  function BuildHintCommands(plies: int, useNeuralNet: bool): (r: seq<string>)
    ensures |r| == if useNeuralNet then 6 else 5
    ensures r[..4] == CommonPrefix(plies)
    ensures useNeuralNet ==> r[4] == ChequerCubefulOff
    ensures r[|r| - 1] == Hint
    ensures Quit !in r
  {
    PrefixHasNoQuit(plies);
    CommonPrefix(plies) + (if useNeuralNet then [ChequerCubefulOff] else []) + [Hint]
  }

  /** `build_cube_commands`: with the neural net, cubeful evaluation is switched on for
      both chequer play and cube decisions (seven commands); the last one is `hint cube`. */
  function BuildCubeCommands(plies: int, useNeuralNet: bool): (r: seq<string>)
    ensures |r| == if useNeuralNet then 7 else 5
    ensures r[..4] == CommonPrefix(plies)
    ensures useNeuralNet ==> r[4] == ChequerCubefulOn && r[5] == CubeCubefulOn
    ensures r[|r| - 1] == HintCube
    ensures Quit !in r
  {
    PrefixHasNoQuit(plies);
    CommonPrefix(plies) + (if useNeuralNet then [ChequerCubefulOn, CubeCubefulOn] else []) + [HintCube]
  }

  /** The three builders agree on the first four commands, whose depth settings both
      read back as `plies`. */
  lemma BuildersSharePrefix(plies: int, n1: bool, n2: bool, n3: bool)
    ensures BuildEvaluationCommands(plies, n1)[..4] == BuildHintCommands(plies, n2)[..4]
    ensures BuildHintCommands(plies, n2)[..4] == BuildCubeCommands(plies, n3)[..4]
    ensures PliesSetting(BuildEvaluationCommands(plies, n1)[2], ChequerPlies) == Some(plies)
    ensures PliesSetting(BuildEvaluationCommands(plies, n1)[3], CubePlies) == Some(plies)
  {
    var e := BuildEvaluationCommands(plies, n1);
    assert e[2] == e[..4][2] && e[3] == e[..4][3];
    CommonPrefixPlies(plies);
  }

  /** Evaluation and hint lists differ only in their last command. */
  lemma EvaluationAndHintDifferLast(plies: int, useNeuralNet: bool)
    ensures var e := BuildEvaluationCommands(plies, useNeuralNet);
      var h := BuildHintCommands(plies, useNeuralNet);
      |e| == |h| && e[..|e| - 1] == h[..|h| - 1] && e[|e| - 1] != h[|h| - 1]
  {
  }

  /** The cubeful settings differ between the evaluation and the cube analysis: one
      switches cubeful chequer play off, the other on. */
  lemma CubefulSettingsDiffer(plies: int)
    ensures BuildEvaluationCommands(plies, true)[4] == ChequerCubefulOff
    ensures BuildCubeCommands(plies, true)[4] == ChequerCubefulOn
    ensures ChequerCubefulOff != ChequerCubefulOn
    ensures BuildEvaluationCommands(plies, true)[4] != BuildCubeCommands(plies, true)[4]
  {
    assert ChequerCubefulOff[|ChequerCubefulOff| - 1] != ChequerCubefulOn[|ChequerCubefulOn| - 1];
  }

  // ---------------------------------------------------------------------------
  // Script assembly

  /** The text piped to the engine: the commands one per line, then `quit`. */
  function Script(commands: seq<string>): (s: string)
    ensures |s| >= 6 && s[|s| - 6..] == "\nquit\n"
  {
    Join(commands, "\n") + "\nquit\n"
  }

  /** The lines of a script: the commands (one empty line if there are none), `quit`,
      and the empty remainder after the final line break. */
  function ScriptLineList(commands: seq<string>): seq<string>
  {
    (if commands == [] then [""] else commands) + [Quit, ""]
  }

  /** The script is its lines joined by line breaks. */
  lemma ScriptIsJoin(commands: seq<string>)
    ensures Join(ScriptLineList(commands), "\n") == Script(commands)
  {
    var xs := if commands == [] then [""] else commands;
    assert Join(xs, "\n") == Join(commands, "\n");
    JoinAppend(xs, [Quit, ""], "\n");
    assert [Quit, ""][1..] == [""];
    assert Join([Quit, ""], "\n") == "quit\n";
  }

  /** Read back line by line, the script is the commands followed by a single `quit`
      and the empty remainder after the final line break; an empty command list gives
      one empty line before `quit`. */
  lemma ScriptLines(commands: seq<string>)
    requires forall k | 0 <= k < |commands| :: '\n' !in commands[k]
    ensures Split(Script(commands), '\n') == ScriptLineList(commands)
  {
    var lines := ScriptLineList(commands);
    ScriptIsJoin(commands);
    forall k | 0 <= k < |lines| ensures '\n' !in lines[k] {
      if commands != [] && k < |commands| {
        assert lines[k] == commands[k];
      }
    }
    SplitOfJoin(lines, '\n');
  }

  /** The script of an empty command list only asks the engine to quit. */
  lemma EmptyScript()
    ensures Script([]) == "\nquit\n"
  {
  }

  /** When no command is `quit` itself, the line list holds `quit` once, second to last. */
  lemma QuitOnceInLines(commands: seq<string>)
    requires Quit !in commands
    ensures var lines := ScriptLineList(commands);
      |lines| >= 2 && lines[|lines| - 2] == Quit
      && forall k | 0 <= k < |lines| - 2 :: lines[k] != Quit
  {
    var xs := if commands == [] then [""] else commands;
    var lines := xs + [Quit, ""];
    assert forall k | 0 <= k < |xs| :: xs[k] != Quit;
    assert forall k | 0 <= k < |lines| - 2 :: lines[k] == xs[k];
  }

  /** When no command is `quit` itself, the script asks to quit exactly once, on its
      last non-empty line. */
  lemma SingleQuit(commands: seq<string>)
    requires forall k | 0 <= k < |commands| :: '\n' !in commands[k]
    requires Quit !in commands
    ensures var lines := Split(Script(commands), '\n');
      |lines| >= 2 && lines[|lines| - 2] == Quit
      && forall k | 0 <= k < |lines| - 2 :: lines[k] != Quit
  {
    ScriptLines(commands);
    QuitOnceInLines(commands);
  }

  // ---------------------------------------------------------------------------
  // Running the engine

  /** How an engine run ends: it exits with its output streams and exit code, or it is
      killed at the deadline. */
  datatype ProcessOutcome = Exited(stdout: string, stderr: string, exitCode: int) | TimedOut

  /** Why a run produced no output. */
  datatype RunError =
    | Timeout                   // the deadline passed
    | ExecutionFailed(stderr: string)  // nothing on standard output, something on standard error
    | ScratchWriteFailed        // the scratch game-record file could not be written

  /** The outcome of a run as the caller sees it: standard output, even after a non-zero
      exit code, unless the engine printed nothing but errors or was killed. */
  function Classify(o: ProcessOutcome): (r: Result<string, RunError>)
    ensures r == Failure(Timeout) <==> o.TimedOut?
    ensures r.Failure? && r.error.ExecutionFailed? <==>
      o.Exited? && o.stdout == [] && o.stderr != []
    ensures r.Failure? && r.error.ExecutionFailed? ==> r.error.stderr == o.stderr
    ensures r.Success? <==> o.Exited? && (o.stdout != [] || o.stderr == [])
    ensures r.Success? ==> r.value == o.stdout
  {
    match o
    case TimedOut => Failure(Timeout)
    case Exited(out, err, _) =>
      if out == [] && err != [] then Failure(ExecutionFailed(err)) else Success(out)
  }

  /** The exit code never changes the classification. */
  lemma ExitCodeIgnored(out: string, err: string, c1: int, c2: int)
    ensures Classify(Exited(out, err, c1)) == Classify(Exited(out, err, c2))
  {
  }

  /** `execute_commands`: the engine is fed the script and its outcome is classified. */
  function Execute(engine: string -> ProcessOutcome, commands: seq<string>): (r: Result<string, RunError>)
    ensures r.Success? ==> engine(Script(commands)).Exited? && r.value == engine(Script(commands)).stdout
    ensures engine(Script(commands)).TimedOut? ==> r == Failure(Timeout)
    ensures engine(Script(commands)).Exited? ==>
      (r.Success? <==> engine(Script(commands)).stdout != [] || engine(Script(commands)).stderr == [])
    ensures r.Failure? && r.error.ExecutionFailed? ==> r.error.stderr == engine(Script(commands)).stderr
    ensures engine(Script(commands)).Exited? && r.Failure? ==>
      r.error == ExecutionFailed(engine(Script(commands)).stderr)
  {
    Classify(engine(Script(commands)))
  }

  const ShowVersion := "show version"
  const Banner := "gnu backgammon"

  /** `is_available`: the engine answers `show version` with text that mentions GNU
      Backgammon in any letter case; a failed or timed-out run means unavailable. */
  function IsAvailable(engine: string -> ProcessOutcome): (b: bool)
    ensures b ==> Execute(engine, [ShowVersion]).Success?
    ensures Execute(engine, [ShowVersion]).Failure? ==> !b
    ensures Execute(engine, [ShowVersion]).Success? ==>
      (b <==> Contains(Lower(Execute(engine, [ShowVersion]).value), Banner))
  {
    match Execute(engine, [ShowVersion])
    case Success(out) => Contains(Lower(out), Banner)
    case Failure(_) => false
  }

  /** The capitalised banner the engine prints counts, wherever it appears in the
      version text. */
  lemma AvailableWhenBannerShown(engine: string -> ProcessOutcome, pre: string, post: string,
                                 err: string, code: int)
    requires engine(Script([ShowVersion])) == Exited(pre + "GNU Backgammon" + post, err, code)
    ensures IsAvailable(engine)
  {
    var out := pre + "GNU Backgammon" + post;
    var t := Lower(out);
    assert forall k | 0 <= k < 14 :: out[|pre| + k] == "GNU Backgammon"[k];
    assert forall k | 0 <= k < 14 :: t[|pre| + k] == Banner[k];
    OccursAtSpelled(t, Banner, |pre|);
  }

  // ---------------------------------------------------------------------------
  // Runs on a position loaded from a scratch file

  /** The file system: file contents by path. */
  type Files = map<string, string>

  /** How writing the scratch file ends: written in full, not even created, or created
      and left with partial content. */
  datatype WriteOutcome = Written | OpenFailed | WriteFailed(partial: string)

  /** The result of the run and the files left afterwards. */
  datatype SgfRun = SgfRun(result: Result<string, RunError>, files: Files)

  const LoadPosition := "load position "

  /** The position is loaded first; the caller's commands follow unchanged. */
  function LoadCommands(path: string, commands: seq<string>): (r: seq<string>)
    ensures |r| == |commands| + 1
    ensures r[0] == LoadPosition + path && r[1..] == commands
  {
    [LoadPosition + path] + commands
  }

  /** The files once the scratch file has been written, whatever the outcome. */
  function AfterWrite(files: Files, path: string, sgf: string, write: WriteOutcome): (r: Files)
    ensures r.Keys == if write.OpenFailed? then files.Keys else files.Keys + {path}
    ensures forall p | p in files && p != path :: r[p] == files[p]
    ensures write.Written? ==> r[path] == sgf
    ensures write.WriteFailed? ==> r[path] == write.partial
  {
    match write
    case Written => files[path := sgf]
    case OpenFailed => files
    case WriteFailed(partial) => files[path := partial]
  }

  /** The cleanup that always runs: the scratch file is removed if it exists; when the
      removal fails the error is swallowed and the file stays. */
  function Cleanup(files: Files, path: string, removeOk: bool): (r: Files)
    ensures r.Keys == if removeOk then files.Keys - {path} else files.Keys
    ensures forall p | p in r :: r[p] == files[p]
  {
    if path in files && removeOk then files - {path} else files
  }

  /** `execute_with_sgf`: write the game record to the scratch file at `path`, run the
      commands after loading it, and remove the file on every exit. The engine reads
      the files as they are after the write. */
  function ExecuteWithSgf(engine: (string, Files) -> ProcessOutcome, files: Files, path: string,
                          sgf: string, write: WriteOutcome, removeOk: bool,
                          commands: seq<string>): (r: SgfRun)
    ensures write.Written? ==>
      r.result == Classify(engine(Script(LoadCommands(path, commands)), files[path := sgf]))
    ensures !write.Written? ==> r.result == Failure(ScratchWriteFailed)
    ensures removeOk ==> path !in r.files
    ensures forall p | p != path :: p in r.files <==> p in files
    ensures forall p | p in files && p != path :: r.files[p] == files[p]
  {
    var written := AfterWrite(files, path, sgf, write);
    var result :=
      if write.Written? then Execute(s => engine(s, written), LoadCommands(path, commands))
      else Failure(ScratchWriteFailed);
    SgfRun(result, Cleanup(written, path, removeOk))
  }

  /** Whether the removal succeeds never changes what the caller gets back. */
  lemma RemovalDoesNotAffectResult(engine: (string, Files) -> ProcessOutcome, files: Files,
                                   path: string, sgf: string, write: WriteOutcome,
                                   commands: seq<string>)
    ensures ExecuteWithSgf(engine, files, path, sgf, write, true, commands).result ==
      ExecuteWithSgf(engine, files, path, sgf, write, false, commands).result
  {
  }

  /** With a fresh scratch path and a removal that succeeds, the file system ends as it
      started, on success and on every failure. */
  lemma ScratchFileLeavesNoTrace(engine: (string, Files) -> ProcessOutcome, files: Files,
                                 path: string, sgf: string, write: WriteOutcome,
                                 commands: seq<string>)
    requires path !in files
    ensures ExecuteWithSgf(engine, files, path, sgf, write, true, commands).files == files
  {
    var r := ExecuteWithSgf(engine, files, path, sgf, write, true, commands);
    assert r.files.Keys == files.Keys;
  }

  /** The script of a run on a scratch file: the load line, the caller's commands, then
      `quit`. */
  lemma SgfScriptLines(path: string, commands: seq<string>)
    requires '\n' !in path
    requires forall k | 0 <= k < |commands| :: '\n' !in commands[k]
    ensures Split(Script(LoadCommands(path, commands)), '\n') ==
      [LoadPosition + path] + commands + [Quit, ""]
  {
    assert ScriptLineList(LoadCommands(path, commands)) == [LoadPosition + path] + commands + [Quit, ""];
    var cs := LoadCommands(path, commands);
    forall k | 0 <= k < |cs| ensures '\n' !in cs[k] {
      if k > 0 {
        assert cs[k] == commands[k - 1];
      }
    }
    ScriptLines(cs);
  }
}
