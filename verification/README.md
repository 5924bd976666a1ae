# gnubg-service core in Dafny

The gnubg-service is an HTTP wrapper around GNU Backgammon (gnubg). It builds command
scripts for the engine, runs the engine in text mode, and decodes its free-text output
into records. This project models the deterministic core of that service as pure
functions and proves properties about them:

- **Output decoders** (`OutputParser`):
  - a position evaluation: equity, win, gammon and backgammon probabilities;
  - a ranked list of candidate moves from `hint` output;
  - a cube decision: three equities and a recommendation.

  The regular expressions the decoders use are written out as hand-made scanners
  (`Patterns`). These scanners keep the leftmost-match, case-insensitive semantics of
  `re.search`. Python's `str.strip`, `str.split`, `str.lower`, `str.find`, `int()` and
  `float()` are modelled in `Text`, with exact `real` values in place of binary floats.
- **Engine driver** (`GnubgRunner`):
  - the three command-list builders;
  - the script sent on standard input, which always ends in one `quit`;
  - the classification of a finished engine run into output, execution failure or
    timeout;
  - the availability probe;
  - the run on a position loaded from a scratch game-record file. The file system is a
    map from paths to contents, so the cleanup can be stated.
- **HTTP layer** (`App`):
  - the default search depth of two plies;
  - the nine-command lists of the native-position endpoints, with their rejection of
    requests that lack a position or dice;
  - the cube response, which drops the raw output.
- **Worked examples** (`DocCases`): the decoders run on the examples in their own
  documentation. The evaluation example and the two-move hint example decode to the
  documented values. Text that only says `Backgammon: 0.8%` also fills the gammon
  probability, because `Gammon` matches inside `Backgammon`.

The engine is a function parameter, from the script text (and, for scratch-file runs,
the file system) to a `ProcessOutcome`. Whether the scratch file could be written, and
whether its removal succeeds, are parameters too.

Files:
- `wrappers.dfy`: `Option` and `Result`.
- `text.dfy`: string primitives and number conversions.
- `patterns.dfy`: the regex scanners.
- `lists.dfy`: keep-and-map over a sequence.
- `output_parser.dfy`: the decoders.
- `gnubg_runner.dfy`: the engine driver.
- `app.dfy`: the HTTP layer.
- `doc_cases.dfy`: the documented examples.

## Model

| member | source | states |
|---|---|---|
| OutputParser.ParseEvaluation | gnubg-service/output_parser.py:38-70 | each of the four fields is looked up on its own: equity is the signed-decimal field, and win, gammon and backgammon are the percentage fields divided by 100. The result fails exactly when one of the percentages captured does not convert. The probabilities are never negative |
| OutputParser.SignedField | gnubg-service/output_parser.py:51-53 | 0.0 when the pattern is not found; otherwise the captured text always converts, and the field is its value |
| OutputParser.PercentField | gnubg-service/output_parser.py:56-58 | 0.0 when the pattern is not found; otherwise the capture divided by 100. It fails exactly when the capture does not convert, and is never negative |
| OutputParser.EvaluationDefaults | gnubg-service/output_parser.py:48-70 | text in which no label is found evaluates to all-zero fields |
| OutputParser.TwoPointPercentFails | gnubg-service/output_parser.py:56-68 | a captured percentage with two points (`1.2.3`) makes the whole evaluation fail |
| Text.ParseFloatDigitsAndDots | gnubg-service/output_parser.py:56-58 | a `[\d.]+` capture converts exactly when it has at most one point and at least one digit; its value is then non-negative |
| Text.ParseFloatRejectsTwoPoints | gnubg-service/output_parser.py:58 | digits, a point, digits, a point and digits never convert |
| Patterns.Search | gnubg-service/output_parser.py:51 | the match found is the leftmost: the pattern matches there and at no earlier index; nothing is found exactly when the pattern matches nowhere |
| Patterns.SearchFrom | gnubg-service/output_parser.py:51 | a search from index `i` returns the first index at or after `i` where the pattern matches |
| Patterns.CaptureShape | gnubg-service/output_parser.py:51-66 | a capture has the shape of its pattern's number: `[-+]?\d+\.\d+` or `[\d.]+` |
| Patterns.SignedDecimalParses | gnubg-service/output_parser.py:51-53 | text of the shape `[-+]?\d+\.\d+` always converts to a number |
| Patterns.NotFoundWithoutInitials | gnubg-service/output_parser.py:51-66 | a pattern none of whose label initials occurs in the text, in any case, is not found |
| DocCases.EvaluationDocExample | gnubg-service/output_parser.py:42-46 | the documented evaluation output gives equity 0.234, win 0.562, gammon 0.123 and backgammon 0.008 |
| DocCases.BackgammonAlsoGammon | gnubg-service/output_parser.py:61-68 | `Backgammon: 0.8%` alone sets both the gammon and the backgammon probability to 0.008, because the gammon search is a substring search |
| OutputParser.RankPrefixChars | gnubg-service/output_parser.py:106-107 | a rank prefix that starts with a digit and converts consists of digits and whitespace, and the rank is not negative |
| OutputParser.MarkerFollowsRank | gnubg-service/output_parser.py:100-120 | once the rank converts, the `eq.:` marker lies after the first point, so the notation slice is well formed |
| OutputParser.FindLandmarks | gnubg-service/output_parser.py:92-117 | a line is rejected exactly when it is empty, does not start with a digit, has no point, has a rank prefix that does not convert, or has no `eq.:` marker in any case. Otherwise the rank is the converted prefix, and the marker comes after the point and fits in the line |
| OutputParser.SlashTokens | gnubg-service/output_parser.py:125-130 | exactly the tokens containing `/` are kept, and nothing else |
| OutputParser.SlashTokensAppend | gnubg-service/output_parser.py:126-130 | the kept tokens stay in their original order |
| Text.Words | gnubg-service/output_parser.py:126 | every word is non-empty and holds no whitespace |
| Text.WordsKeepCharacters | gnubg-service/output_parser.py:126 | the words, written one after the other, are exactly the non-whitespace characters of the text, in order |
| Text.WordsOfJoin | gnubg-service/output_parser.py:132 | joining non-empty, space-free tokens with single spaces and splitting on whitespace gives the tokens back |
| Text.JoinSingleSpaced | gnubg-service/output_parser.py:132 | joining non-empty, space-free tokens with single spaces leaves no whitespace at either end and exactly one space between tokens |
| OutputParser.Notation | gnubg-service/output_parser.py:119-137 | splitting the notation on whitespace gives the `/`-tokens of the stripped rank–marker section, in order. The notation is empty exactly when there are none. It is single-spaced: no whitespace at either end, and the tokens are separated by exactly one space |
| OutputParser.MoveAt | gnubg-service/output_parser.py:135-160 | a move is produced exactly when the notation is non-empty and a number leads the stripped text after the marker. Its rank is the line's rank, its notation is the `/`-tokens joined by single spaces and its equity is that number's value; anything after the number is ignored |
| Patterns.LeadingNumber | gnubg-service/output_parser.py:143-147 | `[-+]?\d+\.?\d*` matches at the start exactly when a digit follows the optional sign. The match is a prefix of the text: the sign, digits, at most one point, then digits. It is the longest such prefix |
| Patterns.LeadingDecimal | gnubg-service/output_parser.py:143-150 | a signed decimal followed by anything that does not start with a digit matches as exactly that decimal, so a trailing `(-0.023)` is not part of the equity |
| Patterns.LeadingNumberParses | gnubg-service/output_parser.py:143-153 | the leading number after the marker always converts, so that conversion never skips a line |
| OutputParser.ParseMoveLine | gnubg-service/output_parser.py:91-160 | a line that is empty once stripped, does not start with a digit, has no point or has no marker yields nothing. A kept move has a non-negative rank and a non-empty notation whose every token contains `/` |
| OutputParser.ParseMoveAnalysis | gnubg-service/output_parser.py:86-163 | there are never more moves than lines; every move comes from some line and has a notation and a non-negative rank |
| OutputParser.MoveAnalysisComplete | gnubg-service/output_parser.py:88-160 | every line that reads as a move contributes its move |
| OutputParser.MoveAnalysisConcat | gnubg-service/output_parser.py:88-163 | the moves of two outputs joined by a line break are the moves of the first followed by those of the second, so moves stay in line order |
| Lists.FilterMapSound | gnubg-service/output_parser.py:91-160 | every kept element comes from some input element |
| Lists.FilterMapComplete | gnubg-service/output_parser.py:91-160 | every input element that yields a value contributes it |
| Lists.FilterMapAppend | gnubg-service/output_parser.py:91-160 | keep-and-map distributes over concatenation |
| DocCases.Line1Move | gnubg-service/output_parser.py:78 | the first documented move line reads as rank 1, `8/5 8/4`, equity 0.2 |
| DocCases.Line3Move | gnubg-service/output_parser.py:80 | the second documented move line reads as rank 2, `8/4 6/3`, equity 0.177; the trailing `(-0.023)` is ignored |
| DocCases.SkippedWithoutMarker | gnubg-service/output_parser.py:113-117 | a line with no `e` in either case cannot hold the marker and is skipped |
| DocCases.HintDocExample | gnubg-service/output_parser.py:77-81 | the documented hint output gives exactly the two moves (1, `8/5 8/4`, 0.2) and (2, `8/4 6/3`, 0.177), in that order |
| OutputParser.InferRecommendation | gnubg-service/output_parser.py:188-196 | the inferred recommendation is the action whose equity is strictly greater than both others. When no action is strictly best, ties included, it is no double |
| OutputParser.CubeRecommendation | gnubg-service/output_parser.py:198-204 | stated verdicts override the inference in priority order: "correct cube action: double", then "correct cube action: no double", then "too good"; otherwise the inference stands |
| OutputParser.StatedVerdictOverrides | gnubg-service/output_parser.py:198-204 | once any verdict phrase occurs, the inferred recommendation no longer matters |
| OutputParser.ParseCubeDecision | gnubg-service/output_parser.py:166-206 | the details are the input verbatim. Each equity is 0.0 when its label is absent and otherwise the captured value. The recommendation is the inference from those equities with the stated verdicts applied |
| OutputParser.RecommendationName | gnubg-service/output_parser.py:189-204 | each recommendation is reported under its own name: no double as `NoDouble`, double as `Double`, too good as `TooGood` |
| OutputParser.RecommendationNameRoundTrip | gnubg-service/output_parser.py:189-204 | a reported name reads back as the recommendation it reports, and each of the three names is the name of what it reads back as |
| OutputParser.RecommendationNamesDistinct | gnubg-service/output_parser.py:189-204 | different recommendations are reported under different names |
| GnubgRunner.CommonPrefixPlies | gnubg-service/gnubg_runner.py:112-117 | the prefix turns automatic game and roll off, and its third and fourth commands read back as the requested search depth |
| GnubgRunner.PrefixHasNoQuit | gnubg-service/gnubg_runner.py:112-117 | the shared prefix never contains `quit` |
| GnubgRunner.BuildEvaluationCommands | gnubg-service/gnubg_runner.py:110-123 | the shared prefix, then the cubeful-off setting only with the neural net (six commands, else five), then `eval`; never `quit` |
| GnubgRunner.BuildHintCommands | gnubg-service/gnubg_runner.py:126-139 | the shared prefix, then the cubeful-off setting only with the neural net (six commands, else five), then `hint`; never `quit` |
| GnubgRunner.BuildCubeCommands | gnubg-service/gnubg_runner.py:142-156 | the shared prefix, then cubeful on for chequer play and for cube decisions with the neural net (seven commands, else five), then `hint cube`; never `quit` |
| GnubgRunner.BuildersSharePrefix | gnubg-service/gnubg_runner.py:112-149 | all three builders start with the same four commands for the same depth |
| GnubgRunner.EvaluationAndHintDifferLast | gnubg-service/gnubg_runner.py:122-138 | the evaluation and hint lists agree except for their last command |
| GnubgRunner.CubefulSettingsDiffer | gnubg-service/gnubg_runner.py:119-153 | with the neural net, the fifth command of the evaluation list turns cubeful chequer-play evaluation off, and the fifth of the cube list turns it on; the two commands differ |
| GnubgRunner.Script | gnubg-service/gnubg_runner.py:43 | the script always ends with a line break, `quit` and a line break |
| GnubgRunner.ScriptIsJoin | gnubg-service/gnubg_runner.py:43 | the script is the commands followed by `quit` and an empty last line, joined by line breaks |
| GnubgRunner.ScriptLines | gnubg-service/gnubg_runner.py:43 | for commands without line breaks, the script's lines are the commands (one empty line for no commands), then `quit`, then an empty line |
| GnubgRunner.EmptyScript | gnubg-service/gnubg_runner.py:43 | no commands give the script `\nquit\n` |
| GnubgRunner.SingleQuit | gnubg-service/gnubg_runner.py:43 | for commands that are not `quit` and hold no line break, `quit` is the second-to-last line and appears nowhere before it |
| GnubgRunner.Classify | gnubg-service/gnubg_runner.py:62-71 | a timeout is a timeout error. Empty standard output with a non-empty standard error is an execution failure carrying that error. Any other exit returns standard output |
| GnubgRunner.ExitCodeIgnored | gnubg-service/gnubg_runner.py:62-68 | a non-zero exit code never changes the outcome |
| GnubgRunner.Execute | gnubg-service/gnubg_runner.py:31-71 | a timed-out run of the engine on the script is a timeout error. A finished run succeeds exactly when its standard output is non-empty or its standard error is empty, and then returns the standard output. Otherwise it is an execution failure carrying the standard error |
| GnubgRunner.IsAvailable | gnubg-service/gnubg_runner.py:23-29 | available exactly when the `show version` run succeeds and its output contains `gnu backgammon` in any case; a failed run means unavailable |
| GnubgRunner.AvailableWhenBannerShown | gnubg-service/gnubg_runner.py:26-27 | output containing `GNU Backgammon` anywhere makes the engine available |
| GnubgRunner.LoadCommands | gnubg-service/gnubg_runner.py:96 | `load position <path>` comes first, and the caller's commands follow unchanged |
| GnubgRunner.AfterWrite | gnubg-service/gnubg_runner.py:87-90 | opening the scratch file for writing creates it, and a failed open leaves the files as they were. A completed write leaves the game record in it, and a failed write leaves the partial content written so far. No other file changes |
| GnubgRunner.Cleanup | gnubg-service/gnubg_runner.py:100-107 | the scratch file is removed when the removal succeeds and stays otherwise, with the error swallowed; no other file changes |
| GnubgRunner.ExecuteWithSgf | gnubg-service/gnubg_runner.py:73-107 | after a successful write the result is the engine's run on the load-prefixed script, seeing the written file. A failed write is an error. The scratch file is gone whenever removal succeeds, on every exit path. No other file is created, removed or changed |
| GnubgRunner.RemovalDoesNotAffectResult | gnubg-service/gnubg_runner.py:100-107 | whether the removal fails never changes what the caller gets |
| GnubgRunner.ScratchFileLeavesNoTrace | gnubg-service/gnubg_runner.py:84-107 | with a fresh scratch path and a removal that succeeds, the file system ends exactly as it started |
| GnubgRunner.SgfScriptLines | gnubg-service/gnubg_runner.py:96-98 | the script of a scratch-file run is the load line, the caller's commands, `quit` and an empty line |
| App.PliesOrDefault | gnubg-service/app.py:73 | the depth is two when the request gives none, and the given one otherwise |
| App.SgfCommands | gnubg-service/app.py:116-120 | each game-record endpoint sends its builder's list at the request's depth, with the neural net on |
| App.DefaultPliesEverywhere | gnubg-service/app.py:246 | without a depth, every endpoint's depth commands read back as two |
| App.NativeCommands | gnubg-service/app.py:243-262 | a request missing a position or dice, or with either empty, is rejected; a single die fails on the second die. Otherwise nine commands: the first five of the hint builder's list, `new game`, `set board <position>`, `set dice <d0> <d1>`, and the final command |
| App.NativeModesDifferLast | gnubg-service/app.py:307-317 | the native hint and evaluation lists agree except for the final `hint` or `eval`, and neither contains `quit` |
| App.NativeDiceReadBack | gnubg-service/app.py:260 | the dice command's arguments split into the two dice, written as integers that read back as themselves |
| Text.IntToStringRoundTrip | gnubg-service/app.py:260 | an integer written in decimal reads back as the same integer |
| App.PlayerIgnored | gnubg-service/app.py:245-262 | the side to move never changes the command list |
| App.RunNative | gnubg-service/app.py:248-264 | a rejected request returns its rejection without running the engine. Otherwise it succeeds exactly when the engine run does, returning its output, and an engine failure is passed through unchanged |
| App.RejectedBeforeRunning | gnubg-service/app.py:248-249 | a request without a position or dice gets the same rejection whatever the engine would do |
| App.Summarize | gnubg-service/app.py:169-175 | the cube response keeps the three equities and reports the decision's own recommendation under its name, which reads back as that recommendation |
| App.SummaryDropsOnlyDetails | gnubg-service/app.py:172-173 | two decisions have the same response exactly when they agree on everything except the details |
| Text.Split | gnubg-service/output_parser.py:88 | there is at least one piece, no piece contains the separator, and joining the pieces with it gives the text back |
| Text.SplitOfJoin | gnubg-service/output_parser.py:88 | splitting on a separator undoes joining with it when no piece contains it |
| Text.SplitConcat | gnubg-service/output_parser.py:88 | splitting text joined by a separator splits each side |
| Text.Find | gnubg-service/output_parser.py:114 | `find` returns the first index where the pattern occurs; nothing exactly when it occurs nowhere |
| Text.IndexOf | gnubg-service/output_parser.py:100 | the first occurrence of the character, with none before it; nothing when it is absent |
| Text.Lower | gnubg-service/output_parser.py:114 | lower-casing keeps the length and maps each character on its own, so indices found in the lower-cased line are valid in the line |
| Text.Strip | gnubg-service/output_parser.py:92 | the stripped text is no longer than the text and has no whitespace at either end |
| Text.StripParts | gnubg-service/output_parser.py:92 | the stripped text is a slice of the text, and only whitespace lies before and after it |
| Text.ParseIntAccepts | gnubg-service/output_parser.py:107 | `int()` accepts exactly text that strips to an optional sign and one or more digits. The magnitude is the digits' value; the result is negative only after a minus, and never positive after one |
| Text.IntToStringShape | gnubg-service/gnubg_runner.py:115-116 | an integer is written with a minus sign exactly when it is negative, then the digits of its magnitude with no leading zero |

## Left out

- HTTP routing, JSON decoding, status codes, the health and raw-command endpoints, configuration and logging belong to the web framework. A request body that is absent is not modelled; the native request fields are typed (`position` a string, `dice` a list of integers, `plies` an integer).
- Process spawning, standard input and output, and the enforcement of the timeout are left out. The engine is a function from the script to an exited or timed-out outcome.
- The lock around engine runs is left out: it serialises concurrent requests and changes no single run.
- Scratch file names (`uuid`, the temporary directory) are left out. The path is a parameter, and the scratch-file lemmas assume it is fresh.
- Whether the file write or the removal succeeds is a parameter. The engine's reading of the loaded game record is not modelled.
- Unicode is left out: digit, whitespace and case tests are ASCII-only, and `re.IGNORECASE` case folding beyond ASCII is not modelled.
- Decimal values are exact reals. Binary floating-point rounding is left out, and so is the sign of negative zero.
- Text.ParseFloat: accepts only an optional sign, digits and at most one point. Exponents, `inf`, `nan` and digit separators, which `float()` also accepts, are left out; no capture of the patterns used can contain them.
- Text.ParseInt: does not accept the `_` digit separators that `int()` allows in a rank prefix.
- Patterns.Search: models only the four label-separator-number pattern shapes the decoders use, not general regular expressions.
- OutputParser.ParseMoveAnalysis: a kept move's rank is proved non-negative. A rank of 0 is kept, as the decoder does.
- Verbose diagnostics (`print`, logger output) are left out.
