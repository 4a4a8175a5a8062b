# AgentWire-Cue: a verified model

AgentWire-Cue runs statecharts written in YAML. This project models its core in Dafny and proves what the rest of
the program relies on:

- **The expression language** (`Text`, `Lexer`, `Grammar`, `Descent`, `Parser`, `Printer`, `PyFloat`, `Evaluator`,
  `Template`): the lexer as an ordered list of greedy alternatives, the grammar as derivation trees, the parser as
  the object with a mutable position that it is, the evaluator with its strict comparisons, and templates with the
  type recovery of `set_context`.
- **The statechart engine** (`Chart`, `ChartFacts`, `ActionFacts`, `Engine`, `Filter`, `Machine`, `Snapshots`): `Chart` says as functions what
  one transition, one persist and one restore do; `Engine.StatechartEngine` is the object that is updated step by
  step, proved against them; `Machine` is the same engine with any number of concurrent tasks, suspensions inside
  actions, a persist in single file operations, and crashes anywhere; `ActionFacts` says what expressions see and
  what each action does, and `Snapshots` whose snapshot the state file holds.
- **Loading** (`Loader`, `Overlay`): the static checks of guards and targets, and the overlay merge.
- **The history feed** (`Poller`, `HistoryCache`, `PeerPages`, `PeerProxy`, `Inbound`): polls that become events, the
  cached reads, the paginated peer listing, the peer namespace of expressions, the two inbound scanners.
- **Retry and the trigger registry** (`Retry`, `Registry`).
- **The owner-alert plugin** (`OwnerAlert`, `UrgentAlert`, `AlertSystem`, `Restarts`): from the text of its guard to
  whole runs of the concurrent engine. `UrgentAlert` joins guard, peer namespace, cache and backend: an alert goes
  out only for an inbound text fetched after the trigger. `AlertSystem` puts the polling loops and restarts of the
  process into the same machine: no process alerts a round twice, and every alerted round was seen by one of its
  pollers above its initial snapshot. `Restarts` proves exactly when a new process can repeat an alert.

`dafny verify dfyconfig.toml` checks everything.

## How to read it

Everything a step learns from outside is a parameter. `Evaluator.World` answers for Python objects and library
calls (attribute access, method calls, `float(text)`); `Chart.Snap` is the clock and the history namespaces behind
one evaluation; `Chart.Oracle` is all that one transition learns: a snapshot for each guard and action, how each
awaited handler ends, the clock, and how the disk behaves. Theorems hold for every such parameter.
`Option` and `Result` values stand for exceptions: `None` from the lexer and the parser is ExpressionError.

Where the documentation and the code differ, the model follows the code:

- `skill/PLUGIN_AUTHORING.md:166` says that transitions are tried in order until one matches. In the code
  (`core/statechart.py:355-382`) a false or failing guard ends the scan; `ChartFacts.ScanIsFirstVerdict` states it.
- The grammar in `skill/EXPRESSION_REFERENCE.md:10-27` has neither `$` nor path elements that start with a digit;
  the code (`core/expression.py:100`, `core/expression.py:125`) has both.
- The loader reports an empty guard; the engine skips it (`Loader.EmptyGuard`).

Properties that one might expect and that are false of the code, each with its witness and its exact condition:

- An increase of a round can go unnoticed above 2^53, because ordered comparison goes through doubles
  (`Evaluator.OrderMissesAnIncrease`, `Evaluator.GreaterIff`).
- One `send_a2a` can dispatch twice: when the injected send raises TypeError after it has dispatched
  (`ChartFacts.TypeErrorSendsTwice`, `ChartFacts.SendDispatches`, `OwnerAlert.NoLateAlertsIff`).
- A restarted process can alert a positive round again, because it does not restore its context: exactly when the
  round has a double and one of the new pollers watches a key whose round in its initial snapshot lies below, keys
  that the initial poll did not show being at 0 (`OwnerAlert.CrashForgetsRounds`, `Restarts.RepeatIff`).
- The two inbound scanners disagree on empty needles and on needles with a newline (`Inbound.AgreeIff`).
- An alias and its uuid do not share cache entries when the uuid is itself the name of another alias
  (`HistoryCache.AliasSharesEntries`).
- Overlay merging is not associative (`Overlay.MergeIsNotAssociative`, `Overlay.AssociatesIff`).
- The two maps of the trigger registry come to disagree when a registered id is registered again, for whichever
  plugin; nothing refuses it (`Registry.EnteringAgreesIff`, `Registry.RegisteringAgreesIff`).
- An unregistering can end in a KeyError: exactly when another one that awaits the same teardown comes back first
  (`Registry.DoubleUnregisterBreaks`, `Registry.KeyErrorIff`).

## Model

| member | source | states |
|---|---|---|
| Text.IntTextRoundTrip | core/expression.py:149-150 | reading the decimal text of an integer gives the integer, for every integer |
| Text.NatValueConcat | core/statechart.py:115-116 | digits are read by their places, leading zeros included |
| Text.ClassesAreListed | core/expression.py:17-25 | blanks, digits, identifier starts and word characters are exactly the listed characters |
| Text.StripSplits | core/statechart.py:112 | `strip` takes all blanks off both ends and nothing else |
| Text.ContainsIff | core/history_proxy.py:68 | a needle is contained exactly when the text is something, the needle, and something |
| Lexer.Tokenize | core/expression.py:158-174 | the position-driven loop computes the lexing function: all tokens, or the stray-character error |
| Lexer.MatchLengthIsLongest | core/expression.py:17-25 | each alternative of the token pattern, matched greedily, takes the longest prefix that belongs to its language |
| Lexer.MunchIsFirstLongestMatch | core/expression.py:17-25 | a token has length k exactly when k is the longest match of some alternative and no alternative listed before it matches any prefix |
| Lexer.MunchYieldsLexeme | core/expression.py:158-174 | a token cut off in any context is by itself exactly one token |
| Lexer.LexYieldsLexemes | core/expression.py:158-174 | every token of an accepted text is by itself exactly one token |
| Lexer.LexSpread | core/expression.py:163-173 | tokens with any white space, of any listed kind, around and between them lex to exactly these tokens |
| Lexer.LexJoin | core/expression.py:158-174 | joining any tokens with blanks and lexing again gives the same tokens |
| Lexer.LexNormalForm | core/expression.py:158-174 | rewriting an accepted text as its tokens between single blanks does not change its tokens |
| Descent.DerivationIff | core/expression.py:52-155 | the descent returns a derivation tree exactly when that tree spells the whole token list: sound and complete |
| Descent.Unambiguous | skill/EXPRESSION_REFERENCE.md:10-27 | two derivations of one sentence are the same tree |
| Descent.AcceptedIffSentence | core/expression.py:52-155 | a token list is accepted exactly when the grammar derives it |
| Parser.ParserState.Eat | core/expression.py:43-50 | consumes the expected token and nothing else, or leaves the position alone |
| Parser.ParserState.ParseExpr | core/expression.py:52-58 | the parser object returns the syntax of the only derivation of its tokens, and fails otherwise, trailing tokens included |
| Parser.ParserState.ParseOr | core/expression.py:60-66 | the loop builds the left-associative tree of the longest disjunction here and stops right after it |
| Parser.ParserState.ParseAnd | core/expression.py:68-74 | likewise for conjunctions, which bind tighter |
| Parser.ParserState.ParseNot | core/expression.py:76-80 | any number of negations before one comparison |
| Parser.ParserState.ParseCmp | core/expression.py:82-89 | one comparison, which does not chain |
| Parser.ParserState.ParsePrimary | core/expression.py:91-102 | parenthesised expression, name or literal, decided by the token as in the grammar |
| Parser.ParserState.ParseVariableOrCall | core/expression.py:104-139 | a name before a parenthesis is a function, a dotted path before one is a method, else a variable |
| Parser.ParserState.ParsePath | core/expression.py:121-127 | the longest dotted path, or the error of a dot without a word after it |
| Parser.ParserState.ParseArguments | core/expression.py:111-118 | the comma-separated arguments up to the closing parenthesis, in order |
| Parser.ParserState.ParseLiteral | core/expression.py:141-155 | consumes one token and returns the literal it denotes, or fails |
| Parser.ParseText | core/expression.py:177-180 | tokenizing and running a fresh parser object computes the parsing function |
| Parser.ParseTokensIff | core/expression.py:52-155 | the parser returns e exactly when the tokens have a derivation that stands for e |
| Parser.ConnectivesBind | core/expression.py:60-74 | `&&` binds tighter than `||` on either side, and both associate to the left |
| Parser.ComparisonsBind | core/expression.py:76-89 | each of the six comparisons takes two operands, binds tighter than `!`, and does not chain |
| Parser.PathsParse | core/expression.py:100-139 | a path starts with `$` or an identifier and goes on with any token that starts with a word character; calls are functions or methods |
| Printer.RoundTrip | core/expression.py:17-180 | printing any producible syntax tree, lexing and parsing the text gives the tree back |
| Printer.RoundTripSpread | core/expression.py:17-180 | the same however the printed tokens are spaced |
| Printer.UnquotedLacksQuote | core/expression.py:151-154 | a parsed string literal never contains both kinds of quote |
| Printer.ParsePrintParse | core/expression.py:177-180 | whatever text is accepted, its syntax is producible and prints to text with the same syntax |
| Printer.ProducibleIffParsed | core/expression.py:52-180 | the image of the parser: exactly the producible trees are the syntax of some text |
| PyFloat.ToFloatMonotone | core/expression.py:258-265 | conversion of integers to doubles (round half to even) never reverses order |
| PyFloat.ToFloatExact | core/expression.py:258-265 | it is the identity up to 2^53 in magnitude |
| PyFloat.ToFloatNotInjective | core/expression.py:258-265 | beyond 2^53 neighbouring integers can share a double |
| PyFloat.ToFloatNearest | core/expression.py:258-265 | the conversion gives a double, no double is nearer, and it fails exactly at and beyond 2^1024 |
| PyFloat.RoundToNearest | core/expression.py:258-265 | of two equally near multiples the even one is taken |
| Evaluator.ResolvePathLoop | core/expression.py:190-215 | the loop over a path computes the lookup function, stopping at the first null |
| Evaluator.WalkConcat | core/expression.py:206-215 | a path can be resolved in two parts, and null is final |
| Evaluator.PathsResolve | core/expression.py:190-215 | a path through nested mappings finds what stands at its end |
| Evaluator.MissingIsNull | core/expression.py:206-215 | a missing key on the way gives null, whatever follows |
| Evaluator.ClockResolves | core/expression.py:192-204 | `now` is the clock and no namespace; the empty path is an error |
| Evaluator.GreaterIsSound | core/expression.py:237-266 | a true greater-than on integers is right, for all integers |
| Evaluator.GreaterIff | core/expression.py:237-266 | it is true exactly when the order holds and the two doubles differ |
| Evaluator.OrderIsExact | core/expression.py:237-266 | all four ordered tests are exact within 2^53 |
| Evaluator.OrderMissesAnIncrease | core/expression.py:237-266 | 2^53 + 1 does not compare greater than 2^53 |
| Evaluator.EqualityIsStrict | core/expression.py:237-252 | values of different kinds are never equal, but for an integer and a float |
| Evaluator.ComparisonLaws | core/expression.py:237-266 | equality is symmetric and reflexive on scalars, inequality its negation, ordered tests mirror and exclude each other, none holds without numbers |
| Evaluator.FloatsCompare | core/expression.py:248-265 | floats compare as reals, an integer as its double, and an integer without one raises |
| Evaluator.OnlySeven | core/expression.py:183-203 | exactly seven roots resolve; every other is denied |
| Evaluator.DeMorgan | core/expression.py:310-320 | De Morgan's laws hold for short-circuit evaluation, with the same values and the same errors |
| Evaluator.ConnectivesDecide | core/expression.py:310-320 | a connective has the value of the operand that decides it, and the truth of the connective |
| Evaluator.FalseValues | core/expression.py:310-320 | exactly null, false, zero and what is empty are false |
| Evaluator.LiteralsEvaluate | core/expression.py:273-274 | each kind of literal stands for its value |
| Evaluator.SinceIsElapsed | core/expression.py:222-229 | `since` of a time, whole, cut or boolean, is what must be added to it to reach the clock; anything else is an error |
| Evaluator.SinceGrows | core/expression.py:222-229 | and it grows with the clock |
| Evaluator.TruncateCuts | core/expression.py:229 | floats are cut toward zero |
| Evaluator.CallsAreKnown | core/expression.py:218-234 | `now()` and `duration_in_state()` give clock and duration; wrong arities and unknown names are errors |
| Evaluator.ArgumentsEvaluate | core/expression.py:299 | arguments are evaluated in order, and the first that fails is the failure |
| Evaluator.MethodsAnswer | core/expression.py:282-303 | a method call gives its value, the diagnostic of an exception with a reason, and null for any other exception |
| Evaluator.EvaluateConfined | core/expression.py:183-322 | environments that agree on the allowed namespaces an evaluation looks up give the same value or error |
| Evaluator.Whitelisted | core/expression.py:183-322 | environments that agree on the seven allowed namespaces cannot be told apart by any expression |
| Evaluator.DeniedIffTouched | core/expression.py:183-234 | the whitelist error occurs exactly when a forbidden root is looked up, which ends the evaluation; a short-circuited root denies nothing |
| Template.SplitThenJoin | core/expression.py:334 | splitting a name at its dots loses nothing and leaves no dot |
| Template.JoinThenSplit | core/expression.py:334 | and every dotted path is recovered from its text |
| Template.HolePadded | core/expression.py:325 | the hole pattern reads the trimmed name between its braces and consumes exactly the hole |
| Template.HoleIff | core/expression.py:325 | a hole is two braces, something without a closing brace, and two closing braces, its name what is left between the blanks; nothing else is a hole |
| Template.RenderHole | core/expression.py:328-345 | a padded hole stands for the text of what its name resolves to |
| Template.RenderPlain | core/expression.py:328-345 | text without an opening brace stands for itself |
| Template.RenderPieces | core/expression.py:328-345 | a template of plain texts and padded holes renders to these texts with each hole replaced by what its value stands for: strings themselves, nothing for null, decimal text, `true` or `false` |
| Template.RenderConfined | core/expression.py:328-345 | a rendering depends only on the allowed namespaces its holes name |
| Template.RenderFailsIff | core/expression.py:328-345 | whether a rendering fails and with which error is decided by its hole names alone: the first bad one |
| Template.RecoverInt | core/statechart.py:106-124 | type recovery of the text of any integer is that integer |
| Template.RecoverBool | core/statechart.py:106-124 | and of a boolean that boolean |
| Template.RecoverText | core/statechart.py:111-122 | other text is stored unchanged, blanks included, or as the number it is the text of |
| Template.DashesAreRefused | core/statechart.py:115-116 | more than one dash before digits raises |
| Template.RenderedIntRecovered | core/statechart.py:106-124 | setting a key to a hole that resolves to an integer stores that integer |
| Filter.PersistableOf | core/statechart.py:496-504 | the loop in `persist` keeps exactly the entries that are neither excluded nor sensitive |
| Filter.FilterSensitive | core/permission.py:253-267 | `filter_sensitive` keeps exactly the same entries for the same exclude list |
| Filter.GlobContains | core/permission.py:30 | a word between stars matches exactly the keys that contain the word |
| Filter.SensitiveIff | core/statechart.py:269 | a key is sensitive exactly when its lower-case form contains `token`, `secret`, `password` or `credential` |
| Filter.MixedCaseIsSensitive | core/statechart.py:501-503 | one of the words in any mixture of capital and small letters, anywhere in a key, makes it sensitive |
| Filter.KeptIff | core/statechart.py:496-504 | an entry is kept exactly when its key is neither excluded nor contains one of the four words, and keeps its value |
| Filter.KeptTwice | core/permission.py:253-267 | filtering twice is filtering once |
| Engine.StatechartEngine.constructor | core/statechart.py:279-306 | a new engine stands in the initial state with the initial context |
| Engine.StatechartEngine.SetContextItems | core/statechart.py:106-124 | the items are rendered and stored one by one, each seeing the ones before; a failing one, also one whose value is no text, keeps the earlier edits |
| Engine.StatechartEngine.IncrementContext | core/statechart.py:127-131 | adds to the integer of the key, or raises without an edit |
| Engine.StatechartEngine.WriteLog | core/statechart.py:99-103 | `log` writes one rendered line or raises |
| Engine.StatechartEngine.Reply | core/statechart.py:437-449 | `reply_a2a` needs a message id, then hands over one rendered reply; the context is untouched |
| Engine.StatechartEngine.Send | core/statechart.py:450-476 | `send_a2a` renders text and metadata before the first call, and after a TypeError of it, early or late, calls again without metadata |
| Engine.StatechartEngine.CallHandler | core/statechart.py:477-489 | any other action is its registered handler's doing, context edits included, or an ActionError |
| Engine.StatechartEngine.DispatchAction | core/statechart.py:431-489 | an action's context edits, effects and end are those of its start followed by its awaited rest |
| Engine.StatechartEngine.RunSlice | core/statechart.py:402-405 | each of the two action loops runs its actions in order and stops at the first that does not end well |
| Engine.StatechartEngine.Transition | core/statechart.py:323-429 | the transition loop refines the recursive specification in state, context, entry time, files, effects and result |
| Engine.StatechartEngine.Fire | core/statechart.py:400-427 | both action lists, then the switch of state and the persist, or neither |
| Engine.StatechartEngine.Persist | core/statechart.py:493-523 | write beside the target and rename, or fail to open, to write or to rename |
| Engine.StatechartEngine.RestoreFromPersist | core/statechart.py:525-559 | restores, skips or refuses as specified, moving a bad file aside when told to; one that cannot be decoded is refused in any case |
| ChartFacts.ScanIsFirstVerdict | core/statechart.py:339-398 | the outcome is fixed by the first entry with a failing guard or a target; without one nothing matches |
| ChartFacts.RunActionsExecutesPrefix | core/statechart.py:400-414 | running actions executes all of them or exactly the prefix up to the first that fails, with its context and effects |
| ChartFacts.FiringTheorem | core/statechart.py:323-429 | the trace is a prefix of entry actions followed by the target's; state, entry time and files change only when all succeeded, and the context is always that of the executed prefix |
| ChartFacts.NoFiringTheorem | core/statechart.py:323-429 | a transition that does not fire changes nothing and has no effect |
| ChartFacts.SendDispatches | core/statechart.py:450-476 | a send dispatches nothing exactly when a template fails, twice exactly when the first call raises TypeError after dispatching, else once |
| ChartFacts.TypeErrorSendsTwice | core/statechart.py:464-468 | the input on which one action sends its text twice |
| ChartFacts.RenderMetadataIff | core/statechart.py:138-150 | rendering metadata fails exactly when a text at some depth has a bad hole |
| ChartFacts.IncrementsAdd | core/statechart.py:127-131 | increments of one key add up and leave other keys alone |
| ChartFacts.PlainMetadataKept | core/statechart.py:138-150 | metadata without template holes is forwarded unchanged at any nesting |
| ChartFacts.PersistedIsHarmless | core/statechart.py:493-512 | a persisted context holds no excluded and no sensitive key, and otherwise the context's own values |
| ChartFacts.PersistThenRestore | core/statechart.py:493-549 | restoring what was persisted gives state, entry time and the filtered context; a second round changes nothing |
| ChartFacts.RestoreIff | core/statechart.py:525-559 | a restore succeeds exactly on a whole document of this plugin, schema and a state; otherwise the state stays, an undecodable file is always refused, and no restore loses the file |
| ChartFacts.RestoreExactly | core/statechart.py:525-559 | every case of a restore with its exact result, engine and files |
| ActionFacts.StatePaths | core/statechart.py:255-259 | `state` shows the state, when it was entered and for how long it has lasted, never negative |
| ActionFacts.EventPaths | core/statechart.py:55-65 | `event` shows the payload under the type, message id and source of the event |
| ActionFacts.OtherPaths | core/statechart.py:252-264 | `context` is the context of the moment; the other namespaces and the clock are as read |
| ActionFacts.EntriesAre | core/statechart.py:326-330 | the entries tried are those written for the event in the state, one or many, and none otherwise |
| ActionFacts.StopsAt | core/statechart.py:339-386 | the scan stops at a guard that does not pass or a target that is there, and passes over everything else |
| ActionFacts.GuardOutcomes | core/statechart.py:342-382 | a guard passes when absent or empty or true; else it was false, did not parse, or could not be evaluated |
| ActionFacts.BlockedGives | core/statechart.py:355-382 | a blocked transition reports the guard and `guard_false`, the exception's reason, or `guard_eval_error` |
| ActionFacts.IncrementAdds | core/statechart.py:127-131 | an increment adds to what the value counts as; a value that is no integer raises and nothing changes |
| ActionFacts.IncrementsCount | core/statechart.py:127-131 | m increments by one of an absent key leave m and everything else |
| ActionFacts.SetItemsInTurn | core/statechart.py:106-124 | `set_context` stores item after item, each rendered in the context of its turn, and stops exactly at the first that is refused |
| ActionFacts.EffectsCarryTexts | core/statechart.py:99-103 | a log line, a reply and each call of a send carry the rendered text to whom it is for |
| ActionFacts.NoTextRaises | core/statechart.py:106-108 | a template that is no text raises; nothing is stored or sent |
| ActionFacts.HandlersAct | core/statechart.py:431-489 | a registered handler edits the context; unknown and missing types fail without effect |
| ActionFacts.MetadataRendersAs | core/statechart.py:138-150 | rendered metadata has every text rendered in its place, at any depth, and the rest unchanged |
| ActionFacts.DocumentIsSnapshot | core/statechart.py:493-512 | what `persist` writes is the engine's state, entry time and the harmless part of its context |
| ActionFacts.SnapshotRestores | core/statechart.py:525-549 | restoring from a snapshot gives back what it shows |
| Machine.MutualExclusion | core/statechart.py:316-319 | in every run at most one task is inside its transition, and it holds the lock |
| Machine.Linearizable | core/statechart.py:316-429 | whenever the lock is free, state, context, effects, results and files are those of the same events one after another in lock order, with failures, exceptions, cancellations and crashes |
| Machine.CrashSafe | core/statechart.py:493-523 | at every point of every run the state file is the whole document of the last rename that took effect; before the first one it is the file found, or gone because it was not acceptable |
| Machine.RestoreAfterCrash | core/statechart.py:493-549 | after any run, whatever files it started with, a restore gives exactly the last renamed snapshot; before the first rename it ends as at the start, or finds nothing because an unacceptable file was moved aside |
| Machine.StepKeepsInv | core/statechart.py:316-429 | every single step keeps mutual exclusion, linearity and the file invariant |
| Machine.RunKeepsInv | core/statechart.py:316-429 | so does every run |
| Machine.CanFinish | core/statechart.py:316-429 | from every reachable state the holder of the lock and the writer can finish by themselves, provided awaited actions end, and then the engine is the serial one |
| Machine.StepCarries | core/statechart.py:316-330 | within a process no event gets into the engine but by arriving |
| Snapshots.DocumentsAreSnapshots | core/statechart.py:493-523 | every document of every run is a snapshot of the engine at the moment its own persist began |
| Snapshots.FileIsSnapshot | core/statechart.py:493-549 | at any point of any run after a rename, the state file is the snapshot some persist of the run began with, and a restore gives it back |
| Snapshots.ForcedPersistSaves | core/host.py:345-350 | a forced persist that succeeds leaves the engine alone, and a restore gives back the engine as it stood |
| Snapshots.CrashStartsOver | core/statechart.py:287-299 | a new process starts in the initial state and context |
| Snapshots.ReloadGoesOn | core/statechart.py:525-549 | a reload goes on from what the file shows |
| OwnerAlert.ParseGuard | examples/owner-alert/cue.yaml:77 | the guard text, for any two aliases, parses to the intended syntax |
| OwnerAlert.GuardIff | examples/owner-alert/cue.yaml:77 | the guard passes exactly when a peer passes the test and the round is newer than the last one notified by enough for doubles to tell |
| OwnerAlert.StoresRound | examples/owner-alert/cue.yaml:79-81 | the first action stores exactly the event's round |
| OwnerAlert.AlertSays | examples/owner-alert/cue.yaml:86-91 | every message dispatched goes to the configured peer and says the event's peer and the decimal text of its round, between the plugin's words |
| OwnerAlert.AlertStep | examples/owner-alert/cue.yaml:66-91 | one transition sends only for a newer round and remembers it, whatever guards and actions do; it sends once, or twice exactly after a late TypeError |
| OwnerAlert.AlertsIncrease | examples/owner-alert/cue.yaml:66-91 | over any sequence of history changes the alerted rounds strictly increase, and the messages number one for each and one more for each late TypeError |
| OwnerAlert.NoLateAlertsIff | core/statechart.py:464-468 | no alert is dispatched a second time exactly when no sending transition meets a late TypeError |
| OwnerAlert.NoRoundAlertedTwice | examples/owner-alert/cue.yaml:66-91 | the same over any interleaving of the concurrent engine: never more messages, and exactly so many whenever the lock is free |
| OwnerAlert.CrashForgetsRounds | examples/owner-alert/cue.yaml:68-69 | a new process remembers round zero |
| AlertSystem.WatcherMove | core/trigger_impl.py:256-287 | polling loops interleaved with each other and with the engine stay what the sequential loop makes of the same rows, and only fire more |
| AlertSystem.MoveKeeps | core/trigger_impl.py:256-307 | every move of pollers, engine and restarts keeps the system good: each history change in the engine was fired by one of the pollers |
| AlertSystem.PolledRoundsAlertOnce | core/trigger_impl.py:256-307 | in every process of every run the alerted rounds strictly increase and were each seen by a poller of a watched peer above its initial snapshot; there are never more messages than these rounds and the late TypeErrors, and exactly so many whenever the lock of the running process is free |
| Restarts.RepeatIff | core/trigger_impl.py:231-287 | for any pollers, with any watch, aliases and initial polls, and any round: a run in which a second process alerts the round again exists if and only if the round is positive, has a double, and a poller watches a key that its initial poll left below it |
| Restarts.OneAlert | core/trigger_impl.py:256-307 | from a new process, whatever its files and pollers, there is a run in which a poller sees a round rise and the alert goes out |
| UrgentAlert.AlertNeedsUrgentText | examples/owner-alert/cue.yaml:77 | a transition of the plugin sends only if, for one of its two peers, the backend answered after the trigger was received and an inbound text part of the answer contains the word |
| UrgentAlert.TestIsScan | core/expression.py:285-308 | a true peer test of the guard is a scan of that peer's history that returned a true value |
| Loader.ValidateGuards | core/loader.py:204-227 | reports every guard that does not parse and nothing else; no report exactly when all guards parse |
| Loader.ValidateTargets | core/loader.py:230-270 | reports every undeclared target, that of on_exhaust included, and nothing else |
| Loader.CheckedTransition | core/statechart.py:339-398 | a checked plugin never shows a guard parse error or an undeclared target, from any state, and enters declared states only |
| Loader.CheckedRuns | core/statechart.py:339-398 | likewise over any sequence of events; from a declared state all states are declared |
| Loader.CheckedMachine | core/statechart.py:316-429 | likewise at every point of any run of the concurrent engine, and the state is declared whenever the lock is free |
| Loader.UncheckedGuardFails | core/statechart.py:342-382 | the check is needed: an entry list that starts with a bad guard always ends in the syntax error |
| Loader.UncheckedTargetFails | core/statechart.py:384-398 | so is the target check: a first entry without guard and with an undeclared target always ends in that error |
| Loader.CheckedMeans | core/loader.py:204-270 | what is checked: guards that are there parse, targets that are there are states |
| Loader.EmptyGuard | core/statechart.py:342-343 | the empty guard is an error to the loader and passes in the engine |
| Overlay.DeepMerge | core/loader.py:146-163 | the copy-and-fill recursion computes the merge, keys of both sides included |
| Overlay.MergedLeafIff | core/loader.py:146-163 | a leaf stands in the merge exactly where the overlay puts it, or where the base has it and the overlay neither defines the path nor cuts it off |
| Overlay.MergedTreeIff | core/loader.py:146-163 | the same for mappings |
| Overlay.MergeSelf | core/loader.py:146-163 | merging a value over itself changes nothing |
| Overlay.MergeTwice | core/loader.py:146-163 | merging an overlay twice is merging it once |
| Overlay.CoveredIff | core/loader.py:146-163 | merging `c` over `a` gives `c` itself exactly when `a` puts nothing that `c` lacks |
| Overlay.AssociatesIff | core/loader.py:146-163 | two overlays in a row equal one merged overlay exactly when, wherever the middle one cuts the first off from the last, the first put nothing that the last lacks |
| Overlay.MergeIsNotAssociative | core/loader.py:146-163 | so a scalar between two mappings of different keys breaks associativity |
| Poller.HistoryChangeTrigger.PeerMatches | core/trigger_impl.py:231-254 | the search through the alias table decides whether the watched name is `*`, the key, or an alias of it by uuid or short uuid |
| Poller.WatchedKeys | core/trigger_impl.py:231-254 | `*` watches everything; else the name, its alias's uuid and that uuid's first eight characters are watched, and nothing else |
| Poller.KeysOfRows | core/trigger_impl.py:277 | a row is known by its name, else by its uuid |
| Poller.InitialRounds | core/trigger_impl.py:257-266 | the initial poll leaves each watched peer at its last row and everything else alone |
| Poller.FiredShown | core/trigger_impl.py:289-303 | what expressions see of an event: its peer, both rounds, the count and the granularity |
| Poller.HistoryChangeTrigger.InitialSnapshot | core/trigger_impl.py:257-266 | the first poll records the rounds of matching peers and fires nothing |
| Poller.HistoryChangeTrigger.See | core/trigger_impl.py:276-287 | a row fires exactly when its round has grown, and only then moves the snapshot |
| Poller.HistoryChangeTrigger.PollOnce | core/trigger_impl.py:270-287 | one turn sees the rows in order; a failed poll does nothing |
| Poller.HistoryChangeTrigger.PollLoop | core/trigger_impl.py:256-287 | any run of polls amounts to one pass over all rows observed |
| Poller.PeerChain | core/trigger_impl.py:256-287 | the events of a watched peer are contiguous intervals from its initial round to the maximum observed; other peers have none |
| Poller.ChainSums | core/trigger_impl.py:276-287 | contiguous intervals have positive counts, do not overlap and sum to their span |
| Poller.HighestIsMaximum | core/trigger_impl.py:276-287 | the final snapshot is the maximum of the initial value and all observed rounds |
| Poller.PeerEventsAddUp | core/trigger_impl.py:256-287 | the counts of a peer's events sum to final minus initial snapshot |
| Poller.FiredRises | core/trigger_impl.py:276-287 | every event is for a watched peer, about a round that some row showed, and rises above the initial snapshot |
| HistoryCache.HistoryClient.SetAliases | core/history_client.py:49-55 | installing aliases clears the cache |
| HistoryCache.HistoryClient.Invalidate | core/history_client.py:258-260 | clears the cache and nothing else |
| HistoryCache.HistoryClient.ResolveAlias | core/history_client.py:57-76 | an alias gives its uuid, a known uuid itself, anything else the diagnostic; without aliases every name passes |
| HistoryCache.ResolveNames | core/history_client.py:57-76 | each case of the resolution by itself; unknown exactly when there are aliases and none fits |
| HistoryCache.RequestsDiffer | core/history_client.py:157-246 | a request says what its query asks; queries share a cache entry only when they ask the same of the same peer |
| HistoryCache.AnswersAreReused | core/history_client.py:132-169 | an answer is reused within the ttl without asking, and never after it |
| HistoryCache.HistoryClient.GetCached | core/history_client.py:132-141 | answers only within the ttl and deletes what has expired |
| HistoryCache.HistoryClient.SetCached | core/history_client.py:143-145 | stores one entry with its time |
| HistoryCache.HistoryClient.Ask | core/history_client.py:147-169 | one cached read: fresh entry, else backend; errors store nothing |
| HistoryCache.StaysFaithful | core/history_client.py:132-169 | along any sequence of operations every entry is a backend answer to its own key since the last clearing |
| HistoryCache.ReadIsGenuine | core/history_client.py:147-169 | what a read returns is a backend answer to the same resolved request, at most ttl old and newer than the last clearing |
| HistoryCache.ReadAfterTriggerIsNew | core/statechart.py:189-192 | whatever a guard of a tracked transition reads was fetched after the trigger was received |
| HistoryCache.AliasSharesEntries | core/history_client.py:57-76 | an alias and its uuid share entries, for `list_messages` and for `get_round`, exactly when the uuid does not name another alias |
| PeerProxy.PeersNamespace.Refresh | core/history_proxy.py:145-177 | the listed peers by name, every alias over them; without a client nothing changes |
| PeerProxy.ListedByName | core/history_proxy.py:149 | a listed peer is found by its name or uuid, the last one of that name |
| PeerProxy.PeersNamespace.AliasMetaOf | core/history_proxy.py:157-177 | an alias inherits the first listed peer with its uuid, or is made up |
| PeerProxy.AliasAskedByUuid | core/history_proxy.py:30-40 | an alias with a uuid is asked by that uuid whether or not the peer is listed, and the backend likewise exactly unless the uuid names another alias |
| PeerProxy.AliasInherits | core/history_proxy.py:155-177 | an alias has its own name and uuid and the last round of the first listed peer with that uuid, else 0 |
| PeerProxy.ScanIsTrueIff | core/history_proxy.py:54-70 | the scan returns true exactly when the peer is known, the client answers, and an inbound text part contains the needle |
| PeerProxy.MessageValuesDiffer | core/history_client.py:167 | different messages are different answers, so the messages are read off the answer |
| PeerPages.ListPeers | core/history_client.py:183-242 | the paging loop computes the specified rows, with the alias fallback after a failed call |
| PeerPages.AddTask | core/history_client.py:194-218 | one task creates or raises the row of its peer, or is skipped |
| PeerPages.Fallback | core/history_client.py:226-238 | every alias gets a row at round 0, replacing one of the same name |
| PeerPages.AliasesListed | core/history_client.py:226-235 | after it every alias has its row, and other names keep theirs |
| PeerPages.HexRoundTrip | core/history_client.py:209-211 | hexadecimal text in small or capital digits is read as the number it spells |
| PeerPages.UnderscoreIsIgnored | core/history_client.py:211 | an underscore between two digits makes no difference |
| PeerPages.RoundsAreHex | core/history_client.py:209-211 | a task's round is the number after `0x`, whatever blanks follow, and 0 without it |
| PeerPages.PeerOfIff | core/history_client.py:195-201 | a task's peer is what stands before the first `::`, if there is one |
| PeerPages.CollectIsOnePass | core/history_client.py:183-242 | the result is one pass over a prefix of the pages: all of the chain unless the cap was reached or a call failed |
| PeerPages.TakeTasksSummarises | core/history_client.py:194-218 | the pass gives each peer exactly one row, in order of first occurrence: name, short id of its first task, top round |
| PeerPages.TopRoundIsMaximum | core/history_client.py:208-218 | the top round is the maximum of 0 and the peer's parsed ids |
| PeerPages.FallbackNeverFires | core/history_client.py:226-235 | a listing that fails at its first page cannot make a poller fire |
| Inbound.LastInboundContains | core/history_proxy.py:54-70 | the nested search says whether some inbound text part contains the needle, with the two diagnostics |
| Inbound.LastInboundText | core/history_proxy.py:72-97 | the loop joins the non-empty inbound text parts with newlines |
| Inbound.InboundTextsAre | core/history_proxy.py:64-96 | the texts that count are exactly those of text parts of inbound messages |
| Inbound.ContainsAnswers | core/history_proxy.py:54-70 | the answer is true exactly when such a text contains the needle; empty and unknown histories are diagnosed |
| Inbound.ScannersAgree | core/history_proxy.py:54-97 | for a non-empty needle without a newline both scanners give the same verdict on every window |
| Inbound.AgreeIff | core/history_proxy.py:54-97 | they agree on every window for exactly these needles |
| Inbound.NewlineSplits | core/history_proxy.py:54-97 | for every needle with a newline there is a window on which they differ |
| Inbound.EmptyNeedleSplits | core/history_proxy.py:54-97 | and for the empty needle |
| Retry.ExecuteWithRetry | core/a2a_client.py:155-175 | calls until the first terminal result or the last retry, and what it answers and sleeps; the wait is bounded |
| Retry.RetryOutcome | core/a2a_client.py:162-175 | at most retries plus one calls, none after a success or a refused permission, and exhausted exactly when no call was terminal |
| Retry.FirstTerminalUnique | core/a2a_client.py:162-175 | the answer and the number of calls are determined |
| Retry.DelaysGrow | core/a2a_client.py:173 | delays never shrink and never exceed half a minute |
| Retry.TotalWait | core/a2a_client.py:172-174 | the whole wait is at most half a minute per retry and at most the geometric sum |
| Retry.TotalWaitUncapped | core/a2a_client.py:172-174 | below the cap it is exactly the geometric sum |
| Registry.TriggerScheduler.Register | core/trigger.py:78-95 | both maps get the trigger, or neither when setup fails; agreeing maps stay so exactly when the id was not registered |
| Registry.TriggerScheduler.UnregisterPlugin | core/trigger.py:105-115 | exactly the plugin's triggers are torn down, once each and in order, and leave both maps |
| Registry.TriggerScheduler.Shutdown | core/trigger.py:117-120 | every registered trigger is torn down exactly once, nothing else is, and both maps are empty |
| Registry.TriggerScheduler.ByPlugin | core/trigger.py:125-126 | exactly the plugin's triggers, in order, without a missing key |
| Registry.StepKeeps | core/trigger.py:78-115 | every step of interleaved registrations and teardowns keeps the maps consistent and every teardown counted once |
| Registry.TornDownOnce | core/trigger.py:105-115 | in every run each trigger is still registered or was torn down exactly once, and no KeyError occurs |
| Registry.QuietMapsAgree | core/trigger.py:78-115 | whenever no teardown is under way the registered triggers are the disjoint union of the lists |
| Registry.FinishedPluginIsGone | core/trigger.py:105-115 | when an unregistering ends, all triggers its plugin ever had are gone and were torn down once, those registered meanwhile included |
| Registry.KeyErrorIff | core/trigger.py:107-114 | an awaited teardown ends in a KeyError exactly when, meanwhile, another unregistering awaiting the same one came back first and the trigger was not registered anew; in any run |
| Registry.DoubleUnregisterBreaks | core/trigger.py:105-115 | two unregisterings of one plugin at a time tear down twice, and the later one ends in a KeyError |
| Registry.EnteringAgreesIff | core/trigger.py:92-93 | entering a trigger leaves agreeing maps in agreement if and only if its id is not registered, for the same plugin or another |
| Registry.RegisteringAgreesIff | core/trigger.py:78-95 | likewise after any orderly run without a teardown under way |

## Left out

- Evaluator.ComparisonLaws: floats are reals, so NaN and the infinities, which are not equal or not ordered like reals, are not values here; decimals keep their text and get their value from `World.decimal`.
- Template.RecoverText: `float(text)` is the parameter `World.number`.
- Text: characters are ASCII. Unicode letters, digits, blanks and case folding are not modelled, nor are CPython's limits on recursion and on the digits of `int(text)`.
- Parser: error messages and positions; all parse errors are one. The token list is the lexer's, so a literal token with a trailing newline, which `$` in a Python pattern would accept, does not occur.
- Evaluator: Python objects are opaque; what attribute access and method calls give is a parameter, which `UrgentAlert` fixes for the history proxies.
- Chart: handlers that are neither a mapping nor a list, and guards, log messages and reply templates that are not text, which the plugin schema excludes; `write_file`, `http_request` and `spawn` appear only as registered handlers that may edit the context and fail.
- Chart: documents are values, not JSON text; a context value that JSON cannot express, and a state file that is JSON but whose fields have other kinds, are not modelled. Log lines and observability records are left out, but for the text of a `log` action.
- Chart: a call of the injected send counts as a dispatch once its body is entered, whether or not the message reaches the peer.
- Machine.Linearizable: does not fix which waiting task gets the lock next, so it covers the first-come order of the asyncio lock and every other order; fairness is not claimed. A waiting task that is cancelled leaves, an acting one raises.
- Machine.Linearizable: files are not compared after the host has forced a persist at shutdown (`core/host.py:345-350`), which has no serial counterpart; `CrashSafe` covers it.
- Machine: the fallback dispatcher, whose actions may edit the context in the middle of a send, and `on_exhaust`, whose transition may wait for a lock its caller holds; the owner-alert plugin has neither.
- OwnerAlert.NoRoundAlertedTwice: is about one process, and not about missed rounds: above 2^53 an increase can go unnoticed (`Evaluator.OrderMissesAnIncrease`).
- AlertSystem.PolledRoundsAlertOnce: history changes come from pollers; an operator's own event of that type through the admin interface is not part of the system.
- Restarts.RepeatIff: is about plugins whose alert, log line and metadata have no hole that always fails; the others never send.
- UrgentAlert.AlertNeedsUrgentText: the snapshot of the guard is assumed to answer for the two peers as the proxies do; messages of the backend have a role and typed parts. One direction only: a text that is there does not cause an alert by itself, since a read may fail.
- Loader, Overlay and Filter: dictionaries are maps and loops over them take the keys in any order, so the order of error reports and of merged keys is not stated.
- Loader: YAML, the schema, the environment and secrets.
- Poller.HistoryChangeTrigger.PollLoop: is cancelled between polls, not while it awaits an event it has fired; rows carry integer rounds, so the conversion that could end the loop is not modelled; the polling interval and `granularity` do not matter to what fires.
- HistoryCache.HistoryClient.Ask: operations are atomic, as the client's own lock makes each table access; two threads that miss one key at the same time and both fetch it are two reads one after the other. Tokens, HTTP and JSON-RPC are not modelled.
- PeerProxy: the round totals and last timestamps of a peer, the outbound scan, and the namespace of sums over all peers.
- PeerPages.ListPeers: the chain of pages is finite; the source would follow an endless one until 50 peers have been seen. Tasks whose id or context is not text are excluded.
- Registry.TornDownOnce: assumes that no id is registered twice and that a plugin is unregistered from one place at a time, neither of which the source sees to; `RegisteringAgreesIff` and `KeyErrorIff` say what happens otherwise. An unregistering that finds no list may see triggers registered later, a step the source does not have but that does no harm.
- Registry: cron, message and listener triggers, and what `setup` and `teardown` do.
- Retry: what a send does, including its permission checks and the peer card cache.
- HTTP, the sandbox, single permission decisions, the doctor, the CLI, redaction and host start and stop timing.
