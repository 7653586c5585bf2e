# Solomon, modelled in Dafny

Solomon is a local command-repair assistant. It lexes a command line, looks for
a repair, rates its risk, and then hints, interrupts or edits the shell buffer.
A daemon keeps tokens per shell session for confirming, undoing and learning.

This project models the parts of Solomon whose correctness cannot be seen by
reading one function, and proves what they promise for all inputs, all runs and
all interleavings. `dafny verify dfyconfig.toml` checks all of it.

| Module | What it holds |
|---|---|
| `Lexers`, `ConservativeLexer` | the three hand-written lexers as folds over one state, their loops, and their agreement |
| `LexersExact`, `ShellQuoting` | exactly when they agree; what each shell's quoting and escaping reads back as |
| `Rewrite`, `RewriteExact` | the edit of one token in the buffer: when the new line means the old one with one word changed, and when it does not |
| `EditDistance`, `Ranking`, `KeyboardLaws` | the two dynamic programs as least costs over alignments, and the choice of a candidate |
| `RiskAssessment`, `RiskLaws`, `Redaction` | the automaton that finds commands, the risk rating, what both mean without recursion, and secret words |
| `Engine`, `EngineGuarantees`, `EngineActions`, `EngineCanonical` | the diagnosis engine from line to decision, what every decision guarantees, and exactly when which action is taken |
| `RewriteHazard` | two lines on which automatic rewriting goes wrong, worked through the engine |
| `Policy` | what the daemon may answer, and what it must |
| `Relay` | the chunked matcher that follows terminal output |
| `SessionTables`, `SessionLaws`, `Service`, `Daemon` | the daemon's tables and what is stored in them and given back, their critical sections, and the daemon as a state machine whose steps are critical sections of concurrent requests |
| `Confirmations`, `Undos`, `Evidence` | invariants of that machine: confirmations, undos, learning evidence |
| `Honoured` | the converse: whatever other requests do in between, what was promised is granted |
| `ZshAdapter`, `EndToEnd`, `LearnedEvidence` | the zsh hooks over their global variables; shells, daemon and store composed; what a learned repair rests on |
| `LearningStore`, `RuleLaws` | the learning tables and their transactions; which rules are active after them |
| `PathCache` | the executable index under concurrent lookups and changing directories |
| `Packs`, `PackTemplate`, `PackVersion` | packs and their validation, template references, version order |
| `PackResolution`, `PackConflicts`, `PackRuntime`, `PackMatching`, `Staging` | resolution and exactly when it fails, provenance, matching, activation with rollback |
| `Options`, `Strings`, `Numerals`, `TextOrder` | small shared definitions |

## Assumptions

- Daemon: the clock never goes back; a generated token was never generated
  before; sessions and tokens hold no NUL, as `Request.Validate` demands
  (internal/daemon/protocol.go). A step is one critical section under the
  service's mutex, or one database transaction.
- Executable index: for a covered directory, an equal stamp means equal contents
  in between (`PathCache.StampsTell`). `PathCache.StaleWhenStampsRepeat` shows
  that this is needed.
- The daemon and its engine share one configuration and one resolver
  (cmd/solomon/main.go:349).
- Regular expressions, case folding, path splitting and joining, `strings.Fields`,
  trimming and the terminal sanitiser are function parameters: the results hold
  for every choice of them, unless a precondition says otherwise.

## What turned out false of the code

- *An automatic rewrite is as safe as it was rated.* A path repair rates a
  directory entry's name as one word, but a token that is not wholly quoted is
  replaced verbatim, and the resulting line is not looked at again. The buffer
  reads as the rated words exactly when the token is wholly quoted or the
  replacement is plain or an operator
  (`EngineGuarantees.RewrittenLineWasAssessed`); for a named shell the token is
  never quoted. **Consequence:** with a mistyped name of 27 letters or more and a
  directory entry that continues it with `;rm`, `cat ./name` becomes
  `cat name;rm`, is reported as safe and runs `rm`
  (`RewriteHazard.SafeRewriteRunsRm`). Any other entry name that is not plain
  likewise puts other words into the buffer than were rated.
- *A pack's in-place edit replaces the argument.* The match names the first
  occurrence of the argument's text, so when argument and command name are equal
  it replaces the command name (`EngineGuarantees.PackEditHitsArgument`, with the
  exact condition, and `RewriteHazard.PackEditHitsCommand`, with a valid pack and
  a line). No rule of the bundled packs matches its own command's name, and
  installed packs never rewrite, so this awaits another bundled rule.
- *Chunking does not show in relayed output.* Each flushed piece is sanitised on
  its own. For every marker and sanitiser, chunking does not show if and only if
  sanitising two flushed pieces one by one leaves the same last 8192 characters
  as sanitising them together (`Relay.ChunkingIsInvisible`). A password that is
  flushed in two pieces is redacted only in part (`Relay.PasswordShows`).
- *Versions follow Semantic Versioning.* They do for all valid versions exactly
  under `PackVersion.VersionsFollow` (`PackVersion.VersionsFollowExactly`). Two
  words tie, as in 1.0.0-alpha and 1.0.0-beta (`PackVersion.AlphaTiesWithBeta`); a
  word that reads as a negative number goes before a numeral, as 1.0.0--5 before
  1.0.0-1 (`PackVersion.MinusFiveGoesFirst`); and numbers from the largest 64-bit
  number on tie.
- *A joined line is high-risk only if a part is.* A secret flag at the end of the
  first part redacts the operator, which also makes the line high-risk
  (`RiskAssessment.HighIffEitherHigh` has the exact condition,
  `RiskAssessment.HarmlessPartsHighJoin` a line).
- *Resolution refuses rules only for a shared command and pattern.* With a NUL in
  a command two different matchers can have one signature. `Resolve` succeeds if
  and only if ids are distinct, all packs compile and no two rules share command
  and pattern or are shifted by a NUL (`PackConflicts.ResolvesExactlyWhen`);
  `PackConflicts.ValidPacksRefused` has two valid packs that are refused.

## Model

| member | source | states |
|---|---|---|
| `Lexers.Tokenize` | internal/diagnose/engine.go:598-657 | the lexer computes the fold `Lex`: words and operators, or incomplete input |
| `Lexers.ScanLine` | internal/diagnose/engine.go:612-652 | the loop's variables after the whole line are the fold's state |
| `Lexers.ShellTokenRanges` | internal/diagnose/engine.go:868-924 | the range scanner computes the fold `Ranges` |
| `Lexers.RangesFollowTokenize` | internal/diagnose/engine.go:868-924 | on every line `tokenize` accepts, the range values are its words without the unquoted operators |
| `Lexers.RangesAscendDisjoint` | internal/diagnose/engine.go:868-924 | on every line the ranges ascend, are disjoint, non-empty and inside the line |
| `Lexers.OperatorIsCompound` | internal/diagnose/engine.go:936-982 | what the operator scanner cuts off is one of the compound operators, of the width it reports |
| `ConservativeLexer.TokenizeConservative` | internal/diagnose/engine.go:694-787 | the per-shell lexer computes the fold `Conservative`, including its rejections |
| `ConservativeLexer.LexersAgree` | internal/diagnose/engine.go:694-777 | for every shell, an accepted line in which every escape means the same to the shell and to `tokenize` gives the same words in all three lexers, backslashes included |
| `ConservativeLexer.RewriteCompatibleLexersAgree` | internal/diagnose/engine.go:789-791 | for every shell, all three lexers give the same words on an accepted rewrite-compatible line |
| `LexersExact.LexersAgreeExactly` | internal/diagnose/engine.go:598-777 | for every shell and every line it accepts: `tokenize` reads the same words if and only if every escape means the same to both, and then so does the range scanner |
| `ShellQuoting.QuotedReadsBack` | internal/diagnose/engine.go:709-741 | any text, escaped by the shell's rule and put in double quotes (POSIX, fish) or single quotes (all; doubled in PowerShell), reads as exactly that one word, or is refused exactly if a word with that text is |
| `ShellQuoting.PowerShellReadsVerbatim` | internal/diagnose/engine.go:709-741 | PowerShell reads text between double quotes as it stands, backslashes included |
| `ShellQuoting.IdleBackslashesStay` | internal/diagnose/engine.go:720-734 | a POSIX shell keeps a backslash that escapes nothing between double quotes |
| `ShellQuoting.BackslashedReadsBack` | internal/diagnose/engine.go:751-762 | a text with a backslash before each rune reads as exactly that one word |
| `ShellQuoting.ContinuationVanishes` | internal/diagnose/engine.go:751-762 | a backslash before a newline leaves no trace in the words |
| `Rewrite.TokenOccurrence` | internal/diagnose/engine.go:793-801 | the occurrence number of a word among its equals |
| `Rewrite.ReplaceTokenOccurrence` | internal/diagnose/engine.go:853-866 | the edit hits the range with that occurrence number, or fails if there is none |
| `Rewrite.ReplacementIsOneWord` | internal/diagnose/engine.go:926-934 | a quoted replacement, or a plain one, lexes to exactly one word with that text, whatever the text when quoted |
| `Rewrite.RewritePreservesWords` | internal/diagnose/engine.go:853-934 | on any line, also with operators, editing word p succeeds, changes only that token's text, and gives the same lexemes with only p changed, if the token is wholly quoted or the replacement plain |
| `RewriteExact.VerbatimNeedsPlain` | internal/diagnose/engine.go:933 | text inserted verbatim between two boundaries reads as one word with that text only if it is plain, whatever the text |
| `RewriteExact.RewriteExactlyWhenPlain` | internal/diagnose/engine.go:853-934 | for every replacement: the rewrite keeps the other lexemes if and only if the token is wholly quoted or the replacement is plain |
| `RewriteExact.NeverMeet` | internal/diagnose/engine.go:598-657 | two lexers of one text in different quotes never end with the same words behind any prefix |
| `RewriteExact.RewriteExactOnTexts` | internal/diagnose/engine.go:853-934 | the same for the engine's words, which do not tell an operator from its text: also an operator as replacement keeps them |
| `EditDistance.FillRow` | internal/diagnose/engine.go:1273-1286 | one row of the rolling three-row table |
| `EditDistance.DamerauLevenshtein` | internal/diagnose/engine.go:1265-1288 | the rolling rows compute the recurrence |
| `EditDistance.DistanceIsLeastCost` | internal/diagnose/engine.go:1265-1288 | the distance is attained by some alignment of keeps, substitutions, insertions, deletions and adjacent swaps, and no alignment is cheaper |
| `EditDistance.DistanceSymmetric` | internal/diagnose/engine.go:1265-1288 | the distance is symmetric |
| `EditDistance.DistanceZeroIffEqual` | internal/diagnose/engine.go:1265-1288 | zero exactly for equal strings |
| `EditDistance.DistanceBounds` | internal/diagnose/engine.go:1265-1288 | at least the length difference, at most the longer length |
| `EditDistance.ConfidenceInRange` | internal/diagnose/engine.go:1309-1311 | confidence lies in [0,1], is 1 exactly for equal words, and is symmetric |
| `EditDistance.ConfidenceExactly` | internal/diagnose/engine.go:1309-1311 | a confidence reaches a threshold if and only if the edit distance is at most that part of the longer word |
| `Ranking.KeyboardAdjacencyDistance` | internal/diagnose/engine.go:1216-1256 | the keyboard-weighted table computes its recurrence, whose meaning `KeyboardLaws.KeyboardDistanceIsLeastWeight` gives |
| `Ranking.KeyboardDistanceSymmetric` | internal/diagnose/engine.go:1216-1256 | the keyboard distance is symmetric |
| `KeyboardLaws.KeyboardDistanceIsLeastWeight` | internal/diagnose/engine.go:1216-1256 | the keyboard distance is the least weight over all alignments without swaps of the lowered words, attained by one and undercut by none: insert and delete weigh 2, a substitution 1 for keys at most one row and one column apart and 2 otherwise |
| `Ranking.RankCandidates` | internal/diagnose/engine.go:1187-1207 | each distinct candidate is rated exactly once, in strict order of edit distance, keyboard distance and text |
| `Ranking.Nearest` | internal/diagnose/engine.go:1173-1179 | the result comes before every other candidate |
| `Ranking.NearestIsCanonical` | internal/diagnose/engine.go:1173-1207 | permuting or repeating candidates cannot change the choice |
| `KeyboardLaws.NearestMinimises` | internal/diagnose/engine.go:1173-1207 | the nearest candidate has the least edit distance, then the least keyboard distance, then the first text |
| `KeyboardLaws.NeighbourIsNearest` | internal/diagnose/engine.go:1173-1256 | of two candidates that replace one key, the one that replaces it by a neighbour is nearest |
| `KeyboardLaws.CytIsCut` | internal/diagnose/engine.go:1173-1256 | so `cyt` becomes `cut` and not `cat` |
| `RiskAssessment.CommandStartAt` | internal/diagnose/engine.go:1394-1413 | accepts exactly the positions where the automaton expects a command; `RiskLaws.ExpectsExactly` says which those are |
| `RiskAssessment.CommandPositions` | internal/diagnose/engine.go:960-978 | the ascending list of exactly the accepted positions that are neither keywords nor assignments |
| `RiskLaws.ExpectsExactly` | internal/diagnose/engine.go:960-978 | a command may start at a word if and only if only keywords and assignments stand between it and the start of the line or an operator other than ")" |
| `RiskLaws.HighBehindExactly` | internal/diagnose/engine.go:1359-1413 | a keyword or assignment in front hides nothing: the line is high-risk if and only if the rest is, or the word itself gives cause |
| `RiskAssessment.KnownSafeCommandLine` | internal/diagnose/engine.go:1455-1503 | true exactly when nothing is redirected, something runs, and everything that runs is harmless |
| `RiskAssessment.AssessRisk` | internal/diagnose/engine.go:1359-1376 | high if the caller says so, or for a secret or a dangerous command anywhere; else safe if known safe, else unknown |
| `RiskAssessment.EscalatesPrivileges` | internal/diagnose/engine.go:1382-1392 | true exactly if some word where a command starts escalates privileges |
| `RiskAssessment.HasNetworkEffect` | internal/diagnose/engine.go:1419-1449 | true exactly if some command start reaches the network |
| `RiskAssessment.MutatesFilesystem` | internal/diagnose/engine.go:1509-1546 | true exactly if some command changes the file system |
| `RiskLaws.NetworkGitExactly` | internal/diagnose/engine.go:1435-1449 | git reaches the network if and only if its first argument that is no option is such a subcommand |
| `RiskLaws.SafeGitExactly` | internal/diagnose/engine.go:1478-1494 | git is harmless if and only if its first argument that is no option is a harmless subcommand, or there are options only and the line ends |
| `RiskLaws.HasArgumentExactly` | internal/diagnose/engine.go:1536-1546 | an argument counts if and only if it stands before the next operator |
| `RiskLaws.KeyExactly` | internal/redact/redact.go:25-64 | the key of an assignment is the text before its first equals sign |
| `RiskAssessment.HighIffEitherHigh` | internal/diagnose/engine.go:1359-1449 | a line joined by an operator other than ")" is high exactly when a part is, or the first part ends in a secret flag |
| `RiskAssessment.HarmlessPartsHighJoin` | internal/diagnose/engine.go:1359-1376 | two lines that are not high-risk and whose join is |
| `Redaction.Command` | internal/redact/redact.go:25-44 | every word is replaced as its own or its predecessor's secrecy demands; the flag is set exactly if some word is secret; otherwise the words are unchanged |
| `Redaction.SecretsDoNotShow` | internal/redact/redact.go:25-64 | lines that differ only in words behind secret flags or in values of secret assignments are redacted to the same words |
| `Redaction.TrimDashesExactly` | internal/redact/redact.go:55-64 | a flag's name is the flag without its leading dashes, all of them and nothing else |
| `Engine.NearEnough` | internal/diagnose/engine.go:503-510 | the nearest candidate, exactly if it is within the distance limit and the class threshold |
| `Engine.Propose` | internal/diagnose/engine.go:511-518 | suggestion and risk are those of the whole line with the word replaced; original and occurrence locate that word |
| `Engine.CommandDecision` | internal/diagnose/engine.go:489-521 | the first word in command position that has a repair gets it; none only if no position has one |
| `Engine.SemanticDecision` | internal/diagnose/engine.go:523-556 | the first pack match unless the shell cannot take its suggestion; a secret makes it high-risk |
| `Engine.PathDecision` | internal/diagnose/engine.go:558-596 | the first missing path argument with a near sibling gets it; none only if no argument has one |
| `Engine.Diagnose` | internal/diagnose/engine.go:338-352 | command, pack, path: the repair of the first resolver with a non-empty suggestion; none only if all are silent |
| `Engine.Finish` | internal/diagnose/engine.go:383-408 | mode applied, downgraded where the line may not be edited, with the edited line as suggestion; fails exactly if late or too large before or after the edit |
| `Engine.CheckShell` | internal/diagnose/engine.go:308-360 | the answer as specified: the finished repair of the first resolver that has one, no decision if none has or the line is not examined; nothing and an error exactly if a limit is exceeded |
| `EngineGuarantees.FinishedIsPermitted` | internal/diagnose/engine.go:383-487 | for every repair: each action only under its mode, stage and confidence; after the command only hints |
| `EngineGuarantees.RewritesAreJustified` | internal/diagnose/engine.go:198-212 | every decision passes protocol validation; a rewrite is before sending, in rewrite mode, with safe repairs allowed, safe, non-empty, without secrets, not from an installed pack and not from a tail-preserving rule; where one word is edited, the buffer itself is safe and without secrets under the exact condition |
| `EngineGuarantees.AnswersAreValid` | internal/diagnose/engine.go:198-212 | every answer of the engine has a confidence in [0,1]; an edit only before sending, in rewrite mode, safe and allowed; after the command only hints |
| `EngineActions.ActionsExactly` | internal/diagnose/engine.go:383-487 | for every repair the resolvers find: it is applied if and only if the line is about to be sent, configuration and risk allow it and the line may be edited; it interrupts if and only if the configuration allows it, confidence is at least 0.9 and it is not one to be applied; else it is a hint, and it is never lost |
| `EngineActions.CommandActionsExactly` | internal/diagnose/engine.go:489-521 | for a mistyped command these conditions are on lengths: at most one edit in five letters is applied, at most one in ten interrupts, at most two in five are repaired |
| `EngineActions.EditSucceeds` | internal/diagnose/engine.go:383-408 | where the line may be edited, the word to be replaced is always found |
| `EngineGuarantees.EditOfOneWord` | internal/diagnose/engine.go:789-934 | for every shell name and replacement: the edit replaces one token, and re-lexes to the words with that one replaced if and only if the token is wholly quoted or the replacement plain or an operator |
| `EngineGuarantees.RewrittenLineWasAssessed` | internal/diagnose/engine.go:383-408 | the buffer of a command or path rewrite reads as the words that were assessed if and only if that condition holds, and then it is safe and free of secrets |
| `EngineGuarantees.PackEditHitsArgument` | internal/packs/runtime.go:232-234 | the in-place edit of a pack match gives the command with the new argument exactly under that condition if argument and command name differ; if they are equal it replaces the command name |
| `RewriteHazard.SafeRewriteRunsRm` | internal/diagnose/engine.go:558-596 | for every long lower-case name, a directory in which the engine's own answer to `cat ./name` in zsh is a rewrite rated safe whose buffer is high-risk |
| `RewriteHazard.PackEditHitsCommand` | internal/packs/runtime.go:225-236 | a bundled pack and a line in which the first match suggests `echo d` and the buffer gets `d echo` |
| `RewriteHazard.BundleCompiles` | internal/packs/packs.go:156-202 | and that pack is valid |
| `EngineCanonical.AnswerIsCanonical` | internal/diagnose/engine.go:308-408 | engines that see the same executables and directory entries, in any order and with any repetition, give the same answer to every line; so there is only one answer |
| `EngineCanonical.SameDiagnosis` | internal/diagnose/engine.go:338-352 | they reach it by the same repair for the same reason: the same resolver, word and replacement, or the same pack, rule and prefix |
| `EngineCanonical.RepairIsFoundAlike` | internal/diagnose/engine.go:338-352 | where one finds a repair, so does the other |
| `EngineCanonical.OverrunIsOfTheRepair` | internal/diagnose/engine.go:383-408 | whether the engine exceeds a limit depends on the one repair there is |
| `Policy.CuratedDecision` | internal/daemon/service.go:424-465 | answers if and only if the command is simple and supported and the shell takes the first match's suggestion; then with that suggestion redacted, its risk, its origin, and an action exactly by mode, risk and stage; eligible exactly when safe, bundled and non-empty |
| `Policy.LimitedLearnedAction` | internal/daemon/service.go:173-189 | rewrite exactly if rule and ceiling both say so; off exactly if either is off or unknown |
| `Policy.LearnedDecision` | internal/daemon/service.go:152-171 | answers if and only if learning is on and the first enabled rule for the normalised command is not off under the ceiling; then with that rule's correction and limited action |
| `Policy.EngineDecision` | internal/daemon/service.go:467-501 | the response is the engine's own answer, and none exactly if the engine exceeds a limit; the engine's guarantees carry over |
| `Policy.PreSend` | internal/daemon/service.go:105-137 | what must be said: nothing to an unsupported line; else what a pack says if one has something to say, else what a learned rule says, else the engine's answer, and an error exactly if the engine exceeds a limit; and what may be said: a rewrite follows a learned rule within the ceiling or is justified (rewrite mode, safe repairs allowed, safe, non-empty, no secret words, no installed pack, no tail-preserving rule); the verdict is a step of the daemon's machine |
| `Policy.PostFailure` | internal/daemon/service.go:67-81 | what a pack says if one has something to say, else the engine's answer, and an error exactly if the engine exceeds a limit; always a hint or nothing, which is what the daemon's machine allows |
| `Relay.RelayBuffer.constructor` | internal/capture/relay.go:34-49 | an idle relay for the token's marker |
| `Relay.RelayBuffer.AppendLocked` | internal/capture/relay.go:134-144 | appends sanitised text while active and keeps the last 8192 characters |
| `Relay.RelayBuffer.Feed` | internal/capture/relay.go:99-124 | the loop amounts to jumping to the text after the last marker and emitting all but the held-back part |
| `Relay.RelayBuffer.FeedReader` | internal/capture/relay.go:83-97 | feeds chunk after chunk |
| `Relay.RelayBuffer.Reset` | internal/capture/relay.go:126-132 | back to idle |
| `Relay.RelayBuffer.Snapshot` | internal/capture/relay.go:146-160 | flushes what is pending and returns the trimmed output without the echoed command |
| `Relay.StreamingRefinesBatch` | internal/capture/relay.go:99-144 | for every chunking: active exactly if a marker occurred, pending is the last marker-length-minus-one characters after the last leftmost non-overlapping marker, output is the last 8192 characters of the rest sanitised in pieces |
| `Relay.AfterLastExactly` | internal/capture/relay.go:99-124 | the batch reading finds a marker exactly if there is one, returns text that follows a marker and holds none, and, if markers cannot overlap, follows the last of all |
| `Relay.ChunkingIsInvisible` | internal/capture/relay.go:99-144 | for every marker and sanitiser: all chunkings of every transcript end in the same state if and only if flushed pieces merge under sanitising |
| `Relay.SeamlessIsBatch` | internal/capture/relay.go:99-144 | and then that state is the one of a single reading of the whole transcript |
| `Relay.PasswordShows` | internal/capture/relay.go:134-144 | with the relay's own marker and redaction of assignments, two chunkings of one transcript differ: one shows the end of a password |
| `Relay.RelayBuffer.FeedOnce` | internal/capture/relay.go:103-123 | one turn of the loop: passes the leftmost marker, or emits all but the held-back part |
| `Relay.SnapshotShowsAll` | internal/capture/relay.go:146-160 | with a distributing sanitiser a snapshot shows the last 8192 characters of everything after the last marker, however chunked |
| `SessionTables.FailureKeyInjective` | internal/daemon/service.go:400 | session and token can be read back from the key, because a session has no NUL |
| `Service.SessionService.constructor` | internal/daemon/service.go:22-52 | empty tables |
| `Service.SessionService.ConsumeConfirmation` | internal/daemon/service.go:503-512 | removes the session's confirmation and says whether it was for this command and unexpired |
| `Service.SessionService.ConsumeConfirmationToken` | internal/daemon/service.go:514-533 | removes it only if expired or matching in command and token; `SessionLaws.ConfirmationRoundTrip` says when it succeeds |
| `Service.SessionService.StoreConfirmation` | internal/daemon/service.go:535-542 | replaces the session's confirmation, valid for five seconds |
| `Service.SessionService.StoreUndoToken` | internal/daemon/service.go:544-558 | drops expired undos and those of the session, then adds one |
| `Service.SessionService.ConsumeUndoToken` | internal/daemon/service.go:560-574 | hands out a live undo to its own session and removes it |
| `Service.SessionService.ClearPendingUndo` | internal/daemon/service.go:576-587 | removes the session's undos and no others |
| `Service.SessionService.RememberFailure` | internal/daemon/service.go:191-208 | drops expired failures and stores this one under its key |
| `Service.SessionService.TakeFailure` | internal/daemon/service.go:377-393 | drops expired failures and takes the one under the key |
| `SessionLaws.ConfirmationRoundTrip` | internal/daemon/service.go:514-542 | a stored confirmation is granted if and only if session, command and token are the stored ones, none empty, within five seconds; it is removed then and on expiry, and stays on a mismatch |
| `SessionLaws.ConfirmationOfOthers` | internal/daemon/service.go:514-542 | other sessions notice nothing of it |
| `SessionLaws.ResendRoundTrip` | internal/daemon/service.go:503-512 | sending the line again is granted if and only if it is the same line within five seconds, and uses the confirmation up in any case |
| `SessionLaws.UndoRoundTrip` | internal/daemon/service.go:544-574 | a stored undo is handed out if and only if session and token are the stored ones and it has not expired; then it is gone |
| `SessionLaws.OlderUndosWithdrawn` | internal/daemon/service.go:544-558 | storing an undo withdraws the session's others |
| `SessionLaws.UndosOfOthers` | internal/daemon/service.go:544-595 | and leaves those of other sessions |
| `SessionLaws.ClearedUndos` | internal/daemon/service.go:576-587 | clearing takes exactly the session's undos |
| `SessionLaws.FailureRoundTrip` | internal/daemon/service.go:191-208 | a remembered failure is taken as it was stored if and only if within five minutes; then it is gone |
| `SessionLaws.FailuresOfOthers` | internal/daemon/service.go:377-408 | under another session or token one gets what one would have got without it |
| `Confirmations.StepKeepsInv` | internal/daemon/service.go:503-542 | every step of any thread keeps: each pending confirmation is its session's last stored and unused one |
| `Confirmations.SubmitsAreBacked` | internal/daemon/service.go:105-137 | in every interleaving each submit maps injectively to an earlier confirmation for the same session and exact command, stored less than five seconds before; a Confirm request brought its token |
| `Undos.StepKeepsInv` | internal/daemon/service.go:544-595 | every step keeps the undo invariant |
| `Undos.UndoIsOneShot` | internal/daemon/service.go:54-97 | in every interleaving: one live undo per session; an undo returns exactly the command of the request whose rewrite issued the token, to that session, strictly before expiry, with no later pre-send or completion in between, and at most once |
| `Honoured.ConfirmAnswered` | internal/daemon/service.go:86-90 | a Confirm request is answered with submit if and only if it matches the live confirmation, else with none |
| `Honoured.ConfirmationIsHonoured` | internal/daemon/service.go:105-137 | once a confirmation is stored, and whatever other requests do in between, a Confirm request of that session ends in submit if and only if it brings the same command and token within five seconds |
| `Honoured.ResendIsHonoured` | internal/daemon/service.go:105-137 | and the same line sent again goes through if and only if within five seconds; otherwise the user is asked once more |
| `Honoured.ConfirmRefused` | internal/daemon/service.go:514-533 | without a pending confirmation it is refused |
| `Honoured.UndoAnswered` | internal/daemon/service.go:560-574 | an Undo request gets the stored command if and only if session and token match and it has not expired |
| `Honoured.UndoIsHonoured` | internal/daemon/service.go:139-150 | once a rewrite has stored its undo, and unless it is withdrawn or taken, its session gets the original command back until it expires |
| `Honoured.CorrectionIsPaired` | internal/daemon/service.go:377-398 | once a failure is noted, and unless it is replaced or taken, a success of the same session and token within five minutes starts a recording of exactly this pair, if the two differ |
| `Honoured.CorrectionCounts` | internal/localstate/store.go:112-160 | and the recording adds one to the evidence for exactly that pair |
| `Evidence.StepKeepsInv` | internal/daemon/service.go:191-208 | every step other than a draft edit keeps: pending failures, pairs in flight, landed pairs and draft counts all match the history |
| `Evidence.DraftIsBacked` | internal/daemon/service.go:377-408 | a draft with count n has n distinct failures and n distinct successes behind it |
| `ZshAdapter.Globals.constructor` | internal/shell/scripts.go:17-22 | fresh globals |
| `ZshAdapter.Globals.Check` | internal/shell/scripts.go:87-143 | `_solomon_check`: recognises its own pending rewrite, asks the daemon, takes a safe rewrite into the buffer |
| `ZshAdapter.Globals.AcceptLine` | internal/shell/scripts.go:144-149 | Enter: checked, and executed unless refused |
| `ZshAdapter.Globals.PreexecHook` | internal/shell/scripts.go:171-185 | the running command gets the pending failure token, or none if it is an automatic rewrite |
| `ZshAdapter.Globals.PrecmdHook` | internal/shell/scripts.go:186-204 | reports success with that token, or failure with a new one |
| `ZshAdapter.Globals.UndoHook` | internal/shell/scripts.go:71-86 | asks for the undo and restores the buffer |
| `ZshAdapter.StepKeepsValid` | internal/shell/scripts.go:71-204 | whatever the user types and the daemon answers, an automatic rewrite's success carries no failure token |
| `ZshAdapter.RewriteIsOffered` | internal/shell/scripts.go:87-143 | a safe rewrite goes into the buffer; Enter then runs it without asking and reports success without a failure token; undo brings the returned command back |
| `ZshAdapter.UnsafeRewriteIsRefused` | internal/shell/scripts.go:87-143 | an unsafe rewrite leaves the buffer and runs nothing |
| `ZshAdapter.FailureTokenTravels` | internal/shell/scripts.go:171-204 | the success of the next typed command carries the token of the failure before it |
| `EndToEnd.StepKeepsInv` | internal/shell/scripts.go:87-204 | every step of any shell or of the daemon keeps the joint invariant |
| `EndToEnd.EvidenceIsBacked` | internal/localstate/store.go:112-160 | in every run of shells, daemon and store without draft edits, a count n means n distinct failures of f, each with its own later success of c, same session and token, within five minutes, f not c, none an automatic rewrite |
| `EndToEnd.LearnedRuleIsBacked` | internal/localstate/rules.go:47-93 | every learned rule rests on at least three such corrections |
| `LearnedEvidence.LearnedResponseIsBacked` | internal/daemon/service.go:152-171 | if the rules were listed from the store of any such run, a response by a learned rule suggests what at least three distinct corrections of this very command were |
| `LearningStore.HistoryInvariant` | internal/localstate/store.go:179-207 | over every history: rules point to existing drafts with at least three evidences, one rule per draft, pairs unique, counts equal the recordings that landed since creation |
| `LearningStore.RulesRestOnThreeRecordings` | internal/localstate/rules.go:47-209 | no edit, toggle, retention delete or purge leaves a rule with fewer than three recordings |
| `RuleLaws.ActiveRulesExactly` | internal/localstate/rules.go:47-209 | after every committed step, which rules are active, exactly: an activated draft with its action, no disabled or deleted rule, edits carried over, nothing else changed |
| `RuleLaws.ActivatedIsListed` | internal/localstate/rules.go:47-118 | an activated draft is listed with its pair and action for as long as neither its rule nor its pair is changed |
| `RuleLaws.RetiredIsNotListed` | internal/localstate/rules.go:157-195 | a disabled or deleted rule is not listed until it is enabled, activated or made again |
| `LearningStore.Store.RecordObservation` | internal/localstate/store.go:80-99 | inserts an observation, or fails on a missing field and changes nothing |
| `LearningStore.Store.RecordLearningPair` | internal/localstate/store.go:112-160 | an observation and then one more evidence on the pair's draft, new or old |
| `LearningStore.Store.UpsertDraft` | internal/localstate/store.go:120-159 | the draft's transaction |
| `LearningStore.Store.DeleteObservationsBefore` | internal/localstate/store.go:101-110 | removes exactly the older observations and counts them |
| `LearningStore.Store.ActivateDraft` | internal/localstate/rules.go:47-93 | creates or updates the draft's rule exactly when action and evidence allow |
| `LearningStore.Store.UpdateDraft` | internal/localstate/rules.go:120-137 | changes the pair unless another draft has it |
| `LearningStore.Store.SetRuleAction` | internal/localstate/rules.go:139-155 | changes the action of an existing rule |
| `LearningStore.Store.SetRuleEnabled` | internal/localstate/rules.go:157-177 | toggles an existing rule |
| `LearningStore.Store.DeleteRule` | internal/localstate/rules.go:179-195 | removes an existing rule and nothing else |
| `LearningStore.Store.ListActiveRules` | internal/localstate/rules.go:95-118 | exactly the enabled rules with their drafts, in order of identifiers |
| `LearningStore.Store.PurgeLearning` | internal/localstate/rules.go:197-209 | empties all tables |
| `PathCache.CacheKeyInjective` | internal/diagnose/engine.go:1015-1020 | the cache key determines platform, extensions and path |
| `PathCache.SignatureInjective` | internal/diagnose/engine.go:1096-1118 | the signature determines every directory's stamp |
| `PathCache.StepKeepsInv` | internal/diagnose/engine.go:1015-1052 | every step of any lookup, store or invalidation keeps: each entry was scanned after its signature was taken |
| `PathCache.LookupsAreCurrent` | internal/diagnose/engine.go:1015-1052 | if stamps tell contents apart, every lookup returns for each directory what it held at some instant during the lookup, even if directories change during scans |
| `PathCache.QuietLookupIsFreshScan` | internal/diagnose/engine.go:1015-1052 | so a lookup during which nothing changes returns what a fresh scan would |
| `PathCache.StaleWhenStampsRepeat` | internal/diagnose/engine.go:1096-1118 | if a stamp comes back after different contents, some run returns names the directory did not hold |
| `PackResolution.SortById` | internal/packs/resolver.go:9-10 | a permutation in ascending order of ids |
| `PackResolution.AddMatchers` | internal/packs/resolver.go:22-28 | records a pack's matchers exactly if none is taken |
| `PackResolution.Walk` | internal/packs/resolver.go:11-32 | succeeds exactly if ids and matchers are distinct and all packs compile |
| `PackResolution.Resolve` | internal/packs/resolver.go:8-33 | the walk over some sorted copy |
| `PackResolution.ResolutionIsOrderIndependent` | internal/packs/resolver.go:8-33 | every permutation gives the same failure or the same list, strictly ascending, no two rules sharing command and pattern |
| `PackConflicts.SignaturesCollide` | internal/packs/resolver.go:23 | two signatures are equal if and only if the rules share command and pattern or are shifted by a NUL |
| `PackConflicts.ResolvesExactlyWhen` | internal/packs/resolver.go:8-33 | for every order: success if and only if ids are distinct, all packs compile and no two rules conflict |
| `PackConflicts.ConflictIsSharing` | internal/packs/resolver.go:22-28 | without NULs in commands the only conflict is a shared command and pattern |
| `PackConflicts.ValidPacksRefused` | internal/packs/resolver.go:22-28 | two valid packs that share no command and pattern are refused |
| `Packs.ValidateRule` | internal/packs/packs.go:171-200 | accepts exactly the valid rules; a tail-preserving rule must be high-risk |
| `Packs.Validate` | internal/packs/packs.go:156-202 | accepts exactly the valid packs |
| `Packs.Compile` | internal/packs/compiler.go:18-31 | accepts exactly the valid and compatible packs, and all their tail-preserving rules are high-risk |
| `Packs.CheckCompatibility` | internal/packs/compatibility.go:33-49 | the engine is recent enough and knows all capabilities |
| `PackRuntime.NewRuntimeResolver` | internal/packs/runtime.go:138-157 | fails as resolution fails; a pack counts as installed exactly if it came from the installed ones, which no bundled pack did; all tail-preserving rules are high-risk |
| `PackMatching.LongestPrefix` | internal/packs/runtime.go:204-219 | the longest argument prefix the rule applies to |
| `PackMatching.MatchWords` | internal/packs/runtime.go:186-236 | the first match by pack, rule and longest prefix; none exactly if none exists |
| `PackMatching.TailSurvives` | internal/packs/runtime.go:225-250 | a safe tail appended to any complete text lexes to that text's words followed by the tail words |
| `PackMatching.MatchKeepsTail` | internal/packs/runtime.go:225-236 | every suggestion lexes to the command and the expanded template followed by the tail words, verbatim |
| `PackTemplate.GuardIsExact` | internal/packs/packs.go:242 | the divide-and-remainder guard equals "the next value exceeds the count" |
| `PackTemplate.ReadDigits` | internal/packs/packs.go:238-246 | the digit loop accepts exactly if the run's value is in range; its running value never exceeds the count |
| `PackTemplate.ValidateTemplate` | internal/packs/packs.go:223-249 | accepts exactly the templates in which every dollar is doubled or starts a maximal in-range digit run without leading zero |
| `PackVersion.VersionsArePreordered` | internal/packs/compatibility.go:51-114 | sign-antisymmetric and transitive |
| `PackVersion.BuildMetadataIgnored` | internal/packs/compatibility.go:68-72 | build metadata does not matter |
| `PackVersion.IdentifiersFollow` | internal/packs/compatibility.go:83-105 | for all identifiers: where section 11 of Semantic Versioning 2.0.0 tells two apart, the code does so alike exactly under `Judges`, and ties exactly if it reads the same number or none in both; where section 11 does not, the code ties |
| `PackVersion.ListsFollowExactly` | internal/packs/compatibility.go:74-114 | for all identifier lists: agreement with section 11 if and only if the first difference is judged alike, or ties and the rest decides alike |
| `PackVersion.VersionsFollowExactly` | internal/packs/compatibility.go:51-114 | the same for all valid versions, with core numbers that exceed 64 bits |
| `PackVersion.NumericVersionsFollow` | internal/packs/compatibility.go:51-114 | in particular versions with numeric prereleases in range follow section 11 |
| `PackVersion.AlphaTiesWithBeta` | internal/packs/compatibility.go:83-105 | 1.0.0-alpha and 1.0.0-beta tie |
| `PackVersion.MinusFiveGoesFirst` | internal/packs/compatibility.go:83-105 | 1.0.0--5 goes before 1.0.0-1 |
| `Staging.TempFile.Write` | internal/securetemp/file.go:34-39 | appends, or fails on a closed file; a failed write may leave a part; succeeds if the file is open and the system does not fail |
| `Staging.TempFile.Commit` | internal/securetemp/file.go:41-62 | moves the file onto the target once, or changes no file; without system failures it succeeds exactly if the file is there, uncommitted, and the target is not taken by something else |
| `Staging.TempFile.Cleanup` | internal/securetemp/file.go:64-76 | removes the file unless it was committed |
| `Staging.StageBackup` | internal/packs/staging.go:77-104 | a copy of the target if it exists; the target is not touched; without system failures it is refused exactly if the target is not a regular file |
| `Staging.Verify` | internal/packs/staging.go:106-120 | success means the target holds the expected bytes; without system failures exactly that and the check |
| `Staging.Rollback` | internal/packs/staging.go:122-137 | puts the backup back or removes the target; on failure changes nothing |
| `Staging.Replace` | internal/packs/staging.go:62-74 | the rename, the verification and the rollback: exactly what the files are after each outcome, and which outcome it is if no operation fails |
| `Staging.Activate` | internal/packs/staging.go:42-75 | for every file tree and every choice of failing operations: the staged bytes on success, the target exactly as before on an error without a failed rollback, and no other path changed; if no operation fails, the outcome is exactly that of the checks and the files, and no temporary file is left |

## Left out

- Staging.Activate: file modes, directory creation and fsync are not modelled, and after a failed rollback the backup is still cleaned up, so it may be gone.
- Relay.RelayBuffer.Feed: the sanitiser is an arbitrary function; what its regular expressions match is not modelled. The mutex is not modelled: each method is one critical section.
- Engine.CheckShell: messages, rationale, evidence texts and traces are not modelled; how large a decision is, and whether the deadline has passed or the request was cancelled, are parameters, and the latter two are looked at once, behind the tests that leave a line unexamined.
- EditDistance.ConfidenceInRange: confidence is a real number; binary rounding is not modelled.
- RiskAssessment.AssessRisk: the rationale of a rating is not modelled. The lists of command names are parameters of the results; `RiskAssessment.LISTS` holds the program's own.
- Packs.Validate: which of several faults is reported first is not modelled; regular expressions, character classes and byte lengths are parameters.
- Policy.CuratedDecision: stops where the confirmation table is consulted, as `Policy.PreSend` does.
- ZshAdapter.Globals.PreexecHook: the command is the buffer; zsh passes the history text, which can differ after history expansion.
- Policy.PreSend: stops where the tables are consulted; from there on the state machine in `Daemon` applies. Failure evidence attached to responses is not modelled; it changes no action.
- LearningStore.Store.RecordLearningPair: database errors between the two statements are not modelled here; the state machine in `Daemon` lets a recording be abandoned instead. In that machine observations are inserted by separate maintenance steps.
- PathCache.LookupsAreCurrent: the cache is modelled as steps of concurrent lookups over immutable states rather than as a class with a lock; directory listing and stamps are functions of time. The limit on directories is kept, the limit on entries per directory is part of the listing.
- ZshAdapter.StepKeepsValid: lines are accepted through the adapter's own Enter widget; suggestion counters, messages, key bindings and the capture socket are not modelled.
- Characters are runes of valid UTF-8; byte offsets of invalid input are not modelled.
- The Fish, Bash and PowerShell adapters: the zsh adapter is enough for the composed protocol.
- Full shell semantics: the claims are about the words of these lexers.
- Regular expressions, their expansion, case folding and path functions are parameters.
- Signatures, checksums, JSON, random numbers, SQLite itself, sockets and process handling are not part of this model.
- The command line, configuration loading, rule exceptions beyond a yes/no test, release tooling, credential and history packages would only add easy members.
- Listing of drafts for review is a plain query.
