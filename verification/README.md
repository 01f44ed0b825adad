# Verification of vaultmind's state machines, formats and gates

This project models the parts of the vaultmind CLI whose correctness does not
show from reading one function, and proves what they promise. Verify with
`dafny verify dfyconfig.toml` (Dafny 4.11).

Code that changes state in the source is a class or a method with loops, proved
against functions that say what it computes; the theorems are lemmas about
those functions, and hold over all inputs, all histories or all interleavings.

| file | part of the program |
|---|---|
| `SliceFlags.dfy` | flag values across requests: pflag's hidden "changed" bit, the wrapper that masks it after a reset, the wrapper that records every occurrence |
| `WarmServer.dfy` | one process answering many requests: reset of flags, bindings, contexts and globals, the environment and directory swapped and put back |
| `ParallelChecks.dfy`, `CheckRunner.dfy` | the parallel check runner as a step relation over goroutines, channel, wait group, closer and cancellation; the sequential loop; timing history |
| `EpisodeParser.dfy`, `EpisodeWriter.dfy`, `EpisodeFields.dfy`, `EpisodeRoundTrip.dfy` | reading an episode file line by line; the writer, its frontmatter, and the round trip between them |
| `TokenFit.dfy` | cutting texts to a token budget, and admitting a batch |
| `ReviewList.dfy`, `ReviewQueue.dfy`, `ReviewCommand.dfy` | the messages of an episode that a person is asked to judge, the queue of episodes awaiting review, recording judgements, and the commands printed for a reader to run |
| `Discovery.dfy` | finding the vaults under a root |
| `ShellQuoting.dfy`, `UnquotedWords.dfy`, `HooksInstall.dfy` | text put on a POSIX shell's command line, quoted or not; the printed rerun of an install |
| `Baseline.dfy` | retrieval metrics and the regression gate |
| `CandidateReport.dfy` | grouping candidate moments, annotating proposals |
| `AnsiStrip.dfy` | removing terminal escape sequences |
| `Text.dfy`, `Sorting.dfy`, `Wrappers.dfy` | Go's string functions, the contract of its sorts, options and results |

## Where a promise holds only under a condition

The code is modelled as it is. Where its comments promise more than it does,
the exact condition is proved.

- The server's own environment is restored, over any run of requests, if and
  only if every entry it holds can be set again. An inherited entry with an
  empty name, or without an equals sign, cannot (`WarmServer.OwnStateKept`,
  `WarmServer.EmptyNameIsLost`, `WarmServer.BareEntryIsLost`).
- An episode reads back as written if and only if no line is too long for the
  scanner, every timestamp is one word, the last id line of the frontmatter holds
  the id and no turn header of the metadata lies in a section, and no line of an
  assistant message is `---`, a message-section heading or a turn header (`EpisodeRoundTrip.RoundTrip`). Capture copies a
  record's timestamp even when it is empty
  (internal/episode/episode.go:333, 345); such a message is lost
  (`EpisodeRoundTrip.EmptyTimestampIsLost`). Metadata of one line each, with an
  id of one word and no message-section heading in it, is always quiet
  (`EpisodeRoundTrip.PlainMetadataIsQuiet`). The text of user messages is under
  no condition.
- Fitting to a token budget is called guaranteed at
  internal/embedding/bgem3.go:342, "halving 16x". Only the last twelve of the
  sixteen shrinks are sure to be halvings, and a budget under the tokenizer's
  special tokens never fits; at budgets up to 1024 that is the only failure
  (`TokenFit.GivesUpWhen`).
- The comment at internal/embedding/hugot.go:51 says two characters a token; the
  constant is 4, and the model uses 4.
- The comment at internal/discovery/discovery.go:23-25 calls any directory with a
  `.vaultmind` subdirectory a vault; the code asks for the registry file in it,
  and the model follows the code.
- Marking the head of the review queue, its file name given to the flag as one
  argument, removes it if and only if the name
  survives the list syntax (not empty, no comma, no white space at its ends, no
  second `.md`), its frontmatter can be written, and the date is not blank. An
  entry for which this fails stays at the head for good and everything behind it
  is never offered (`ReviewQueue.MarkRemovesOne`, `ReviewQueue.QueueDrains`).
- The commands the review list and the session-start line print hold the vault
  and the file names without quotes. The list's command marks exactly the files
  shown if and only if the vault's path and the joined names are each read as
  they are written, every name is markable (a clean id with no second `.md`), and
  every frontmatter can be written (`ReviewCommand.FooterMarksWhatIsShown`). A
  word is read as it is written, wherever the line is run, when it is not empty
  and has no blank, quote, backslash, operator, expansion or pattern, no `#` and
  no tilde in front. A file `a b.md` has a clean id and yet marks `a`
  (`ReviewCommand.BlankNamesAnother`), and so does `a.md.md`
  (`ReviewCommand.MdNamesAnother`).
- A printed rerun command is read as exactly the install's arguments if and only
  if the vault list is not the one empty name and no argument begins with a bare
  tilde (`HooksInstall.RerunReads`). The one empty name cannot come from
  `parseHookVaults`, which gives none or at least two absolute paths
  (cmd/hooks_install_helpers.go:433-455), so in use only the tilde remains.
- The moving average of durations can leave their range by one nanosecond,
  because float64 rounds (`CheckRunner.RoundingLeavesTheRange`), and by no more
  over any run of durations up to three days each
  (`CheckRunner.AverageStaysBetween`).
- That rerun asks for what the install was given if and only if the place it
  prints, where it prints one, does not begin with a dash: a project directory
  `-x` is taken for a flag (`HooksInstall.RerunAsks`).
- A report compared with itself passes if and only if the tolerance is not
  negative and no query name is listed twice with a better last row
  (`Baseline.SelfComparison`, `Baseline.DuplicateFailsItself`).

## Model

| member | source | states |
|---|---|---|
| SliceFlags.SliceValue.Set | cmd/flag_reset_helpers.go:13-19 | pflag's slice value: the first successful Set replaces, later ones append, a failing one changes nothing |
| SliceFlags.ResettableSlice.Set | cmd/flag_reset_helpers.go:20-32 | the masked Set: replaces after a reset whatever the inner bit says, and puts the old value back when the Set fails |
| SliceFlags.FlagObject.TrackRepeats | cmd/ask_vault_flag.go:42-52 | a flag is wrapped once, its value kept |
| SliceFlags.FlagObject.Set | cmd/ask_vault_flag.go:24-36 | every occurrence is recorded, refused ones included, before the value takes it |
| SliceFlags.FlagObject.Reset | cmd/execute_helpers.go:117-135 | value, Changed and occurrences as the reset closure leaves them, the saved defaults untouched |
| SliceFlags.AlikeObservesAlike | cmd/flag_reset_helpers.go:13-59 | two flags alike now give the same values and errors under every later sequence of Sets |
| SliceFlags.RunKeepsWellFormed | cmd/flag_reset_helpers.go:38-59 | after any history the mask never claims a Set the inner value has not seen, and the saved defaults are the declared ones |
| SliceFlags.ResetRefinesFresh | cmd/flag_reset_helpers.go:34-59 | after any history of Sets, refusals and resets, a reset flag behaves in every later run of Sets as a freshly registered one |
| SliceFlags.FreshSetsGive | cmd/flag_reset_helpers.go:13-32 | what a registered flag holds after some texts: the items of all that can be decoded, or the default if none can; it is Changed exactly if one was accepted |
| SliceFlags.ResetSetsGive | cmd/flag_reset_helpers.go:34-59 | after any history and a reset, the texts a request gives are all its command reads |
| SliceFlags.GivenIsSinceReset | cmd/ask_vault_flag.go:24-38 | the recorded occurrences are exactly the Sets since the last reset |
| SliceFlags.UnmaskedResetLeaks | cmd/flag_reset_helpers.go:10-19 | without the mask the next Set appends to the defaults, right only when they are empty |
| WarmServer.Process.ResetFlagsRecursive | cmd/execute_helpers.go:117-136 | walking the tree resets every flag in it exactly once in effect, and no other flag |
| WarmServer.Process.ResetContexts | cmd/execute_helpers.go:108-113 | every command's context is cleared |
| WarmServer.Process.ResetCliState | cmd/execute_helpers.go:91-102 | every flag reset, every context cleared, every global empty, and the config bound to exactly the registered keys, each by its last binding |
| WarmServer.BoundRegisters | cmd/execute_helpers.go:98-101 | replaying the bindings gives exactly their keys, each the flag of its last entry |
| WarmServer.Process.SetEnv | cmd/serve_helpers.go:97-104 | the environment becomes the entries that can be set, the last of a name winning; entries without an equals sign are dropped |
| WarmServer.LastEntryWins | cmd/serve_helpers.go:97-104 | each name gets the value of its last entry that can be set, and no other name is there |
| WarmServer.Process.ServeExec | cmd/serve_helpers.go:52-80 | one request, start to finish, on every path: the world its command starts in, with exactly the registered keys bound, and the world it leaves |
| WarmServer.PackEnvironment | cmd/serve_helpers.go:147-152 | the map the client sends |
| WarmServer.EnvironmentRestored | cmd/serve_helpers.go:57-61 | saving an environment in any listing order and setting it back restores it if and only if every entry has an equals sign and can be set |
| WarmServer.ClientEnvironmentForwarded | cmd/serve_helpers.go:147-152 | the client's map is every named entry of its environment, and the command sees the whole environment if and only if every entry has an equals sign and can be set |
| WarmServer.EmptyNameIsLost | cmd/serve_helpers.go:97-104 | an entry that is not restored |
| WarmServer.BareEntryIsLost | cmd/serve_helpers.go:97-104 | an entry without an equals sign is neither restored nor sent |
| WarmServer.ServeKeepsSound | cmd/serve_helpers.go:52-80 | what every request keeps, whatever its command leaves behind |
| WarmServer.Isolation | cmd/serve_helpers.go:52-80 | after any run of requests the next one that starts sees a world no command can tell from a fresh process's, said part by part: every flag as registered, every context cleared, every key bound, the client's environment and directory |
| WarmServer.IndistinctLasts | cmd/execute_helpers.go:87-90 | and no sequence of flag assignments tells them apart later |
| WarmServer.OwnStateRestored | cmd/serve_helpers.go:49-61 | when the server's own directory and environment come back from one request |
| WarmServer.RunSettles | cmd/serve_helpers.go:49-61 | after any run that served at all, the environment is the server's own entries that can be set |
| WarmServer.OwnStateKept | cmd/serve_helpers.go:49-61 | over any run: the environment is unchanged if and only if every entry can be set again (or nothing was served), and the directory if and only if every request could return to where it found the server or the last that could not was left there |
| CheckRunner.TimingHistory.RecordDuration | internal/check/timing.go:140-161 | the entry's last is the duration and its runs one more; its average is the duration if there was none, else within 0.3 of 0.3 * duration + 0.7 * old average, truncated; every other entry is unchanged |
| CheckRunner.RunRecords | internal/check/runner.go:94-131 | after a run each name's entry holds the duration of its last check, and other names are as they were |
| CheckRunner.FloatIsWeighted | internal/check/timing.go:154-160 | the sum in doubles, rounded to nearest even at each operation, is within 0.3 of the exact one for durations up to three days |
| CheckRunner.AverageStaysBetween | internal/check/timing.go:154-160 | over any run of durations the average stays in their range or one below it, however the sum is rounded |
| CheckRunner.RoundingLeavesTheRange | internal/check/timing.go:154-160 | in doubles a duration of three on an average of three gives two |
| CheckRunner.RunCount | internal/check/runner.go:94-131 | the checks that run: all, or with fail-fast those up to and including the first failure |
| CheckRunner.Runner.RunChecksSequential | internal/check/runner.go:94-131 | results, callbacks, timings and the last error of the checks that ran |
| CheckRunner.Runner.ReportParallel | internal/check/runner.go:178-209 | results, callbacks, timings and the first error, in declaration order |
| CheckRunner.ErrorsAgree | internal/check/runner.go:119-130 | both forms fail or neither; with one failing check they report the same error |
| ParallelChecks.StepKeepsInv | internal/check/runner.go:135-185 | the invariant of every interleaving: each sent result is in exactly one place, the wait group counts the live goroutines, the channel closes last |
| ParallelChecks.EveryRunIsShort | internal/check/runner.go:135-185 | no interleaving has more than 6n + 4 steps |
| ParallelChecks.NeverStuck | internal/check/runner.go:135-185 | until the results are collected some step can be taken |
| ParallelChecks.SendsAreSafe | internal/check/runner.go:146-170 | a send finds the channel open and with room, and is its goroutine's first |
| ParallelChecks.SlotsAreWrittenOnce | internal/check/runner.go:178-185 | a received result goes to an empty slot and disturbs no other |
| ParallelChecks.AllCollected | internal/check/runner.go:172-185 | when collecting ends every goroutine has ended and every slot is filled |
| ParallelChecks.ParallelRefinesSequential | internal/check/runner.go:135-210 | without fail-fast every interleaving gives the sequential form's results, callbacks, timings and failure |
| ParallelChecks.CancellationHasACause | internal/check/runner.go:142-166 | a check that saw cancellation, the caller's apart, implies one that failed on its own |
| ParallelChecks.CancelledExactlyWhen | internal/check/runner.go:142-172 | in every state of every interleaving the context is cancelled if and only if the results are collected or, with fail-fast, some failed check is past its cancel step; no step undoes it |
| ParallelChecks.NoCancelWithoutFailFast | internal/check/runner.go:142-166 | without fail-fast no check sees the runner's cancellation |
| EpisodeParser.StripBlockquote | internal/distill/distill.go:122-132 | each line loses its quote mark, once |
| EpisodeWriter.UnquoteIs | internal/distill/distill.go:122-132 | one mark goes, a lone mark becomes an empty line, any other line stays |
| EpisodeParser.HeadIsMatched | internal/distill/distill.go:103-106 | every line of a turn header's form is read as its digits and its word |
| EpisodeParser.HeadMatches | internal/distill/distill.go:103-106 | and only such lines are |
| EpisodeParser.IdIsMatched | internal/distill/distill.go:103-106 | every line of an id line's form is read as its first word |
| EpisodeParser.IdMatches | internal/distill/distill.go:103-106 | and only such lines are |
| EpisodeRoundTrip.ContentIs | internal/distill/distill.go:169-187 | the content of any file: all its lines without a rule, else those before the first rule and after the second |
| EpisodeRoundTrip.LastIdLine | internal/distill/distill.go:181-186 | the last id line of the frontmatter gives the id, and without one the file's name does |
| EpisodeParser.BodiesAreOwnedLines | internal/distill/distill.go:144-215 | each line after a valid turn header, up to the next heading or header, is in exactly one turn, in order |
| EpisodeParser.OneTurnPerHeader | internal/distill/distill.go:181-215 | the number of turns is the number of valid headers inside a section |
| EpisodeParser.NextTakesOneLine | internal/distill/distill.go:160-215 | one turn of the loop: what is finished and what is still to come always add up to the segments of the file |
| EpisodeParser.Reader.Flush | internal/distill/distill.go:144-160 | the current turn joins its own section's list |
| EpisodeParser.Reader.ReadAll | internal/distill/distill.go:160-215 | the loop over section, current turn and body computes the segments of the lines |
| EpisodeParser.ParseEpisodeFile | internal/distill/distill.go:137-220 | the reader computes Parse, and fails exactly on an over-long line |
| EpisodeWriter.HeaderReadsBack | internal/episode/render.go:125-150 | a written turn header is read back as its index and timestamp exactly when the timestamp is one word |
| EpisodeWriter.AtoiReads | internal/distill/distill.go:203-209 | a decimal number, leading zeros or not, is read as itself exactly when it fits 64 bits |
| EpisodeFields.FrontmatterReadsBack | internal/episode/render.go:16-46 | the frontmatter of a written file holds each field of one line under its own key, and the two that may be empty only when they are not |
| EpisodeWriter.UsersReadBack | internal/episode/render.go:125-136 | any list of user messages, before any rest, reads back as its turns exactly when every timestamp is one word, whatever the texts |
| EpisodeWriter.QuotingProtects | internal/episode/render.go:168-174 | a quoted line is never structure and unquotes to itself |
| EpisodeWriter.TextKept | internal/distill/distill.go:144-158 | a message without carriage returns at line ends keeps its text up to outer white space |
| EpisodeRoundTrip.SegmentsAtHeading | internal/distill/distill.go:191-199 | a message-section heading cuts a text in two that are read apart |
| EpisodeRoundTrip.FileRead | internal/distill/distill.go:137-220 | for every episode whatever, a written file reads as its metadata, user part and assistant part do, each by itself |
| EpisodeRoundTrip.EveryHeaderCounts | internal/episode/render.go:138-150 | every written assistant header begins a turn in one section or the other, whatever the messages hold |
| EpisodeRoundTrip.TurnsWeighNoMore | internal/distill/distill.go:144-215 | no line counts towards two turns |
| EpisodeRoundTrip.RoundTrip | internal/episode/render.go:16-58 | for every episode, the exact condition under which it reads back as written |
| EpisodeRoundTrip.ExpectedSays | internal/episode/render.go:125-150 | what that is: the id, and the messages in order, numbered from one, with their timestamps and trimmed texts |
| EpisodeRoundTrip.QuietReads | internal/distill/distill.go:160-199 | the condition on the metadata is that by itself it reads as the id and no turns |
| EpisodeRoundTrip.PlainMetadataIsQuiet | internal/episode/render.go:16-52 | metadata of one line each meets it |
| EpisodeRoundTrip.PlainRoundTrip | internal/episode/render.go:16-58 | for such metadata the exact condition is on timestamps, line length and assistant text, and user turns are read first and in full |
| EpisodeRoundTrip.EmptyTimestampIsLost | internal/episode/episode.go:333-345 | a message captured without a timestamp does not come back |
| TokenFit.TruncateToChars | internal/embedding/hugot.go:69-89 | a prefix within the limit, the text itself when it fits |
| TokenFit.TruncationIsGentle | internal/embedding/hugot.go:69-89 | valid UTF-8 stays valid, and the cut costs at most 39 bytes of the room |
| TokenFit.TruncationCuts | internal/embedding/hugot.go:69-89 | the cut is at the last space of the forty bytes before the limit, else after as many bytes as make a valid text |
| TokenFit.FirstCutIsLoose | internal/embedding/hugot.go:58-63 | four bytes a token are left alone, and a longer text keeps that many, less at most 39 |
| TokenFit.Shrink | internal/embedding/bgem3.go:369-378 | a proper prefix, at most half from the fifth iteration on |
| TokenFit.ShrinkKeeps | internal/embedding/bgem3.go:369-378 | how much it keeps: 0.9 of the budget's share in the first four passes when that is a proper part, otherwise half, less at most 39 bytes |
| TokenFit.OneShrinkKeeps | internal/embedding/bgem3.go:331-378 | a text over the budget that fits after one shrink is kept to its target, less at most 39 bytes |
| TokenFit.FitTextsWithinTokenLimit | internal/embedding/bgem3.go:331-363 | the loop over the array computes FitTexts and makes that many counting calls |
| TokenFit.FitIsSound | internal/embedding/bgem3.go:331-363 | at most 17 calls; on success one prefix of each input, all within the budget at the last count |
| TokenFit.OverThroughout | internal/embedding/bgem3.go:344-362 | a text still over was over, and shrunk, at every iteration before |
| TokenFit.OverIsHalved | internal/embedding/bgem3.go:369-378 | and was halved at every iteration from the fifth |
| TokenFit.FitConverges | internal/embedding/bgem3.go:331-363 | the error is returned exactly when some text is over after sixteen shrinks, so never when every text of at most (L - 4) / 4096 bytes fits; texts within the budget are not changed |
| TokenFit.GivesUpWhen | internal/embedding/bgem3.go:325-363 | when the error is returned some text within the residue's length is over; at budgets up to 1024 that is the special tokens alone, and then it is returned exactly when they are over |
| TokenFit.FloorAboveBudget | internal/embedding/bgem3.go:325-330 | a budget under every count always fails |
| TokenFit.SafeTokenizerLimit | internal/embedding/bgem3.go:302-307 | always a usable limit, the configured one exactly when it is in range |
| TokenFit.CheckBatch | internal/embedding/batch_budget.go:45-58 | the loop decides admission |
| TokenFit.EstimateIsHalf | internal/embedding/batch_budget.go:29-43 | an estimate is half the bytes, rounded up, and at most the cap |
| TokenFit.AdmittedExactly | internal/embedding/batch_budget.go:29-58 | a batch is admitted exactly when it is one text, or at most eight that each take no more than an equal share of the cap |
| TokenFit.AdmittedClosed | internal/embedding/batch_budget.go:29-58 | admission survives dropping and shortening texts |
| TokenFit.AdmittedTotal | internal/embedding/batch_budget.go:29-43 | an admitted batch's estimates sum to at most the embedder's cap |
| TokenFit.OneTextIsAdmitted | internal/embedding/batch_budget.go:29-43 | any single text is admitted |
| TokenFit.FittedBatchIsAdmitted | internal/embedding/bgem3.go:203-213 | checking before fitting is enough: what is fitted is still admitted |
| ReviewList.AgentBefore | internal/distill/review.go:72-81 | the loop gives the reply before the first one that is not earlier |
| ReviewList.LatestReplyBefore | internal/distill/review.go:70-81 | with replies in time order that is the latest of all replies strictly before the message |
| ReviewList.BuildReview | internal/distill/review.go:54-68 | one row for each message the person wrote that is long enough to judge, in order: its index, its own trimmed text clipped, and the reply before it clipped |
| ReviewList.FieldsOfLaid | internal/distill/review.go:83-85 | the words of a text are read back whatever white space is around them |
| ReviewList.TextIsLaid | internal/distill/review.go:83-85 | every text is its words with white space around them |
| ReviewList.ClipShows | internal/distill/review.go:83-91 | a text whose words, joined by single blanks, have at most n characters is shown as those words, any other as their first n characters and the mark |
| ReviewList.ClipIsStable | internal/distill/review.go:83-91 | a clipped text is one line within its budget, and its own clipping |
| ReviewQueue.EpisodeDir.PendingReviews | internal/distill/review_state.go:53-76 | the queue, and one diagnostic for each unreadable file |
| ReviewQueue.EpisodeDir.PendingEpisode | internal/distill/review_state.go:79-99 | what one file comes to |
| ReviewQueue.AwaitsWhen | internal/distill/review_state.go:33-52 | a file awaits review exactly when it is readable, unreviewed and holds a judgeable message |
| ReviewQueue.EntryIs | internal/distill/review_state.go:87-99 | an entry names its file and episode, the day the episode started, and the number of messages to judge |
| ReviewQueue.UnreadableWhen | internal/distill/review_state.go:79-90 | a file is unreadable exactly when its frontmatter is, or that has no review date and the turns are |
| ReviewQueue.SkipsAre | internal/distill/review_state.go:58-64 | one diagnostic for each unreadable file, in order, with its reason |
| ReviewQueue.QueueIsExact | internal/distill/review_state.go:44-76 | the queue holds exactly the files that await review, each once, strictly ordered by date and file |
| ReviewQueue.EpisodeDir.MarkReviewed | internal/distill/review_state.go:101-116 | one file gets the date and keeps everything else, or nothing changes and the reason is told: no id, no such file, or not written |
| ReviewQueue.EpisodeDir.MarkArcReviewed | cmd/arc_review_helpers.go:97-116 | the ids before the first that cannot be marked are marked and reported; nothing else changes |
| ReviewQueue.MarkingDates | cmd/arc_review_helpers.go:97-107 | the files that an id before the first fault names get the date, and nothing else in any file changes |
| ReviewQueue.SplitIds | cmd/arc_review_helpers.go:161-169 | the parts that are not blank, in order, each trimmed |
| ReviewQueue.IdsAreClean | cmd/arc_review_helpers.go:161-169 | no id has a comma or outer white space |
| ReviewQueue.MarkRemovesOne | cmd/arc_review_helpers.go:97-107 | when marking an entry by its file name takes exactly it out of the queue |
| ReviewQueue.OffersInOrder | internal/distill/review_state.go:44-76 | while heads can be removed, sitting k is offered entry k of the original queue |
| ReviewQueue.StaysJammed | cmd/arc_review_helpers.go:58-95 | a head that cannot be removed is the head after any number of sittings |
| ReviewQueue.QueueDrains | cmd/arc_review_helpers.go:58-116 | n sittings empty an n-entry queue if and only if every entry can be removed |
| ReviewQueue.EpisodeDir.Review | cmd/arc_review_helpers.go:78-91 | the sessions shown are those named, or the head's, each with its own file's messages, and the list fails exactly when one is missing or unreadable |
| ReviewQueue.EpisodeDir.EpisodePaths | cmd/arc_review_helpers.go:143-159 | the files a request names |
| ReviewQueue.OpenedAre | cmd/arc_review_helpers.go:150-159 | one file for each id, in order, or an error exactly when one is not there |
| ReviewQueue.BaseNameIs | cmd/arc_review_helpers.go:150-159 | an id opens the file of its last path element |
| ReviewQueue.ReviewShowsTheHead | cmd/arc_review_helpers.go:143-149 | with nothing named the head is shown under its own name, with as many messages as the queue counted |
| ReviewQueue.ListSplitsBack | cmd/arc_review_helpers.go:161-169 | splitting a joined list of ids gives it back if and only if each is clean |
| ReviewQueue.JoinedNamesMark | cmd/arc_review_helpers.go:97-107 | giving the flag the joined names of some files marks exactly those files if and only if each name is markable and each frontmatter can be written |
| ReviewCommand.FooterMarksWhatIsShown | cmd/arc_review_helpers.go:211-212 | when the printed command, read by a shell as the vault's path and the list each under its own flag, marks exactly the files shown; then those files get the date and nothing else changes |
| ReviewCommand.MdNamesAnother | internal/distill/review_state.go:103-107 | a file name that ends in `.md` reaches the flag and marks another file |
| ReviewCommand.BlankNamesAnother | cmd/arc_review_helpers.go:211-212 | a file name with a blank in it that the printed command marks as another |
| ReviewCommand.NudgeNamesTheVault | cmd/arc_review_helpers.go:234-238 | when a shell reads the session-start command as naming the vault |
| Discovery.WalkInto | internal/discovery/discovery.go:57-79 | the walk appends the paths found under its directory, in order, or fails |
| Discovery.DiscoverVaults | internal/discovery/discovery.go:32-50 | the error cases, and the sorted list |
| Sorting.AtMostWhen | internal/discovery/discovery.go:49 | the order sorted by: a beginning comes first, else the smaller at the first difference |
| Discovery.DiscoveryIsExact | internal/discovery/discovery.go:22-79 | over every tree: the result is sorted, without repeats, and exactly the vaults within the depth with none above; it fails exactly when a reached directory that is no vault cannot be read |
| Discovery.FoundVaultsAreApart | internal/discovery/discovery.go:24-27 | no found vault is below another |
| Discovery.DeeperFindsMore | internal/discovery/discovery.go:16-27 | a deeper search finds no less |
| Discovery.PathStringInjective | internal/discovery/discovery.go:71-76 | different entries have different paths |
| ShellQuoting.ShellSingleQuote | cmd/identity_paths.go:223-233 | the loop writes the quoted form |
| ShellQuoting.SingleQuotedReads | cmd/identity_paths.go:219-233 | a shell reads it back as the one word given, for every text |
| ShellQuoting.AssignmentReads | cmd/identity_paths.go:114-121 | a printed assignment is one word, name and value as they are |
| ShellQuoting.ShellWordReads | cmd/hooks_install_helpers.go:489-506 | a shell reads it back as the one word given if and only if that is not empty; when a tilde would be expanded |
| ShellQuoting.QuotedWhen | cmd/hooks_install_helpers.go:489-506 | a word is left as it is exactly when every character is a letter, a digit or one of eight marks |
| HooksInstall.HooksInstallRerun | cmd/hooks_install_helpers.go:467-487 | the parts spell the command line of the arguments |
| ShellQuoting.CommandLineReads | cmd/hooks_install_helpers.go:489-497 | a line of quoted words reads back as its non-empty words |
| ShellQuoting.TildeExpandsWhen | cmd/hooks_install_helpers.go:499-506 | which lines a shell would still rewrite |
| UnquotedWords.UnquotedReads | cmd/arc_review_helpers.go:211-212 | words printed without quotes are read back as they are, wherever the line is run, if and only if each is a bare word |
| HooksInstall.RerunReads | cmd/hooks_install_helpers.go:463-487 | when the printed rerun command is read as exactly the install's arguments, none of them expanded |
| HooksInstall.RerunAsks | cmd/hooks_install_helpers.go:467-487 | the arguments, parsed as the command parses them, ask for what the install was given, each flag with its own value, if and only if no place that looks like a flag is printed |
| Baseline.HitAtK | internal/baseline/metrics.go:20-36 | 1 exactly when one of the first k results is expected |
| Baseline.ReciprocalRank | internal/baseline/metrics.go:47-61 | one over the rank of the first relevant result |
| Baseline.ExpectedIsASet | internal/baseline/metrics.go:38-46 | order and repeats in the expected ids do not matter |
| Baseline.FetchingLess | internal/baseline/runner.go:22-30 | a smaller limit never raises a metric, and one of at least k leaves the hit alone |
| Baseline.HitIsRank | internal/baseline/metrics.go:20-61 | a hit at K is a reciprocal rank of at least 1/K |
| Baseline.Run | internal/baseline/runner.go:60-90 | one scored row for each query and the means, or an error exactly when a search fails |
| Baseline.MeanIs | internal/baseline/runner.go:70-90 | a mean times the number of rows is the sum of theirs, and is 0 for none |
| Baseline.MetricBounds | internal/baseline/runner.go:41-51 | Hit@K / K <= MRR <= Hit@K + (1 - Hit@K) / (K + 1) |
| Baseline.ScoreEval | cmd/eval_helpers.go:79-98 | ranks and the share of first places, undefined without queries |
| Baseline.RankRecovered | cmd/eval_helpers.go:84-90 | the rank read back is the rank scored |
| Baseline.FirstPlacesAreLeast | cmd/eval_helpers.go:79-98 | the share of first places is Hit@1, at most MRR and at most Hit@K |
| Baseline.CompareToSnapshot | internal/baseline/fixture.go:68-113 | the regressions in order, green exactly when no shared metric fell by more than the tolerance |
| Baseline.RegressionsAre | internal/baseline/fixture.go:75-110 | which regressions are listed: a metric, under its own name with the snapshot's value first, exactly when it fell by more than the tolerance |
| Baseline.RowsInOrder | internal/baseline/fixture.go:94-110 | query after query |
| Baseline.PassesWhenNoneFound | internal/baseline/fixture.go:51-58 | green exactly when no regression is listed |
| Baseline.ToleranceAdds | internal/baseline/fixture.go:60-68 | passing at t and then at u is passing at t + u, if and only if no query the ends share and the middle lacks fell by more |
| Baseline.GapHidesALoss | internal/baseline/fixture.go:94-103 | such a query |
| Baseline.SelfComparison | internal/baseline/fixture.go:94-112 | when a report passes against itself |
| Baseline.DuplicateFailsItself | internal/baseline/fixture.go:94-98 | a report that does not |
| Baseline.RaisingIsSafe | internal/baseline/fixture.go:60-65 | each regression of a raised report is one of the report's own, of the same metric and query and no smaller a fall |
| Baseline.GateReadsRanks | internal/baseline/fixture.go:99-112 | what the per-query checks mean in ranks |
| Baseline.QueriesDecide | internal/baseline/fixture.go:76-112 | over the same distinct queries the aggregate checks follow from the per-query ones |
| CandidateReport.GroupByEpisode | internal/distill/report.go:191-208 | one group for each episode, ids in order, candidates by turn |
| CandidateReport.GroupingPermutes | internal/distill/report.go:189-208 | grouping loses and invents nothing |
| CandidateReport.GroupsAreStable | internal/distill/report.go:199-206 | a group is its episode's candidates in rising order of turn, and those of one turn keep the order they were found in |
| CandidateReport.GroupsAreUnique | internal/distill/report.go:189-208 | the layout does not depend on the order a map is ranged over |
| CandidateReport.AnnotateNearestArcs | internal/distill/dedup.go:42-86 | every proposal as it was, with its own neighbours, or its old ones where the lookup failed; one line for each reason with its count, in the order first met; nothing without a finder |
| CandidateReport.FailuresTell | internal/distill/dedup.go:46-86 | a line's count is the number of lookups that failed for its reason, and a reason told earlier was met earlier |
| CandidateReport.MatchTextIsFirst | internal/distill/dedup.go:98-108 | the first text that is not blank, trimmed |
| CandidateReport.FirstSeenIs | internal/distill/dedup.go:46-60 | each reason that occurred is told once |
| CandidateReport.FirstSeenInOrder | internal/distill/dedup.go:52-60 | in the order of first occurrence |
| CandidateReport.FailuresAreAllCounted | internal/distill/dedup.go:52-86 | the counts add up to the failed lookups |
| AnsiStrip.StripANSI | internal/check/checks.go:125-141 | the nested loops end, and compute the stripped text |
| AnsiStrip.OnePassIsEnough | internal/check/checks.go:125-141 | cutting and searching again from the start equals one pass over the text |
| AnsiStrip.SequenceGoes | internal/check/checks.go:125-141 | the first sequence goes up to its first letter, or to the end without one, and stripping goes on with the two sides joined |
| AnsiStrip.StrippedIsClean | internal/check/checks.go:124-141 | no opener is left, characters keep their order, a clean text and only a clean text is unchanged, stripping twice is stripping once |
| AnsiStrip.CutsJoin | internal/check/checks.go:128-139 | a cut can make an opener that was not there |

## Left out

- Float rounding: scores and ratios are exact reals or rationals; `int(1/rr + 0.5)` and the 0.9 margin are taken without rounding error. The moving average is taken in doubles, or fused as a compiler may; for durations over three days its rounding is not bounded.
- CSV reading of slice defaults, flag value parsing, YAML decoding: parameters with the contract that a registered default reads back as itself.
- pflag, Cobra and viper internals: a flag is its value, Changed bit and occurrences; argument parsing, help text and config files are not part of the model.
- Flag objects inside the server: `WarmServer.Process` holds flag states by name, so two commands sharing one flag share its state, but pointer identity and the handles a command keeps to a flag are not modelled.
- What a served command does is arbitrary, except that it keeps the command tree and the names of environment entries free of `=`; panics are not modelled apart from the closed session.
- Client and server transport, timeouts, the socket and process spawning.
- Checks are assumed to return; the choice of form in `RunChecks`, `FilterCategories`, the Bubble Tea executor and all rendering.
- The Go memory model and the timing history's mutex: a step of `ParallelChecks` is atomic, and the channel is a bounded queue.
- Regular expressions are written out as scans; the episode reader and writer work on code points, so invalid UTF-8 in an episode is not modelled.
- Commits, pull requests, files and tool counts of an episode are the lines they print; nothing in the program reads them back, and nothing is stated of their places in the file.
- The flag parser of `HooksInstall.RerunAsks` knows the flags the rerun prints, each with its value in the next argument, and splits no list.
- EpisodeRoundTrip.RoundTrip: for at most as many messages as a 64-bit int counts.
- SliceFlags.FlagObject.Reset: slices are values, so that the source copies the saved defaults before handing them out is not expressed.
- ShellQuoting.SingleQuotedReads: for text that is valid UTF-8; the source writes U+FFFD for a byte that is not, so a path that is not UTF-8 is changed.
- `ScanEpisodes` and the phrase rules for candidates.
- The review queue takes `mutation.SetFileKey` by contract: it writes the one key, which reads back trimmed, or fails and changes nothing. Glob metacharacters in the vault's own path, and other writers between two commands, are not modelled. `started_at` is cut at ten characters, which is ten bytes for the ASCII dates it holds.
- Symbolic links, directories that change during a walk, and path cleaning of the root in discovery; a directory's entries have clean names, all different.
- The shell model has no expansion but the tilde's, no double quotes, no aliases and no reserved words; a line with anything else active, or a pattern that some files could match, reads as None. A NUL character, which no shell word can hold, is not treated apart.
- In-place update of a report's slices in `AnnotateNearestArcs`: the report returned is modelled, not that the caller's slices share its elements.
- `sort.Strings` and `sort.SliceStable` by contract, as a stable insertion sort.
- `oneLine` and `truncate` of the report, JSON and text output, snapshot and query file reading.
- TokenFit.GivesUpWhen: exact for counts that do not rise when text is cut and budgets up to 1024, the embedder's own; beyond those TokenFit.FitConverges gives the condition on the run.
