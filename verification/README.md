# Diffs, protocols and clocks of Codecast

A Dafny model of the parts of Codecast where a mistake is easiest to make and
hardest to see: the text algorithms behind its diffs, and the small machines
that run between awaits, timers and windows. Each is modelled with the
branches, constants and edge cases its code has, and what the code promises is
proved for every input or every run.

- **Diffs** (`EditScripts`, `SeqDiff`, `WordDiff`, `HunkRuns`, `DiffLines`,
  `UnifiedDiff`, `GitPrint`, `GitRoundTrip`, `GitTrimmed`): the decision kit's
  longest-common-subsequence differ over one flat table, its word tokens,
  segments and similarity, its grouping of rows into numbered runs, and its
  reader of unified diffs, set against git's printer, and against diffs pasted
  without git's lines, cut short, or stripped of blank lines' spaces.
- **Changed-lines gate** (`ChangedLines`, `GateExact`): the second diff reader,
  set against git's zero-context print of edit scripts.
- **Browser bridge** (`Bridge`, `BridgeRuns`, `BridgeHistory`, `BridgeSockets`,
  `BridgeActs`, `BridgeConfigs`, `BridgeWorker`): the extension's
  service worker, its handshake, deadlines, retries and replaced sockets. Every
  stretch between two awaits is one step, so every interleaving is a run. `send`
  writes to whatever socket is current, so a hello may go to a later socket than
  the one that opened.
- **Banners** (`RecentKeys`, `BannerGate`, `BannerRuns`, `BannerAnswers`,
  `BannerShell`): holds,
  grace timers, supersession and the bounded cooldown.
- **Palette** (`PaletteFace`, `PaletteRuns`): the shell and the page over two
  FIFO channels, with a fallback timer and reloads; and the shell against any page. A replaced document's
  messages are dropped with it.
- **Call matching and moments** (`Sorting`, `PickCalls`, `Moments`): the greedy
  match of clean calls to issue calls, and the chaining of judgments.
- **Edge cache** (`EdgeCache`): what a browser may do with an answer, how old a
  body can be when it is last used, and who is ever given a gated one.
- **Replay player** (`ChunkPool`, `ReplayClock`, `Player`): the lanes that read a
  recording's chunks under two caps, the clock, and the controls.
- **Share cursors** (`ShareCursors`, `ShareShell`): teammates' arrows on the
  sharer's own screen.

State machines are datatypes with one function per handler; the classes
(`Worker`, `Shell`, `Controls`, `Reader`) hold the same state in fields updated
in place, and every method is proved to be the function it stands for. Loops are
loops: the table fill, the walk, the folds and the readers are methods with
invariants, proved equal to functions whose meaning the lemmas state. Automatic
induction is off everywhere, so every induction is written out.

## Where the code does less than it says

Each of these is a lemma, with the exact condition under which the promise holds.

- A stored bridge config with a port that makes no URL makes the `WebSocket`
  constructor throw after a reconnect; the worker then rests on "disconnected"
  (`BridgeRuns.NeverStuckExactly`), and every alarm throws again, until a
  reconnect reads another config (`BridgeRuns.AlarmOpensExactly`).
- A `MISS` is answered as if it had no age, after the store has settled: a store
  of more than a second lets the body be used past the bound
  (`EdgeCache.BoundHoldsExactly`).
- A document replaced while a confirmation is under way comes back on the face
  the shell believed, which may not be the last one shown
  (`PaletteRuns.ReplacedDocumentComesBack`).
- A glass destroyed by the system and made anew at an unchanged place is shown
  without bounds (`ShareCursors.StepCovers`); and no poll makes it anew while the
  shared window stays (`ShareCursors.PollFollowsTheWindow`).
- A paused seek posts a millisecond more than the nearest recorded time, because
  the millisecond that drawing adds is read back (`Player.SeekReports`,
  `Player.PausedSeekIsExact`).
- With no lanes `readChunks` resolves to nothing instead of reading or failing
  (`ChunkPool.PoolReadsInOrder`); its default is four.
- A hunk cut before the end of a pasted diff gets one empty context row more, made
  of the text's last newline (`GitTrimmed.CutHunkAtTheEnd`).
- Two empty texts have similarity 0, not 1
  (`WordDiff.SimilarityIsOneForEqualTexts`).
- A moment of judgments before 1970 is dated 1970 (`Moments.EventAtIsNewest`).
- An added line that begins with "++ " can take a file's name away in the gate
  (`GateExact.FileExact`), a path that ends in whitespace is misread there
  (`GateExact.PlainPathIsRead`), and so is one quoted with escapes JSON does not
  know (`GateExact.QuotedPathIsRead`).
- A removed "-- " row and an added "++ " row before another hunk are taken for
  path lines by the decision kit, and a hunk whose context holds a line
  terminator other than a newline is not read at all (`GitRoundTrip.RoundTrip`).
- A clock set back while a banner waits can drop it: exactly when its
  conversation is cooling once more when its grace ends
  (`BannerRuns.HeldBannerIsLostExactly`).

## Model

| member | source | states |
|---|---|---|
| `EditScripts.KeptIsCommon` | packages/cli/kit/decision-kit.js:258-276 | What any edit script leaves unchanged is a common subsequence of its two sides, and edits plus twice the unchanged items is the total length: the yardstick the differ is measured by |
| `SeqDiff.LcsBounds` | packages/cli/kit/decision-kit.js:262-264 | No common subsequence of the two remainders is longer than the table entry |
| `SeqDiff.WalkIsOptimal` | packages/cli/kit/decision-kit.js:265-275 | The walk turns the one list into the other, keeps a longest common subsequence, and no script between the lists deletes and inserts fewer items |
| `SeqDiff.ScriptIsOptimal` | packages/cli/kit/decision-kit.js:258-276 | The script the differ answers with is correct, shortest among all correct scripts, and of those as short the first: it matches as soon as any of them does, else deletes as soon as any does |
| `SeqDiff.WalkIsFirst` | packages/cli/kit/decision-kit.js:265-275 | From any cell the walk comes no later, tag by tag, than any script of the remainders that is as short |
| `SeqDiff.FirstIsUnique` | packages/cli/kit/decision-kit.js:265-275 | Only one script is first, so the script is determined |
| `SeqDiff.FillTable` | packages/cli/kit/decision-kit.js:262-264 | The flat Uint32 table, filled in place row by row from the last, holds every entry of the recurrence; all indices are in range and no value overflows |
| `SeqDiff.FillRow` | packages/cli/kit/decision-kit.js:262-264 | One row filled right to left: the three neighbours read are final, the rows below are kept |
| `SeqDiff.WalkTable` | packages/cli/kit/decision-kit.js:265-275 | The walk over the filled table and both leftover loops produce the walk's ops, joined or not |
| `SeqDiff.Diff` | packages/cli/kit/decision-kit.js:258-276 | Nothing if and only if the table would have more than six million cells, else the script of the whole algorithm |
| `WordDiff.TokensAreTheCut` | packages/cli/kit/decision-kit.js:249 | Tokens concatenate to the text and are maximal runs of one class, other characters alone |
| `WordDiff.CutIsUnique` | packages/cli/kit/decision-kit.js:249 | Any cut into maximal runs is the one `tokens` gives: tokenising undoes joining |
| `WordDiff.Diff` | packages/cli/kit/decision-kit.js:252-254 | The joined word script keeps both texts and never has two neighbouring ops of one kind |
| `WordDiff.WordScriptIsTheWalk` | packages/cli/kit/decision-kit.js:252-276 | The joined word script deletes, keeps and inserts exactly the characters of the unjoined first shortest script, with no empty op and no two neighbours of one kind |
| `WordDiff.Segments` | packages/cli/kit/decision-kit.js:280-296 | The two loops compute the grouped and folded segments, and both texts survive |
| `WordDiff.SegmentsKeepText` | packages/cli/kit/decision-kit.js:280-296 | For any ops: both texts survive, two changes never touch, no small unchanged run is left between two changes, no long unchanged run is lost, and kinds alternate when the ops do |
| `WordDiff.FoldIsExact` | packages/cli/kit/decision-kit.js:280-296 | For any ops: grouping keeps every unchanged op where it stood in either text, and folding removes of those runs exactly the small ones between two changes |
| `WordDiff.SimilarityIsOneForEqualTexts` | packages/cli/kit/decision-kit.js:297-301 | Similarity lies in [0, 1] and is 1 exactly for equal texts that are not empty |
| `WordDiff.SimilarityIsTheShareKept` | packages/cli/kit/decision-kit.js:297-301 | Similarity is the longer text's length less what is deleted or inserted, whichever is more, as a share of that length |
| `HunkRuns.Runs` | packages/cli/kit/decision-kit.js:347-359 | Whatever the rows, the old side reads as the old lines numbered from the hunk's start without a gap, the new side likewise, unchanged rows are the script's, runs alternate and changes open at the next number of either side |
| `HunkRuns.BeforeAfterRows` | packages/cli/kit/decision-kit.js:565-567 | The rows turn before into after, with fewest edits unless the texts are too long to compare |
| `HunkRuns.BeforeAfter` | packages/cli/kit/decision-kit.js:564-568 | The old lines are numbered 1 to n in order on the one side, the new lines 1 to m on the other, and the lines shown unchanged are a longest common subsequence, or none when the texts are too long to compare |
| `HunkRuns.TemplateLinesAreTheCores` | packages/cli/kit/decision-kit.js:564 | However a text is a core between leading newlines and trailing whitespace, its lines are the core's, split at its newlines and at nothing else |
| `HunkRuns.TemplateParts` | packages/cli/kit/decision-kit.js:564 | Every text is such a core |
| `DiffLines.ReadPrintedHunkHead` | packages/cli/kit/decision-kit.js:239 | Reading a hunk header undoes git's printing of it, counts of one left out included |
| `UnifiedDiff.Parse` | packages/cli/kit/decision-kit.js:220-247 | The line loop with its open file and hunk counters computes the reader's answer, which the lemmas of GitRoundTrip and GitTrimmed give for git's diffs, for files under path lines alone, for bare hunks and for cut ones |
| `GitPrint.BadHunkRead` | packages/cli/kit/decision-kit.js:223-240 | What becomes of a hunk that ends in two rows which print as path lines, when another hunk follows: which rows are lost, and which file is begun |
| `GitPrint.MarkedRead` | packages/cli/kit/decision-kit.js:229-235 | A last hunk reads back whatever its rows hold, and `\ No newline` markers anywhere in it leave no trace |
| `GitRoundTrip.SeparatorFound` | packages/cli/kit/decision-kit.js:238 | The lazy `a/ ... b/ ...` match gives the new name exactly when the old name hides no separator, else something longer |
| `GitRoundTrip.ParsePrinted` | packages/cli/kit/decision-kit.js:220-247 | The exact answer on any printed diff with contexts of one line, misread names, lost carriage returns and hidden headers included |
| `GitRoundTrip.ContextsReadAreOneLine` | packages/cli/kit/decision-kit.js:239-241 | Whatever the text, no context read off it holds a character that ends a line for the pattern |
| `GitRoundTrip.RowsOnlyLost` | packages/cli/kit/decision-kit.js:220-247 | A printed diff is never read with more rows than it has, and with as many only if every hunk before a last one ends safely |
| `GitRoundTrip.RoundTrip` | packages/cli/kit/decision-kit.js:220-247 | Reading a printed diff, of git's own files, of files under `---` and `+++` lines alone or of bare hunks first, gives back its files, names, starts, contexts, rows and totals if and only if names, contexts, row ends and hunk ends are safe |
| `GitRoundTrip.BareHunksRead` | packages/cli/kit/decision-kit.js:239-246 | Hunks that no file line precedes read as one file without a name, with exactly those hunks and totals, if and only if contexts, row ends and hunk ends are safe |
| `GitRoundTrip.PathFileRead` | packages/cli/kit/decision-kit.js:236-246 | A file under `---` and `+++` lines alone reads as one file under its new path, or its old one when deleted, if and only if besides that the path has no whitespace at its edges and, printed without a prefix, does not begin like one |
| `GitTrimmed.CutHunkRead` | packages/cli/kit/decision-kit.js:224-246 | A hunk whose header counts more rows than are left gets those rows, and still expects exactly the others |
| `GitTrimmed.CutHunkBeforeAnother` | packages/cli/kit/decision-kit.js:224-246 | A cut hunk before another hunk's header reads as if its counts were right |
| `GitTrimmed.CutHunkAtTheEnd` | packages/cli/kit/decision-kit.js:224-234 | A cut last hunk ends in one more empty context row, made of the last newline, exactly because it still expects rows |
| `GitTrimmed.StrippedTextReadsTheSame` | packages/cli/kit/decision-kit.js:229-234 | A text and the same text with the space stripped from its blank context lines read as the same files |
| `ChangedLines.ParseAddedLines` | scripts/ci/changed-lines-gate.ts:73-97 | The map holds, file by file and in order, exactly the ranges the line reader records |
| `GateExact.RangesAreInsertions` | scripts/ci/changed-lines-gate.ts:83-94 | The ranges of a script's zero-context hunks cover a line exactly when the script inserted it |
| `GateExact.RangesAscend` | scripts/ci/changed-lines-gate.ts:83-94 | The ranges of a file ascend, and an unchanged line stands between any two |
| `GateExact.LogOfPrinted` | scripts/ci/changed-lines-gate.ts:73-97 | The exact log of any printed diff, added rows that print as path lines included |
| `GateExact.PlainFilesAreTruthful` | scripts/ci/changed-lines-gate.ts:78-82 | A file whose added lines do not begin with "++ " keeps its own name in force to its last hunk |
| `GateExact.GateBlamesExactly` | scripts/ci/changed-lines-gate.ts:73-102 | On any printed diff of truthful files a line of a new file counts as added if and only if the script inserted it |
| `GateExact.KeptIsAnswerable` | scripts/ci/changed-lines-gate.ts:117-123 | A finding is kept if and only if it has no file or sits on a line some file's script inserted |
| `GateExact.SelectionIsExact` | scripts/ci/changed-lines-gate.ts:117-123 | The gate keeps exactly the answerable findings, in order |
| `GateExact.MissedLine` | scripts/ci/changed-lines-gate.ts:77-82 | An added row that takes the name away makes the gate miss an inserted line |
| `GateExact.FileExact` | scripts/ci/changed-lines-gate.ts:73-102 | In a diff of any number of files, where no other file records under a file's path, the gate is right on every line of that file if and only if the file is truthful |
| `GateExact.OneMoreFileExact` | scripts/ci/changed-lines-gate.ts:73-102 | Among truthful files of distinct paths one more is read right on every line if and only if it is truthful too |
| `GateExact.PlainPathIsRead` | scripts/ci/changed-lines-gate.ts:79-81 | A path is read off git's `b/` line as it is, the tab after a path with a space included, if and only if it does not end in whitespace |
| `GateExact.QuotedPathIsRead` | scripts/ci/changed-lines-gate.ts:58-81 | A quoted path is what JSON makes of it; where JSON does not parse it, it is read as this path if and only if that is what stands between the quotes |
| `Bridge.StepInv` | packages/browser-extension/background.js:228-379 | Every handler, between any two awaits, keeps: trust is exactly the proof of the current socket, only the right HMAC of a socket's own nonce proves it, a current socket is proved, under its deadline or closing, one retry timer at most, and something at work or a status that says why not |
| `BridgeRuns.NothingBeforeTheProof` | packages/browser-extension/background.js:270-315 | In every interleaving, whatever is sent or begun is hello, or for the current socket that proved the token |
| `BridgeRuns.ReplacedSocketsAreMute` | packages/browser-extension/background.js:254-345 | A replaced socket's late events change no trust, status, timer, config or connect, and send nothing but its hello, to whatever socket is current |
| `BridgeRuns.OneRetryTimer` | packages/browser-extension/background.js:157-168 | At most one retry timer exists in any reachable state |
| `BridgeRuns.RetriesComeSoon` | packages/browser-extension/background.js:157-168 | An armed retry waits one, two, then five seconds, by how often it was tried, and a proved host is always being pinged |
| `BridgeRuns.BadPortStrands` | packages/browser-extension/background.js:228-238 | A stored config whose port makes no URL: the constructor throws, and nothing is left running under a status that says nothing |
| `BridgeRuns.NeverStuckExactly` | packages/browser-extension/background.js:157-168 | In every reachable state a current socket that is proved, under its deadline or closing, a connect or a retry is at work, or the status is no-config, bad-token or standby: if and only if every usable stored config makes a URL |
| `BridgeRuns.AlarmOpensExactly` | packages/browser-extension/background.js:445-453 | However the worker fell silent, an alarm brings it a live socket if and only if the config it goes by, the one at hand or else the stored one, is usable and makes a URL |
| `BridgeHistory.StatusIsHistory` | packages/browser-extension/background.js:229-345 | In every run the status is what the history of sockets, proofs, close codes and restarts says, each status if and only if: bad-token after a wrong proof or a 4401, standby after a 4409, disconnected after any other loss or a restart, and so on |
| `BridgeHistory.RetriesAreHistory` | packages/browser-extension/background.js:161-168 | In every run a retry is armed if and only if the current socket was lost with neither 4401 nor 4409, no refused token on show, and no retry, proof or restart came since; it waits the ladder's time for how often that happened |
| `BridgeHistory.TrustIsHistory` | packages/browser-extension/background.js:244-378 | In every run the current socket is the one opened last unless lost or let go; the host is trusted exactly from its proof until a socket is opened, lost or let go; the keepalive runs from a proof to the next loss or restart |
| `BridgeHistory.LossShows` | packages/browser-extension/background.js:317-345 | What the loss of the current socket shows, by its code: bad-token for 4401 or a token already refused, standby for 4409, else disconnected with a retry armed; the first two leave the timer as it was |
| `BridgeSockets.ProofDecidesExactly` | packages/browser-extension/background.js:280-301 | In every run the proof check decides by the first welcome on the current open socket and the token and nonce it was opened with: the right HMAC brings trust, any other answer bad-token and a closing socket; other sockets decide nothing |
| `BridgeSockets.DeadlineClosesExactly` | packages/browser-extension/background.js:247-252 | A deadline begins to close its socket if and only if that is current and not proved |
| `BridgeSockets.RestartClosesItsSocket` | packages/browser-extension/background.js:363-379 | A worker that starts over has begun to close the socket it lets go, and touches no other |
| `BridgeActs.HelloIsSentOnce` | packages/browser-extension/background.js:254-268 | A socket's hello is due from its opening until it is sent, once; on the current open socket it carries the nonce the socket was opened with |
| `BridgeActs.MessagesAreServedExactly` | packages/browser-extension/background.js:270-314 | In every run a message on the current open socket is served at once if it proved itself, dropped without a trace before any welcome, and waits between the welcome and the proof |
| `BridgeActs.WaitingMessagesAreServed` | packages/browser-extension/background.js:302-314 | A message that had to wait goes on once, unchanged by whatever came between: served if its socket is proved, current and open, dropped if it is not proved and current |
| `BridgeActs.RepliesAnswerOps` | packages/browser-extension/background.js:308-314 | Every op that finishes was begun for a message on its socket, and is answered once at most, under that message's number, on that socket, if and only if it is still proved, current and open |
| `BridgeActs.TrustedHostIsPinged` | packages/browser-extension/background.js:206-212 | The keepalive pings, and events are told to, a trusted host on its open socket and nobody else |
| `BridgeConfigs.ConnectsBeginExactly` | packages/browser-extension/background.js:228-236 | In every run which events begin a connect: a call or a retry exactly without a live socket, the keeper's beat exactly without a socket, a wake unless trusted on an open socket, a reconnect always, and nothing else |
| `BridgeConfigs.RestartsExactly` | packages/browser-extension/background.js:363-379 | A wake leaves a worker trusted on an open socket alone, else lets the socket go and connects by the config at hand; a reconnect always does, and reads storage anew |
| `BridgeConfigs.ReadsAreTakenExactly` | packages/browser-extension/background.js:130-136 | The answer to an up-to-date read of storage is taken if and only if no reconnect came since; else it is thrown away and the config is asked for again |
| `BridgeConfigs.ConfigAtHandIsFresh` | packages/browser-extension/background.js:127-136 | The config at hand is one that storage gave since the last reconnect |
| `BridgeWorker.SameHex` | packages/browser-extension/background.js:398-403 | The bit-folding comparison is equality |
| `BridgeWorker.Worker.UseConfig` | packages/browser-extension/background.js:231-252 | `connect` from its config on, in place, is the step: give up, yield, throw, or open a new current socket |
| `BridgeWorker.Worker.OnMessage` | packages/browser-extension/background.js:270-301 | The message handler up to its first await, in place, is the step |
| `BridgeWorker.Worker.CheckProof` | packages/browser-extension/background.js:281-300 | The proof check from its HMAC on, in place, is the step |
| `BridgeWorker.Worker.OnClose` | packages/browser-extension/background.js:317-345 | The close handler, in place, is the step, whose status and retry by close code BridgeHistory.LossShows and BridgeHistory.StatusIsHistory give |
| `BridgeWorker.Worker.Reconnect` | packages/browser-extension/background.js:363-379 | `reconnect`, in place, is the step |
| `BridgeWorker.Worker.ScheduleRetry` | packages/browser-extension/background.js:161-168 | Arms one timer at the ladder's next delay unless one is armed |
| `BridgeWorker.Worker.SendMessage` | packages/browser-extension/background.js:357-360 | Hello always, anything else only once trusted, and only on an open current socket |
| `RecentKeys.ClaimFailsWhileCooling` | platform/packages/desktop/src/notificationRouter.js:213-219 | A claim fails exactly while the key is cooling |
| `RecentKeys.ClaimKey` | platform/packages/desktop/src/notificationRouter.js:213-219 | Purging while walking the map, then claiming: the key goes last |
| `RecentKeys.ClaimBurst` | packages/electron/notificationRouter.js:119-128 | The capped claim forgets from the front and never holds more than its cap |
| `BannerGate.AdmitKeeps` | packages/electron/notificationRouter.js:173-200 | Whatever is asked at whatever time, live timers match held conversations, promises are held or settled once, counts agree and the cooldown is within its cap |
| `BannerGate.AdmitFrees` | packages/electron/notificationRouter.js:173-200 | A request is held only while its conversation is free, and nothing asked for one conversation sets another cooling |
| `BannerGate.RunOutExactly` | packages/electron/notificationRouter.js:195-197 | When a grace runs out the banner is shown if and only if its conversation is not cooling by the clock of that moment, and its promise says which |
| `BannerGate.RunOutShows` | packages/electron/notificationRouter.js:195-197 | So while no held conversation is cooling, a banner whose grace runs out is always shown |
| `BannerGate.CompletionExactly` | packages/electron/notificationRouter.js:187-190 | A completion that supersedes a held request is shown if and only if the conversation is not cooling; either way the request is told it was superseded |
| `BannerGate.CompletionTakesOver` | packages/electron/notificationRouter.js:187-190 | So while no held conversation is cooling, such a completion is always shown |
| `BannerGate.AdmitExactly` | packages/electron/notificationRouter.js:173-200 | Each reason to drop a request is given exactly when it applies, and only a free conversation's request is held |
| `BannerGate.AdmitChangesOnly` | packages/electron/notificationRouter.js:173-200 | A request puts up its own banner, and at once, if and only if it is answered as shown; it takes a held one's place only as a completion; and starts a grace of its own, graceMs long, if and only if it is promised an answer |
| `BannerRuns.EveryStateIsSound` | packages/electron/notificationRouter.js:173-215 | In every reachable state, whatever the clock did: bounded cooldown, timers and holds one to one, every promise held or settled exactly once, banners shown as many as answers that say shown |
| `BannerRuns.HeldBannersAreNeverLost` | packages/electron/notificationRouter.js:194-199 | In every run of a clock that does not go back a held banner whose grace ends is shown |
| `BannerRuns.HeldBannerIsLostExactly` | packages/electron/notificationRouter.js:194-212 | In every run at all, clock set back or not, a held banner whose grace ends is lost if and only if its conversation is cooling by the clock of that moment |
| `BannerRuns.CompletionIsLostExactly` | packages/electron/notificationRouter.js:187-190 | In every run at all, a completion that supersedes a held request is lost if and only if the conversation is cooling |
| `BannerRuns.ClaimRemembers` | packages/electron/notificationRouter.js:119-134 | Every key the cooldown forgot is past its window or outnumbered by as many later keys as the cap |
| `BannerRuns.BannersAreSpaced` | packages/electron/notificationRouter.js:185-215 | While the clock does not go back, two banners of one conversation are more than the cooldown apart, or at least as many other conversations as the cap were claimed between |
| `BannerRuns.ClockSetBackLosesTheBanner` | packages/electron/notificationRouter.js:194-212 | A history in which the clock is set back while a banner waits and the banner is dropped |
| `BannerAnswers.RingsAreShownExactly` | packages/electron/notificationRouter.js:176-186 | In every run a forced request is shown and delivered at once if and only if its key is not cooling in the 60 s memory, else a duplicate; whatever is on screen, held or cooling, all of which it leaves alone |
| `BannerAnswers.RingsAreShownOnceAMinute` | packages/electron/notificationRouter.js:176-186 | While the clock does not go back that is if and only if no request with its key was let through within the last minute |
| `BannerAnswers.KnownExactly` | packages/electron/notificationRouter.js:180 | While the clock does not go back the duplicate memory knows a key if and only if a request with it was let through within the last minute |
| `BannerAnswers.InViewExactly` | packages/electron/notificationRouter.js:179 | In every run a request is answered as focused-active if and only if it is not forced and its entity is on screen, and then leaves no trace but the answer |
| `BannerAnswers.DuplicatesExactly` | packages/electron/notificationRouter.js:180 | A request is a duplicate if and only if it is not dropped as in view and its key was let through within the last minute |
| `BannerAnswers.HeldExactly` | packages/electron/notificationRouter.js:182-199 | In every run an unforced request off the screen, no duplicate, of a conversation neither held nor cooling is held, and no other is; the rest are burst, cooling or shown, each if and only if |
| `BannerAnswers.PromiseIsKept` | packages/electron/notificationRouter.js:193-200 | A promised request waits with its own banner and a timer for graceMs after it was asked until it is answered, whatever else is asked meanwhile |
| `BannerShell.Shell.Admit` | packages/electron/notificationRouter.js:173-200 | `admit`, in place, is the gate's step, whose answers BannerAnswers gives for whole runs |
| `BannerShell.Shell.Release` | packages/electron/notificationRouter.js:203-209 | `#release`, in place: the hold, its timer and its promise go together |
| `BannerShell.Shell.Fire` | packages/electron/notificationRouter.js:211-215 | `#fire`, in place: claim, then deliver |
| `BannerShell.Shell.OnGraceEnd` | packages/electron/notificationRouter.js:195-197 | The grace timer's callback, in place: proved equal to the step that the lemmas about whole runs speak of |
| `PaletteRuns.RevealsAreGuarded` | packages/electron/paletteFace.js:29-70 | In every run a reveal is pending exactly while the fallback is armed, and always for some wanted face |
| `PaletteRuns.ShownExactly` | packages/electron/paletteFace.js:33-56 | In every run a confirmation the shell takes reveals the window if and only if the last show still waits and the confirmed face is that show's; the fallback if and only if a show still waits; no other step ever does |
| `PaletteFace.RevealsExactly` | packages/electron/paletteFace.js:33-70 | The same for any history and any page at all, pages that do not name the face included |
| `PaletteFace.OtherFacesAreAskedAgain` | packages/electron/paletteFace.js:48-52 | While a show waits, a confirmation of another face makes the shell ask again and changes nothing else |
| `PaletteFace.SilentRepeatSettles` | packages/electron/paletteFace.js:33-45 | After a show that only the fallback revealed, a face confirmed later stands if and only if it is the face shown or the page had painted that one before |
| `PaletteRuns.LastShownIsPainted` | packages/electron/paletteFace.js:40-56 | After any history, once the channels are empty the page paints the last shown face and the shell knows it |
| `PaletteRuns.ReplacedDocumentComesBack` | packages/electron/paletteFace.js:59-62 | A document replaced while the palette is up comes to rest on a face if and only if the shell believed that face |
| `PaletteRuns.QuietBeliefIsTrue` | packages/electron/paletteFace.js:48-56 | With empty channels what the shell believes is what the page paints |
| `PaletteRuns.StaleBelief` | packages/electron/paletteFace.js:29-56 | With a confirmation under way it need not be: a run in which a reload brings back a face that is not the last shown |
| `PaletteRuns.HiddenStaysSilent` | packages/electron/paletteFace.js:65-70 | After any history, from a hide to the next show nothing is sent and nothing is revealed, whatever arrives |
| `PaletteRuns.TakingIsProgress` | packages/electron/paletteFace.js:48-52 | Every message taken leaves less work, re-asks included |
| `PaletteRuns.ChannelsDrain` | packages/electron/paletteFace.js:48-52 | No run of takings is longer than the work there was, so re-asks end |
| `PaletteFace.Shell.Ready` | packages/electron/paletteFace.js:48-56 | A confirmation, in place, is the step, whose reveals PaletteRuns.ShownExactly and PaletteFace.RevealsExactly decide |
| `PaletteFace.Shell.OnNewDocument` | packages/electron/paletteFace.js:59-62 | `newDocument`, in place: proved equal to the step that the lemmas about whole runs speak of |
| `PickCalls.RoundAttempts` | packages/cli/scripts/agentwatch-replay.ts:297-299 | A round with share s over n issues attempts exactly floor(n*s) of them, each once |
| `PickCalls.RoundIsEven` | packages/cli/scripts/agentwatch-replay.ts:297-299 | Among the first m issues a round attempts exactly floor(m*s), for every m: the share is spread evenly |
| `PickCalls.WholeRoundsComeFirst` | packages/cli/scripts/agentwatch-replay.ts:296-299 | Every issue is attempted once before any is attempted again: whole rounds in order, then one round for what is left over |
| `PickCalls.TotalAttempts` | packages/cli/scripts/agentwatch-replay.ts:296-299 | All rounds attempt exactly floor(n times the number asked for) |
| `PickCalls.ChoiceIsRight` | packages/cli/scripts/agentwatch-replay.ts:300-303 | The pick is a free call of the issue's source, of its caller whenever a free one exists, nearest in duration, ties to the smallest id; none only when all of the source are used |
| `PickCalls.PicksAreRight` | packages/cli/scripts/agentwatch-replay.ts:285-309 | Every attempt of a whole run makes that choice among the clean calls no earlier attempt took |
| `PickCalls.WholeShareIsAttempted` | packages/cli/scripts/agentwatch-replay.ts:296-299 | A whole run attempts the whole part of issues times clean calls per issue |
| `PickCalls.NoCallTwice` | packages/cli/scripts/agentwatch-replay.ts:300-304 | No clean call is picked twice |
| `PickCalls.IssuesAreNewest` | packages/cli/scripts/agentwatch-replay.ts:286-287 | The issues are the newest up to the number wanted, newest first |
| `PickCalls.PickRound` | packages/cli/scripts/agentwatch-replay.ts:297-306 | One round, with the used set and the output grown in place, is the attempts of its share in order |
| `PickCalls.PickRounds` | packages/cli/scripts/agentwatch-replay.ts:296-307 | All rounds together are the attempts of the whole run |
| `PickCalls.PickAll` | packages/cli/scripts/agentwatch-replay.ts:285-309 | The output is the issues and then every match in order |
| `PickCalls.MatchesAreTheChoices` | packages/cli/scripts/agentwatch-replay.ts:302-305 | The matches are the choices made, in order, each naming the issue it was made for |
| `Sorting.SortSorts` | packages/cli/scripts/agentwatch-replay.ts:286-288 | The sort the picks start from is sorted and keeps every call |
| `Sorting.SortIsStable` | packages/cli/scripts/agentwatch-replay.ts:286-288 | Items that tie keep the order they came in |
| `Moments.Place` | packages/cli/scripts/agentwatch-replay.ts:397-406 | The map of open moments gives every judgment the key of the moment it joins |
| `Moments.Newest` | packages/cli/scripts/agentwatch-replay.ts:452-454 | The fold gives every moment its newest time |
| `Moments.ChainMoments` | packages/cli/scripts/agentwatch-replay.ts:396-455 | Every row carries its moment's key and newest time |
| `Moments.SameMomentIffUnbroken` | packages/cli/scripts/agentwatch-replay.ts:404-406 | Two judgments of one kind and subject share a moment if and only if no consecutive gap between them exceeds the quiet window |
| `Moments.KeyIsItsFirst` | packages/cli/scripts/agentwatch-replay.ts:403-406 | A moment is named by the time of its first judgment, which opens it and which none of it precedes |
| `Moments.OtherSubjectsOtherMoments` | packages/cli/scripts/agentwatch-replay.ts:403-405 | Judgments of different kinds or subjects never share one |
| `Moments.EventAtIsNewest` | packages/cli/scripts/agentwatch-replay.ts:452-455 | A moment's time is its newest judgment's if and only if that is not before the epoch, else the epoch |
| `EdgeCache.PolicyIsWhatIsLeft` | infra/artifact-edge/worker.js:51-59 | max-age plus stale-while-revalidate is exactly what is left of the bound in whole seconds, pinned or not |
| `EdgeCache.EveryCopyIsExact` | infra/artifact-edge/worker.js:119-155 | In every run the last use of an answer that may be kept lies exactly the dropped fraction of its age past the bound, or as long past it as storing it took; its stamp is when its body was fetched; and it came from the cache only while fresh, or stale within the bound |
| `EdgeCache.ScopeIsTheRequests` | infra/artifact-edge/worker.js:112-155 | In every run an answer is public if and only if anyone may make its request, private if and only if that carried a gate token, and no-store for the rest and for statuses never stored |
| `EdgeCache.GatedBodiesStayBehindTheGate` | infra/artifact-edge/worker.js:119-126 | In every run a body fetched for a gated or live request is given only to requests of that kind, and is never held or being stored |
| `EdgeCache.EveryRequestIsAnsweredOnce` | infra/artifact-edge/worker.js:119-155 | In every run each request has one answer, or an error, or a fetch that waits for it, and never two of these |
| `EdgeCache.FetchedBodyIsServed` | infra/artifact-edge/worker.js:133-147 | A body worth keeping is stored whatever happens meanwhile, and once kept answers every request until the bound has passed, it is lost or a newer one is kept |
| `EdgeCache.BoundHoldsExactly` | infra/artifact-edge/worker.js:119-155 | A body a browser may still use is less than FRESH + STALE + 1 seconds old if and only if it came from the cache or took no more than a second to be put there |
| `EdgeCache.SlowStoreOverruns` | infra/artifact-edge/worker.js:135-155 | A run in which a slow store lets a waiting viewer use the body past the bound |
| `EdgeCache.NobodyWaitsWithinTheBound` | infra/artifact-edge/worker.js:145-153 | Within the bound every request anyone may make is answered from the held copy at once, and a refresh is begun exactly behind a stale answer |
| `ChunkPool.PoolReadsInOrder` | infra/replay-player/src/player.ts:149-160 | Whatever the lanes and their interleaving, the pool answers the concatenation in URL order when every stream and the whole capture fit and nothing goes wrong, else rejects; everything is asked for, or a read fails, if and only if there is a lane or nothing to read |
| `ChunkPool.EachUrlOnce` | infra/replay-player/src/player.ts:149-159 | At every moment exactly min(parallel, n) lanes, none done before every URL is taken, each URL fetched once, in order, by one lane, and accepted bytes within the capture's cap until a lane fails |
| `ChunkPool.EveryTurnIsProgress` | infra/replay-player/src/player.ts:153-158 | Every turn of every lane brings the end nearer |
| `ChunkPool.StepInv` | infra/replay-player/src/player.ts:110-160 | A part or an end, on any lane, keeps every taken URL with its lane or wholly read, and the byte count exact |
| `ChunkPool.Reader.PartArrives` | infra/replay-player/src/player.ts:114-123 | A part arriving, in place: counted for its stream and for the capture, refused past either cap |
| `ChunkPool.Reader.ChunkEnds` | infra/replay-player/src/player.ts:153-158 | A chunk's end, in place: kept at its index, the next URL taken |
| `ChunkPool.ReadCapped` | infra/replay-player/src/player.ts:110-132 | A stream's bytes are all of them, in one array, if and only if the whole stream and the capture at its last part are within their caps; else the refusal comes at the first part past one |
| `ChunkPool.OverStays` | infra/replay-player/src/player.ts:117-119 | Once past a cap, past it at every later part |
| `ChunkPool.CurrentIsItsStream` | infra/replay-player/src/player.ts:110-119 | What is held to a chunk's cap is the bytes since the last stream began, and the inflated bytes are a stream of their own |
| `ReplayClock.ClampIsTheNearest` | infra/replay-player/src/clock.ts:25 | A clamped time is in range, itself if it was, else the nearest in range |
| `ReplayClock.MapsAreMonotone` | infra/replay-player/src/clock.ts:35-36 | Both maps are in range and keep order, with the end offset as the largest |
| `ReplayClock.SameMoment` | infra/replay-player/src/clock.ts:31-36 | A recorded moment of the replay is the same moment on both clocks, and its time leads back to its offset |
| `ReplayClock.LengthIs` | infra/replay-player/src/clock.ts:32-34 | The replay is as long as its row says, if that is positive, else it ends where the recording does |
| `ReplayClock.OffsetIsTheNearest` | infra/replay-player/src/clock.ts:35 | The offset of a time is where its nearest recorded time lies; a time in the replay was recorded exactly if it is its own nearest |
| `ReplayClock.OffsetsAreStable` | infra/replay-player/src/clock.ts:35-36 | Offset to clock to offset is the offset, for every time, lead and length |
| `ReplayClock.TimeComesBack` | infra/replay-player/src/clock.ts:35-36 | A time comes back as itself if and only if it was recorded, or is the end before the recording began, or the start after it ended |
| `ReplayClock.EndReadsAsTheNearerEnd` | infra/replay-player/src/clock.ts:32-37 | The end offset reads as the nearer of the replay's end and the recording's |
| `Player.HostIsToldTheTruth` | infra/replay-player/src/player.ts:330-419 | In every run every posted time is in [0, duration], the last posted state is the player's own, and the last posted time says whether it plays and, while it does not, where it stands |
| `Player.PlayingEndsAtTheFirstTick` | infra/replay-player/src/player.ts:402-410 | A player past its end plays on until the first tick and no longer, and then stands drawn at the end |
| `Player.PlaysUpToItsEnd` | infra/replay-player/src/player.ts:402-411 | Before its end no tick stops it |
| `Player.PlayAtTheEndStartsAgain` | infra/replay-player/src/player.ts:338-341 | Played at its end the replay starts again, and survives the next tick if and only if it has anything to play |
| `Player.SeekReports` | infra/replay-player/src/player.ts:338-347 | What a seek to any time posts: the nearest recorded time while playing (from the end, the start), a millisecond more while paused, within the replay |
| `Player.SeeksLand` | infra/replay-player/src/player.ts:338-347 | A seek keeps playing or paused what it does not ask to change, and lands on the nearest recorded time; scrubbing is a seek that pauses |
| `Player.PlayAndPauseStay` | infra/replay-player/src/player.ts:338-383 | Pausing stands still, playing goes on from there unless it is the end, the button does whichever the player is not doing, and a change of speed changes nothing else |
| `Player.TicksReport` | infra/replay-player/src/player.ts:402-411 | While it plays every tick tells the host the time; while paused none says anything |
| `Player.OpensAtItsStart` | infra/replay-player/src/player.ts:413-417 | A player opens paused where it was asked to start, or at the replay's zero, and says so first of all |
| `Player.PausedSeekIsExact` | infra/replay-player/src/player.ts:251-347 | A paused seek to any time posts that time if and only if it is the replay's end, which the recording reaches to within a millisecond, or a millisecond past the recording's end, or the start when the recording ended a millisecond before it |
| `Player.Controls.Set` | infra/replay-player/src/player.ts:338-346 | `setPlaying`, in place: proved equal to the step that the lemmas about whole runs speak of |
| `Player.Controls.OnInterval` | infra/replay-player/src/player.ts:402-411 | The interval's callback, in place: proved equal to the step that the lemmas about whole runs speak of |
| `ShareCursors.SanitizeCursors` | packages/electron/shareCursors.js:33-42 | The loop keeps the drawable cursors of the first 24, cleaned, in order |
| `ShareCursors.SanitizedIsNeat` | packages/electron/shareCursors.js:33-42 | At most 24, each named and inside the frame; none exactly when none of the first 24 can be drawn |
| `ShareCursors.SanitizedInOrder` | packages/electron/shareCursors.js:33-42 | Each drawable one among the first 24 is given in order: its id, its name up to 80, and the point nearest its own inside the frame |
| `ShareCursors.ScreenIsItsDisplay` | packages/electron/shareCursors.js:50-57 | A screen is where the display of its id is, the id that came with it or else the one it is named by; nowhere exactly if there is none |
| `ShareCursors.WindowIsItsFrame` | packages/electron/shareCursors.js:58-61 | A window is where the window system has the frame of its number, rounded to the nearest, exactly while that is on screen and not empty |
| `ShareCursors.EveryStateIsSound` | packages/electron/shareCursors.js:67-157 | In every reachable state the poll runs exactly while cursors point at a shared window, cursors have an owner who shares, and the glass is up only with cursors and a placed rectangle, drawing those cursors |
| `ShareCursors.CursorsAreTheLastSent` | packages/electron/shareCursors.js:117-157 | In every run the cursors are those of the renderer that last pointed at a share of its own, as last sent, until it sends none or is gone; each renderer's share is the one last picked for it |
| `ShareCursors.PlacedWhereTheShareIs` | packages/electron/shareCursors.js:86-157 | Whenever a renderer points, or the pointing one picks another share, the rectangle is where that share is then, and the glass is up exactly if it is anywhere |
| `ShareCursors.PollFollowsTheWindow` | packages/electron/shareCursors.js:109-113 | After a poll the rectangle is the window's frame then, and the glass is up exactly if it has one: if and only if the glass was not destroyed over an unmoved window |
| `ShareCursors.PollsBringNothingBack` | packages/electron/shareCursors.js:109-113 | A glass destroyed over a window that stays is not brought back by any number of polls |
| `ShareCursors.StepCovers` | packages/electron/shareCursors.js:86-157 | A step leaves the glass over the share if and only if it does not replace a destroyed glass at an unchanged place |
| `ShareCursors.GlassCoversTheShare` | packages/electron/shareCursors.js:86-157 | In every run in which no glass is destroyed, the glass lies over the share whenever it is up |
| `ShareCursors.ReplacedGlassIsElsewhere` | packages/electron/shareCursors.js:97-103 | A run in which a replaced glass is shown but never moved over the share |
| `ShareShell.Shell.PlaceGlass` | packages/electron/shareCursors.js:86-104 | `place`, in place: proved equal to the step that the lemmas about whole runs speak of |
| `ShareShell.Shell.Pick` | packages/electron/shareCursors.js:117-127 | `setSource`, in place: proved equal to the step that the lemmas about whole runs speak of |
| `ShareShell.Shell.Drop` | packages/electron/shareCursors.js:129-136 | `forget`, in place: proved equal to the step that the lemmas about whole runs speak of |
| `ShareShell.Shell.Point` | packages/electron/shareCursors.js:139-157 | `update`, in place: proved equal to the step that the lemmas about whole runs speak of |
| `ShareShell.Shell.PollCallback` | packages/electron/shareCursors.js:109-113 | The poll timer's callback, in place: proved equal to the step that the lemmas about whole runs speak of |

## Left out

- SeqDiff.Diff: strings are sequences of Dafny characters, each standing for one UTF-16 unit; `===` on them is sequence equality.
- WordDiff.SimilarityIsOneForEqualTexts: the share is a real number; rounding of the JavaScript quotient is not modelled.
- UnifiedDiff.Parse: line numbers and counts are natural numbers; digits past 2^53 lose precision in JavaScript and not here.
- GitRoundTrip.RoundTrip: speaks of text diffs with names git does not quote; binary patches, quoted names and combined diffs are not printed by the model. Bare hunks come first, and a file under path lines alone follows one with hunks, since after a file without hunks those lines would name that file.
- ChangedLines.ParseAddedLines: `JSON.parse` of a quoted path is a parameter, so any quoting is covered; GateExact.QuotedPathIsRead says what follows for each answer it can give.
- GateExact.GateBlamesExactly: the files of one diff name distinct paths, as git's do; two files under one path would pool their ranges.
- GitRoundTrip.ParsePrinted: the rows of a hunk whose context holds a line terminator are not followed to where they end up; GitRoundTrip.RoundTrip says such a diff is never read back.
- Bridge.StepInv: the HMAC and the URL parser are uninterpreted functions; a welcome that also carries a numeric id counts as a welcome only.
- BridgeWorker.Worker.OnMessage: an op's own effects (`handle`) are its beginning and its reply; the parsing of the message and its text are not modelled.
- Bridge state kept out: the notes for the host log, the badge and its texts, the release of debugged tabs on close, the worker's own debugger session (`holdSelf`), the keeper page, the end of the worker process.
- BannerGate.AdmitKeeps: `deliver` returns before anything else happens; a callback that re-enters the gate is not modelled, nor is one that throws.
- BannerShell.Shell.Admit: whether a focused window already shows the banner's entity is a boolean input (`notificationRoute`, `showsBannerEntity`, `sameEntity`), and the key made from title, body and route is a string input.
- BannerRuns.HeldBannerIsLostExactly: a grace timer may fire at any time here; that it fires no earlier than its delay is not used.
- PaletteRuns.LastShownIsPainted: the page confirms every request and names the face, as current pages do; for other pages PaletteFace.RevealsExactly and PaletteFace.SilentRepeatSettles speak of the shell alone.
- PickCalls.ChoiceIsRight: the distance of two calls is any function of them, so the logarithms and their rounding do not matter; `localeCompare` of ids is a number's order.
- PickCalls.RoundAttempts: shares are exact reals; a JavaScript share such as 0.1 is the nearest double.
- Sorting.SortSorts: the engine's sort is an insertion sort here; both are stable.
- Moments.SameMomentIffUnbroken: a key is a tuple; a kind or subject that holds the separator characters could make two keys one string.
- EdgeCache.BoundHoldsExactly: times are milliseconds of one clock; the network's delay and the browser's own clock come on top.
- Edge cache parts kept out: address parsing, which parameters make a request gated, live or pinned, statuses that are never stored, the rewriting of redirects, and a runtime without a cache; of what kind a request is and whether a body may be stored are inputs.
- ChunkPool.PoolReadsInOrder: inflating and parsing a chunk are its inputs (its parts, and its events or None); a lane that fails takes no further part, as in the code, though the fetches themselves are not cancelled there either.
- ReplayClock.TimeComesBack: times are reals; rounding of doubles is not modelled.
- Player.HostIsToldTheTruth: the replayer stands where it was told to play from or pause at, moves on only while playing, and stops when it says it finished; rrweb's own timers, the frame mode, layout, keyboard and page opt-ins are not part of this model.
- ShareCursors.ReplacedGlassIsElsewhere: a new window's own place is taken as no bounds, since the code gives it none.
- ShareCursors.EveryStateIsSound: nobody but this code shows or hides the glass; it can be destroyed at any time.
- Decision kit drawing: threads, tables, folds, captions and the reflow of prose would add DOM code and no property across functions.
- Gate commands: running git, ESLint and the compiler, and the parsing of their reports.
- The database, HTTP posting and state files of the replay script.
