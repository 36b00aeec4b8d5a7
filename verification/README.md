# A verified model of CameoDB

Dafny models of the parts of CameoDB whose correctness is a statement about every input or every run, with
the proofs. `dafny verify dfyconfig.toml` checks them. Pure code is modelled by functions and lemmas; code
that changes state by methods and classes proved against those functions; concurrent code as a state machine
with one atomic step per critical section, and theorems over every sequence of steps.

| files | component |
|---|---|
| `RetentionWalk`, `RetentionWindows`, `RetentionSelect`, `RetentionDelete`, `RetentionPipeline`, `Calendar` | `retention_prune.py`: the keyset walk, the windows, select and resume, resumable deletion, and the id file between the two |
| `Guesser`, `LexiconTables` | the Croatian lemmatizer: training, pruning, compiling to tables, and the runtime that reads them |
| `SessionRegistry`, `InFlight`, `SessionLifetimes` | MCP sessions: eviction, sweeping, listeners, the in-flight requests of one session, and both together |
| `IndexScope`, `KeyLoader`, `RouteTable`, `Gate` | key scopes, the key loader, the route table and the decision on a request |
| `AuditRollups`, `AuditTrail`, `AuditFiles`, `AuditedRequests` | the audit writer: totals, the queue and its losses, the ring, the rotating files, and what the gate hands it |
| `HashRing` | the consistent hash ring |
| `Wrappers`, `Sets`, `Text` | shared helpers |

## Where a property fails, and exactly when it holds

Each is stated with the exact condition under which the property holds, most with a concrete counterexample.

- `select` probes for the oldest hit with a limit of one. If that entry has no body, it reports that nothing is
  older than the cutoff, whatever lies behind it (`RetentionSelect.ProbeFindsAll`, `ProbeMissesDocument`).
- A `.done` marker is found by its window's start alone. After a change of `--window-max-docs` the part file may
  be that of another window (`KeptFilesExact`). One that ended earlier loses documents and the check for a mismatch
  never notices (`KeptFilesComplete`, `MarkerLosesDocument`); one that ended later repeats them, and the check notices
  exactly when they outnumber the window's body-less entries (`LongerFilesComplete`, `LongerFileNoticed`,
  `MarkerRepeatsDocument`).
- An id that is empty, holds a line's end or changes when stripped is not what `delete` reads back from the file
  `select` wrote; one with a line's end sends two other ids (`SentAreListed`, `BrokenIdSendsOthers`).
- A legacy MCP session is stamped before the registry's lock is taken. Its stamp may be older than the activity
  of the session evicted for it, so "the idlest goes" fails (`OrderIffStamped`, `EarlyStampBreaksOrder`).
- A request id reused while a task with that id is outstanding breaks the in-flight map: the older request is
  never cancelled, or the newer one is taken out by the older one's guard (`StartIsSafe`, `ReuseOutlivesSession`).
- "Loss is admitted, never silent" fails around shutdown: records queued behind the shutdown message, and drops
  counted after the counter's last reading, are in no line of the trail. A record refused long before may be counted
  that late, since refusing and counting are two steps (`LossIsTold`, `SilentLoss`, `CountedTooLate`).
- A restart with a lower `max_files` leaves higher-numbered files behind; the next rotation discards a file from
  the middle of the trail (`SuffixIffRoomy`, `LoweredRestartLosesLine`).
- `first_outside` misses inclusion for a scope that spells a prefix out, allowing the bare name and every way to go on
  without covering the prefix. Whatever index names there can be, it is exact for every other scope
  (`CompleteUnlessSpelledOut`; `GrantCheckExact` for grants, `AcceptedGrantCheckExact` for the names the node accepts).
  Over all strings of an alphabet that takes more patterns than there are letters (`FewPatternsAreComplete`,
  `OnePatternMoreIsIncomplete`); among the accepted names, after a dot, as many as there are letters
  (`DotIsSpelledOut`).

## Model

| member | source | states |
|---|---|---|
| `RetentionWalk.FetchWindow` | scripts/ops/retention_prune.py:206-238 | Against any server that answers each request with some timestamp-sorted first page, tie order changing from request to request: a walk that returns has listed every readable document of the window exactly once. A window that does not fill a page is walked if and only if each of its readable documents is named, body-less entries or not; a larger one whenever its documents are named, of one date each and spread out; and where every entry is readable, named and single-valued, if and only if no second holds a full page. A failure is that of a page it was answered with. The cursor strictly rises, so it terminates |
| `RetentionWalk.TakePage` | scripts/ops/retention_prune.py:212-236 | Told from the page's entries, body-less ones counting for its size only: it fails if and only if a readable entry has no id, or the page is full and has no readable entry, a multi-valued one, or all of them in one second, each with its own error; it finishes, with the whole window listed, if and only if it does not fail and the page is short; otherwise the cursor strictly rises with the invariant kept |
| `RetentionWalk.CollectFresh` | scripts/ops/retention_prune.py:214-220 | Fails exactly when some hit has no id; otherwise the ids not on the boundary, in order |
| `RetentionWalk.FullPageAdvances` | scripts/ops/retention_prune.py:228-236 | After a full page over two seconds, what is written is exactly what the new cursor and boundary say is done |
| `RetentionWalk.ShortPageEnds` | scripts/ops/retention_prune.py:226-227 | After a page short of the limit, every readable document of the window is listed once |
| `RetentionWalk.SecondsPassed` | scripts/ops/retention_prune.py:231-236 | A second the cursor has passed held fewer entries than a page |
| `RetentionWalk.SpreadOutGoesOn` | scripts/ops/retention_prune.py:226-236 | Where every stretch that fills a page has documents at two seconds before its last one, and they are named and single-valued, no page can stop the walk, whatever the tie order and wherever the body-less entries fall |
| `RetentionWalk.ShortWindowStops` | scripts/ops/retention_prune.py:214-227 | A window that does not fill a page is stopped by a nameless document alone |
| `RetentionWindows.SplitPartitions` | scripts/ops/retention_prune.py:187-195 | Bisection of any range, reversed ones included, terminates in windows that are in order, disjoint, non-empty, no larger than the limit or no wider than an hour, hold every entry, and whose counts add up to the range's |
| `RetentionWindows.PartitionJoin` | scripts/ops/retention_prune.py:195-195 | Windows of two adjacent ranges, put together, are windows of the whole |
| `RetentionWindows.MonthStarts` | scripts/ops/retention_prune.py:174-178 | Every month from the first on that begins before the end, none skipped, reached by the source's year and month arithmetic |
| `RetentionWindows.MonthEdges` | scripts/ops/retention_prune.py:197-198 | Each of those months clipped to the range |
| `RetentionWindows.MonthsTile` | scripts/ops/retention_prune.py:197-198 | The clipped months tile the range without gap or overlap |
| `RetentionWindows.WindowsPartition` | scripts/ops/retention_prune.py:181-202 | On any calendar the windows of a selection partition its range |
| `RetentionWindows.BuildWindows` | scripts/ops/retention_prune.py:181-202 | On the Gregorian calendar, from the month of the lower bound: the windows partition the range, and depend on nothing but the index, the range and the limit |
| `Calendar.GregorianIsCalendar` | scripts/ops/retention_prune.py:174-178 | Gregorian month starts strictly increase, so the month loop ends |
| `Calendar.MonthAt` | scripts/ops/retention_prune.py:175-175 | Every second from year 1 on is in the month found for it |
| `Calendar.Advance` | scripts/ops/retention_prune.py:178-178 | The loop's year and month arithmetic steps to exactly the following month |
| `RetentionSelect.ProbeFindsAll` | scripts/ops/retention_prune.py:248-253 | The automatic lower bound loses no document if and only if the entry the probe was answered with has its body, or there was no document at all |
| `RetentionSelect.ProbeMissesDocument` | scripts/ops/retention_prune.py:248-253 | Two entries for which a live document is reported as nothing |
| `RetentionSelect.AssembledLists` | scripts/ops/retention_prune.py:299-306 | Part files that each list their window concatenate to every document of the range once |
| `RetentionSelect.KeptFilesExact` | scripts/ops/retention_prune.py:268-276 | With part files walked for other windows, the assembled file is right if and only if those windows share no document and hold together exactly those of the range |
| `RetentionSelect.KeptFilesComplete` | scripts/ops/retention_prune.py:268-297 | With part files of windows that ended earlier, right if and only if the stretches left out hold no document; the mismatch check never fires on them |
| `RetentionSelect.MarkerLosesDocument` | scripts/ops/retention_prune.py:268-276 | Two documents two hours apart, split at limits one and two: the second run keeps the first one's file by its start and loses a document, unnoticed |
| `RetentionSelect.LongerFilesComplete` | scripts/ops/retention_prune.py:268-297 | With part files of windows that ended later, right if and only if no document lies beyond a window |
| `RetentionSelect.LongerFileNoticed` | scripts/ops/retention_prune.py:284-290 | The mismatch check notices such a file if and only if the documents beyond its window outnumber the window's body-less entries |
| `RetentionSelect.MarkerRepeatsDocument` | scripts/ops/retention_prune.py:268-306 | Two documents and a body-less entry, split at limits three and two: the second run keeps the first one's file, unnoticed, and assembles a document twice |
| `RetentionSelect.WorkWindow` | scripts/ops/retention_prune.py:268-276 | Keeps a finished part file or walks the window; every part file left behind lists its window. It goes through whenever there is a part file or nothing in the window stops a walk |
| `RetentionSelect.WorkWindows` | scripts/ops/retention_prune.py:278-290 | Across interrupted runs no finished part file is changed or lost, and a run that gets through has one per window; it gets through whenever each window has a part file or can be walked |
| `RetentionSelect.SelectionComplete` | scripts/ops/retention_prune.py:284-315 | The ids written and the body-less entries add up to the count, and no window yields more ids than counted |
| `RetentionSelect.WalkablePart` | scripts/ops/retention_prune.py:268-276 | What makes a range walkable whatever the server does makes every part of it so |
| `RetentionSelect.NamedInWindows` | scripts/ops/retention_prune.py:278-290 | Every document of the range is named if and only if those of each window are |
| `RetentionSelect.SelectWindows` | scripts/ops/retention_prune.py:256-306 | For one window list: what is left can be resumed from, a written file lists every readable document once, and a mismatch is never reported on an index that holds still. A file is written whenever each window has a part file or can be walked; with windows that do not fill a page, if and only if every readable document of the range is named |
| `RetentionSelect.SelectRange` | scripts/ops/retention_prune.py:256-306 | The same from the range alone, windows included, resuming from whatever part files match them |
| `RetentionSelect.Select` | scripts/ops/retention_prune.py:241-317 | The whole command, on part files earlier runs of the same arguments left: stops for want of a start exactly when the probe finds none, stops at the count exactly when it is zero; otherwise a file it writes lists every readable document from that start once, and it writes one whenever nothing in the range stops a walk, body-less entries or not; it keeps every part file and leaves ones the next run can resume from |
| `RetentionSelect.SameStart` | scripts/ops/retention_prune.py:248-253 | Two probes that both find a start find the same one, whatever the tie order |
| `RetentionSelect.SelectTwice` | scripts/ops/retention_prune.py:241-317 | A second run with the same arguments, other servers and another probe resumes from the first one's parts and keeps them all |
| `RetentionDelete.Batches` | scripts/ops/retention_prune.py:321-336 | The batches concatenate to exactly the non-blank ids after `skip`, none empty, all but the last of the asked size, for every size and skip, negative ones included |
| `RetentionDelete.ProgressIsDeleted` | scripts/ops/retention_prune.py:339-368 | Over any sequence of interrupted runs, workers finishing in any order and the batch size free to change: every id the progress file counts has been confirmed deleted |
| `RetentionDelete.DeletesOnlyListed` | scripts/ops/retention_prune.py:339-368 | In every state of every such sequence nothing but ids of the file has been deleted |
| `RetentionDelete.StartsAtProgress` | scripts/ops/retention_prune.py:341-355 | A run begins at the number in the progress file, at the first id with `--restart`, with nothing sent and nothing counted |
| `RetentionDelete.CountIsWritten` | scripts/ops/retention_prune.py:359-363 | A batch counted moves the progress file past exactly its ids |
| `RetentionDelete.ProgressIsWritten` | scripts/ops/retention_prune.py:359-363 | In every state a run that has counted a batch has its total in the progress file, and has counted confirmed batches only |
| `RetentionDelete.ResumesAfterStop` | scripts/ops/retention_prune.py:341-355 | Wherever a run was stopped, the next begins at what it had counted |
| `RetentionDelete.RefusalHolds` | scripts/ops/retention_prune.py:347-363 | As long as the run lasts a refused batch is never counted, nor any after it |
| `RetentionDelete.RunFinishes` | scripts/ops/retention_prune.py:339-368 | From any state between two runs, a run over the rest of the file whose batches are confirmed ends with every id counted and deleted |
| `RetentionDelete.WholeRunDeletesAll` | scripts/ops/retention_prune.py:357-368 | A run given the whole rest of the file that has counted every batch has deleted every id |
| `RetentionPipeline.SentAreListed` | scripts/ops/retention_prune.py:299-336 | The ids `delete` reads back are the ids `select` listed, each and in order, if and only if none is empty, holds a line's end or changes when stripped |
| `RetentionPipeline.OnlyPlainSent` | scripts/ops/retention_prune.py:321-336 | Whatever the file holds, every id sent is of that kind |
| `RetentionPipeline.BrokenIdSendsOthers` | scripts/ops/retention_prune.py:321-336 | An id with a line's end inside sends its two halves instead |
| `RetentionPipeline.SelectedIsDeleted` | scripts/ops/retention_prune.py:241-368 | Both commands: never anything but the selected documents is deleted, and all of them once a whole run is counted |
| `RetentionPipeline.SelectedGetsDeleted` | scripts/ops/retention_prune.py:241-368 | And one run that is not interrupted deletes exactly the selected documents, whatever the batch size |
| `Guesser.RewriteRoundTrip` | tools/hr-lexicon/guesser.py:20-24 | The form ends with what is stripped, stripping and adding gives the lemma, and nothing shared is rewritten |
| `Guesser.MakeRewrite` | tools/hr-lexicon/guesser.py:20-24 | The loop stops at the longest common prefix |
| `Guesser.Train` | tools/hr-lexicon/guesser.py:28-41 | A context is kept exactly when enough pairs vote under it, and holds the rewrite with most votes, the first voted for on a tie |
| `Guesser.CountPair` | tools/hr-lexicon/guesser.py:32-36 | One pair votes once under each suffix of its form that covers the stripped part, and nowhere else |
| `Guesser.MostCommon` | tools/hr-lexicon/guesser.py:41-41 | The winner has more votes than anything before it and as many as anything after |
| `Guesser.KeepWinners` | tools/hr-lexicon/guesser.py:38-41 | Exactly the supported contexts are kept, each with its winner |
| `Guesser.TrainedStripsWithin` | tools/hr-lexicon/guesser.py:28-41 | Every kept context ends with the part its rewrite strips, so storing the length alone loses nothing |
| `Guesser.FindLemma` | tools/hr-lexicon/guesser.py:43-50 | The loop answers what the longest applicable suffix decides |
| `Guesser.LongestDecides` | tools/hr-lexicon/guesser.py:43-50 | The longest suffix within the limit that holds a fitting rewrite decides; where none does the word is left alone |
| `Guesser.WalkPicks` | tools/hr-lexicon/guesser.py:43-50 | The answer is the word rewritten by one applicable rewrite, or the word itself |
| `Guesser.Prune` | tools/hr-lexicon/guesser.py:52-62 | The loop keeps exactly the contexts that decide something |
| `Guesser.PrunedIs` | tools/hr-lexicon/guesser.py:52-62 | A context goes exactly when its nearest shorter one has the same rewrite, or there is none shorter and its rewrite changes nothing |
| `Guesser.EveryKeptDecides` | tools/hr-lexicon/guesser.py:52-62 | Nothing kept is idle: dropping any one context of a pruned trained table changes the answer to some word, as long as one letter is left that no longer context has before it |
| `Guesser.TrainedIsCanonical` | tools/hr-lexicon/guesser.py:28-41 | A trained rewrite never puts back the letter it cut first, so different rewrites give different words |
| `Guesser.DroppedChangesNothing` | tools/hr-lexicon/guesser.py:57-60 | A dropped context makes no difference to the walk at its length |
| `Guesser.PruningKeepsAnswers` | tools/hr-lexicon/guesser.py:52-62 | For every table and word the walk over the pruned table gives the same answer, chains of dropped contexts and dropped identities included |
| `LexiconTables.CompileModel` | tools/hr-lexicon/build.py:40-69 | Train, prune, pack and read back: whenever the build goes through, every word, known or not, is answered as the lexicon and the trained guesser answer it; it is refused exactly when a correction strips 128 characters or more |
| `LexiconTables.BuildTables` | tools/hr-lexicon/build.py:40-69 | The tables hold exactly the forms the guesser gets wrong and the contexts that decide, each rewrite readable; refused exactly when one strips too much |
| `LexiconTables.CompiledAnswersAsModel` | tools/hr-lexicon/lexicon.py:74-75 | For every word the compiled tables answer what the model answers |
| `LexiconTables.ReaderGuesses` | crates/storage/src/analysis/croatian/mod.rs:133-162 | A word that is no exception comes out of the packed, reversed, pruned contexts as the guesser has it |
| `LexiconTables.ReaderPicks` | crates/storage/src/analysis/croatian/mod.rs:133-162 | The reader stops at a code for the very rewrite the guesser stops at |
| `LexiconTables.LastMetDecides` | crates/storage/src/analysis/croatian/mod.rs:156-161 | The last of the hits met shortest first that leaves a stem is the longest context that does |
| `LexiconTables.WalkReversed` | crates/storage/src/analysis/croatian/mod.rs:140-155 | Stopping where the automaton runs dead misses no context |
| `LexiconTables.DeadEnd` | crates/storage/src/analysis/croatian/mod.rs:142-149 | Past a dead end no longer context of the word is in the table |
| `LexiconTables.Find` | crates/storage/src/analysis/croatian/mod.rs:129-162 | An exception, else the longest context that leaves a stem |
| `LexiconTables.Warm` | crates/storage/src/analysis/croatian/mod.rs:117-124 | The cache holds the lookup's own answers, for exactly the hot forms |
| `LexiconTables.Stem` | crates/storage/src/analysis/croatian/mod.rs:184-192 | Cached or not, a token becomes what the source model answers |
| `LexiconTables.CountUses` | tools/hr-lexicon/build.py:46-48 | Each string to add is counted once per rewrite that adds it |
| `LexiconTables.OrderAdds` | tools/hr-lexicon/build.py:49-49 | Every needed string once, most used first, ties in the given order |
| `LexiconTables.NumberAdds` | tools/hr-lexicon/build.py:50-50 | Each string's number is its place |
| `LexiconTables.PackAdds` | tools/hr-lexicon/fstbuild/src/main.rs:30-45 | The offsets cut the packed text back into exactly those strings |
| `LexiconTables.Encode` | tools/hr-lexicon/build.py:52-56 | Every code gives back its strip length and its string's number; refused exactly when some rewrite strips 128 or more |
| `SessionRegistry.RunsAreSound` | crates/mcp/src/session.rs:99-214 | In every run the registry stays within its cap, and a live session's listener count is the number of its guards still to run, so the saturating subtraction never saturates |
| `SessionRegistry.SweepInRun` | crates/mcp/src/session.rs:287-299 | At any point of any run a sweep keeps every connected session and keeps a disconnected one if and only if it was active within the timeout |
| `SessionRegistry.RegistryIsLru` | crates/mcp/src/session.rs:99-214 | Over any run of creates, claims, listener steps and closing channels, legacy creates stamped before the lock included as long as no stamp is older than the evicted session's activity: the live sessions are those of all ever created that were used last, exactly as many as the cap (at least one) allows. A use is a create, a granted claim or a listener's coming and going while listed, told from the steps and the sessions listed before each |
| `SessionRegistry.LastUseIs` | crates/mcp/src/session.rs:164-214 | The time given for a session is that of a step that used it, and no later step did |
| `SessionRegistry.NeverUsed` | crates/mcp/src/session.rs:164-214 | A session without such a time was used by no step |
| `SessionRegistry.ActivityIsLastUse` | crates/mcp/src/session.rs:99-214 | In every run the times the registry keeps are those of the last uses, refused claims and all other steps leaving them alone |
| `SessionRegistry.ListedSinceLastUse` | crates/mcp/src/session.rs:99-214 | A listed session's last activity is its last use |
| `SessionRegistry.OrderIffStamped` | crates/mcp/src/session.rs:99-214 | That condition is exact: the order holds throughout such a run if and only if every create meets it |
| `SessionRegistry.MostRecentIsOneSet` | crates/mcp/src/session.rs:306-319 | Under a strictly increasing clock no other set of that size holds the last used |
| `SessionRegistry.OnlyCreatorContinues` | crates/mcp/src/session.rs:478-485 | At any later point of any run a claim is granted if and only if the session is live and was created by nobody identified or by this very caller |
| `SessionRegistry.LeavesIffEnded` | crates/mcp/src/session.rs:137-157 | A listed session leaves the list if and only if it is the victim of a create at the cap, removed by its owner, forgotten, swept idle and unconnected, or the server shuts down |
| `SessionRegistry.EndedIsUnknown` | crates/mcp/src/session.rs:137-157 | However it ended, it is unknown to every caller at every later point of the run |
| `SessionRegistry.ClosedChannelStays` | crates/mcp/src/session.rs:471-476 | A push channel once closed holds its session open no more |
| `SessionRegistry.CreateKeepsOrder` | crates/mcp/src/session.rs:120-133 | A create keeps the order if and only if its stamp is no older than the evicted session's activity |
| `SessionRegistry.EarlyStampBreaksOrder` | crates/mcp/src/session.rs:120-133 | A run in which a legacy session stamped before the lock outlives a more recent one |
| `SessionRegistry.Registry.constructor` | crates/mcp/src/session.rs:99-133 | An empty registry is the start of every run |
| `SessionRegistry.Registry.EvictIdlestIfFull` | crates/mcp/src/session.rs:306-319 | A full registry loses one session, with the oldest activity of all; one with room loses none |
| `SessionRegistry.Registry.CreateSession` | crates/mcp/src/session.rs:99-133 | A create is never refused: the new session is listed as asked for, and a full registry loses one of its idlest, no other session changed |
| `SessionRegistry.Registry.ClaimSession` | crates/mcp/src/session.rs:164-178 | Granted to the owner only: then the session's last activity is now and nothing else changes; an unknown or wrong-key claim changes nothing |
| `SessionRegistry.Registry.OpenListener` | crates/mcp/src/session.rs:191-201 | Counts one more listener, active now, if the session still exists, and otherwise changes nothing |
| `SessionRegistry.Registry.CloseListener` | crates/mcp/src/session.rs:208-214 | Takes one listener off and restarts the idle clock; where the session is gone it changes none |
| `SessionRegistry.Registry.RemoveSession` | crates/mcp/src/session.rs:143-157 | Removes that session for the owner, and nothing for anyone else |
| `SessionRegistry.Registry.ForgetSession` | crates/mcp/src/session.rs:137-140 | Removes whoever asks, and says whether there was one |
| `SessionRegistry.Registry.SweepIdle` | crates/mcp/src/session.rs:287-299 | Keeps exactly the sessions connected or active within the timeout, unchanged |
| `InFlight.MapIsRunning` | crates/mcp/src/session.rs:366-463 | Over every interleaving of register, finish, cancel, handle clone and drop, no id reused while outstanding: the map holds exactly the running uncancelled requests, and once nobody holds the map every running request has been cancelled |
| `InFlight.NeverOverBound` | crates/mcp/src/session.rs:436-453 | Ids reused or not, the map never exceeds its bound |
| `InFlight.CancelledStays` | crates/mcp/src/session.rs:456-463 | A token once cancelled stays so |
| `InFlight.CancelIsFinal` | crates/mcp/src/session.rs:456-463 | The token of a request named by a cancel while it is in the map is cancelled at every later point of the run, and the request out of the map at once |
| `InFlight.TokensAreNew` | crates/mcp/src/session.rs:436-453 | In every run each token in use was minted before, so no later request inherits a cancellation |
| `InFlight.StartIsSafe` | crates/mcp/src/session.rs:436-453 | Registering an id keeps the map exact, now and when any earlier task with that id leaves, if and only if it is refused or no task with that id is outstanding |
| `InFlight.ReuseBreaks` | crates/mcp/src/session.rs:397-403 | Reusing the id of an outstanding task breaks the map at once or when that task's guard has run |
| `InFlight.ReuseOutlivesSession` | crates/mcp/src/session.rs:377-383 | A run in which an overwritten request outlives its session uncancelled |
| `InFlight.StepKeeps` | crates/mcp/src/transport.rs:306-369 | Every step, each guard's upgrade and removal apart, keeps the invariant |
| `InFlight.ReleaseKeeps` | crates/mcp/src/session.rs:377-383 | Dropping the map cancels what it holds and so leaves no running request uncancelled |
| `InFlight.CancelAll` | crates/mcp/src/session.rs:377-383 | The loop cancels every token of the map and no other |
| `InFlight.Session.constructor` | crates/mcp/src/session.rs:406-419 | A new session holds nothing, under the registry's one handle |
| `InFlight.Session.StartRequest` | crates/mcp/src/session.rs:436-453 | Refused exactly at the bound, changing nothing; otherwise registered, map and task, under a token never used before, in one step |
| `InFlight.Session.CancelRequest` | crates/mcp/src/session.rs:456-463 | True exactly for a known id, which is then out of the map and its token cancelled; every other entry, token and task stays, and for an unknown id everything does |
| `InFlight.Session.CloneSession` | crates/mcp/src/session.rs:164-178 | A granted claim adds one handle and changes nothing else |
| `InFlight.Session.DropSession` | crates/mcp/src/session.rs:377-383 | One handle less; while another is left nothing else changes, and the last one, no guard in between, drops the map |
| `InFlight.Session.DropMapIfReleased` | crates/mcp/src/session.rs:377-383 | The map goes exactly when nobody holds it, and every token in it is then cancelled |
| `InFlight.Session.EndWork` | crates/mcp/src/session.rs:397-400 | A task's guard gets hold of the map only while the map exists; otherwise the task is gone |
| `InFlight.Session.RemoveAndRelease` | crates/mcp/src/session.rs:397-403 | The guard takes its id and its task out and may be the last to let the map go |
| `SessionLifetimes.GoneIsCancelled` | crates/mcp/src/session.rs:366-403 | Over every run of registry and sessions together: once a session is evicted, swept, removed, forgotten or shut down and no claim of it is held, every task it still runs is cancelled, as soon as no guard is in the middle of its removal |
| `SessionLifetimes.ListedIsServed` | crates/mcp/src/session.rs:164-178 | While a session is listed or claimed its map is there and exact |
| `SessionLifetimes.RunsAreSound` | crates/mcp/src/session.rs:99-178 | A session's handles are the registry's own while it is listed and those of its claims |
| `SessionLifetimes.RegistryRuns` | crates/mcp/src/session.rs:99-214 | The registry's part of such a run is a run of the registry alone, so all of its theorems apply |
| `SessionLifetimes.FlightRuns` | crates/mcp/src/session.rs:164-214 | Each session's part is a run of its own, in which leaving the list and letting a claim go drop a handle and a granted claim adds one, so what holds of such runs holds of every session |
| `SessionLifetimes.ClaimsAreHeld` | crates/mcp/src/session.rs:164-178 | The handles requests hold on a session are the claims granted and not yet let go |
| `SessionLifetimes.GrantedIsHeld` | crates/mcp/src/session.rs:164-178 | A claim that the registry grants is one more of them |
| `SessionLifetimes.HandlesInRun` | crates/mcp/src/session.rs:99-178 | Ids reused or not, a session's handles are the registry's own while it is listed and those of its claims |
| `SessionLifetimes.CancelInSession` | crates/mcp/src/session.rs:456-463 | A cancel by a request that holds the session, at any point of any run, is final |
| `SessionLifetimes.SessionsAreBounded` | crates/mcp/src/session.rs:436-453 | No session's map outgrows its bound |
| `IndexScope.ParseShow` | crates/server/src/auth.rs:357-409 | A pattern reads back as itself exactly when it has no star of its own and a prefix is not empty |
| `IndexScope.ShowParse` | crates/server/src/auth.rs:357-409 | Whatever parses is shown back as it was written |
| `IndexScope.ParseRefuses` | crates/server/src/auth.rs:357-372 | Refused are a star alone and any star that is not at the end, each with its own error |
| `IndexScope.WrittenAre` | crates/server/src/auth.rs:420-426 | The entries of a list that say anything are those left non-empty by trimming |
| `IndexScope.ListIsRead` | crates/server/src/auth.rs:420-433 | A list gives one pattern for each of those entries, in the list's order, or the error of the first that cannot be read |
| `IndexScope.AllowsAsWritten` | crates/server/src/auth.rs:412-438 | A scope allows exactly the names its list says as it is written: an entry itself, or with a star at its end every name that starts so |
| `IndexScope.CoversIsInclusion` | crates/server/src/auth.rs:381-387 | `covers` holds if and only if every name the one matches the other matches |
| `IndexScope.OverlapsIsCommonName` | crates/server/src/auth.rs:390-399 | `overlaps` holds if and only if some name is matched by both |
| `IndexScope.FirstOutside` | crates/server/src/auth.rs:441-447 | None exactly when each inner pattern is covered by one pattern; otherwise one that is not |
| `IndexScope.OverlapWith` | crates/server/src/auth.rs:450-458 | None exactly when no two patterns overlap; otherwise two that do |
| `IndexScope.OverlapIsSharedIndex` | crates/server/src/auth.rs:450-458 | A pair is reported if and only if some index name is allowed by both scopes |
| `IndexScope.NothingOutsideIsIncluded` | crates/server/src/auth.rs:441-447 | Nothing outside implies inclusion of the names allowed |
| `IndexScope.CompleteUnlessSpelledOut` | crates/server/src/auth.rs:441-447 | Whatever set of names there can be, the check is exact for a scope if and only if the scope spells no prefix out |
| `IndexScope.IncludedIsNothingOutside` | crates/server/src/auth.rs:441-447 | For such a scope inclusion of names implies nothing outside |
| `IndexScope.FewPatternsAreComplete` | crates/server/src/auth.rs:441-447 | Over all strings of an alphabet the check is exact for every scope of no more patterns than letters, and for every scope of exact names alone |
| `IndexScope.OnePatternMoreIsIncomplete` | crates/server/src/auth.rs:441-447 | Over any alphabet, a scope of one pattern more for which it fails: the bound is tight |
| `IndexScope.DotIsSpelledOut` | crates/server/src/http_server/catalogue.rs:26-57 | Among the names the node accepts, the bare name and a prefix for every letter but the dot spell a stem out that ends in a dot |
| `KeyLoader.FindOverlap` | crates/server/src/auth.rs:968-978 | Finds a tenant exactly when one already loaded shares an index name |
| `KeyLoader.LoadTenantScopes` | crates/server/src/auth.rs:953-985 | Loads if and only if every list is readable and no index name falls to two tenants |
| `KeyLoader.ResolveOverrides` | crates/server/src/auth.rs:822-871 | Yields the table as listed, every override subtracting on a reachable index; refused exactly when no such table exists |
| `KeyLoader.ResolveParts` | crates/server/src/auth.rs:802-871 | Resolves an entry's scopes and overrides, or no sound key fits the entry whatever the tenants are |
| `KeyLoader.CheckTenant` | crates/server/src/auth.rs:903-928 | Passes the entry on exactly when its list and its overrides stay inside its tenant's scope |
| `KeyLoader.ResolveEntry` | crates/server/src/auth.rs:777-941 | An entry resolves to the one sound key it describes, or none exists |
| `KeyLoader.LoadKeyRing` | crates/server/src/auth.rs:754-947 | Loads if and only if the tenants fit, every entry describes a sound key and no two name one key; the ring is those keys in order |
| `KeyLoader.ReachIsConfigured` | crates/server/src/auth.rs:1201-1206 | A loaded key reaches exactly the names that its own list and its tenant's, where they are given, say |
| `KeyLoader.RoleIsConfigured` | crates/server/src/auth.rs:1170-1175 | On an index with an override the override's role counts, elsewhere the key's own |
| `KeyLoader.TenantsNeverShareAnIndex` | crates/server/src/auth.rs:953-985 | In a loaded ring no index is reachable by keys of two different scoped tenants |
| `KeyLoader.OwnListDecides` | crates/server/src/auth.rs:1201-1206 | A loaded key with its own list is decided by that list alone |
| `KeyLoader.OverridesOnlySubtract` | crates/server/src/auth.rs:1170-1175 | In a loaded ring a capability held on an index is held by the role |
| `KeyLoader.GrantStaysInside` | crates/server/src/auth.rs:1220-1233 | A grant that passes reaches no index its granter cannot reach |
| `KeyLoader.InsideGrantIsGiven` | crates/server/src/auth.rs:1220-1233 | A grant that stays inside passes, as long as the granter's scopes spell no prefix out |
| `KeyLoader.GrantCheckExact` | crates/server/src/auth.rs:1220-1233 | For a loaded key, every grant that stays inside passes if and only if the one scope that decides for the key spells no prefix out, for any names without stars and spaces |
| `KeyLoader.AcceptedGrantCheckExact` | crates/server/src/http_server/catalogue.rs:26-57 | The same for the names the node accepts |
| `RouteTable.JoinSplit` | crates/server/src/authz.rs:222-247 | Splitting at slashes loses nothing |
| `RouteTable.SplitJoin` | crates/server/src/authz.rs:222-247 | Splitting gives back the segments a path was joined from |
| `RouteTable.RoutesApart` | crates/server/src/authz.rs:96-178 | No verb and segments fit two of the 47 rows |
| `RouteTable.NoRequestIsTwoRoutes` | crates/server/src/authz.rs:96-178 | No verb and path of any length match two rows |
| `RouteTable.MatchPattern` | crates/server/src/authz.rs:222-247 | Matches exactly the paths of the pattern, and yields the index segment |
| `RouteTable.TableIsComplete` | crates/server/src/authz.rs:96-178 | The 47 rows, as written and in their order, are all the routes |
| `RouteTable.SpelledIsRoute` | crates/server/src/authz.rs:192-247 | Every route is reached: by each path its pattern spells, whatever non-empty segments are given |
| `RouteTable.IndexNeedsCapability` | crates/server/src/authz.rs:96-178 | Only a route that asks for a capability names an index |
| `RouteTable.Classify` | crates/server/src/authz.rs:203-218 | First match gives one answer whatever order the rows are in |
| `RouteTable.ClassificationIs` | crates/server/src/authz.rs:203-218 | A request that fits a row is classified as that row |
| `RouteTable.SlashesAndHeads` | crates/server/src/authz.rs:192-218 | A trailing slash changes nothing, and a HEAD is classified as the GET |
| `RouteTable.IndexIsItsSegment` | crates/server/src/authz.rs:222-247 | The index is the one non-empty segment at the row's index position, and absent exactly when the row has none |
| `Gate.ByDigest` | crates/server/src/auth.rs:1317-1325 | Finds a key exactly when the ring has one with that digest |
| `Gate.FindKey` | crates/server/src/auth.rs:1303-1313 | Comparing every entry still gives the first match, and nothing for a token that is no key |
| `Gate.Decide` | crates/server/src/authz.rs:657-803 | A disabled node admits everything as such. On an enabled one: without a token a request is admitted, as anonymous, if and only if its route is public; with a loaded ring a key's own token is admitted, as that key, if and only if the role holds what the route asks (reading at the MCP door, nothing on a public route or where there is no route) and, where the path names an index, the key reaches that segment and holds the capability there; an OAuth token if and only if at the MCP door, as the key that granted it and with that client, if that key may read; anything else is refused as invalid |
| `Gate.KeyBodyIs` | crates/server/src/auth.rs:219-226 | A token is read as a key if and only if it is the prefix followed by 43 letters, digits, dashes or underscores |
| `Gate.MintedKeyHolds` | crates/server/src/auth.rs:1303-1313 | A minted key holds its entry of the ring, with any spaces around it |
| `Gate.RoleDecides` | crates/server/src/authz.rs:746-770 | On a route that names no index the role alone decides |
| `Gate.PermitIs` | crates/server/src/authz.rs:742-803 | The checks, one after the other, come to exactly what the key may do |
| `Gate.KeyDecision` | crates/server/src/authz.rs:657-803 | A key's own token gets in as that key, if and only if the key may do what the request asks |
| `Gate.RefusalTells` | crates/server/src/authz.rs:752-800 | A refused key is told which it was: not this role anywhere, not this index, or not this role on this index |
| `Gate.TokenDecision` | crates/server/src/authz.rs:695-717 | An OAuth token gets in at the MCP door alone, as the key that granted it, if and only if that key may read |
| `Gate.StrangerDecision` | crates/server/src/authz.rs:707-731 | Any other token is refused as invalid, on every route |
| `Gate.IndexRouteDecision` | crates/server/src/authz.rs:657-803 | That iff for every verb, path, route and token, OAuth tokens and padded ones included |
| `Gate.AdmittedMay` | crates/server/src/authz.rs:657-803 | Whoever is admitted as a key is in the ring and holds what the route asks, where it asks it; by an OAuth token only at the MCP door and only with reading |
| `Gate.TenantsNeverMeet` | crates/server/src/authz.rs:657-803 | Of any two requests whose paths name one index, both admitted as keys of scoped tenants, the tenant is the same |
| `Gate.AccessTokenIsNoKey` | crates/server/src/auth.rs:219-226 | No OAuth access token is also a key, however it is padded |
| `AuditRollups.FoldAdds` | crates/server/src/audit.rs:342-361 | Folding adds exactly the one record: to all, to its bucket's operations, to its bucket's failures if it failed |
| `AuditRollups.WindowIs` | crates/server/src/audit.rs:342-361 | For any event, key id, index and outcome: a window has a bucket for them if and only if some record has those four fields; its operations are the number of records that do, its failures the number of those with a status of 400 or more |
| `AuditRollups.WindowStarts` | crates/server/src/audit.rs:349-355 | A bucket carries the time, label and role of the first record that has its fields |
| `AuditRollups.TotalsAre` | crates/server/src/audit.rs:368-385 | A drain gives one total for each bucket, as the bucket stands |
| `AuditRollups.PendingOfKey` | crates/server/src/audit.rs:336-361 | The sum over all buckets, for one key, is what that key's bucket says |
| `AuditRollups.TotalsCarryPending` | crates/server/src/audit.rs:368-390 | The totals of a drain carry exactly what was pending, whatever order they come in |
| `AuditRollups.OrderDetermined` | crates/server/src/audit.rs:386-389 | The sorted order is determined if and only if no two buckets differ in outcome alone |
| `AuditedRequests.WindowOrderDetermined` | crates/server/src/authz.rs:997-1006 | No window of the records the gate counts has such a pair, so its totals come in one order |
| `AuditedRequests.FlushOrderDetermined` | crates/server/src/authz.rs:865-957 | In every run whose counted records come from the gate, every flush has exactly one order to write |
| `AuditedRequests.GateNameTells` | crates/server/src/authz.rs:997-1006 | The name a request is counted under tells whether it was let through |
| `AuditedRequests.ListedOrCounted` | crates/server/src/authz.rs:976-1006 | What is let through and neither writes nor is public, and every refusal of a known key, keeps a line of its own; writes, public routes and refusals of nobody known are counted, each under its own name |
| `AuditRollups.KeysOrder` | crates/server/src/audit.rs:386-389 | The comparison is a total preorder whose ties are the keys that differ in outcome alone |
| `AuditRollups.Rollups.Fold` | crates/server/src/audit.rs:342-361 | Counts the record in the bucket of its event, key id, index and outcome, as a failure too from a status of 400 on, opening that bucket if need be, and leaves every other alone |
| `AuditRollups.Rollups.Drain` | crates/server/src/audit.rs:368-390 | One total per bucket, in sorted order, and no bucket left |
| `AuditTrail.RunsAreSound` | crates/server/src/audit.rs:521-645 | Over every interleaving of senders and writer: conservation under every measure, details written verbatim and in order, messages taken in turn, the queue within its bound |
| `AuditTrail.NothingUncounted` | crates/server/src/audit.rs:521-645 | In every reachable state offered = queued + dropped + refused and not yet counted + details written + operations in totals + operations pending; and for any event, key id, index and outcome, the records that have them, and those of them with a status of 400 or more, offered = queued + lost + written in totals + pending; the gaps written add up to the drops reported, never more than were counted |
| `AuditTrail.BucketsAreWindow` | crates/server/src/audit.rs:568-621 | In every reachable state the buckets are those of the records taken for counting since the last flush, so each total tells of its own window |
| `AuditTrail.StepAccounts` | crates/server/src/audit.rs:521-534 | Every step keeps what was offered equal to what was accepted and what was lost, under every measure |
| `AuditTrail.StoppedHoldsNothing` | crates/server/src/audit.rs:554-605 | Once stopped nothing is pending, and the trail accounts for exactly the messages accepted up to the first shutdown |
| `AuditTrail.LossIsTold` | crates/server/src/audit.rs:521-564 | A stopped trail tells of all records offered but those accepted behind a shutdown, counted as dropped after the counter's last reading, or not counted yet; so of all if and only if there are none of these |
| `AuditTrail.SilentLoss` | crates/server/src/audit.rs:554-605 | A run that loses a record with no line and no gap |
| `AuditTrail.CountedTooLate` | crates/server/src/audit.rs:526-533 | A run in which a record is refused early and counted only after the last reading: no offer came behind the shutdown, and it is in no line and no gap |
| `AuditTrail.LateAreOwed` | crates/server/src/audit.rs:521-605 | In every reachable state the late steps are exactly the records stranded and the drops nobody will report |
| `AuditTrail.StepBalances` | crates/server/src/audit.rs:568-645 | Every step keeps the balance, under every measure |
| `AuditTrail.StepVerbatim` | crates/server/src/audit.rs:586-603 | Every step keeps the details written equal to the details received |
| `AuditTrail.Ring.constructor` | crates/server/src/audit.rs:401-406 | An empty ring holds at least one record |
| `AuditTrail.Ring.Push` | crates/server/src/audit.rs:408-413 | The ring is always the newest of all that was pushed, as many as it holds |
| `AuditTrail.Ring.Recent` | crates/server/src/audit.rs:416-418 | Newest first, as many as asked for and held |
| `AuditTrail.Sink.constructor` | crates/server/src/audit.rs:470-483 | A sink starts empty, its writer waiting |
| `AuditTrail.Sink.TrySend` | crates/server/src/audit.rs:526-527 | Queues the record behind the others, or refuses it exactly when there is no room or no writer |
| `AuditTrail.Sink.AddDrop` | crates/server/src/audit.rs:530-532 | A refused record's sender counts it, whatever has happened since |
| `AuditTrail.Sink.Send` | crates/server/src/audit.rs:521-534 | The two one after the other |
| `AuditTrail.Sink.TryShutdown` | crates/server/src/audit.rs:554-560 | The blocking send goes through exactly when there is room |
| `AuditTrail.Sink.ReceiveOne` | crates/server/src/audit.rs:586-595 | The writer takes the oldest message and writes it, folds it or starts its last flush, as the message says |
| `AuditTrail.Sink.FlushTotals` | crates/server/src/audit.rs:615-621 | Every bucket becomes a line, in a sorted order, and none is left |
| `AuditTrail.Sink.FlushOnTimeout` | crates/server/src/audit.rs:596-602 | A timeout flushes without stopping |
| `AuditTrail.Sink.ReportGap` | crates/server/src/audit.rs:623-644 | The drops since the last report become one gap, none when there were none; a stopping writer still has its receiver |
| `AuditTrail.Sink.CloseReceiver` | crates/server/src/audit.rs:589-605 | Only then does the receiver go, and offers find no writer |
| `AuditTrail.Sink.Emit` | crates/server/src/audit.rs:648-657 | One line reaches the file, if there is one, as a write of its model, and the ring |
| `AuditTrail.Sink.EmitAll` | crates/server/src/audit.rs:648-657 | Lines reach both in order, each once: the file holds after its earlier lines exactly what the ring was given |
| `AuditFiles.TrailIsSuffix` | crates/server/src/audit.rs:672-744 | From an empty folder, over every run of writes and restarts in which each rotation finds no file numbered above those to keep: reading the oldest file through `.1` and then the active one gives a suffix of all lines written, each rotated file over the limit by less than its last line |
| `AuditFiles.SuffixIffRoomy` | crates/server/src/audit.rs:672-744 | That condition is exact: with no line repeated, every point of the run reads back a suffix if and only if it holds |
| `AuditFiles.FilesAreBounded` | crates/server/src/audit.rs:712-737 | Where no restart lowers `max_files` below the files there are, the condition holds and at most `max_files` rotated files exist |
| `AuditFiles.NewestAreKept` | crates/server/src/audit.rs:712-737 | Nothing is discarded early: the files are exactly the newest `max_files` ever rotated |
| `AuditFiles.RestartKeepsSuffix` | crates/server/src/audit.rs:673-737 | With no line repeated, the rotation after a restart reads back a suffix if and only if no file is numbered above the new `max_files` |
| `AuditFiles.LoweredSkips` | crates/server/src/audit.rs:712-723 | Otherwise exactly the file numbered `max_files` is missing from the middle |
| `AuditFiles.LoweredRestartLosesLine` | crates/server/src/audit.rs:712-723 | Three writes and a restart to one file, from an empty folder: the second line is gone and the first still read |
| `AuditFiles.RotateKeeps` | crates/server/src/audit.rs:712-737 | A rotation keeps the files a prefix of all rotated ones, newest first |
| `AuditFiles.FileSink.constructor` | crates/server/src/audit.rs:673-691 | Opening goes on where the folder stands, with at least one file to keep |
| `AuditFiles.FileSink.WriteLine` | crates/server/src/audit.rs:693-702 | Appends, and exactly when the file reaches the limit it becomes the first numbered one |
| `AuditFiles.FileSink.MoveUp` | crates/server/src/audit.rs:714-720 | The renames from the top down move every number up by one over the last, losing no other file |
| `AuditFiles.FileSink.Rotate` | crates/server/src/audit.rs:712-737 | The active file becomes the first, each number moves up by one over the last, and files numbered above stay |
| `HashRing.OwnerTokenIsNearest` | crates/cluster/src/lib.rs:542-552 | The two-branch lookup finds exactly the token nearest clockwise on the 64-bit circle |
| `HashRing.AddMovesOnlyToNew` | crates/cluster/src/lib.rs:443-447 | For every hash, adding a node leaves the owner or makes it that node, according to whose token is nearest |
| `HashRing.RemoveMovesOnlyItsOwn` | crates/cluster/src/lib.rs:478-480 | For every hash, removing a node changes the owner only if it was that node, which then owns nothing |
| `HashRing.AddRemoveRestores` | crates/cluster/src/lib.rs:443-480 | Add then remove restores the ring if and only if the node was new and its tokens free |
| `HashRing.ConvergesIffTokensAgree` | crates/cluster/src/lib.rs:443-447 | Every order and repetition of the same joins builds the same ring if and only if no token is claimed by two nodes |
| `HashRing.MembershipIffUncontested` | crates/cluster/src/lib.rs:443-480 | After every history of joins and leaves the ring is exactly that of the nodes still in it, if and only if no token is claimed by two nodes |
| `HashRing.SameMembersSameOwner` | crates/cluster/src/lib.rs:443-552 | Nodes that saw different histories but know the same members agree on every owner |
| `HashRing.ConsistentRing.constructor` | crates/cluster/src/lib.rs:414-418 | A new ring is empty |
| `HashRing.ConsistentRing.AddNode` | crates/cluster/src/lib.rs:443-447 | The loop gives every token of the node to it and leaves the others |
| `HashRing.ConsistentRing.RemoveNode` | crates/cluster/src/lib.rs:478-480 | Exactly the node's tokens go |
| `HashRing.ConsistentRing.GetOwnerWithHash` | crates/cluster/src/lib.rs:542-552 | The node holding the token nearest clockwise; none exactly on an empty ring |

## Left out

- Network, HTTP, SSE, JSON, file permissions, log text and thread scheduling: only the atomic steps they trigger are modelled.
- SHA-256, XXH3, UUIDs and token generation: a digest, a hash and an id are values that can be compared.
- Retention: the server is assumed to report `stats.fetched_docs`, and a multi-valued date is one sort value and a flag; dates beyond year 9999 and a torn write of the progress file or of a `.done` marker are not modelled.
- RetentionWalk.FetchWindow: for a window that fills a page and holds body-less entries the condition for success is sufficient, and exact page by page only, because which entries stand at the end of a page is the server's choice.
- Retention: windows are walked one after another and the first failure ends the run, where the source lets other workers finish; the part files left behind satisfy the same invariant.
- Retention: the `fields`, `check` and `count` commands, which only report.
- Lexicon: how the lexicon is read from the corpus (`Model.__init__`, `participle_map`, overrides) and which forms are hot; the model takes the lexicon, the training pairs and the hot forms as given.
- Lexicon: codes are unbounded where the source has 64 bits, add offsets count characters where the source counts bytes, bit operations are arithmetic, and an automaton is the set of its keys.
- Sessions: a listener count is unbounded where the source has 32 bits; the cleanup task's timing.
- In-flight: notifications, which are never registered; the work itself; reference counts are the number of handles and of guards in their drop.
- Keys: labels, key ids, where an entry's hash came from and the text of errors; a hash that cannot be used is one that is missing.
- Gate: reading the bearer header, the refusal counter, listing filters, and what an OAuth token contains (its verification is a parameter).
- Audit: a disabled sink, the log line beside every record, buffered bytes not yet flushed, how a line is rendered, and I/O errors of the file; drop counting is sequentially consistent where the source is relaxed.
- Audit: restarts keep `max_file_bytes`; a change of it between runs is not modelled.
- Liveness: that a flush happens under sustained load, or that the sweeper is prompt.
- Node routing, search, shard placement, storage, the client SDK, benchmarks and cluster counters: not part of this model.
