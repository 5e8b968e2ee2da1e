# Proofs about the red-skills host

This project models the parts of the repository whose correctness is a matter of
state, order and bounds, and proves properties of those models for every input,
every run or every interleaving. `dafny verify dfyconfig.toml` checks all of it.

| part of the system | files | main results |
|---|---|---|
| diagnostic log | `LogLock`, `LogRotation`, `LineAssembler` | mutual exclusion between processes with crashes; what rotation retains; lines do not depend on chunk boundaries |
| GitHub client | `Coalescer`, `AliasedQuery`, `ConditionalRest`, `EtagStore`, `Decimals` | every coalesced read settles once, with its own row as the server had it, unless a lookup throws; conditional reads answer what the server held during the call; the validator store keeps the most recently touched keys |
| death black box | `DeathBlackBox`, `DeathRun`, `LaneCompaction` | one record per life with its last phase; one verdict per unrecorded death of a process that had not detached, and none else; binary-search compaction equals the linear scan |
| budget control | `RateBalance`, `Diversion`, `AgeCache` | cadence is the least ladder step; hysteresis, and exactly when whole decisions flap; reports admit what balances admit; eviction keeps the newest |
| KPI windows | `KpiWindows`, `KpiQuery`, `WeightedSums` | calendar windows tile time; buckets and groups conserve events |
| brain store | `BrainIndex`, `BrainRuns`, `BrainStore`, `BrainKeys` | rows, index and caches agree after any run; tag edges; idempotent capture |
| statusline | `Sgr`, `Statusline` | truncation of coloured text; column shedding; the size bound |
| two small ones | `Inject`, `BoundedMap` | inject and strip round trip; bounded concurrent map |

Code that changes things step by step is modelled by classes and by methods with
loops, each tied to a function on values; concurrent protocols are step systems
whose scheduler may choose any enabled action; pure code is functions. Files are
maps, the server and the processes are parts of a state, and everything that comes
from outside (clocks, replies, proposals, hashes, patterns, cell text) is a
parameter or an arbitrary action.

## What the code does differently from what it says

- A comment in the coalescing queue says a held validator is never traded for a
  charged GraphQL node. A group with one is traded on the default and the REST rail
  exactly when REST is spent and GraphQL has room, and on the GraphQL rail unless
  its spent pool sends it away (`Coalescer.HeldValidatorIsTradedIff`,
  `Coalescer.HeldValidatorIsTradedExample`).
- Another comment there says a throw in a flush strands no caller. A validator
  lookup that throws inside the drain does: the queue is already cleared when the
  catch looks for stranded reads. Once nothing is outstanding all callers are
  settled exactly when no lookup threw (`Coalescer.AllSettledIff`,
  `Coalescer.ThrowingLookupStrands`).
- The stale-lock path says a dead writer's lock is reclaimable. It is, exactly
  when the owner file is not empty: a writer that dies between creating and filling
  its owner file strands the lock for every later writer
  (`LogLock.DeadLockIsReclaimableIff`, `LogLock.EmptyOwnerIsReachable`).
- The ladder's comment says the band is watched every 30 seconds. That holds
  exactly for reserved fractions up to 0.15; a larger configured reserve has pools
  in the band that are asked about every two minutes or less often
  (`RateBalance.BandIsWatchedIff`, `RateBalance.UnwatchedPool`).
- Two ids that sanitise alike share an anchor file, and the later one's anchor
  replaces the earlier one's, whose verdict is then never given
  (`DeathBlackBox.SameFileIff`, `DeathRun.SharedFileLosesVerdict`).
- The reaper clears the anchor of a process that recorded its own death without a
  verdict. It gives one if the lane was compacted first, exactly when the process
  was killed between its record and the removal of its anchor and a compaction
  dropped the record while the anchor stood (`DeathRun.ReapingIsExact`,
  `DeathRun.ForgottenDeathGetsVerdict`).
- A store opened with `autoLinkErrors: "throw"` can hold an artifact without its
  tag edges, and capturing it again does not add them; this is the only way to
  lose them (`BrainRuns.CaptureKeepsTagsIff`, `BrainRuns.LostTagsExample`,
  `BrainRuns.RecaptureChangesNothing`).
- The axis of a KPI query stops after 1,000,000 windows, so buckets sum to the
  total exactly when the latest matched event is within that many windows
  (`KpiQuery.BucketsConserveEvents`, `KpiQuery.FarEventIsUncounted`).
- The diversion bands are meant not to alternate under steady pressure. Whole
  decisions can: a decision that keeps a read where it is for any other reason
  forgets the band held (`Diversion.DecisionsKeepBandIff`, `Diversion.DecisionsFlap`).
- Injection promises to recover the byte-identical page. It does exactly when the
  script text has no end marker and, before the insertion place, the page has no
  begin marker or, from its first one on, nothing but copies of the very block; a
  begin marker after that place does no harm (`Inject.StripInjectedIff`,
  `Inject.StrayMarkerIsLost`).
- The comment on column shedding names four columns that only the positional
  fallback drops; the `bar` column is a fifth (`Statusline.FallbackColumns`).

## Model

| member | source | states |
|---|---|---|
| `LogLock.StepKeepsInv` | packages/shared/diagnostic-log.ts:152-217 | every filesystem step of a live process keeps the protocol invariant: who owns the directory, what each process has observed, who holds the reaper marker |
| `LogLock.CrashKeepsInv` | packages/shared/diagnostic-log.ts:152-203 | a process may die at any step outside the reaper-marker section |
| `LogLock.ApplyKeepsInv` | packages/shared/diagnostic-log.ts:152-217 | every action of the scheduler keeps the invariant |
| `LogLock.ExecKeepsInv` | packages/shared/diagnostic-log.ts:152-217 | so does every run |
| `LogLock.MutualExclusion` | packages/shared/diagnostic-log.ts:152-203 | in every interleaving with crashes, at most one live process is between acquiring and releasing, and it created the directory that stands |
| `LogLock.LiveLockIsNeverReaped` | packages/shared/diagnostic-log.ts:178-198 | no action of anyone but its creator changes a directory whose creator is alive, a successor's directory included |
| `LogLock.TakeFromDead` | packages/shared/diagnostic-log.ts:161-200 | under some schedule a lone process takes a dead writer's readable lock |
| `LogLock.EmptyOwnerIsStranded` | packages/shared/diagnostic-log.ts:167-178 | a dead writer's directory with an empty owner file stands through every later run |
| `LogLock.DeadLockIsReclaimableIff` | packages/shared/diagnostic-log.ts:151-203 | a dead writer's lock can be taken by some schedule if and only if its owner file is absent or filled |
| `LogLock.LoneTakes` | packages/shared/diagnostic-log.ts:151-203 | a process on its way to the lock has it after its own steps, however time passes and whoever else dies in between |
| `LogLock.LoneTakesIff` | packages/shared/diagnostic-log.ts:151-203 | a process that alone keeps moving takes a dead writer's lock under every schedule, within one round of the retry loop, if and only if the owner file holds a pid or has been missing for over 30 seconds |
| `LogLock.EmptyOwnerIsReachable` | packages/shared/diagnostic-log.ts:156-157 | two processes and one crash reach the stranded lock |
| `LogLock.LiveLockIsRetried` | packages/shared/diagnostic-log.ts:154-201 | while a directory and its live creator last, whatever anyone does, a process that meets them begins its next attempt within four steps of its own |
| `LogLock.LiveHolderIsLeftAlone` | packages/shared/diagnostic-log.ts:161-201 | with the pid written, mkdir, stat, read and probe change nothing and lead to the next attempt |
| `LogLock.ReleasedLockIsTaken` | packages/shared/diagnostic-log.ts:154-157 | if the lock is free by then, that attempt's first step takes it |
| `LogLock.StaleMarkerIsRemoved` | packages/shared/diagnostic-log.ts:206-217 | a process that cannot open the reaper marker removes it if and only if it names a dead process, or none for over 30 seconds, changes nothing else, and tries again |
| `LogLock.MarkerNamesReaper` | packages/shared/diagnostic-log.ts:179-198 | the process that opens the marker owns it, names itself in it and takes it away when done |
| `LogLock.FilledDirectoryStands` | packages/shared/diagnostic-log.ts:193-195 | a directory with its owner file in it is removed by no one, and a reaping of it fails |
| `LogLock.GivesUpIff` | packages/shared/diagnostic-log.ts:154-203 | one step ends a call without the lock if and only if the attempts are used up or a reaping failed |
| `LogLock.BusyAfterAllAttempts` | packages/shared/diagnostic-log.ts:154-203 | a call that ends busy has met a directory twenty times, under every interleaving |
| `LogLock.HolderIsNamed` | packages/shared/diagnostic-log.ts:156-157 | two steps after its mkdir, whatever the others do, the holder's own directory names it |
| `LogLock.DirectoryTimes` | packages/shared/diagnostic-log.ts:156-160 | a directory's time moves exactly when its owner file comes or goes, not when the pid is written |
| `LogLock.ReleaseFrees` | packages/shared/diagnostic-log.ts:158-160 | whatever the others do, the holder's third step after its append leaves no directory and ends its call |
| `LineAssembler.SplitAtNewlines` | packages/shared/diagnostic-log.ts:240-241 | complete lines and the tail join back to the text and hold no newline |
| `LineAssembler.SplitAppend` | packages/shared/diagnostic-log.ts:239-252 | appended text changes the split only from the pending tail on |
| `LineAssembler.ConsumeTwice` | packages/shared/diagnostic-log.ts:239-257 | two writes are one write of their concatenation |
| `LineAssembler.ChunkIndependence` | packages/shared/diagnostic-log.ts:239-257 | any way of cutting a text into writes makes the same progress as one write |
| `LineAssembler.PartsOf` | packages/shared/diagnostic-log.ts:240-241 | the parts of a write join back to it, each with at most a final newline |
| `LineAssembler.Assembler.constructor` | packages/shared/diagnostic-log.ts:220-224 | starts with nothing pending and nothing emitted |
| `LineAssembler.Assembler.FinishLine` | packages/shared/diagnostic-log.ts:225-238 | emits the line or its replacement as the fold over all lines does, and tracks the open quote |
| `LineAssembler.Assembler.Buffer` | packages/shared/diagnostic-log.ts:242-245 | pending holds the line so far exactly while it fits the budget |
| `LineAssembler.Assembler.EndLine` | packages/shared/diagnostic-log.ts:246-250 | a newline finishes the specified line, oversize replacement and carriage return included |
| `LineAssembler.Assembler.ConsumeOne` | packages/shared/diagnostic-log.ts:240-252 | one part advances the specified progress |
| `LineAssembler.Assembler.Write` | packages/shared/diagnostic-log.ts:254-257 | one write of text advances the specified progress and keeps pending within the byte budget |
| `LineAssembler.Assembler.Flush` | packages/shared/diagnostic-log.ts:258-262 | a flush closes what is pending, without stripping it |
| `LineAssembler.Assemble` | packages/shared/diagnostic-log.ts:220-263 | a fresh assembler fed any chunks and flushed emits exactly the one-shot lines of the whole text |
| `LineAssembler.SingleLines` | packages/shared/diagnostic-log.ts:239-262 | what one line comes out as: without its newline and one carriage return when it fits, replaced when it does not, untouched when a flush closes it |
| `LineAssembler.Utf8IsLeast` | packages/shared/diagnostic-log.ts:243 | a code point counts the fewest bytes that hold it |
| `LogRotation.RetentionOverAnyRun` | packages/shared/diagnostic-log.ts:81-130 | after any writes from an empty log: retained records are a suffix of all written, none is split, every file fits, adjacent files together do not |
| `LogRotation.WriteAppends` | packages/shared/diagnostic-log.ts:96-105 | a write adds its record at the new end and drops only from the old end |
| `LogRotation.WriteKeepsBounds` | packages/shared/diagnostic-log.ts:96-105 | a write keeps every file within the limit and adjacent files over it |
| `LogRotation.PairsOverflow` | packages/shared/diagnostic-log.ts:98 | n files hold at least n / 2 times (limit + 1) bytes |
| `LogRotation.FullSetKeeps` | packages/shared/diagnostic-log.ts:96-130 | a full set of files keeps more than floor(fileCount / 2) times the limit |
| `LogRotation.BoundExisting` | packages/shared/diagnostic-log.ts:133-149 | of an oversized file the longest record-aligned suffix shorter than the limit is kept; a file that fits is kept whole |
| `LogRotation.AlignedCutKeepsRecords` | packages/shared/diagnostic-log.ts:140-142 | a record-aligned cut of whole records falls between two records |
| `LogRotation.OneRow` | packages/shared/diagnostic-log.ts:93 | line breaks inside a record become spaces and nothing else changes |
| `LogRotation.RecordIs` | packages/shared/diagnostic-log.ts:92-95 | a line is written on one row behind its prefix, and replaced exactly when that does not fit a file |
| `LogRotation.RecordIsOneLine` | packages/shared/diagnostic-log.ts:92-95 | either way its only newline ends it |
| `LogRotation.TotalIs` | packages/shared/diagnostic-log.ts:96-105 | the bytes of a set of files are those of the records it retains |
| `LogRotation.DiagnosticLog.Rotate` | packages/shared/diagnostic-log.ts:122-130 | the rename loop moves every file of the set one place older and drops the oldest |
| `LogRotation.DiagnosticLog.constructor` | packages/shared/diagnostic-log.ts:70-80 | the sink opens on whatever files are there and changes none |
| `LogRotation.DiagnosticLog.Normalize` | packages/shared/diagnostic-log.ts:88-91 | the first write trims every file of the set and touches no other |
| `LogRotation.DiagnosticLog.Store` | packages/shared/diagnostic-log.ts:96-105 | on any files, the file operations of a write are the specified shift and append |
| `LogRotation.StoredRepresents` | packages/shared/diagnostic-log.ts:96-105 | on files of whole records that shift and append is the specified write |
| `LogRotation.EmptyStartIsWritten` | packages/shared/diagnostic-log.ts:81-130 | in an empty directory the files are, after any writes, those of the specification |
| `LogRotation.AnyStartKeeps` | packages/shared/diagnostic-log.ts:81-130 | in any trimmed directory, after any writes: every file of the set is within the limit, the other files are untouched, the set holds the end of what it held followed by all that was written, and the last record ends the current file |
| `LogRotation.TrimmedOnce` | packages/shared/diagnostic-log.ts:133-149 | trimming leaves a file within the limit, and only one result counts as trimmed |
| `LogRotation.DiagnosticLog.Write` | packages/shared/diagnostic-log.ts:81-113 | from any files: stores the record exactly when locked and it fits, trims the set on the first locked write, and changes nothing without the lock |
| `AliasedQuery.AliasInjective` | packages/github/aliased-query.ts:66-68 | aliases of different positions differ |
| `Decimals.DecimalInjective` | packages/github/aliased-query.ts:66-68 | decimal numerals of different numbers differ |
| `AliasedQuery.BuildQuery` | packages/github/aliased-query.ts:78-114 | refuses the inputs the builder refuses, and otherwise maps each alias to its own read in order |
| `AliasedQuery.AskableIff` | packages/github/aliased-query.ts:78-114 | which reads are refused, spelled out: none, more kinds than one, a number below 1 or above the greatest safe integer, a selection that trims to nothing |
| `AliasedQuery.AssignKnown` | packages/github/aliased-query.ts:78-114 | an alias assigned twice would keep its place and the later read |
| `AliasedQuery.RowsAlign` | packages/github/aliased-query.ts:78-136 | row i of the answer is the i-th read with what the server holds for it |
| `Coalescer.ThresholdComparesHeadroom` | packages/github/conditional-client.ts:224-236 | a group exceeds the threshold if and only if both pools are reported, GraphQL has room, the group is plural, and REST has no headroom or at most GraphQL's for one object fewer |
| `Coalescer.RouteIff` | packages/github/conditional-client.ts:510-556 | exactly which groups are refused and which share a request, on every rail |
| `Coalescer.HeldValidatorIsTradedIff` | packages/github/conditional-client.ts:510-556 | for every rail, exactly when a group with a held validator is batched into charged nodes |
| `Coalescer.HeldValidatorIsTradedExample` | packages/github/conditional-client.ts:561-564 | a concrete group whose held validator is traded |
| `Coalescer.ColdGroupIsBatchedIff` | packages/github/conditional-client.ts:510-556 | the exact condition under which a cold default group is batched |
| `Coalescer.ThrowsIff` | packages/github/conditional-client.ts:518-552 | a group's lookups throw if and only if asking for every key, or, unless the group is refused, for some key, meets one that throws before its answer is known; otherwise they tell what is held |
| `Coalescer.BatchSettlesAll` | packages/github/conditional-client.ts:443-479 | whatever the reply, a batch settles exactly its own callers, and a caller it resolves gets its own row with what the answering server held for that object |
| `Coalescer.RestSettles` | packages/github/conditional-client.ts:412-441 | a single read settles its own caller and no other, with what the server held for its object |
| `Coalescer.DrainConserves` | packages/github/conditional-client.ts:505-559 | a drain conserves calls with multiplicity, under every weighing: each is handed to one request, refused, or dropped by a throwing lookup |
| `Coalescer.ApplyKeepsInv` | packages/github/conditional-client.ts:409-582 | every step of every interleaving keeps the queue invariant, and no step settles a settled call, although every settlement would overwrite |
| `Coalescer.ExecKeepsInv` | packages/github/conditional-client.ts:409-582 | so does every run |
| `Coalescer.HeldInOnePlace` | packages/github/conditional-client.ts:409-582 | in every reachable state an unsettled call stands in exactly one place, queue, request or dropped, with multiplicity one, and a settled call in none |
| `Coalescer.RequestsSettleTheUnsettled` | packages/github/conditional-client.ts:412-479 | a request that ends settles only calls that were unsettled, and holds each once |
| `Coalescer.QueueAlwaysHasAFlush` | packages/github/conditional-client.ts:481-503 | a non-empty queue has an outstanding flush in every reachable state, and exactly one while no lookup throws |
| `Coalescer.FlagIs` | packages/github/conditional-client.ts:481-503 | the flag is up exactly when the last step on it was a new call, and a new call arms a timer exactly when it is down |
| `Coalescer.ResolvedWithOwnRow` | packages/github/conditional-client.ts:458-474 | a resolved caller holds the row of its own kind, owner, repository and number, with the value that the server answering its own request held |
| `Coalescer.BatchResolvesIff` | packages/github/conditional-client.ts:443-479 | a caller of a batch is resolved if and only if the reply is an answer to askable reads, gets as far as the caller, and the server has its object |
| `Coalescer.ResolvedByStepIff` | packages/github/conditional-client.ts:403-582 | of all steps that settle a call exactly such an answer, shared or single, resolves it; drains, throwing flushes and catches reject |
| `Coalescer.ResolvedIff` | packages/github/conditional-client.ts:403-582 | over every run: a settled caller has its row if and only if the step that settled it was such an answer |
| `Coalescer.SettledOnce` | packages/github/conditional-client.ts:403-582 | no later step overwrites a settlement |
| `Coalescer.StepTakesWork` | packages/github/conditional-client.ts:481-559 | every step but a new call reduces the outstanding work |
| `Coalescer.UnsettledCanProceed` | packages/github/conditional-client.ts:481-503 | while a call is neither settled nor dropped some step other than a new call is enabled |
| `Coalescer.RunsEnd` | packages/github/conditional-client.ts:481-559 | without new calls a run is no longer than the work it starts with |
| `Coalescer.QuiescentMeansSettled` | packages/github/conditional-client.ts:403-582 | when nothing is outstanding a call is settled if and only if no drain dropped it |
| `Coalescer.StrandedIff` | packages/github/conditional-client.ts:494-502 | calls are dropped if and only if some drain of the run met a throwing lookup |
| `Coalescer.AllSettledIff` | packages/github/conditional-client.ts:481-503 | when nothing is outstanding all calls are settled if and only if no lookup of the run threw |
| `Coalescer.ThrowingLookupStrands` | packages/github/conditional-client.ts:494-502 | a concrete run whose flush ends with its caller unsettled |
| `ConditionalRest.RespondIsTrue` | packages/github/conditional-client.ts:354-401 | with faithful validators, a not-modified answer means the held body is the current one |
| `ConditionalRest.StoredWasServed` | packages/github/conditional-client.ts:354-401 | what a finished call stores is a pair the server served, and its answer was current during the call |
| `ConditionalRest.RunKeepsInv` | packages/github/conditional-client.ts:354-401 | the invariant holds at every instant of every run with concurrent calls and evictions |
| `ConditionalRest.StoredPairsWereServed` | packages/github/conditional-client.ts:354-401 | every stored validator and body were served together for that key at some earlier instant |
| `ConditionalRest.DuringIsWitnessed` | packages/github/conditional-client.ts:354-401 | each body a call may answer was the server's at some instant while the call was open |
| `ConditionalRest.AnswersAreCurrent` | packages/github/conditional-client.ts:354-401 | every answer that is not degraded equals the server's body at some instant during its call, whether the server honours the condition, ignores it, or sends a 304 that was not asked for |
| `ConditionalRest.CallsBeginAndEnd` | packages/github/conditional-client.ts:355-369 | a call begins with what the store holds for its key, and ends when its reply is handled or, unasked, when its pool is spent |
| `ConditionalRest.NotModifiedIff` | packages/github/conditional-client.ts:361-369 | the held validator is confirmed if and only if the condition is honoured and the tags agree weakly |
| `ConditionalRest.EndsIff` | packages/github/conditional-client.ts:354-401 | a call that ends is answered if and only if it has a 200, or a 304 and a held entry; degraded to the held body if and only if it was limited with one held; failed otherwise |
| `ConditionalRest.AnsweredIffServed` | packages/github/conditional-client.ts:367-389 | over every run: a finished call is answered if and only if its request was served without a fault |
| `ConditionalRest.AnswersTheServedBody` | packages/github/conditional-client.ts:367-389 | over every run: what it answers is the body the server had when it served that request |
| `ConditionalRest.FinishStores` | packages/github/conditional-client.ts:371-387 | a 200 with a validator replaces the entry, a confirmed entry keeps its body under the latest validator, and nothing else changes |
| `ConditionalRest.OtherwiseStoreStays` | packages/github/conditional-client.ts:75-99 | no other action but an eviction changes the store |
| `EtagStore.Store.constructor` | packages/github/conditional-client.ts:75-79 | capacity is floored and at least one |
| `EtagStore.BoundIs` | packages/github/conditional-client.ts:75-79 | a capacity is rounded down, to one at least |
| `EtagStore.Store.Get` | packages/github/conditional-client.ts:81-88 | a hit returns the held entry and moves it to the recent end; a miss changes nothing |
| `EtagStore.Store.Set` | packages/github/conditional-client.ts:89-97 | the entry becomes the most recent and the loop keeps the last `bound` entries |
| `EtagStore.TouchKeepsLast` | packages/github/conditional-client.ts:81-97 | one touch keeps the held keys the last ones of the touch order |
| `EtagStore.ExecKeepsInv` | packages/github/conditional-client.ts:75-99 | the invariant holds after any operations |
| `EtagStore.HoldsMostRecent` | packages/github/conditional-client.ts:75-99 | after any run the store holds exactly the `bound` keys set or hit most recently, in that order, each with the value set last, and answers nothing else |
| `DeathBlackBox.SameFileIff` | packages/shared/death-presence.ts:118-121 | two anchors share a file name exactly when kind, pid and the sanitised ids agree |
| `DeathBlackBox.SanitizedIs` | packages/shared/death-presence.ts:118-121 | letters, digits, point, underscore and dash stay, everything else becomes an underscore |
| `DeathBlackBox.PlainIdsDiffer` | packages/shared/death-presence.ts:118-121 | ids of those characters alone have files of their own |
| `DeathBlackBox.EndsInToon` | packages/shared/death-presence.ts:167-168 | the scan's suffix test passes whatever ends in the suffix and nothing else |
| `DeathBlackBox.FileNameIsAnchorFile` | packages/shared/death-presence.ts:118-121 | every anchor's file name passes the scan's suffix test |
| `DeathBlackBox.VerdictIsHonest` | packages/shared/death-attribution.ts:278-380 | a verdict is unknown exactly when no evidence explains the death, and then has no confidence and no evidence; a changed boot caps confidence; it speaks for its own anchor |
| `DeathBlackBox.SenderIff` | packages/shared/death-attribution.ts:313-380 | each cause is named if and only if its source speaks and no more specific one does |
| `DeathBlackBox.ConfidenceIff` | packages/shared/death-attribution.ts:313-380 | exactly when each cause is given with high confidence |
| `DeathBlackBox.SignalIs` | packages/shared/death-attribution.ts:313-380 | SIGKILL for a kill for memory, none for a cause that is not a signal |
| `DeathBlackBox.AuditIsRead` | packages/shared/death-attribution.ts:338-350 | an audited signal is shown, named and attributed as the first audit line about the process has it |
| `DeathBlackBox.MarksIff` | packages/shared/death-attribution.ts:313-380 | which verdicts show a doubtful pid and a parent's record |
| `DeathBlackBox.RebootIsShown` | packages/shared/death-attribution.ts:362-377 | a reboot is shown exactly by the verdict that rests on it, and a missing announcement exactly when no line announces the shutdown |
| `DeathBlackBox.FatesSplit` | packages/shared/death-attribution.ts:500-530 | every decoded anchor is in exactly one of alive, self-recorded and attributed, with multiplicity |
| `DeathBlackBox.DecodedHolds` | packages/shared/death-presence.ts:155-179 | the decoded anchors are exactly the readable files |
| `DeathBlackBox.LeftIsKept` | packages/shared/death-attribution.ts:486-541 | a reaping leaves exactly the anchors of live pids and the unreadable files |
| `DeathBlackBox.HostFiles.ReadPresences` | packages/shared/death-presence.ts:155-179 | of a directory listing the scan passes over names without the suffix, returns the readable anchors in order and names the others |
| `DeathBlackBox.HostFiles.Clear` | packages/shared/death-presence.ts:139-147 | removes that anchor's file and no other |
| `DeathBlackBox.HostFiles.Reap` | packages/shared/death-attribution.ts:486-541 | the reaper loop fills its three lists and changes the host as specified |
| `DeathRun.DeathRecorder.constructor` | packages/shared/death-record.ts:587-697 | installs with the initial phase and an anchor, nothing written |
| `DeathRun.DeathRecorder.AnchorNow` | packages/shared/death-record.ts:605-612 | writes the anchor of the current phase |
| `DeathRun.DeathRecorder.Phase` | packages/shared/death-record.ts:676-682 | the phase is updated, and the anchor follows it until a record is written |
| `DeathRun.DeathRecorder.Goodbye` | packages/shared/death-record.ts:614-648 | the first exit handler appends one record with the current phase and clears the anchor; later ones do nothing |
| `DeathRun.DeathRecorder.Detach` | packages/shared/death-record.ts:685-691 | detaching clears the anchor |
| `DeathRun.GoodbyeIsAppendThenClear` | packages/shared/death-record.ts:614-633 | an uninterrupted goodbye is the run's two actions in sequence |
| `DeathRun.ApplyKeepsInv` | packages/shared/death-record.ts:587-697 | every action of every process and every reaping keeps the invariant |
| `DeathRun.ExecKeepsInv` | packages/shared/death-record.ts:587-697 | so does every run |
| `DeathRun.CompactKeepsInv` | packages/shared/death-record.ts:348-388 | a compaction that drops any records keeps the invariant |
| `DeathRun.OneRecordPerLife` | packages/shared/death-record.ts:614-633 | the lane holds exactly one record for a life that wrote one which no compaction dropped, that record, and none for the others |
| `DeathRun.PhaseIsLastAnnounced` | packages/shared/death-record.ts:593-682 | the recorder's phase is the last one announced in the run |
| `DeathRun.RecordCarriesLastPhase` | packages/shared/death-record.ts:614-624 | the record of a life carries the phase announced last before it |
| `DeathRun.VerdictsFor` | packages/shared/death-attribution.ts:500-530 | a process gains a verdict exactly when its own anchor is listed, dead and unrecorded |
| `DeathRun.PromiseIsKept` | packages/shared/death-record.ts:605-691 | over any run: an unrecorded process has its anchor standing while alive, and is owed a verdict once dead, exactly when its last word was to install or announce and not to detach |
| `DeathRun.VerdictsSpeakAlways` | packages/shared/death-attribution.ts:500-530 | over any run: a verdict is about a dead process and names the phase that process ended in |
| `DeathRun.LateAlways` | packages/shared/death-attribution.ts:500-530 | over any run: a recorded life has no verdict until a compaction drops its record while its anchor stands, and then has one as soon as a reaping finds that anchor |
| `DeathRun.ReapingIsExact` | packages/shared/death-attribution.ts:486-541 | after any run with compactions and a reaping: one verdict for each life that died unrecorded and had not detached (or announced again since), and for each recorded one killed before it cleared its anchor whose record was compacted away meanwhile, unless its pid is live again; none for the others; every verdict with the phase announced last; only live pids' anchors are left |
| `DeathRun.ForgottenDeathGetsVerdict` | packages/shared/death-attribution.ts:509-518 | a concrete recorded death that gets a verdict |
| `DeathRun.ReapAgainChangesNothing` | packages/shared/death-attribution.ts:486-541 | reaping again with the same live pids changes nothing |
| `DeathRun.SharedFileLosesVerdict` | packages/shared/death-presence.ts:118-136 | with two ids on one file name the first death never gets its verdict |
| `DeathRun.SlashAndUnderscoreCollide` | packages/shared/death-presence.ts:118-121 | such ids exist |
| `LaneCompaction.DropKeepsLast` | packages/shared/death-record.ts:390-413 | dropping the first k dated rows keeps every undated row and the last dated ones, in order |
| `LaneCompaction.ScanIsLongest` | packages/shared/death-record.ts:390-413 | the linear scan drops the fewest dated rows that make the lane fit, or all |
| `LaneCompaction.ScanUnique` | packages/shared/death-record.ts:390-413 | no other count has that property |
| `LaneCompaction.SelectDrops` | packages/shared/death-record.ts:390-413 | keeping pinned and late indices is dropping the first dated rows |
| `LaneCompaction.RetainWithin` | packages/shared/death-record.ts:390-413 | the binary search over kept dated rows equals the linear scan |
| `LaneCompaction.RetainAttributions` | packages/shared/death-attribution.ts:589-624 | age filter and binary search keep every undated row and exactly the scan's dated suffix |
| `LaneCompaction.RecentIsOneByOne` | packages/shared/death-record.ts:366-370 | the age window judges rows one by one, in order: a row goes exactly when it has a date before the cutoff |
| `LaneCompaction.ScanLast` | packages/github/attribution.ts:216-233 | the greatest number of last rows that fits with the incoming one |
| `LaneCompaction.KeepLastWithin` | packages/github/attribution.ts:216-233 | the binary search returns that number |
| `LaneCompaction.CompactedFitsIff` | packages/shared/death-record.ts:310-388 | compaction makes room for a line exactly when the undated rows leave it |
| `LaneCompaction.AppendFitsIff` | packages/shared/death-record.ts:310-346 | an append stays within the ceiling exactly when it fitted before or the undated rows leave room |
| `LaneCompaction.EncodedIs` | packages/shared/death-record.ts:390-413 | a segment pays for its header once, and nothing when it has no rows |
| `LaneCompaction.EncodedEachIs` | packages/github/attribution.ts:216-233 | rows appended one by one pay for it each time |
| `LaneCompaction.CompactionTargetIs` | packages/shared/death-record.ts:326-332 | the room a forced compaction leaves: half the generation less the line, never negative |
| `LaneCompaction.UnfilledLaneKeepsAll` | packages/shared/death-record.ts:310-346 | while all lines ever written fit, the lane is just those lines |
| `LaneCompaction.DeathLane.Compact` | packages/shared/death-record.ts:348-388 | rewrites the lane to the specified compaction |
| `LaneCompaction.DeathLane.Append` | packages/shared/death-record.ts:310-346 | appends after compacting when over the ceiling |
| `LaneCompaction.DatedLaneStaysBounded` | packages/shared/death-record.ts:310-413 | over any run of appends of fitting dated records the lane stays within its ceiling |
| `LaneCompaction.SpendLane.Record` | packages/github/attribution.ts:124-159 | refuses only a line over the ceiling, keeps the greatest fitting suffix and the new row, and stays within the ceiling |
| `RateBalance.StepFor` | packages/github/balance.ts:836-841 | the first ladder step at or above the fraction |
| `RateBalance.TightestPool` | packages/github/balance.ts:397-405 | a reported pool with the least fraction, none exactly when none is reported |
| `RateBalance.CadenceMs` | packages/github/balance.ts:415-430 | the least ladder step over reported pools, between 15 and 600 seconds; 30 seconds when blind |
| `RateBalance.WorstPosture` | packages/github/balance.ts:825-834 | the loop returns spent before reserved before open before unknown |
| `RateBalance.WorstGoverns` | packages/github/balance.ts:441-525 | which calls the worst posture admits, both ways: open all, reserved all essential ones, spent not even those |
| `RateBalance.RefusedIff` | packages/github/balance.ts:433-525 | a call is refused if and only if its pool is reported and has nothing left, or, for a convenience call, less than the reserved fraction of its limit |
| `RateBalance.VerdictShows` | packages/github/balance.ts:467-525 | the posture and the numbers a verdict shows, with the reserved floor as the least count at or above the fraction of the limit |
| `RateBalance.BandFraction` | packages/github/balance.ts:433-450 | a pool in the band has a fraction below the reserved one |
| `RateBalance.UnwatchedPool` | packages/github/balance.ts:184-205 | every reserve above 0.15 has a pool in its band that is asked about less often than every 30 seconds |
| `RateBalance.BandIsWatchedIff` | packages/github/balance.ts:184-205 | all pools in the band are asked about within 30 seconds if and only if the reserve is at most 0.15 |
| `RateBalance.ScarcityIsWatched` | packages/github/balance.ts:415-430 | with such a reserve a worst posture of reserved or spent means an ask within 30 seconds |
| `RateBalance.AdmissionIsMonotone` | packages/github/balance.ts:467-525 | more remaining never revokes an admission |
| `RateBalance.BalanceFromReport` | packages/github/balance.ts:765-779 | the loop re-keys the pools |
| `RateBalance.ReportRoundTrip` | packages/github/balance.ts:733-779 | re-keying a report's pools gives back the balance |
| `RateBalance.ReportAdmitsAlike` | packages/github/balance.ts:703-779 | admissions from a report equal those from its balance, the missing balance included |
| `Diversion.BandIsHighestInForce` | packages/github/balance.ts:672-684 | the band is the highest rung entered outright or held above its leave threshold |
| `Diversion.BandThresholds` | packages/github/balance.ts:250-255 | the bands by their pressures in numbers, entered at one and held down to a lower one |
| `Diversion.RungIsMonotone` | packages/github/balance.ts:250-255 | in a narrow window a rung is never left once reachable and never reached otherwise |
| `Diversion.NoBandIsRevisited` | packages/github/balance.ts:244-255 | under the band function, pressures within the smallest enter-leave gap never bring a left band back |
| `Diversion.WiderWindowFlaps` | packages/github/balance.ts:250-255 | any wider window can |
| `Diversion.DecisionResets` | packages/github/balance.ts:558-649 | a decision's band is the band function's for a read that may leave its pool, and none, whatever was held, for any other |
| `Diversion.ProjectsIff` | packages/github/balance.ts:660-670 | exhaustion is projected if and only if, in whole numbers, used times the time ahead reaches remaining times the time elapsed |
| `Diversion.SpentIsExhausted` | packages/github/balance.ts:660-670 | a pool with nothing left is exhausted at any time, any other one not without readable instants |
| `Diversion.DecisionsKeepBandIff` | packages/github/balance.ts:250-255 | over whole decisions under steady pressure, a band seen at both ends of a run held throughout if and only if every read of the run might leave its pool; for no band, if and only if none that might reached the lowest entry pressure |
| `Diversion.DecisionsFlap` | packages/github/balance.ts:558-649 | three concrete reads at one pressure, the middle one with its fallback unreported, are decided low, none, low |
| `Diversion.StableBucket` | packages/github/balance.ts:687-694 | the hash loop in 32-bit arithmetic, mapped to a number from 0 up to but not including 1 |
| `Diversion.MixIsInjective` | packages/github/balance.ts:687-694 | one round of the hash keeps different hashes, and different last units, different |
| `Diversion.DivertedSetGrows` | packages/github/balance.ts:630-635 | for a fixed key and cost climbing a rung only adds diverted reads; full diverts all |
| `Diversion.DearerIsDivertedLess` | packages/github/balance.ts:630-635 | a dearer read is diverted no more often |
| `Diversion.ShareSpends` | packages/github/balance.ts:630-635 | a share times the cost is the band's budget share, unless every read goes |
| `Diversion.PressureIs` | packages/github/balance.ts:655-658 | the pressure is used over limit between 0 and 1, and for a pool without a limit tells whether anything is left |
| `Diversion.DivertedIff` | packages/github/balance.ts:558-649 | a read is diverted if and only if it may leave its pool and its key's number falls into its band's share |
| `Diversion.DiversionIsSafe` | packages/github/balance.ts:558-649 | reads move only to a known, strictly less pressed pool that can pay, from a pool that is spent or projects exhaustion |
| `AgeCache.OldestIndex` | packages/github/cache.ts:111-122 | the first entry that no entry is strictly older than, undated being oldest |
| `AgeCache.EvictionKeepsNewest` | packages/github/cache.ts:109-126 | eviction never drops an entry while keeping a strictly older or undated one |
| `AgeCache.UndatedPutIsDropped` | packages/github/cache.ts:109-139 | in a full cache of dated answers an undated one is not kept at all |
| `AgeCache.Cache.FindOldest` | packages/github/cache.ts:111-122 | the scan finds that entry |
| `AgeCache.Cache.EvictOldest` | packages/github/cache.ts:109-126 | the loop drops oldest entries until the capacity holds |
| `AgeCache.Cache.Put` | packages/github/cache.ts:129-139 | replaces the key's entry, then evicts, and stays within capacity |
| `AgeCache.Cache.ReadKey` | packages/github/cache.ts:140-184 | always answers; a miss exactly without a value, fresh only with an age |
| `AgeCache.Cache.Forget` | packages/github/cache.ts:185-187 | removes the key and says whether it was held |
| `AgeCache.HitsAreTheLastPut` | packages/github/cache.ts:104-195 | after any run, keys are unique, the size is within capacity, and a hit answers the entry put last for its key and not forgotten since |
| `AgeCache.PutWithRoom` | packages/github/cache.ts:125-139 | with room for it an answer is kept under its key, and every other key answers as before |
| `AgeCache.EvictsNoMore` | packages/github/cache.ts:100-122 | eviction drops no more than it must |
| `AgeCache.ReadOfHeld` | packages/github/cache.ts:140-184 | what a read tells of a held entry: value, age never negative and absent exactly for an unreadable instant, and fresh exactly within its window |
| `AgeCache.MissIff` | packages/github/cache.ts:140-184 | a read misses exactly the keys that are not held |
| `KpiWindows.CalendarIsEcma` | packages/brain-store/kpi-query.ts:243-263 | counting years day by day agrees with the closed form of section 21.4.1 of ECMA-262 |
| `KpiWindows.YearFrom` | packages/brain-store/kpi-query.ts:244-262 | the year of a day is the one whose days include it |
| `KpiWindows.MonthLengths` | packages/brain-store/kpi-query.ts:246-267 | the lengths of the months, leap years included |
| `KpiWindows.FieldsName` | packages/brain-store/kpi-query.ts:246-254 | a day's year, month and date name that day |
| `KpiWindows.FirstOfMonth` | packages/brain-store/kpi-query.ts:261-262 | the first day of a month belongs to that year and month |
| `KpiWindows.FloorIsStart` | packages/brain-store/kpi-query.ts:243-264 | flooring by calendar fields gives the start of the numbered window around the instant |
| `KpiWindows.NextIsStart` | packages/brain-store/kpi-query.ts:266-279 | the window after window i is window i + 1, year ends and leap days included |
| `KpiWindows.StartsOrdered` | packages/brain-store/kpi-query.ts:266-279 | window starts strictly increase |
| `KpiWindows.InWindowIff` | packages/brain-store/kpi-query.ts:243-279 | an instant lies between two consecutive starts exactly when its window number says so |
| `KpiWindows.WindowsTile` | packages/brain-store/kpi-query.ts:243-279 | two instants share a window exactly when the second is from the first one's start up to the next start |
| `WeightedSums.SortKeepsSums` | packages/brain-store/kpi-query.ts:104 | sorting permutes: no weighing tells the two sequences apart |
| `WeightedSums.SortOrders` | packages/brain-store/kpi-query.ts:104 | sorting orders by rank |
| `KpiQuery.WalkWindows` | packages/brain-store/kpi-query.ts:230-240 | the guarded loop yields consecutive window starts, at most 1,000,000 |
| `KpiQuery.BuildWindowAxis` | packages/brain-store/kpi-query.ts:224-241 | the axis runs from the lower bound's window to the upper bound's, or is empty |
| `KpiQuery.CountWindows` | packages/brain-store/kpi-query.ts:211-215 | the map of counts holds every window's number of events |
| `KpiQuery.BuildSeries` | packages/brain-store/kpi-query.ts:205-222 | a series has, on every start of the axis, that window's number of events |
| `KpiQuery.GroupEvents` | packages/brain-store/kpi-query.ts:180-192 | the loop groups in order of first appearance |
| `KpiQuery.GroupsAreClasses` | packages/brain-store/kpi-query.ts:180-203 | each group is one key, non-empty, with exactly the events that carry it, in order |
| `KpiQuery.SharedGroupIff` | packages/brain-store/kpi-query.ts:133-200 | two events share a group if and only if they agree on the field grouped by |
| `KpiQuery.GroupsConserve` | packages/brain-store/kpi-query.ts:180-192 | grouping conserves events however they are weighed |
| `KpiQuery.AxisCounts` | packages/brain-store/kpi-query.ts:205-241 | counts along an axis sum to the events within its windows |
| `KpiQuery.Events` | packages/brain-store/kpi-query.ts:92-131 | the whole query computes the specified answer |
| `KpiQuery.OrderingHolds` | packages/brain-store/kpi-query.ts:98-104 | as many events as matched, all matching, in time order |
| `KpiQuery.OrderedAreTheWanted` | packages/brain-store/kpi-query.ts:92-100 | the sorted events are exactly those that pass every filter given and lie within both bounds, with multiplicity |
| `KpiQuery.OrderingIsStable` | packages/brain-store/kpi-query.ts:92-100 | events of one instant stay in the order given |
| `KpiQuery.RangeIs` | packages/brain-store/kpi-query.ts:104-108 | the range is the bounds asked for, else the first and last event, and the first bucket is the lower one's window |
| `KpiQuery.BucketsConserveEvents` | packages/brain-store/kpi-query.ts:92-131 | overall buckets sum to the total if and only if the latest matched event is within the first 1,000,000 windows, and never exceed it |
| `KpiQuery.FarEventIsUncounted` | packages/brain-store/kpi-query.ts:92-131 | a concrete query of two events 1,000,000 hours apart whose buckets hold fewer events than its total |
| `KpiQuery.AxisHoldsWindows` | packages/brain-store/kpi-query.ts:224-241 | bucket starts strictly increase and are at most 1,000,000 |
| `KpiQuery.EventWindowOnAxis` | packages/brain-store/kpi-query.ts:92-131 | every matched event within the limit has its window among the buckets |
| `KpiQuery.GroupSeriesAddUp` | packages/brain-store/kpi-query.ts:115-121 | group series add up to the overall series bucket by bucket and in total |
| `KpiQuery.GroupsRanked` | packages/brain-store/kpi-query.ts:117-119 | groups come busiest first |
| `KpiQuery.TiesGoByName` | packages/brain-store/kpi-query.ts:112-121 | groups as busy as each other come in the order of the comparison of their names |
| `BrainIndex.ByHashIff` | packages/brain-store/store.ts:391-394 | a hash is found exactly when the index knows it, and names that row |
| `BrainIndex.ByEdgeIff` | packages/brain-store/store.ts:396-399 | an edge is found exactly when the index knows it |
| `BrainIndex.FindIs` | packages/brain-store/store.ts:219-225 | a reference finds the first row it names, or nothing |
| `BrainIndex.NormalizedIs` | packages/brain-store/store.ts:485-490 | the kind a capture is stored under: the alias's, or the word itself, if the schema has it |
| `BrainIndex.InsertKeeps` | packages/brain-store/store.ts:196-213 | inserting an artifact whose hash is unknown keeps rows and index in agreement |
| `BrainIndex.LinkKeeps` | packages/brain-store/store.ts:262-300 | linking stored rows keeps rows and index in agreement and indexes the edge |
| `BrainRuns.TaggedKeeps` | packages/brain-store/store.ts:401-418 | the tag loop keeps the invariant, the other artifacts' edges, and gives this artifact an edge per tag |
| `BrainRuns.ProposedKeeps` | packages/brain-store/store.ts:454-476 | any list of proposals keeps the invariant and adds no tag edge |
| `BrainRuns.CaptureKeepsInv` | packages/brain-store/store.ts:162-217 | a capture keeps the invariant and only adds, whatever the auto-linker does |
| `BrainRuns.CaptureKeepsTagsIff` | packages/brain-store/store.ts:162-217 | all artifacts keep their tag edges if and only if no auto-linker error is passed on past an insertion with tags |
| `BrainRuns.RecaptureChangesNothing` | packages/brain-store/store.ts:174-178 | capturing the same content again returns the first artifact and changes nothing |
| `BrainRuns.CaptureChangesNothingIff` | packages/brain-store/store.ts:162-217 | a capture changes nothing if and only if its kind is unknown or its content is already held |
| `BrainRuns.ExecKeepsInv` | packages/brain-store/store.ts:162-314 | the invariant holds after any run of captures and links |
| `BrainRuns.ExecKeepsTags` | packages/brain-store/store.ts:401-482 | with errors ignored every artifact of any run has its tag edges |
| `BrainRuns.CapturedIsStored` | packages/brain-store/store.ts:162-217 | over every run, whatever was captured under a kind of the schema is still stored |
| `BrainRuns.LinkedIsStored` | packages/brain-store/store.ts:262-300 | and so is every connection that was made |
| `BrainRuns.LinkStores` | packages/brain-store/store.ts:262-300 | a link that succeeds has its connection stored, between the two rows found and of the kind given or the default one |
| `BrainRuns.OneRowPerKey` | packages/brain-store/store.ts:162-300 | one artifact per hash, one connection per (from, kind, to), nothing dangling, in every reachable store |
| `BrainRuns.IndexAgreesWithRows` | packages/brain-store/store.ts:211 | the index maps a hash to a row id exactly when such a row is stored |
| `BrainRuns.EdgesAgreeWithRows` | packages/brain-store/store.ts:297 | the index maps an edge to a row id exactly when that row is stored |
| `BrainRuns.TagEdgesAreStored` | packages/brain-store/store.ts:401-418 | every non-tag artifact of a reachable store has a stored `tagged` connection to the artifact of each of its tags |
| `BrainRuns.StoreWorld` | packages/brain-store/schema.ts:1-45 | the schema's kinds make the assumptions about the vocabulary true |
| `BrainRuns.LostTagsExample` | packages/brain-store/store.ts:478-481 | in the schema's vocabulary, a store that passes errors on and an artifact whose tag has no edge |
| `BrainStore.Store.constructor` | packages/brain-store/store.ts:135-156 | an empty store with empty caches |
| `BrainStore.Store.ListArtifacts` | packages/brain-store/store.ts:227-233 | answers the stored rows, cached or not |
| `BrainStore.Store.ListConnections` | packages/brain-store/store.ts:308-314 | answers the stored rows, cached or not |
| `BrainStore.Store.GetArtifact` | packages/brain-store/store.ts:219-225 | the first row with that id, from the cache |
| `BrainStore.Store.LinkArtifacts` | packages/brain-store/store.ts:262-300 | changes the database as specified, with its three errors, and keeps the caches true |
| `BrainStore.Store.AutoLinkArtifact` | packages/brain-store/store.ts:420-482 | applies acceptable proposals in turn and passes an error on exactly when configured to |
| `BrainStore.Store.ApplyProposal` | packages/brain-store/store.ts:455-475 | links exactly the acceptable proposals |
| `BrainStore.Store.MaterializeTagConnections` | packages/brain-store/store.ts:401-418 | the tag loop as specified; the recursion through capture terminates |
| `BrainStore.Store.CaptureArtifact` | packages/brain-store/store.ts:162-217 | changes the database as specified and keeps the caches true |
| `BrainKeys.RenderInjective` | packages/brain-store/store.ts:796-802 | index keys of different artifacts and edges have different texts |
| `BrainKeys.NormalizedTags` | packages/brain-store/store.ts:557-559 | normalised tags strictly rise and are exactly the trimmed non-empty ones |
| `BrainKeys.TagOrderIsIgnored` | packages/brain-store/store.ts:165-173 | inputs that name the same tags in any order are captured alike |
| `Sgr.FlattenTokens` | packages/redskilled-render/format.ts:25-36 | reading a line into escapes and characters loses nothing |
| `Sgr.TokensAppend` | packages/redskilled-render/format.ts:25-60 | text that cannot continue an escape is read alike on its own and after other text |
| `Sgr.PrefixTokens` | packages/redskilled-render/format.ts:84-97 | cutting after any token leaves exactly those tokens |
| `Sgr.IsResetIff` | packages/redskilled-render/format.ts:46-49 | an escape resets exactly when it is written with zeros and semicolons |
| `Sgr.IsParamIff` | packages/redskilled-render/format.ts:24-30 | digits and the semicolon are parameter characters |
| `Sgr.Clamp` | packages/redskilled-render/format.ts:76-98 | the loop computes the specified cut |
| `Sgr.ClampCuts` | packages/redskilled-render/format.ts:76-98 | a cut line keeps a prefix of its tokens, then the ellipsis and a reset when something was open; it is exactly as wide as allowed |
| `Sgr.ClampFits` | packages/redskilled-render/format.ts:62-98 | every result fits; a fitting line is unchanged; a cut shows a prefix and the ellipsis and ends closed |
| `Sgr.WidthAppend` | packages/redskilled-render/format.ts:58-60 | widths add up when the second text cannot continue an escape |
| `Sgr.PadWidth` | packages/redskilled-render/format.ts:101-103 | padding reaches the target and cuts nothing |
| `Statusline.WorkerWidths` | packages/redskilled-render/line.ts:618-629 | the loops find the widest cell of each given column |
| `Statusline.MeasureRow` | packages/redskilled-render/line.ts:631-636 | the row width with its gutters |
| `Statusline.DropPoint` | packages/redskilled-render/line.ts:601-607 | the first point of the drop order where the row fits or one column is left |
| `Statusline.PopWhile` | packages/redskilled-render/line.ts:608-611 | a prefix of the columns that fits, or one column |
| `Statusline.ShedColumns` | packages/redskilled-render/line.ts:596-611 | both loops compute the specified columns |
| `Statusline.ShedFits` | packages/redskilled-render/line.ts:596-611 | shedding ends with a row that fits or one column, and sheds nothing from a row that fits |
| `Statusline.ShedIff` | packages/redskilled-render/line.ts:588-616 | a table counts as shed if and only if it does not fit whole |
| `Statusline.ShedSparesIdentity` | packages/redskilled-render/line.ts:563-572 | a column outside the drop order is lost only when none of the drop order is left |
| `Statusline.ShedDropsInOrder` | packages/redskilled-render/line.ts:570-607 | an annotation is lost only when all before it in the order are gone and the row was still too wide |
| `Statusline.IdentityOutlivesAnnotations` | packages/redskilled-render/line.ts:588-611 | the same for the table of any Workers at any width |
| `Statusline.RowFitsUncut` | packages/redskilled-render/line.ts:578-586 | a coloured, padded row is as wide as the column widths say, so a fitting row is not cut |
| `Statusline.DetailLadder` | packages/redskilled-render/select.ts:120-136 | exactly the details whose count budget is not blown, each once, richest first, the host last; `LadderUnique` shows that this leaves one ladder |
| `Statusline.ChooseDetail` | packages/redskilled-render/line.ts:165-177 | Worker detail at once, otherwise the first line that fits, otherwise the last |
| `Statusline.RenderStatusline` | packages/redskilled-render/line.ts:148-215 | the whole render as specified, the degraded flag included |
| `Statusline.LadderUnique` | packages/redskilled-render/select.ts:113-136 | a list holds exactly the allowed details, richest first, if and only if it is the ladder |
| `Statusline.ProjectDetailIff` | packages/redskilled-render/select.ts:113-136 | projects are shown if and only if Workers are not allowed, projects are, and their line fits uncut |
| `Statusline.SelectionIsOneByOne` | packages/redskilled-render/select.ts:54-62 | Workers are selected one by one, in order: all of them globally, else those of the named project, else none |
| `Statusline.ProjectSelectionIsOneByOne` | packages/redskilled-render/select.ts:64-71 | so are projects |
| `Statusline.FirstLineShows` | packages/redskilled-render/line.ts:165-180 | the first line reads as the head, followed by every selected project exactly under project detail, cut with an ellipsis if too wide |
| `Statusline.NotDegradedIff` | packages/redskilled-render/line.ts:192-210 | a render is not degraded if and only if the detail is the richest there is something for, the head fits, and the table of every column with text fits |
| `Statusline.FallbackColumns` | packages/redskilled-render/line.ts:563-572 | the columns only the positional fallback drops are wid, iss, bar, phase and hb |
| `Statusline.WorkerDetailIff` | packages/redskilled-render/select.ts:127-128 | Worker detail is shown if and only if 1 to maxWorkers Workers are selected, whatever the width |
| `Statusline.BoundHolds` | packages/redskilled-render/line.ts:217-255 | lines, line width and characters stay within the bound for every payload and all integer options |
| `Statusline.BoundIsReached` | packages/redskilled-render/line.ts:235-255 | no smaller bound would do: as many Workers as may be listed, all too wide, reach it exactly |
| `Statusline.EveryWorkerHasItsRow` | packages/redskilled-render/line.ts:181-191 | each selected Worker has exactly one row, in order, at every width, logs between them when verbose |
| `Statusline.RowsShowTheirWorkers` | packages/redskilled-render/line.ts:574-640 | what is read of each Worker's line, at every width: its own cells over the kept columns, padded to the columns' widths and two spaces apart, cut with an ellipsis if too wide; and below it, when verbose, its own log text |
| `Statusline.KeptColumnsAre` | packages/redskilled-render/line.ts:588-616 | the table keeps only columns with text, in the dashboard's order, and all of them when they fit |
| `Statusline.WidestIsReached` | packages/redskilled-render/line.ts:618-640 | a column is as wide as one of its cells |
| `Statusline.RowsAreWhole` | packages/redskilled-render/line.ts:588-616 | rows are cut only when a single column alone is too wide |
| `Inject.PreludeIff` | packages/browser-bridge/inject.ts:87 | the end marker occurs before its place exactly when the script contains it |
| `Inject.FindsStart` | packages/browser-bridge/inject.ts:92-101 | with no begin marker before it, the block's begin marker is found at the insertion place, since none can straddle it |
| `Inject.FindsEnd` | packages/browser-bridge/inject.ts:102 | where the end marker is found, exactly |
| `Inject.StripUnmarkedBefore` | packages/browser-bridge/inject.ts:85-109 | with no begin marker before the block, stripping gives back any page if and only if the script has no end marker |
| `Inject.StripOpenBefore` | packages/browser-bridge/inject.ts:99-109 | a page with a begin marker and no end marker after it before the insertion place is never given back |
| `Inject.StripWholeBeforeIff` | packages/browser-bridge/inject.ts:99-109 | a page with a whole block before the insertion place is given back if and only if the script has no end marker and the page is, from there to the place, copies of the block inserted |
| `Inject.StripInsertedIff` | packages/browser-bridge/inject.ts:85-109 | for every page and place: stripping an insertion gives the page back if and only if the script has no end marker and before the place there is no begin marker, or a stack of copies of the very block |
| `Inject.StripBlocklessIff` | packages/browser-bridge/inject.ts:85-109 | for a page with no whole block the stack cannot be there |
| `Inject.StripInjectedIff` | packages/browser-bridge/inject.ts:81-109 | the same for the computed insertion place, after the first old block is gone, for every page |
| `Inject.StripInjectedFresh` | packages/browser-bridge/inject.ts:81-109 | a page without the begin marker comes back itself, exactly when the script has no end marker |
| `Inject.InjectReplaces` | packages/browser-bridge/inject.ts:81-96 | injecting again replaces the block |
| `Inject.InjectedIs` | packages/browser-bridge/inject.ts:85-96 | what an injection writes, line by line, and where |
| `Inject.BridgeMarkersSound` | packages/browser-bridge/inject.ts:17-18 | the two actual markers satisfy the assumptions |
| `Inject.StrayMarkerIsLost` | packages/browser-bridge/inject.ts:99-109 | a page that is a stray begin marker is not recovered |
| `BoundedMap.WorkerCount` | packages/shared/github-batch.ts:46 | at least one worker when there are values, never more than values |
| `BoundedMap.WorkerCountIs` | packages/shared/github-batch.ts:46 | the concurrency rounded down to one at least, capped by the number of values |
| `BoundedMap.InFlightCountIs` | packages/shared/github-batch.ts:47-52 | calls in flight are counted worker by worker |
| `BoundedMap.StepKeepsInv` | packages/shared/github-batch.ts:47-52 | every move of every worker keeps the invariant |
| `BoundedMap.ExecKeepsInv` | packages/shared/github-batch.ts:44-55 | so does every interleaving |
| `BoundedMap.ClaimedOnceWithinLimit` | packages/shared/github-batch.ts:46-50 | each index is claimed once, in order, with at most the limit in flight |
| `BoundedMap.CompletionIsTheMap` | packages/shared/github-batch.ts:53-54 | when all workers are done every result is the function's answer for its own value |
| `BoundedMap.StepTakesWork` | packages/shared/github-batch.ts:48-51 | every move of an unfinished worker reduces what is left |
| `BoundedMap.CanComplete` | packages/shared/github-batch.ts:47-54 | every run has a continuation that finishes every worker |

## Left out

- Real files, sockets, processes, timers, Octokit, RedDB and child processes: they are abstract state or arbitrary actions.
- The lock's assumptions are those of its comments: pids are not reused, inode and birth time name a directory, a live holder finishes within 30 seconds, and a crash does not hit the reaper-marker section.
- Permissions, symlink checks and error reporting of the diagnostic writer.
- The redaction and credential patterns, journal patterns, reply classification and cell colouring: arbitrary functions here.
- The byte decoder in front of the line assembler, and a negative line budget.
- The retry, rate-limit and pagination parts of the conditional client.
- An attribution ledger that throws after an answer has arrived.
- Which records a compaction drops in `DeathRun`: any; the choice by age and size is proved on its own in `LaneCompaction`. Its verdicts are all that were given, also those the verdict lane later drops.
- Failing file writes of the death recorder and of the lanes.
- The TOON encoding of lanes: an encoded lane is a header and the sum of its row sizes.
- Floating-point rounding: fractions, pressures and shares are exact reals.
- Staleness and wording of a balance report, and the pools' parsing from the answer.
- The cache's diagnostic listing.
- Instants before 1970, fractional milliseconds and the end of the JavaScript date range in the KPI windows.
- Reading timestamps and dimensions from artifact metadata, and the ISO text of a bucket.
- Search, think and scoring of the brain store; the auto-linker's candidates are covered by allowing any proposals.
- Timestamps, reasons, confidences and weights of stored rows, and rows written by another process.
- Lone surrogates in strings: a string is its code points.
- The text of the statusline head, projects, marks and counters.
- Functions that fail inside the bounded map.
- Protocol validators, routing tables, bandit sampling, cryptography wrappers, and the web and mobile surfaces: reading one branch settles them, or they are user interface.
