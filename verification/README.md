# slmcode: the harness ratchet and its neighbours, in Dafny

A model of the parts of slmcode that change a user's files or decide on their behalf, with proofs
of what those parts promise.

The main subject is the autoresearch ratchet (`pkg/autoresearch`): snapshot, propose one change,
apply, evaluate, keep or restore, record, repeat. A run is a transition system (`Ratchet.dfy`) over
a disk of YAML documents, the reflected surface, the champion score and the trial history. Its
environment is arbitrary: any proposer, any evaluator (scores, errors, panics), any clock,
cancellation and disk fault. `LiveSurface.dfy`, `Snapshot.dfy` and `RatchetRun.dfy` hold the same
thing as objects with fields and loops, proved to compute the transition system, over a disk that
remembers every state it passed through.

Around it stand the retry loop and deadlines of `pkg/backends/retry.go`, the single-flight
capability cache of `pkg/backends/capabilities.go` as an interleaving protocol, the budgeted
selection of `pkg/augment`, the UTF-8 clipping of the journal, and the escalation roster of
`pkg/agents`.

| file | what it holds |
|---|---|
| Text, Float64, Decimal | trimming, ordering; what doubles keep; decimal printing and parsing |
| Domains, Whitelist | domains, candidates, scaling; the allow-list tables |
| YamlEdit, Disk | ordered mappings with get/put laws; files and the object that writes them |
| Surface, Agreement, LiveSurface | the mutable surface, its agreement with disk, and its object form |
| Ordering, Membership, Written | the order and completeness of a surface; what a domain lets through and what Apply writes; how values are spelled |
| Snapshot | capture, restore, persist, load, and crashes in each |
| Guards, Trials, Propose, Answers | scores and guards; history and counters; both proposers; what becomes of a model's answer |
| Ratchet, RatchetRun | the loop as a transition system, and as an object |
| Seeds, Regularity | a seed that favours one knob; what Reflect guarantees about ids and domains |
| RatchetRestore, RatchetFrame, RatchetBooks, RatchetSweep, RatchetRuns, RatchetDry, RatchetSentences | what holds over whole runs |
| RatchetAligned, RatchetCollide, RatchetTwins, RatchetExhaust | colliding agent ids, exactly; runs that reach the end of the space |
| Retry, Verdict, RetryLoop, Deadline | classification and backoff; the verdict on every error; retry and streams; throughput and timeouts |
| Capabilities, ProbeRace | the cache and the probe; all interleavings of Probe |
| Augment, Clip, Encoding | selection; clipping; UTF-8 |
| Escalate, Registry, Roster | role ids and rungs; AllSpecs; distinct ids |

Modelling decisions a reader should know:

- Scores are `real`: a primary that is not a number, which passes every comparison of
  `pkg/autoresearch/ratchet.go:440` and would be kept, has no counterpart.
- Float domains are integer micro-units, because `formatFloat` rounds to 1e-6; raw values are exact
  decimals. `Float64.dfy` shows that doubles behave the same up to 2^32 and no further.
- A proposer may find itself cancelled at any call, because `Propose` looks at the context again.
- Parsing and encoding of YAML and JSON are inverse on the document model; a file that does not
  parse and a blank one are kept apart from documents.
- `atomicfile.Write` is one step of the disk.
- The seeded orders are arbitrary permutations.
- A provider, an evaluator or a server is a function of the call number, so it is fixed but
  arbitrary.
- The closure that `retryDo` runs changes state, which a Dafny function value cannot; the
  streaming loop therefore has `retryDo`'s loop written out, against the same specification.

## Where the code and its words differ

- `pkg/autoresearch/ratchet.go:85-86`: a cancelled run does not restore what it kept
  (`RatchetSentences.CanceledKeepsChanges`, exact condition in `RestoredIffNetsOut`).
- `pkg/autoresearch/ratchet.go:63-64`: a spent experiment budget can coincide with an exhausted
  surface (`TightBudgetMisreports`, with such a run on every project without stale ids in `RatchetExhaust`). The budget that
  does so is exact for a run that keeps nothing (`MisreportsIffExactBudget`), and a budget small
  enough never does (`RatchetRuns.SmallBudgetSentence`).
- `pkg/autoresearch/surface.go:472-473` says surface and disk never disagree. `Reflect` accepts two
  agent files of one id, `Apply` writes the last of them and the proposer may have read another
  (`RatchetTwins.TwinsDisagree`; exactly when not in `RatchetCollide.KeepsStepIffAligned`).
- `pkg/autoresearch/propose.go:118-121` says every knob gets its first value before any gets its
  second: true exactly of knobs with ids of their own (`RatchetSweep.FirstLapTouchesAllIff`).
- `pkg/autoresearch/surface.go:529-531` says a value string does not drift: true up to 2^32
  (`Float64.MicroSurvives`, `SixDecimalsDrift`).
- `pkg/autoresearch/ratchet.go:320`: an evaluator error that prints as nothing does not stop the
  run (`EvaluatorErrorStopsIff`).
- `pkg/backends/capabilities.go:308-313`: a probe is not renewed when its record expires in the
  same process (`ProbeRace.DeadForever`, `BlankIffDead`, reached in `DeadReachable`).
- `pkg/backends/capabilities.go:433-437`: a cut-short probe does reach the disk after a demotion,
  and only then (`Capabilities.DemotionPersistsGuess`, `ProbeRace.OnFileOnlyIfSeeded`).
- `pkg/backends/retry.go:471`: an estimate beyond 64 bits gets the shortest deadline on amd64
  (`Deadline.TimeoutIdealIff`, `HugeBudgetGetsShortest`), and `pkg/backends/retry.go:272-276` the
  longest ceiling a negative pause (`Retry.PausesBoundedIff`).
- `pkg/orchestrator/orchestrator.go:391` drops the error of `NormalizeCustom`, so a block may carry
  an id that looks like a rung (`Roster.BlockClashes`).
- `pkg/agents/escalate.go:42-46` speaks of a bare `@`; the constant is `@esc`
  (`pkg/plan/routing.go:102`). Its two parsers differ on two kinds of rung
  (`Escalate.ParsersAgreeIff`), and padded ids lose their class (`PaddedRungKeepsClassIff`); every
  loader trims ids (`pkg/agents/custom.go:64`), so only direct callers of the helpers can meet that.

## Model

| member | source | states |
|---|---|---|
| RatchetRestore.DiskIsReplayOfKept | pkg/autoresearch/ratchet.go:278-329 | in every state of every live run with working restores, whatever mix of scores, errors, panics and cancellations and whoever proposes, the disk is exactly the starting disk with the kept changes applied in order |
| RatchetRestore.UnkeptTrialRestores | pkg/autoresearch/ratchet.go:401-419 | a trial that is not kept leaves the disk exactly as it found it, including files that did not exist before |
| RatchetRestore.KeptTrialApplies | pkg/autoresearch/ratchet.go:421-463 | a kept trial is one successful fault-free Apply and nothing else |
| RatchetRestore.SurfaceAgrees | pkg/autoresearch/ratchet.go:401-419 | if every proposal's Before is the surface's value, re-running Reflect on the disk of any reachable state gives the values in memory; it holds even after a failed restore |
| RatchetRestore.RevertAgreesIff | pkg/autoresearch/ratchet.go:418 | after a reverted trial, surface and disk agree if and only if the proposal's Before was the surface's current value |
| RatchetRestore.RevertValues | pkg/autoresearch/surface.go:474-478 | Apply then SetValue(Before) gives the old values back exactly when Before was the value held |
| RatchetRestore.ReflectIgnoresSnapshot | pkg/autoresearch/ratchet.go:248-260 | laying down the snapshot does not change what Reflect sees |
| RatchetRestore.ExecutionShape | pkg/autoresearch/surface.go:438-478 | no run adds, drops or reorders a knob or changes its id, file, field or domain |
| RatchetCollide.KeepsStepIffAligned | pkg/autoresearch/surface.go:472-478 | 'the surface and the disk never disagree': a deterministic run keeps that on a project under every seed, evaluator, budget and fault if and only if no enumerable knob of the reflected surface that is followed by another of its id holds another value than the last of them or has one of them before it |
| RatchetCollide.KeepsStepShippedIff | pkg/autoresearch/propose.go:208-248 | with a model in the loop, whatever it answers, if and only if in addition the text knob the model is asked about is the last of its id |
| RatchetTwins.TwinsDisagree | pkg/autoresearch/surface.go:272-277 | two agent files of one id that differ in max_iter: one failed experiment leaves the surface showing what no file holds |
| RatchetAligned.AlignedIsHonest | pkg/autoresearch/propose.go:158-160 | on a surface that meets the condition every proposal of every deterministic run carries the value the revert will need |
| RatchetAligned.SoleIsAligned | pkg/autoresearch/surface.go:272-277 | distinct ids always meet it |
| Regularity.ReflectRegular | pkg/autoresearch/surface.go:279-378 | knobs that share an id share a domain on every reflected surface, because an id ends in its field, and every domain is coherent |
| Agreement.ApplyAgrees | pkg/autoresearch/surface.go:438-470 | a successful Apply on an agreeing surface leaves it agreeing: the edited file, reflected again, shows exactly the new value and no other knob moved |
| Agreement.PlacesDiffer | pkg/autoresearch/surface.go:279-378 | no two knobs of a reflected surface share a file and a field, even when agent ids collide |
| Agreement.ReflectMoves | pkg/autoresearch/surface.go:240-270 | one edit of the disk moves exactly one knob of the re-reflected surface, through sorting and the cap |
| Agreement.SoundMayWrite | pkg/autoresearch/surface.go:443-449 | the allow-list re-checks of Apply always pass on a reflected knob, whose domain is coherent and whose field is not a sensitive key |
| RatchetRun.Ratchet.Run | pkg/autoresearch/ratchet.go:236-347 | Run computes the transition system's result, disk and surface; a dry run writes nothing; and with a snapshot directory every disk state from the finished snapshot to the end of the run recovers the pre-run project, and every earlier one is harmless |
| RatchetRun.Ratchet.Iterate | pkg/autoresearch/ratchet.go:278-336 | the loop returns the result of the transition system, its missing-reason fallback is dead code, and every disk state it passes through stays inside the allow-list frame |
| RatchetRun.Ratchet.Pass | pkg/autoresearch/ratchet.go:279-329 | one pass, the head or an experiment with its bookkeeping, is one step of the transition system and brings the loop closer to its budget |
| RatchetRun.Ratchet.RunTrial | pkg/autoresearch/ratchet.go:373-464 | one trial: record, surface and disk are those of the specification, and every disk state in between is one of its listed states |
| RatchetRun.Ratchet.Judge | pkg/autoresearch/ratchet.go:429-463 | the keep rule in the order it is applied, with an evaluator's error and panic |
| RatchetRun.Ratchet.BudgetStop | pkg/autoresearch/ratchet.go:350-364 | the first cap that binds |
| RatchetRun.Ratchet.Decide | pkg/autoresearch/ratchet.go:279-301 | budget, then context, then the proposer decide whether and why the loop ends |
| RatchetRun.Ratchet.PutBack | pkg/autoresearch/ratchet.go:401-419 | the deferred restore puts the captured file and the in-memory value back and passes through no other disk state |
| RatchetRun.Ratchet.Measure | pkg/autoresearch/ratchet.go:262-276 | the baseline is the score of one evaluation in a live run and unmeasured in a dry one; an evaluator's error becomes the run's error and its panic goes through |
| RatchetRun.Ratchet.Secure | pkg/autoresearch/ratchet.go:245-260 | a live run with a snapshot directory starts from a disk that holds the complete snapshot |
| RatchetRun.Ratchet.LaySnapshot | pkg/autoresearch/ratchet.go:248-260 | an error while the snapshot is laid down leaves the project as it was and never a half-written snapshot to load |
| RatchetRun.Ratchet.constructor | pkg/autoresearch/ratchet.go:194-225 | the budget's zero fields, a missing proposer and missing guards take their defaults |
| RatchetRun.RestoreLast | pkg/autoresearch/ratchet.go:482-491 | from any disk that recovers a target, with no file in the way, RestoreLast produces exactly that target; files that resist are left, the others put back and an error reported; without a loadable snapshot only an unparseable manifest is moved aside |
| Ratchet.LoopExecutes | pkg/autoresearch/ratchet.go:278-329 | the loop's result is the last state of a chain of single passes, and its reason is decided in that state |
| LiveSurface.LiveSurface.constructor | pkg/autoresearch/surface.go:240-270 | Reflect's loops over directory, fields and whitelist build the specified surface, in ascending order of id, of everything found up to 512 knobs, with none left out that comes before one kept, and an index of the last knob of each id |
| Ordering.ReflectIsOrdered | pkg/autoresearch/surface.go:240-270 | the surface ascends by id; knobs of one id keep the order in which they were found; what the cap of 512 leaves out comes no earlier than anything it keeps |
| Ordering.FoundIff | pkg/autoresearch/surface.go:279-378 | what is found is exactly: for each of the first 64 agent files that parse, one knob for each agent field it holds as a scalar, owned by its trimmed lower-case id or else its file name, with the normalized value; and one for each whitelisted config key, from the file or else from the defaults |
| Ordering.FoundInOrder | pkg/autoresearch/surface.go:244-253 | it is found file by file in directory order, the config last |
| Ordering.LessIff | pkg/autoresearch/surface.go:262 | an id comes before another that it is a proper prefix of, or whose first differing character is larger |
| LiveSurface.LiveSurface.Reindex | pkg/autoresearch/surface.go:272-277 | byID maps each id to its last knob |
| LiveSurface.LiveSurface.Find | pkg/autoresearch/surface.go:388-394 | a lookup returns the last knob of the id |
| LiveSurface.ScanAgents | pkg/autoresearch/surface.go:279-334 | the directory loop, capped, with unparseable files skipped, yields the specified agent knobs |
| LiveSurface.ScanConfig | pkg/autoresearch/surface.go:336-378 | the whitelist loop yields the specified config knobs |
| LiveSurface.LiveSurface.ApplyChange | pkg/autoresearch/surface.go:438-470 | a change is written exactly when its knob is on the surface, its field on the allow-list, the normalized value within its knob's bounds, its file parses and the write succeeds; a refused change touches neither memory nor disk, a written one is one atomic write of the edited document and one moved value |
| Membership.AppliedIff | pkg/autoresearch/surface.go:438-470 | the same on values, with the bounds spelled out kind by kind |
| Membership.AppliedWrites | pkg/autoresearch/surface.go:455-470 | what is left behind: the node tagged by kind, a text of several lines as a literal block, at the knob's place, and every other file and knob as it was |
| LiveSurface.LiveSurface.Set | pkg/autoresearch/surface.go:474-478 | SetValue moves one value and no file |
| LiveSurface.LiveSurface.FileList | pkg/autoresearch/surface.go:405-418 | Files lists every file of the surface once, strictly ascending |
| LiveSurface.SortPathsSorts | pkg/autoresearch/surface.go:416 | sorting distinct paths gives a strictly ascending permutation |
| Snapshot.RestoreExact | pkg/autoresearch/snapshot.go:117-157 | restoring captured files onto a disk that differs at most at those files gives exactly the captured disk |
| Snapshot.RestoreTwice | pkg/autoresearch/snapshot.go:117-128 | restoring twice equals restoring once |
| Snapshot.CaptureRestore | pkg/autoresearch/snapshot.go:71-113 | what Capture took, Restore puts back, content, presence and absence |
| Snapshot.LoadRestore | pkg/autoresearch/snapshot.go:212-238 | a disk that still holds the persisted snapshot recovers its target |
| Snapshot.CrashWhileRestoring | pkg/autoresearch/snapshot.go:117-128 | a crash in the middle of a restore costs nothing: restoring again finishes the job |
| Snapshot.CrashWhileRemoving | pkg/autoresearch/snapshot.go:176-186 | while the old snapshot is being removed, anything still loadable is the old one, whole |
| Snapshot.SnapshotStore.Persist | pkg/autoresearch/snapshot.go:176-209 | after Persist the complete snapshot is on disk, or a write failed and nothing is loadable; every state before has no loadable snapshot or the complete earlier one, because the manifest is written last |
| Snapshot.SnapshotStore.ClearSnapshot | pkg/autoresearch/snapshot.go:177-182 | clearing the directory in any order passes only through crash-safe states |
| Snapshot.SnapshotStore.CopyFiles | pkg/autoresearch/snapshot.go:187-204 | copies are written while no manifest exists and each file is stamped with its copy's name, up to the first write that fails |
| Snapshot.SnapshotStore.Capture | pkg/autoresearch/snapshot.go:71-83 | all files captured as they stand, or a refusal when one cannot be read |
| Snapshot.SnapshotStore.Restore | pkg/autoresearch/snapshot.go:117-157 | a file that resists is reported and all others are put back; every state a restore passes through has some prefix of those put back |
| RatchetFrame.ContainedRecovers | pkg/autoresearch/ratchet.go:245-260 | crash safety: from any framed disk state, between apply and verdict included, loading and restoring the snapshot gives the exact pre-run disk, once or twice |
| RatchetFrame.CrashedRecoveryRecovers | pkg/autoresearch/ratchet.go:482-491 | a second crash, inside that recovery, is recovered from the same way |
| RatchetFrame.RunContained | pkg/autoresearch/surface.go:438-470 | under any proposer, evaluator and faults, no state of a run differs outside the surface's files and fields, and every value written lies within its knob's bounds |
| RatchetFrame.MidTrialContained | pkg/autoresearch/ratchet.go:421-463 | the same inside a trial, between apply and verdict and after the restore |
| RatchetFrame.WrittenWithin | pkg/autoresearch/surface.go:103-137 | on a reflected surface: every integer a run writes lies between min and max, every mode and switch is on its list, and every prompt is not blank and has at most 8000 bytes |
| Membership.AllowsIff | pkg/autoresearch/surface.go:103-137 | a domain allows exactly: an integer spelled in digits, of 64 bits and in the range; a decimal in the range to a thousandth of a millionth; a listed value; a text that is not blank and within its limit in bytes |
| Membership.NumbersAllowedIff | pkg/autoresearch/surface.go:115-126 | an integer domain allows Itoa(n) for a 64-bit n, and a float domain the six-decimal spelling of n millionths, if and only if min and max do |
| Membership.ByteLengthOne | pkg/autoresearch/surface.go:127-133 | a character takes one to four bytes as section 3 of RFC 3629 lays down, so a limit counts bytes |
| Answers.TooManyTurnsRefused | pkg/autoresearch/surface.go:450-453 | max_iter 9999 on the domain 1 to 24 is refused |
| Answers.LongAnswerDropped | pkg/autoresearch/surface.go:450-453 | a prompt of nine thousand letters is neither proposed nor written |
| RatchetFrame.OffSurfaceKeyKept | pkg/autoresearch/yamledit.go:151-168 | a key that is not on the surface reads the same in every framed state |
| RatchetFrame.SensitiveKeysKept | pkg/autoresearch/whitelist.go:207-232 | the security-sensitive config keys keep their values through every run |
| RatchetFrame.ReflectPlaced | pkg/autoresearch/surface.go:279-378 | agent knobs address agent files under spec, config knobs the config file, and never a sensitive key |
| Whitelist.SensitiveExcluded | pkg/autoresearch/whitelist.go:207-232 | no sensitive key is whitelisted or looks tunable to the allow-list |
| Whitelist.ConfigFieldShipped | pkg/autoresearch/whitelist.go:101-172 | every shipped config domain is coherent for every context window |
| Whitelist.AgentFieldShipped | pkg/autoresearch/whitelist.go:33-54 | every shipped agent field is a coherent domain and neither id nor spec |
| Whitelist.AgentSizes | pkg/autoresearch/whitelist.go:33-54 | the three numeric agent fields have 21, 16 and 24 candidates between their shipped ends |
| Whitelist.ConfigSizes | pkg/autoresearch/whitelist.go:101-172 | each integer config key has its shipped number of candidates between its shipped ends |
| YamlEdit.PutGet | pkg/autoresearch/yamledit.go:151-168 | what setScalar writes, scalarString reads back, at the key's old position or at the end |
| YamlEdit.PutOther | pkg/autoresearch/yamledit.go:151-168 | every other key keeps its value and position |
| YamlEdit.PutPut | pkg/autoresearch/yamledit.go:151-168 | the last write of a key wins |
| YamlEdit.EditTarget | pkg/autoresearch/yamledit.go:88-94 | spec() chooses the same mapping before and after an edit |
| YamlEdit.TargetIs | pkg/autoresearch/yamledit.go:88-94 | an agent file is read under its first spec key if that holds a mapping, at its root otherwise |
| Disk.LoadIs | pkg/autoresearch/yamledit.go:36-70 | a missing or blank file is an empty mapping, one that does not parse an error |
| Whitelist.AgentKeyNamed | pkg/autoresearch/whitelist.go:64-72 | an agent field passes its re-check if and only if it is one of the four, in any casing or padding |
| YamlEdit.YamlDoc.SetScalar | pkg/autoresearch/yamledit.go:151-168 | the in-place edit of root or spec is the specified edit of the tree |
| YamlEdit.FindKey | pkg/autoresearch/yamledit.go:116-126 | the first entry of a name, or -1 |
| RatchetBooks.RunBooks | pkg/autoresearch/ratchet.go:302-310 | in every state: Best is the last kept score, each trial's Baseline the champion then, TokensUsed the baseline plus all trials, kept plus reverted is experiments, vetoes are reverts; every kept trial in the history beat its Baseline by more than the margin and passed both guard checks, so kept primaries climb by more than the margin each; and Best passes every guard against the run's own baseline |
| RatchetBooks.VerdictExact | pkg/autoresearch/ratchet.go:436-463 | a scored trial is kept if and only if it improves by more than the margin and passes every guard against champion and baseline; a veto names the first guard breached |
| RatchetBooks.KeptIsBounded | pkg/autoresearch/ratchet.go:440-444 | with a positive margin and a bounded primary, only so many changes can ever be kept |
| RatchetBooks.StopReasonIsTrue | pkg/autoresearch/ratchet.go:278-329 | the loop stops, for a reason that is true of the state it stopped in, within the experiment budget, with at most its last trial in error |
| RatchetBooks.HeadExact | pkg/autoresearch/ratchet.go:279-301 | experiments, clock, tokens, context, proposer: each reason to stop is given if and only if it applies and nothing before it does, and otherwise the proposal is tried |
| RatchetBooks.OnlyLastErrs | pkg/autoresearch/ratchet.go:320-328 | only the last trial can carry an error, and trials never exceed the budget |
| Trials.CountReverted | pkg/autoresearch/ratchet.go:151-159 | Result.Reverted counts unkept trials of a live run |
| Trials.CountGuardVetoes | pkg/autoresearch/ratchet.go:164-172 | Result.GuardVetoes counts trials with a guard |
| Guards.CheckGuards | pkg/autoresearch/evaluate.go:169-194 | none trips exactly when every guard tolerates the score: a metric measured on both sides is worse by at most the tolerance, a share of the reference for a relative guard, in the guard's own direction; otherwise the first that does not, in slice order |
| Guards.DefaultGuardsExact | pkg/autoresearch/evaluate.go:116-146 | with every metric measured the default guards pass a score if and only if tokens are at most 1.05 and seconds at most 1.10 times the reference, tool errors at most 0.02 above it and the apply rate at most 0.02 below it |
| Guards.DefaultsPassIff | pkg/autoresearch/evaluate.go:116-146 | and each limit applies only to a metric measured on both sides |
| Guards.AbsolutePassIff | pkg/autoresearch/evaluate.go:169-194 | an absolute guard of either direction |
| Guards.RelativePassIff | pkg/autoresearch/evaluate.go:169-194 | a relative guard of either direction |
| Guards.NamesFirst | pkg/autoresearch/evaluate.go:169-194 | the name reported is that of the first guard of the list that does not pass alone |
| Guards.ApplyRateVeto | pkg/autoresearch/evaluate.go:140-146 | an apply rate that falls from 0.95 to 0.10 is vetoed by name, one that rises from 0.90 to 0.95 is not |
| RatchetBooks.KeptWithinLimits | pkg/autoresearch/ratchet.go:440-463 | over whole runs under the default guards no kept score is past any of the four limits, from the champion it beat or from the run's own baseline; its measured apply rate is never more than two points below either |
| Guards.ChampionOnlyBound | pkg/autoresearch/ratchet.go:451-459 | checking only against the champion bounds a cost by (1+tolerance)^k times the start, with the slack compounded |
| Guards.ChampionOnlyErodes | pkg/autoresearch/ratchet.go:451-459 | and that is reached: a chain that passes every pairwise check and breaks the baseline tolerance from two steps on, so the second check is needed; against an unmeasured baseline it never fires |
| Guards.SelfPass | pkg/autoresearch/evaluate.go:169-194 | a score passes against itself exactly when no applicable guard has a negative allowance |
| Propose.ProposeNext | pkg/autoresearch/propose.go:105-171 | the slots, the stable sort and the value loop choose what the specification chooses: the least-tried open knob, rank breaking ties, and its first fresh value |
| Propose.DetPropose | pkg/autoresearch/propose.go:105-171 | it proposes exactly when some knob has an untried candidate other than its current value, and then such a candidate of an earliest open knob, with Before the current value |
| Propose.SortedSlotIsEarliest | pkg/autoresearch/propose.go:140-164 | the first open slot of the sorted array is the earliest open knob |
| Propose.CountTries | pkg/autoresearch/propose.go:128-135 | one pass over the history charges each trial to the first knob of its id |
| Propose.BuildSlots | pkg/autoresearch/propose.go:118-139 | each knob gets the slot with its rank in the seeded cycle and its tries |
| Trials.HasTried | pkg/autoresearch/propose.go:53-61 | Tried answers whether the history holds the pair |
| Propose.PromptMoveSound | pkg/autoresearch/propose.go:223-248 | whatever the model answers, a prompt move names a text knob, its current value and a sanitized value never tried |
| Answers.PromptMoveIff | pkg/autoresearch/propose.go:223-248 | only the first text knob of the surface is asked about, and its answer is proposed if and only if it is usable: not empty once sanitized, not what the knob holds, never tried |
| Answers.AskedOneInEvery | pkg/autoresearch/propose.go:208-219 | on every n-th proposal, counted over the history, a usable answer is what is proposed |
| Answers.OtherwiseSweeps | pkg/autoresearch/propose.go:208-219 | on the others, without a model, or without a usable answer, the deterministic sweep goes on |
| Answers.PlainAnswer | pkg/autoresearch/propose.go:280-296 | an answer without a fence is its trimmed self if the domain allows that, else nothing |
| Answers.FencedAnswer | pkg/autoresearch/propose.go:280-296 | an answer in a fence is what the fence holds, trimmed, whatever language the fence names |
| RatchetSweep.NoPairTwice | pkg/autoresearch/propose.go:53-61 | no (knob, value) pair is ever tried twice in a run, even where ids collide |
| RatchetSweep.SweepIsBounded | pkg/autoresearch/propose.go:105-171 | a deterministic run has at most the sum over knobs of their candidate counts in trials, whatever the budget |
| RatchetSweep.ExhaustedMeansSwept | pkg/autoresearch/ratchet.go:69-84 | when the sweep is out of proposals every candidate of every knob was tried, except possibly a value some knob of its id started on: its own, when the id is its own |
| RatchetSweep.ExhaustedIffCovered | pkg/autoresearch/propose.go:140-171 | no proposal is left exactly when tried pairs and values held by every knob of their id cover the space |
| RatchetSweep.NotExhaustedIffShort | pkg/autoresearch/ratchet.go:63-68 | in any state of a deterministic run something is left to propose if and only if trials plus untried held values fall short of the space |
| RatchetSweep.SweepIsFair | pkg/autoresearch/propose.go:118-164 | at every step of every run, while a knob has an untried candidate no enumerable knob with an id of its own has been tried more than once more often than that knob was charged |
| RatchetSweep.ClosedStaysClosed | pkg/autoresearch/propose.go:140-164 | an exhausted knob stays exhausted, whatever is tried for another knob of its id |
| RatchetSweep.SharedRunsAhead | pkg/autoresearch/propose.go:128-135 | a shared id is charged to its first knob only: another knob of it can be tried twice in a row while a knob that can move waits for its first trial |
| RatchetSweep.FirstLapTouchesAllIff | pkg/autoresearch/propose.go:118-164 | with n knobs that can move, the first n experiments touch n different knobs under every seed if and only if each of the n has an id of its own |
| RatchetSweep.FirstLapTouchesAll | pkg/autoresearch/propose.go:118-164 | and at the end of that lap the knobs touched are exactly those that could move |
| RatchetRuns.ShippedSweeps | pkg/autoresearch/propose.go:208-248 | the model-assisted proposer makes only moves of the same sweep, however the model behaves |
| RatchetRuns.DeterministicRunIsFinite | pkg/autoresearch/ratchet.go:278-329 | every deterministic run, live or dry, on any surface, under any evaluator, budget, cancellation and faults, ends within the size of the space and repeats no pair |
| RatchetRuns.ExhaustedRunSwept | pkg/autoresearch/ratchet.go:69-84 | a run of either shipped proposer that reports the surface exhausted has swept it, but for starting values of the id |
| RatchetRuns.SmallBudgetSentence | pkg/autoresearch/ratchet.go:63-64 | known before the run: a spent experiment budget did leave something untried whenever budget plus starting values fall short of the space, whatever is kept |
| RatchetExhaust.UntroubledRunExhausts | pkg/autoresearch/ratchet.go:69-84 | left alone with a budget larger than its space, the deterministic sweep of a project without stale ids ends because the surface is exhausted |
| RatchetRuns.DetProposalApplies | pkg/autoresearch/surface.go:438-470 | a deterministic proposal is never refused by Apply, whatever ids collide |
| RatchetRuns.DryRunTouchesNothing | pkg/autoresearch/ratchet.go:383-386 | a dry run keeps disk, surface, kept list and tokens as they were in every state |
| RatchetRuns.DryRunIgnoresEvaluator | pkg/autoresearch/ratchet.go:262-276 | any two evaluators give the same dry run |
| RatchetDry.DetProposeAlike | pkg/autoresearch/propose.go:105-171 | the proposer depends on nothing but the values shown and the changes already made |
| RatchetDry.DryRunPredicts | pkg/autoresearch/ratchet.go:262-336 | a dry run and a live run that is honest about Before and keeps nothing propose alike, change by change, and to the same end unless one is cut off by clock, tokens, cancellation or an error |
| RatchetAligned.AlignedDryRunPredicts | pkg/autoresearch/ratchet.go:262-336 | so it does for every deterministic run that keeps nothing, when no knob of the start surface is stale |
| RatchetDry.FailedRestoreShows | pkg/autoresearch/ratchet.go:414-417 | a failed restore always leaves a non-empty error on the trial |
| RatchetSentences.SurfaceIsNetOfKept | pkg/autoresearch/ratchet.go:302-310 | in an honest run without a failed restore each knob shows the last value kept for it, or its starting value if there is none |
| RatchetSentences.RestoredIffNetsOut | pkg/autoresearch/ratchet.go:85-86 | 'the surface was restored to its pre-run state' is true if and only if no kept change, taken last for its knob, moved it away from where it started; cancellation makes no difference |
| RatchetAligned.AlignedRestoredIff | pkg/autoresearch/ratchet.go:85-86 | the same for every deterministic run whose start surface has no stale knob |
| RatchetSentences.CanceledKeepsChanges | pkg/autoresearch/ratchet.go:85-86 | on every project with an applicable change there is a run under the default options that reports that sentence with the change on disk |
| RatchetSentences.TightBudgetMisreports | pkg/autoresearch/ratchet.go:63-64 | every run that exhausts the surface after n trials, given a budget of n, ends in the same state reporting 'the surface was NOT exhausted' |
| RatchetSentences.MisreportsIffExactBudget | pkg/autoresearch/ratchet.go:63-64 | of an honest run that keeps nothing and spends its budget, 'the surface was NOT exhausted' is wrong if and only if the budget was the size of the space less the values the surface starts on, and no larger budget is ever spent |
| RatchetExhaust.QuietRunMisreports | pkg/autoresearch/ratchet.go:63-64 | on every project without stale ids such a budget exists: one run exhausts the surface and the same run with just that budget denies it |
| RatchetSentences.EvaluatorErrorStopsIff | pkg/autoresearch/ratchet.go:320-328 | a failing evaluator stops the run if and only if its error has a message |
| Domains.CandidatesCoherent | pkg/autoresearch/surface.go:66-137 | every candidate of a whole-unit integer domain, of a micro-unit float domain within 2^32, or of an enumeration is allowed, its own normal form, and appears once |
| Domains.NormalizeIdempotent | pkg/autoresearch/surface.go:482-506 | normalizing twice is normalizing once, for every kind and every input, floats up to 2^32 |
| Written.WritesNearest | pkg/autoresearch/surface.go:482-494 | an integer knob is written as the nearest integer, halves away from zero, a decimal knob as the nearest millionth |
| Written.WritesWords | pkg/autoresearch/surface.go:482-506 | the six words of a switch become true and false in any case, a mode is lower-cased, and a text or what is not a number is only trimmed |
| Written.ParsesAs | pkg/autoresearch/surface.go:485-494 | a signed decimal is worth its digits, moved by the point |
| Written.ParsesWithExponent | pkg/autoresearch/surface.go:485-494 | and moved back by its exponent |
| Written.WrittenShort | pkg/autoresearch/surface.go:532-534 | a decimal is written without a trailing zero or a trailing point |
| Float64.MicroSurvives | pkg/autoresearch/surface.go:532-534 | in doubles: up to 2^32, parsing, scaling and rounding a six-decimal number gives that number back, whatever the last-place rounding of each step |
| Float64.SixDecimalsDistinct | pkg/autoresearch/surface.go:532-534 | no two six-decimal numbers up to 2^32 share a double, so the shortest spelling is the number's own |
| Float64.SixDecimalsDrift | pkg/autoresearch/surface.go:532-534 | just above 2^32 it fails: ...96.000011 is read as ...012, and 4500819459.834932 drifts by a millionth with every reading |
| Decimal.ParseFormatMicro | pkg/autoresearch/surface.go:532-534 | in exact decimals, what formatFloat prints parses back to the same number of micro-units, sign included |
| Domains.EnumerateGrid | pkg/autoresearch/surface.go:74-100 | the candidate loop lists the grid points in order |
| Written.CandidatesAre | pkg/autoresearch/surface.go:66-100 | candidate i is min plus i steps, in whole units for integers, listed exactly while it does not pass max and i is below 64; a domain without a step has 1 or 0.05 |
| Domains.ScaleWidens | pkg/autoresearch/scale.go:57-78 | the minimum stays, the allowed set only grows with the window, the ceiling is at most four times the original |
| Written.StretchIs | pkg/autoresearch/scale.go:57-78 | the three token budgets are stretched, maximum and step, by the window's whole multiple of 16384 up to four, and no other domain is |
| Domains.ScaleKeepsCount | pkg/autoresearch/scale.go:57-78 | scaling keeps the candidate count between the original and the original plus ceil(Min/Step) |
| Decimal.AtoiItoa | pkg/autoresearch/surface.go:485-488 | Atoi undoes Itoa exactly on the 64-bit integers |
| Text.TrimCuts | pkg/autoresearch/surface.go:483 | trimming cuts white space off both ends and nothing else |
| Text.SpaceIff | pkg/autoresearch/surface.go:483 | white space is that of the Unicode standard |
| RetryLoop.StreamsNeverReplay | pkg/backends/retry.go:589-615 | everything the callback saw came from one attempt, the last one, and is exactly what it delivered; every earlier attempt delivered nothing |
| RetryLoop.ErrorIsOriginalIff | pkg/backends/retry.go:610-614 | the caller gets the provider's own error: always after a delivery; without one exactly when that error does not itself carry a partial-stream mark |
| RetryLoop.StreamWithRetry | pkg/backends/retry.go:589-615 | the streaming loop with its delivered flag shows exactly the deliveries of the attempts it made and returns the unmarked reply |
| RetryLoop.RetryDo | pkg/backends/retry.go:283-313 | the loop computes the specified reply, call count and pauses; it stops at the first attempt that succeeds, is not worth another, finds the context over or is the last allowed, with that attempt's reply or the pending error; its final return is dead code |
| RetryLoop.RetriedExact | pkg/backends/retry.go:283-313 | if attempts before k failed in a way worth another and nothing ended the waiting, and k does not go on: its reply after k calls and k - 1 pauses, one pause more if the context ended in it, or the pending error after k - 1 calls if the context was over; each pause follows its own failure's hint |
| RetryLoop.RetriedEnds | pkg/backends/retry.go:283-313 | and there is always such a k |
| RetryLoop.LoadingServerIsWaitedFor | pkg/backends/retry.go:124-131 | a server that refuses connections while it loads its model and answers within the attempts allowed has its answer returned, after exactly that many calls |
| Verdict.VerdictIff | pkg/backends/retry.go:101-158 | an error is retried if and only if it holds no early exit, context error or partial mark, and the first HTTP failure in it has a listed status, or it has none and holds a transport failure, or its text is transient or carries a listed status; the hint is that of whatever decided |
| Verdict.CanceledIff | pkg/backends/retry.go:105-110 | an error is a cancellation if and only if it holds an early exit or a context error |
| Verdict.OverflowIff | pkg/backends/retry.go:160-186 | an HTTP failure is a context overflow if and only if its body says so and its status is 400 or no error status, rate-limited for 429 alone, and permanent for every other 4xx that is not worth another attempt |
| Verdict.NoStatusWithoutOne | pkg/backends/retry.go:101-131 | a status comes only with the failure it belongs to |
| RetryLoop.RetryDoBounded | pkg/backends/retry.go:283-313 | at most MaxAttempts calls, at most MaxAttempts-1 pauses, summing to at most (MaxAttempts-1)*MaxDelay when MaxDelay does not grow as a double, every repeat justified by a retryable failure, and always a reply: the last call's, or the context's error before the first |
| RetryLoop.StreamOnce | pkg/backends/retry.go:596-609 | an attempt that delivered anything and failed is marked partial, and only then |
| RetryLoop.StreamLoop | pkg/backends/retry.go:589-609 | retryDo's loop around the streaming attempt replies as specified and shows exactly what its attempts delivered |
| Retry.PartialNeverRetried | pkg/backends/retry.go:111-116 | an error with a partial-stream mark at any depth is never retryable, whatever it wraps |
| Retry.WrapKeepsVerdict | pkg/backends/retry.go:101-158 | wrapping does not change the verdict on an error with a typed cause |
| Retry.HttpRetriedIff | pkg/backends/retry.go:160-186 | a typed HTTP failure is retried for exactly 408, 409, 425, 429 and 5xx, with its own hint |
| Retry.Backoff | pkg/backends/retry.go:263-279 | the pause is between zero and MaxDelay for every attempt number, hint and draw, when MaxDelay does not grow as a double |
| Retry.PausesBoundedIff | pkg/backends/retry.go:271-279 | without jitter the ceiling holds if and only if MaxDelay does not grow when it is held in a double |
| Retry.ShortCeilingFits | pkg/backends/retry.go:271-279 | every ceiling up to 2^53 nanoseconds qualifies |
| Retry.LongestCeilingGoesNegative | pkg/backends/retry.go:271-279 | math.MaxInt64 does not: some pause is negative on amd64 |
| Retry.BackoffDoubles | pkg/backends/retry.go:263-279 | without jitter or hint the first pause is the base delay and each next is twice the last until the ceiling, both as doubles hold them |
| Retry.BackoffExact | pkg/backends/retry.go:263-279 | every pause in numbers: the hint up to the ceiling; without one the base delay times 2^(n-1) up to the ceiling, and with jitter the drawn share of that |
| Retry.JitterShortens | pkg/backends/retry.go:273-279 | jitter never lengthens a pause and never touches a hint |
| Deadline.Throughput.Observe | pkg/backends/retry.go:342-367 | one call joins the history the tracker stands for |
| Deadline.Throughput.TokensPerSec | pkg/backends/retry.go:378-389 | the weighted mean of the rates of all accepted calls of the trimmed model ever observed, and their number, or zero of both |
| Deadline.TrackerIsMean | pkg/backends/retry.go:342-367 | what the tracker holds for a model is the weighted mean of that model's own accepted calls and their number |
| Deadline.MeanWithin | pkg/backends/retry.go:364-366 | the mean stays between the least and greatest observed rate |
| Deadline.MeanConverges | pkg/backends/retry.go:364-366 | on a steady rate the error shrinks by exactly 0.7 per call |
| Deadline.EstimateTimeout | pkg/backends/retry.go:459-480 | between 45 seconds and 10 minutes: 40 s and two and a half times the decoding time, unless that does not fit 64 bits, at the model's own rate from three calls on, at the mean of it and 12 tokens a second before that if it is above 12, at 12 if nothing was measured, for 1024 tokens if no budget is set |
| Deadline.HistoryDeadline | pkg/backends/retry.go:459-480 | the same over a history of calls: the rate is the weighted mean of the model's own |
| Deadline.FasterIsShorter | pkg/backends/retry.go:471-479 | of two measured rates whose estimates differ inside the limits the faster gets the strictly shorter deadline |
| Deadline.ThreeCallsDecide | pkg/backends/retry.go:459-480 | three calls of 400 tokens in 100 s each give the next 1024 tokens 600 s, in 4 s each 65.6 s, and no call at all 253.3 s |
| Deadline.RateIsTokensPerSecond | pkg/backends/retry.go:342-360 | a rate times the seconds of its call is the tokens of its call |
| Deadline.HistoryBoundsTimeout | pkg/backends/retry.go:459-480 | the deadline of a measured model lies between those its slowest and its fastest observed call would give, whatever was observed of other models |
| Deadline.UnmeasuredGetsPrior | pkg/backends/retry.go:459-480 | a model without an accepted call gets the deadline of 12 tokens a second |
| Deadline.TimeoutFor | pkg/backends/retry.go:459-480 | EstimateTimeout over the tracker gives the deadline of the history the tracker was shown |
| Deadline.TimeoutIdealIff | pkg/backends/retry.go:471-479 | on amd64 the deadline is the one the formula means if and only if the decode estimate plus the allowance fits 64 bits; a longer estimate gets the shortest deadline instead of the longest |
| Deadline.HugeBudgetGetsShortest | pkg/backends/retry.go:471-479 | such an estimate is within reach: a hundred thousand million tokens with nothing measured |
| Deadline.TimeoutExactWhenFits | pkg/backends/retry.go:471-479 | an estimate that fits is exact on every processor |
| Deadline.TimeoutMonotone | pkg/backends/retry.go:459-480 | while the larger estimate fits, more tokens never shorten the deadline and a faster model never lengthens it, for a fixed sample count |
| ProbeRace.ProbedAtMostOnce | pkg/backends/capabilities.go:314-327 | in every interleaving of any number of callers on any keys the probe body runs at most once per key |
| ProbeRace.CallersAgree | pkg/backends/capabilities.go:314-327 | while a key's first record is unexpired and nobody seeds or demotes the key, every finished call returned that record, and none returned the zero record |
| ProbeRace.DiskStaysConfirmed | pkg/backends/capabilities.go:196-220 | the file is as it was found or holds only records with a probe time |
| ProbeRace.DeadForever | pkg/backends/capabilities.go:224-233 | once a key's record has expired and its Once is spent, no later call probes and every one that finishes returns the zero record, until somebody seeds the key |
| ProbeRace.BlankIffDead | pkg/backends/capabilities.go:314-327 | a call on its own returns the zero record if and only if the key is in that state |
| ProbeRace.DeadReachable | pkg/backends/capabilities.go:314-327 | that state is reached from any cold process whose file does not know the key by one answered probe and a week of waiting |
| ProbeRace.OnFileOnlyIfSeeded | pkg/backends/capabilities.go:425-446 | over every interleaving: a key the file did not know and whose probes brought back nothing confirmed is in the file only once somebody seeded or demoted it |
| ProbeRace.SeedStaysOnFile | pkg/backends/structured.go:609-631 | the converse: a stamped, written seed or demotion puts the key on the file, where it stays for its whole TTL unless another record is stored under the key or a later write tears the file |
| ProbeRace.StepKeeps | pkg/backends/capabilities.go:181-233 | every step of every caller keeps the protocol's invariant |
| ProbeRace.NoCallerStuck | pkg/backends/capabilities.go:314-327 | in every state the invariant allows, a call can take its next step unless it waits for another call of its key that is in the probe body and can; nothing else ever waits |
| Capabilities.CapCache.LoadLocked | pkg/backends/capabilities.go:152-179 | the file is merged once, key by key in any order, memory winning and stale or unconfirmed records dropped |
| Capabilities.CapCache.Lookup | pkg/backends/capabilities.go:181-194 | get returns a fresh record or drops an expired one |
| Capabilities.CapCache.Store | pkg/backends/capabilities.go:196-220 | put updates memory always and the file only for a confirmed record, with the confirmed part of memory; a write that fails halfway leaves a file that does not parse |
| Capabilities.LoadNeverOverrides | pkg/backends/capabilities.go:169-178 | loading never overrides memory and brings in nothing stale or unconfirmed |
| Capabilities.PutSurvivesRestart | pkg/backends/capabilities.go:196-220 | a record written by one process is what the next one loads while it is fresh |
| Capabilities.RunProbe | pkg/backends/capabilities.go:329-451 | the requests in order, with the reachability and cut-short flags, yield the table's record |
| Capabilities.Negotiate | pkg/backends/capabilities.go:378-419 | the field requests, each only if the preset makes it worth asking, set exactly the confirmed fields and report any cut-short request |
| Capabilities.ProbedIsConfirmed | pkg/backends/capabilities.go:370-451 | a record carries a probe time exactly when the endpoint answered and the deadline never ran out on an issued request; what it then claims was accepted by the server |
| Capabilities.CutShortNotPersisted | pkg/backends/capabilities.go:425-446 | the result of a cut-short negotiation never changes the file |
| Capabilities.DemotionPersistsGuess | pkg/backends/structured.go:609-631 | demotion stamps a guessed record and writes it, so the next process trusts the rest of the guess for a whole TTL |
| Capabilities.DemotedIsNotChosen | pkg/backends/structured.go:609-631 | a mechanism the server rejected is not chosen again from the demoted record; every other one stays, and the record is stamped and labelled |
| Capabilities.WeekOfTrust | pkg/backends/capabilities.go:165-192 | a confirmed record is used for seven days to the nanosecond, in memory and off the file alike |
| Capabilities.SelectMechanism | pkg/backends/capabilities.go:62-82 | the most preferred supported mechanism that was not excluded, prompt-only being always left |
| Capabilities.PreferenceOrder | pkg/backends/capabilities.go:62-82 | schema, guided, grammar, object, prompt: each is chosen only if none before it is supported and left |
| Augment.SortByScore | pkg/augment/augment.go:339-348 | the in-place selection sort yields a permutation in descending order |
| Augment.SelectKnowledge | pkg/augment/augment.go:326-365 | the selection is the greedy one over a descending permutation of the qualifying entries |
| Augment.QualifyingIff | pkg/augment/augment.go:334-340 | an entry takes part with its own score, from 2 on |
| Augment.GreedyWithin | pkg/augment/augment.go:349-364 | it stays within the budget |
| Augment.LeftOutOnlyForBetter | pkg/augment/augment.go:349-364 | an entry is missing only because entries scored at least as high had used up the room, and it does not fit in what is left at the end either |
| Augment.GreedyPicksOnce | pkg/augment/augment.go:349-364 | nothing is picked twice or made up |
| Augment.SelectToolSkills | pkg/augment/augment.go:226-279 | recovery, recency, intent, then write and edit, each loop's early stop changing nothing |
| Augment.TurnsInOrder | pkg/augment/augment.go:226-279 | the last failed tool has the first turn, then the recent tools in their order, then the predicted ones in theirs, then write, then edit; each is picked exactly if it fits what the ones before it left |
| Augment.TurnDecides | pkg/augment/augment.go:238-258 | a card's first turn decides whether it is picked |
| Augment.ByNameIs | pkg/augment/augment.go:231-234 | of several cards of one name the last listed counts |
| Augment.TryAdd | pkg/augment/augment.go:238-258 | one card is added exactly when it is known, new and fits |
| Augment.SpentPicksNothing | pkg/augment/augment.go:256-272 | once the budget is spent nothing fits, so each loop's early stop changes nothing |
| Augment.PickWithin | pkg/augment/augment.go:238-258 | cards stay within the budget |
| Augment.PickDistinct | pkg/augment/augment.go:238-258 | only known cards that were tried are picked, each at most once |
| Augment.PickMaximal | pkg/augment/augment.go:238-258 | a known card that was tried and not picked does not fit in what is left, whatever the order |
| Augment.WriteAndEditWhenTheyFit | pkg/augment/augment.go:273-277 | the write and edit cards are left out only when they do not fit |
| Augment.OrderFreeWhenRoomy | pkg/augment/augment.go:412-421 | when everything tried fits, the order in which a map feeds the names does not matter |
| Augment.OrderMattersWhenTight | pkg/augment/augment.go:412-421 | when it does not, it does |
| Clip.ClipValid | pkg/autoresearch/journal.go:260-274 | clipping well-formed UTF-8 (section 4 of RFC 3629) gives well-formed UTF-8 within three bytes of the cap |
| Clip.ClipBounded | pkg/autoresearch/journal.go:260-274 | never more than n bytes; the trimmed text if it fits, else nothing or a prefix of it and the ellipsis |
| Clip.ClipIdempotent | pkg/autoresearch/journal.go:260-274 | clipping twice is clipping once, on any bytes |
| Clip.Clipped | pkg/autoresearch/journal.go:260-274 | the decreasing loop finds the last rune start at or before the cut |
| Clip.CutKeepsValid | pkg/autoresearch/journal.go:270-272 | cutting well-formed text just before a rune start leaves it well-formed |
| Encoding.ValidIsEncoded | pkg/autoresearch/journal.go:260-274 | the well-formedness used here is that of section 3 of RFC 3629: every well-formed text encodes code points |
| Encoding.EncodedIsValid | pkg/autoresearch/journal.go:260-274 | and every sequence of code points encodes to well-formed text |
| Encoding.SpaceLeads | pkg/autoresearch/journal.go:261 | the bytes trimmed from the front are exactly the white-space characters |
| Encoding.SpaceTrails | pkg/autoresearch/journal.go:261 | and so are those trimmed from the end |
| Escalate.PrintParse | pkg/agents/escalate.go:59-84 | BaseRoleID undoes EscalatedRoleID for every non-blank role and every positive 64-bit rung |
| Escalate.ParsePrintIff | pkg/agents/escalate.go:59-84 | the way back holds if and only if the id is spelled as the printer spells |
| Escalate.LeadingZeroDoesNotReturn | pkg/agents/escalate.go:74-84 | a@esc01 parses and does not come back |
| Escalate.ParsersAgreeIff | pkg/plan/routing.go:108-130 | plan's own parser agrees with BaseRoleID if and only if the rung has no plus sign and fits an int |
| Escalate.Factory.SetEscalation | pkg/agents/escalate.go:121-136 | the ladder is the first three non-blank models, trimmed |
| Escalate.LadderIs | pkg/agents/escalate.go:121-136 | the same as one list: the usable names in their order, cut after three |
| Escalate.Factory.EscalatedSpecs | pkg/agents/escalate.go:203-228 | the nested loops derive every rung of every escalable role that is not itself a rung |
| Escalate.EveryRungDerived | pkg/agents/escalate.go:203-228 | every role that climbs gets a spec for every rung of the ladder, under the printed id, with the rung's model and the base's title marked as escalated |
| Escalate.EscalableIff | pkg/agents/escalate.go:92-114 | a role climbs if its trimmed lower-case base is one of six or a specialised worker or corrector |
| Escalate.RungInheritsContract | pkg/agents/escalate.go:203-228 | a rung keeps its base's decoding contract and resolves to its ladder model |
| Escalate.RungKeepsClass | pkg/agents/factory.go:863-872 | coding, light, generic and escalable classification of a rung are its base's, for trimmed ids |
| Escalate.PaddedRungKeepsClassIff | pkg/agents/factory.go:863-872 | a padded id keeps its coding class if and only if its trimmed form is not a coding role |
| Roster.RosterDistinctIff | pkg/agents/factory.go:552-586 | with distinct built-in ids, the ids AllSpecs returns are pairwise distinct if and only if no base role is spelled like a derived rung, whatever agent files and blocks repeat or override |
| Roster.RosterDistinct | pkg/agents/factory.go:552-586 | in particular when every block's id has no separator; agent files never have one, because NormalizeCustom refuses it |
| Roster.BlockClashes | pkg/orchestrator/orchestrator.go:388-393 | a block whose id is worker@esc1 is refused by NormalizeCustom, registered anyway, and clashes with any ladder |
| Registry.Merge | pkg/agents/factory.go:553-577 | the three loops over the index map compute the merge: built-ins, overrides by id, new customs, then blocks whose id is free |
| Registry.RolesOverlaid | pkg/agents/custom.go:318-362 | a role that is there keeps its place and ends up with title, model, token limit and tools each from the last file of its id that sets it, and otherwise its own |
| Registry.NewRole | pkg/agents/custom.go:290-316 | a new role takes everything from the file or block that brings it, with tools unless it turns them off, an override only if it turns them on |
| Registry.BaseIDs | pkg/agents/factory.go:553-577 | the merge keeps the built-in roles in their order and adds each new id once, so it never repeats one |
| Registry.BlocksOnlyAdd | pkg/agents/factory.go:570-577 | a block never changes a role that is already there |
| Registry.ContractIdempotent | pkg/agents/factory.go:89-119 | NormalizeDecoding, which built-in roles pass twice, changes nothing the second time |
| Registry.ContractIs | pkg/agents/factory.go:89-119 | a role with tools answers one call a turn and is never JSON-only; one without is free text, or JSON with its own stop sequences or the three usual ones once a schema is known; nothing else of it changes |
| Registry.GenericRoleIs | pkg/agents/factory.go:121-134 | the generic role is the first of the twelve the base is or ends in after a hyphen, else the base itself |
| Registry.AllSpecs | pkg/agents/factory.go:552-586 | merge, decoding contract and rungs, in that order, give the roster |

## Left out

- Result.DurationMS, StopDetail and the free-text reasons, score labels, origins and timestamps of trials: display only.
- The journal's Append, Load and Prune, and BEST.md: a dry run still appends to the journal, so only surface files are claimed unchanged.
- Warnings, the size cap's wording and file modes; Capture's size and read errors are one refusal set.
- YAML comments, anchors and aliases, and JSON syntax.
- A text with more than six decimals next to a tie: its first rounding may go the other way in a double; and floats beyond 2^32.
- A context window that is itself a field of the edited config: the window of the layout is fixed for a run.
- Content hashes of snapshots: the copies are re-checked for presence, not for content.
- Two paths that name one file through links, and a config path that is also an agent file: assumed apart (`Surface.Separate`).
- Panics of proposers, guards and onTrial callbacks: only the evaluator's panic is recovered by the source.
- An evaluator that itself writes surface files.
- Hexadecimal, infinite and not-a-number spellings of floats, and non-ASCII case folding.
- math/rand and FNV: only that they yield a permutation.
- The search loops of Classify over message text: an error's message is abstracted to what they can find in it.
- HTTP transport, request bodies and URL building of the probe; presets are parameters.
- SetCapabilityCacheDir and the reset used by tests: the cache directory is fixed for a process.
- The keyword scoring of knowledge entries and the language filter that runs after selection.
- The throughput store on disk.
- SetRoleModel and SetPreferFast; the prompt, skill, category, temperature and endpoint fields of roles; what the schema package knows is a parameter.
- An agents directory that cannot be listed, and New's refusal of a missing surface or evaluator.
- Retry.PausesBoundedIff: with jitter the other direction depends on the draw, and draws are taken to lie in [0, 1].
- RatchetSweep.SweepIsBounded: counts enumerable knobs only; text knobs have no enumeration, and a model-assisted run is bounded by its budget alone.
- Domains.CandidatesCoherent: for float grids finer than a micro-unit or off the micro-unit lattice nothing is claimed, and the rounding of Min + i*Step in a double is not modelled; the shipped float domains lie in [0, 1] on a grid of 0.05.
