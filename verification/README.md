# MeridianOS: verified model of the orchestrator's core

A Dafny model of the parts of MeridianOS that decide which agent works on what, and of the small
stateful algorithms around them, with proofs of the laws they are there to keep. `dafny verify
dfyconfig.toml` checks everything.

Where the source updates tables, maps, files or locals step by step, the model has a class or a method
with the same loops and branches (`TaskStore`, `Sessions`, `FileSystem`, `Analytics`, `BoardDb`,
`Attempts`, `Disk`, `PlannerCycle`, `PlanRun`, `SetPolicyValue`, `ParseMessage`, ...). Each such method is
proved equal to a function of the state before it, and the laws are lemmas about those functions, over all
inputs or over every run.

- **Store** (`Machine`, `Store`, `TaskStore`, `StoreInvariant`, `LeaseLife`, `History`, `Declarations`): the lease,
  lock and state-machine store. A transaction is one step; concurrency is any sequence of steps (`Store.Run`).
- **Scheduling** (`Listing`, `Risk`, `Router`, `Runner`, `Planner`, `PlannerRows`): the ordered queue, inherited risk
  tags, `decide`, a planning tick and its claims, and the planner cycle over its one stale snapshot.
- **Policy writer** (`PolicyScalar`, `PolicyText`, `PolicyLaws`, `PolicyBatch`, `PolicyLock`): scalars and lines
  as text, the indentation-stack scan, its lens laws, batches of updates, and the lock-file protocol.
- **Usage and quota** (`Wire`, `Windows`, `Aggregation`, `Totals`): the protobuf reader (Protocol Buffers Encoding guide,
  sections "Base 128 Varints" and "Message Structure"), activity-anchored windows, spend rollups.
- **Guarded stores** (`SetupSession`, `SetupLife`, `SetupPlan`): single-use validation sessions, all-or-nothing setup files.
- **Agreement with something simpler** (`RunLog`, `ModelFallback`, `Board`, `Profiles`).

Behaviour that differs from what the code or its comments suggest, each with its exact condition:

- A policy write reads back exactly under the condition of `PolicyLaws.SetReadsBackIff`, which free paths of
  well-formed text meet. An update leaves every other path alone; an insertion does so exactly under the
  condition of `PolicyLaws.OthersReadAsBeforeIff`. It does not when the deepest ancestor is a scalar: the value
  of `a.b` written into `a: 5` lands on the `b` beside it and overwrites that (`PolicyLaws.MisplacedOverwrites`,
  `PolicyLaws.MisplacedExample`, `PolicyBatch.BelowScalarLandsBeside`). In text that is not well-formed it can
  also adopt the entry after it (`PolicyLaws.AdoptedExample`).
- A text value that spells a boolean, a number or null, or that JSON has to escape, does not come back
  (`PolicyScalar.ScalarReadsBackIff`). The header of policy-write.mjs still says that a missing path is
  refused; the code inserts it, and so does the model.
- A story read as `proposed` or `spec`, or with a status text that is no state, can leave a planner cycle
  unblocked although it is held (`Planner.HeldStoryEnds`, `Planner.ProposedStoryLeaks`).
- A held story that a gate of the same cycle turns back loses the mark of its hold, and no later cycle releases
  it, however far the policy is relaxed (`PlannerRows.TurnedBackIsLost`). Where planner.mjs says that a release
  restores the status before the hold, one held in `proposed` or `in-review` goes to `ready-for-impl`
  (`PlannerRows.HoldThenRelease`).
- The ledger meter misses what is stamped at `now`, which the transcript meter counts, although budget.mjs
  says the two cannot disagree (`Windows.LedgerAgreesIff`).
- As long as other processes leave the writer's paths alone, a failed setup leaves a file behind exactly when
  `SetupPlan.RollbackIff` says so, and nobody else's file is unlinked (`SetupPlan.LeftAloneNothingIsLost`).
  With nobody else about, `SetupPlan.QuietRollbackIff` says when every path is as it was. Whatever the others
  do, another process's file is unlinked exactly when `SetupPlan.OthersKeepTheirFilesIff` says so, in the two
  windows of `SetupPlan.RaceAtUnlink` and `SetupPlan.RaceAtFallback`.
- A walk over the run log whose time bounds move between pages can skip or repeat runs, and no cursor is
  refused for it; `operational-scope.mjs` moves them by default (`RunLog.VaryingBoundsIff`,
  `RunLog.MovedBoundSkips`).
- An upsert that moves an existing task is not recorded, and from then on the history no longer explains the
  table (`History.RunAuditedIff`).
- Re-claiming one's own lease, or an expired one, on a task that has resources always rolls back
  (`StoreInvariant.ReclaimRollsBack`), and an update of a leased row can break the lock table
  (`StoreInvariant.UpsertKeepsInvIff`).
- An event that arrives late for an hour before the last aggregated one is missed
  (`Aggregation.PendingIsExactIff`).

## Model

| member | source | states |
|---|---|---|
| Machine.ClaimableMovesStayOrFree | machine.mjs:28-69 | a legal move out of a claimable status leads to a claimable one or to one that frees the lease |
| Machine.DoneIsTerminal | machine.mjs:28-47 | no sequence of legal moves ever leaves `done` |
| Machine.LegalIff | machine.mjs:28-69 | the moves are exactly: one stage on, back from ready-for-impl to designing or from review to implementation, to blocked from anything not done, and from blocked to a stage that is worked on |
| TaskStore.TaskStore.ClaimTask | state.mjs:171-204 | a claim answers as the verdict on the old tables says, and takes lease and all locks or changes nothing |
| TaskStore.TaskStore.FindForeign | state.mjs:184-188 | the check loop reports the first resource another task locks, and misses none |
| TaskStore.TaskStore.InsertLocks | state.mjs:195-199 | the inserts go through exactly when no row exists yet and no resource repeats, and then add one lock each |
| TaskStore.TaskStore.Heartbeat | state.mjs:207-215 | extends only a live lease held by the session |
| TaskStore.TaskStore.Free | state.mjs:245-251 | clears the lease and deletes every lock of the task and no other |
| TaskStore.TaskStore.ReleaseLease | state.mjs:218-226 | frees and records only for the holding session |
| TaskStore.TaskStore.ForceReleaseLease | state.mjs:233-243 | frees and records only for the owning agent |
| TaskStore.TaskStore.ReleaseAllLeases | state.mjs:260-273 | frees each lease there was once, in some order, and leaves none |
| TaskStore.TaskStore.ReapExpiredLeases | state.mjs:290-319 | reaps exactly the expired leases, each once, and leaves none expired |
| TaskStore.TaskStore.ReapLease | state.mjs:296-316 | one reap: frees, counts, records, and blocks at five or raises complexity from three on |
| TaskStore.TaskStore.TransitionTask | state.mjs:332-352 | an illegal or unauthorised move changes nothing; a legal one writes status, note and pr as given - a value, null, or not at all - and the counter, and frees the lease where it must |
| TaskStore.TaskStore.UpsertTask | state.mjs:57-134 | inserts with defaults, or rewrites declared columns and never the lease |
| TaskStore.TaskStore.SetTaskNote | state.mjs:554-556 | writes the note and nothing else of substance |
| TaskStore.TaskStore.SetTaskSprint | state.mjs:560-562 | writes the sprint and nothing else of substance |
| TaskStore.TaskStore.NextEligibleTask | state.mjs:422-445 | returns the (priority, id)-least eligible task, none exactly when there is none |
| TaskStore.TaskStore.TaskWithAncestors | state.mjs:465-477 | visits exactly the task, in the table or not, and the rows reachable from it over parent_id, cyclic or not |
| StoreInvariant.ClaimKeepsInv | state.mjs:171-204 | a claim keeps the lock table equal to what leased tasks want, owner for owner |
| StoreInvariant.TransitionKeepsInv | state.mjs:332-352 | so does every transition |
| StoreInvariant.ReapKeepsInv | state.mjs:290-319 | so does every reap |
| StoreInvariant.UpsertKeepsInvIff | state.mjs:57-134 | an upsert does if and only if it leaves a leased row's resources and claimable status alone |
| StoreInvariant.StepKeepsInv | state.mjs:171-411 | every action keeps the lock table exact and leased tasks claimable |
| StoreInvariant.RunKeepsInv | state.mjs:171-411 | the same over every interleaving of claims, heartbeats, releases, reaps, transitions and upserts |
| StoreInvariant.MutualExclusion | state.mjs:168-204 | no reachable state has two leased tasks that want one resource |
| StoreInvariant.ReaperNeverFreesSilently | state.mjs:300-306 | the reaper's silent branch is unreachable: every reap is counted and recorded |
| StoreInvariant.ClaimWonIff | state.mjs:174-203 | a claim wins if and only if no live lease, status, held lock or repeated resource is in the way |
| StoreInvariant.ReclaimRollsBack | state.mjs:178-199 | taking over an expired lease, or re-claiming one's own, rolls back when the task has resources and wins otherwise |
| LeaseLife.LeaseAfter | state.mjs:171-352 | what every action makes of a task's lease: the same, a new term, a new lease or none |
| LeaseLife.LeaseStands | state.mjs:171-352 | whatever other sessions and tasks do, a lease stands until its holder, an override or its expiry ends it |
| LeaseLife.ClaimKeepsOthersOut | state.mjs:171-204 | a claim that is won keeps all other sessions out for its whole term, and not a moment longer, over any run that leaves the lease alone |
| LeaseLife.BeatRenews | state.mjs:207-215 | a heartbeat of the holder in time starts the term anew, any other changes nothing |
| LeaseLife.ReleaseFrees | state.mjs:218-226 | the holder's release frees the task and its locks and nothing else, so that anybody can claim it at once; nobody else's does anything |
| LeaseLife.OverridesFree | state.mjs:233-273 | the owning agent and boot recovery free it too |
| LeaseLife.StrangersCannotMove | state.mjs:332-341 | a session that does not hold the lease cannot move the task in its own name |
| LeaseLife.MoveWrites | state.mjs:332-352 | a legal move writes status, note and link as given, forgives stalls on done, and ends the lease exactly on handoff or demand |
| LeaseLife.RefusalsAreTrue | state.mjs:174-188 | every refused claim gives the first true reason: the holder, the status, or the first resource another leased task wants |
| LeaseLife.HandedOffIsFreedSilently | state.mjs:300-303 | an expired lease on work handed off is freed without count or record |
| LeaseLife.FiveStalls | state.mjs:290-319 | a task that stalls again and again gets more complex at the third and fourth time, never beyond five, is blocked at the fifth, and leaves no lock behind |
| History.RunAudited | state.mjs:30-35 | replaying the history of any run whose upserts keep the status of existing rows rebuilds every status and, until done, every reap count, and every recorded change is a legal edge |
| History.RunAuditedIff | state.mjs:57-134 | the history explains every state of a run if and only if no upsert of the run moves an existing row |
| History.StepAudited | state.mjs:290-352 | each action appends the rows that account for what it changed, the reaper's direct update to blocked included, if and only if it is not an upsert that moves an existing row |
| History.StepRecords | state.mjs:30-35 | the audit only grows, by rows of the action's kind, time and task; nothing else changes unrecorded but notes, sprints, re-declarations and leases on work handed off |
| History.StepAccount | state.mjs:311-314 | complexity rises exactly with remediation rows, and never beyond five |
| History.ReapingRaisesComplexityAtMostTwice | state.mjs:304-314 | between declarations reaping adds at most two to a task's complexity over any stretch of any run |
| Declarations.LatestDeclarationWins | state.mjs:57-134 | over any declarations of a task each column is as last declared, else as it was or as born, lists as in the last one; lease, stall count, birth date, other rows and locks are out of reach |
| Listing.OrderedUnique | state.mjs:41-43 | the order by priority and id leaves one possible listing |
| Listing.RowsOrdered | state.mjs:41-43 | the listing is in that order |
| Listing.RowsElems | state.mjs:41-43 | the listing has every row, once |
| Risk.ChainIsReach | state.mjs:465-477 | the ancestor walk ends on every graph and visits exactly the reachable rows |
| Risk.EffectiveTagsAreInherited | state.mjs:480-486 | effective tags are the lower-cased union over the task and its ancestors, without repeats |
| Risk.EffectiveTagsFrame | state.mjs:465-486 | they depend on parents and tags only |
| Risk.LowerIff | state.mjs:480-486 | tags that differ in case only are one tag, and no others are |
| Risk.BlockingIff | sensitive.mjs:80-90 | a tag blocks an action exactly when it is mapped there and the policy asks to be stopped or is silent |
| Risk.BlockIff | sensitive.mjs:80-90 | an action is returned exactly when some tag maps to a blocked one, and then it is the first such tag's |
| Risk.BlocksElems | sensitive.mjs:100-111 | all blocked actions are listed, each once |
| Risk.HeldIff | sensitive.mjs:80-90 | a task is held exactly when it or an ancestor carries a blocking tag |
| Risk.StopIs | sensitive.mjs:80-90 | the action given as the reason really stops the task, and none is given only if none does |
| Risk.BlocksAreAllStops | sensitive.mjs:100-111 | the actions listed are exactly those that stop the task through its own or inherited tags, each once |
| Router.DepsMetIff | state.mjs:433-440 | dependencies are met exactly when they are distinct and all done, so a repeated one never is |
| Router.NextIsLeast | state.mjs:422-445 | the answer is the least eligible task, and none exactly when none is eligible |
| Router.GrantIsSound | router.mjs:96-168 | a grant respects kill switch, budget, both limits, filters and floor, names the least workable task, and has a provider key or leave to do without |
| Router.HeldTasksAreNeverGranted | router.mjs:123-128 | no unapproved task with an own or inherited blocking tag is ever granted, whatever its status |
| Router.FloorDenialIsComplete | router.mjs:117-121 | a floor denial means no workable task is within the floor |
| Router.NextUpIff | state.mjs:422-445 | the next task is the first by priority and id that is claimable, unleased, with distinct finished dependencies, in the agent's lane and an active sprint, and not taken |
| Router.GrantIff | router.mjs:96-182 | a task is granted if and only if money and room allow it, it is next, within the floor, not stopped, and its provider has a key or the founder allows the fallback - to that provider, or to the fallback only for want of a key, for the policy's term |
| Router.DenialIsTrue | router.mjs:96-168 | every denial gives the true reason, and the ones checked before it do not apply |
| Router.ReapAllRows | state.mjs:290-319 | a reap of all expired leases treats each row as a reap of its own, whatever the others |
| Router.ReapOrderIsIrrelevant | state.mjs:291-317 | the order of reaping leaves no trace in the tables |
| Router.ClaimAfterReap | state.mjs:290-445 | after a reap, claiming the next task at that instant wins if and only if its resources are distinct and no leased task wants one |
| Runner.PlanRun | runner.mjs:103-125 | decides agents one after another, excluding what earlier ones were granted, and fires exactly when somebody may claim |
| Runner.EveryoneIsDecided | runner.mjs:111-120 | whom the quota holds is told so, and all others are decided with the earlier grants excluded |
| Runner.GrantsAreDecided | runner.mjs:111-120 | every grant is a decision on the same tables with all earlier grants excluded |
| Runner.GrantsAreDistinct | runner.mjs:110-119 | no two agents are granted the same task |
| Runner.ClaimAddsOne | state.mjs:190-193 | a claim adds at most one live lease, to the claiming agent only |
| Runner.TickStaysWithinLimits | runner.mjs:103-156 | after a tick's claims each agent is within max(before, wip_per_agent - 1 + its places on the roster), and the total within max(before, max_parallel - 1 + agents) |
| Runner.GrantedClaimsLoseOnlyToLocks | runner.mjs:154-160 | on reaped tables a granted claim is lost exactly when its resources repeat or a leased task wants one |
| Planner.PlannerCycle | planner.mjs:84-234 | six loops over one snapshot, writing the store as they go, equal the specified cycle |
| Planner.RunLoop | planner.mjs:94-231 | one loop visits the rows of the snapshot in order, each against the current store |
| Planner.CommitWrite | planner.mjs:100-229 | an illegal move is swallowed, any other write is made |
| Planner.CycleKeepsInv | planner.mjs:84-234 | a whole cycle keeps leases and locks in step |
| Planner.HeldStoryEnds | planner.mjs:94-231 | how every held story ends: without lease or locks, blocked, except that the stale snapshot lets a promotable one go to spec and a trackable one to designing, and one whose status is no state keeps status and lease |
| Planner.HeldStoryIsParked | planner.mjs:90-105 | a story read in designing, ready-for-impl, in-progress or in-review with a blocking tag and no approval ends blocked, without lease or locks |
| Planner.ProposedStoryLeaks | planner.mjs:85-212 | a concrete held story, read as proposed, ends in spec |
| PlannerRows.CycleByRow | planner.mjs:84-234 | six loops over all tasks come to one story per task: no outcome depends on what the cycle does to any other task |
| PlannerRows.RestStays | planner.mjs:94-231 | what is done, or blocked by anybody but the gate, is not touched at all |
| PlannerRows.HoldStays | planner.mjs:113-126 | a hold that the policy still asks for stays blocked, and its note names exactly the actions that stop it |
| PlannerRows.HoldIsReleased | planner.mjs:127-133 | any other hold is released, to where its last recorded move to blocked came from if it may go there, else to ready-for-impl |
| PlannerRows.OthersFlow | planner.mjs:160-231 | what is neither held nor blocked joins the active sprint, passes or fails its gate, and changes in nothing else |
| PlannerRows.HoldMarks | planner.mjs:94-231 | a held story ends blocked with a note that names what stops it, exactly unless a later gate writes over that |
| PlannerRows.HoldThenRelease | planner.mjs:94-133 | hold and release return a story to its status, but one held in proposed or in-review to ready-for-impl |
| PlannerRows.TurnedBackIsLost | planner.mjs:113-206 | a held story that a gate turns back is never released, whatever the later policies |
| PolicyScalar.StripCommentOf | yaml-lite.mjs:41-50 | the comment scan equals its recursive description |
| PolicyScalar.ColonIndex | yaml-lite.mjs:52-63 | the colon scan equals its recursive description |
| PolicyScalar.ScalarReadsBackIff | policy-write.mjs:161-169 | a value printed and parsed is itself if and only if it is faithful |
| PolicyScalar.QuoteIsLost | policy-write.mjs:168 | text with a quote comes back with its escapes, hence changed |
| PolicyScalar.EscapeIsJson | policy-write.mjs:168 | what is printed between quotes is JSON for the text (RFC 8259, section 7), so the loss is the reader's |
| PolicyScalar.WordsRead | yaml-lite.mjs:12-25 | null has three spellings and each boolean one |
| PolicyScalar.BetweenQuotesIsText | yaml-lite.mjs:12-25 | between quotes of either kind everything is text, between brackets a list |
| PolicyScalar.PrintedLineReads | policy-write.mjs:224-252 | a printed line is taken apart into its indentation, key and value again, whatever its comment |
| PolicyScalar.WrittenValueReadsBack | policy-write.mjs:224-252 | a faithful value on a printed line is read back as that value |
| PolicyText.ParseYaml | yaml-lite.mjs:65-90 | the reader's stack scan builds the document, later assignments dropping earlier subtrees |
| PolicyText.PopTo | policy-write.mjs:204 | popping stops at the first level above the line |
| PolicyText.NoteAncestors | policy-write.mjs:209-214 | the depth loop keeps the last header and body end of every ancestor |
| PolicyText.Scan | policy-write.mjs:196-222 | the scan finds the first scalar line of the path, or learns every ancestor |
| PolicyText.FindAncestor | policy-write.mjs:232-241 | picks the deepest ancestor any line names |
| PolicyText.MissingLevels | policy-write.mjs:243-252 | one opening per missing level and the value, two spaces a level |
| PolicyText.SetPolicyValue | policy-write.mjs:184-256 | the writer updates the first target line, or inserts after the deepest ancestor's body, or at the end |
| PolicyLaws.LastTouchDecides | yaml-lite.mjs:65-90 | what the nested objects say at a path is what the last line touching it says |
| PolicyLaws.SetReadsBackIff | policy-write.mjs:184-256 | reading the path gives every value written if and only if the path is settable: nothing below names it again, and a new line nests right |
| PolicyLaws.SetEffect | policy-write.mjs:184-256 | a settable write gives the path its value, removes what was below it, and leaves every other path as it read before |
| PolicyLaws.InsertEffect | policy-write.mjs:232-255 | what an insertion that fits does to every path, wherever it lands: the landing path gets the value, the mapping it opens first loses what was in it, and nothing that a later line names changes |
| PolicyLaws.OthersReadAsBeforeIff | policy-write.mjs:184-256 | every other path reads as before: always on an update, and on an insertion that fits if and only if every path it opens or writes, and no later line names, already reads so |
| PolicyLaws.NestedOthersIff | policy-write.mjs:232-255 | under the right ancestor that is: if and only if no scalar below the path is left unnamed by later lines |
| PolicyLaws.MisplacedOverwrites | policy-write.mjs:209-255 | anywhere else the value lands on another path and overwrites it, unless a later line names that |
| PolicyLaws.MisplacedExample | policy-write.mjs:209-255 | writing `a.b` into a top-level scalar `a` overwrites the top-level `b`, though nothing is below `a.b` |
| PolicyLaws.AdoptedExample | policy-write.mjs:249-255 | an entry indented deeper than the new lines is adopted by them and no longer read under its name |
| PolicyLaws.SetTwice | policy-write.mjs:184-256 | writing twice leaves the text of the second write alone, on update and on insert |
| PolicyLaws.SetTwiceIff | policy-write.mjs:184-256 | that holds for all values if and only if the path has a target line or a new line nests right |
| PolicyLaws.LinesSurvive | policy-write.mjs:224-255 | every original line survives in order: one value replaced, or new lines put in at one place |
| PolicyLaws.NewlineStaysLast | policy-write.mjs:232-255 | no write lands behind the newline at the end of the text |
| PolicyLaws.UnsettableIgnores | policy-write.mjs:184-256 | when the path is not settable it reads the same whatever is written |
| PolicyBatch.WellFormedSettable | policy-write.mjs:177-183 | in well-formed text every path that extends no scalar and opens no mapping is settable |
| PolicyBatch.WellFormedFits | policy-write.mjs:209-255 | in well-formed text every insertion fits: the lines after it keep their paths, wherever it lands |
| PolicyBatch.BelowScalarLandsBeside | policy-write.mjs:209-252 | in well-formed text a path below a scalar lands beside the scalar |
| PolicyBatch.ValueReadsBackIff | policy-write.mjs:177-256 | a value set at a settable path is the value read there if and only if it is faithful |
| PolicyBatch.SetKeepsWellFormed | policy-write.mjs:184-256 | a write keeps the text well-formed |
| PolicyBatch.SetKeepsFree | policy-write.mjs:184-256 | and keeps unrelated paths writable |
| PolicyBatch.ApplyUpdates | policy-write.mjs:268 | the loop over updates equals their fold |
| PolicyBatch.BatchEffect | policy-write.mjs:261-274 | after a batch every written path reads its last value and every other path as before |
| PolicyLock.StepKeepsInv | policy-write.mjs:38-57 | every file operation of every call, timeouts and crashes included, keeps the protocol's invariant |
| PolicyLock.RunKeepsInv | policy-write.mjs:261-274 | in every interleaving the file is the fold of the jobs written so far in lock order, and every backup is what its writer found |
| PolicyLock.OthersLeaveTheLock | policy-write.mjs:55-57 | nobody but its holder removes the lock or changes the file, a timed-out writer least of all |
| PolicyLock.OrphanedLockStopsEveryone | policy-write.mjs:41-52 | once a holder has died no run changes the file, and every poll at its deadline times out |
| PolicyLock.NoUpdateIsLost | policy-write.mjs:10-17 | for compatible updates every path reads the last landed value in lock order, whatever the interleaving |
| PolicyLock.PollIff | policy-write.mjs:38-53 | a poll takes a free lock however late, and gives up on a held one exactly from two seconds on, touching neither file nor lock |
| PolicyLock.UnlinkHandsOver | policy-write.mjs:38-57 | once the holder has unlinked it, whoever polls first has the lock |
| PolicyLock.FailureFrees | policy-write.mjs:265-273 | a call that fails leaves the file as it is and the lock free |
| PolicyLock.SerialCallsLand | policy-write.mjs:261-274 | calls that get their turn one after another all land, in that order |
| PolicyLock.Disk.AcquireLock | policy-write.mjs:38-53 | polling gets a free lock at once and gives up at the deadline on a held one |
| PolicyLock.Disk.WritePolicy | policy-write.mjs:261-274 | an undisturbed call backs up, writes all updates and unlocks, or leaves everything alone when the lock is held |
| Wire.ReadVarint | antigravity-usage.mjs:33-44 | the byte loop reads the varint at the position and reports the position after it |
| Wire.ParseMessage | antigravity-usage.mjs:47-63 | the field loop equals parsing field by field from the front |
| Wire.VarintRoundTrip | antigravity-usage.mjs:33-44 | wherever a minimal encoding stands, the reader undoes it and reports its exact end for every number below 2^77, and refuses all others |
| Wire.VarintPrefix | antigravity-usage.mjs:33-44 | a varint read whole does not depend on what follows |
| Wire.FixedRoundTrip | antigravity-usage.mjs:56-58 | little-endian words of either width are read back |
| Wire.FieldRoundTrip | antigravity-usage.mjs:52-59 | every encodable field of wire type 0, 1, 2 or 5 is read back, with its end, from wherever it stands |
| Wire.MessageRoundTrip | antigravity-usage.mjs:47-63 | the parser undoes the serializer on every list of such fields |
| Wire.ParseConcat | antigravity-usage.mjs:47-63 | after a clean first half, a concatenation parses to the concatenation of the parses |
| Wire.BadTagRefused | antigravity-usage.mjs:53-59 | field number 0 and unknown wire types refuse the whole message |
| Wire.TruncatedIsRefused | antigravity-usage.mjs:47-63 | a message cut off inside a field is refused, however many whole fields come first |
| Windows.AnchorsPartition | claude-usage.mjs:131-138 | the anchoring loop yields five-hour sessions that start at records and cover every record |
| Windows.OneSession | claude-usage.mjs:131-138 | no record lies in two sessions |
| Windows.PartitionUnique | antigravity-usage.mjs:177-184 | there is only one such partition |
| Windows.FindSession | budget.mjs:210-220 | the loop finds the open session, if any |
| Windows.OpenSessionIsLast | claude-usage.mjs:133-137 | the open session is the last of the partition, and open exactly when `now` is inside it |
| Windows.Windowed | antigravity-usage.mjs:173-195 | one pass sums agent and founder activity into the windows they belong to, and counts the records without a timestamp |
| Windows.Last5hIsTheOpenSession | claude-usage.mjs:128-148 | last5h is exactly the last session's activity while it is open, else zero |
| Windows.MetersAreSums | claude-usage.mjs:128-152 | every figure of every meter is the plain sum over its window: the open session or five hours, the week from its boundary or seven days, or everything |
| Windows.OrderIsIrrelevant | antigravity-usage.mjs:173-195 | sessions and sums do not depend on the order of records |
| Windows.LedgerWindow | budget.mjs:204-233 | the ledger meter equals two half-open queries and a total |
| Windows.LedgerAgreesIff | budget.mjs:184-233 | each window that holds `now` differs between the two meters by exactly the sum of what is stamped at `now`, so the windows agree if and only if that sum is zero |
| Windows.LedgerMissesNow | gateway/ledger.mjs:98-106 | one event stamped now opens a session the ledger counts as empty |
| Windows.WeekWindow | budget.mjs:249-254 | the week start is the only boundary congruent to the anchor whose week holds `now`, for past and future anchors |
| Aggregation.Analytics.LastAggregatedHour | aggregation.mjs:150-153 | finds the greatest hour in the table, none exactly when it is empty |
| Aggregation.Analytics.AggregateHour | aggregation.mjs:20-83 | replaces or adds exactly the group rows of the hour |
| Aggregation.Analytics.AggregatePendingWindows | aggregation.mjs:172-202 | recomputes the last aggregated hour and all later ones, and no other row |
| Aggregation.Analytics.AggregateDay | aggregation.mjs:93-143 | replaces or adds exactly the group rows of the day |
| Aggregation.PendingIsExactIff | aggregation.mjs:172-202 | a run restores the exact group-by if and only if no counted event came for an hour before the last aggregated one |
| Aggregation.EveryRunIsExact | aggregation.mjs:172-202 | without such events the incremental table is the from-scratch group-by after every run |
| Aggregation.DayIsExact | aggregation.mjs:93-143 | rolling up exact hours is the one-step daily group-by of the raw events |
| Totals.RowsAreSums | aggregation.mjs:24-40 | a group has a row exactly when it has a sound event, and every cell is the plain sum of its column over the sound events of the group in the hour |
| Totals.DayRowsAreSums | aggregation.mjs:99-113 | so is every cell of the rolled-up day |
| Totals.NothingIsLost | aggregation.mjs:20-83 | every column of the table adds up to its sum over all sound events, each counted once |
| SetupSession.StepKeepsInv | setup-validation-session.mjs:25-175 | every call and timer keeps: one live validation per session, reviews belong to live validations of their session with their expiry, nothing stored is consumed |
| SetupSession.RunKeepsInv | setup-validation-session.mjs:16-176 | so over every sequence of calls and timers |
| SetupSession.OneValidationPerSession | setup-validation-session.mjs:98-109 | no two stored validations share a session |
| SetupSession.SecretsComeFromTheirSession | setup-validation-session.mjs:67-116 | a secret is only returned to the session that handed it in, unexpired, and stored ever since |
| SetupSession.EndsNow | setup-validation-session.mjs:160-174 | a consumed, revoked or timed-out id is gone when the call returns, with its reviews |
| SetupSession.GoneStaysGone | setup-validation-session.mjs:67-91 | and no read succeeds with it until it is issued again |
| SetupLife.StoredAfter | setup-validation-session.mjs:42-175 | which calls end a stored validation; all others leave it as it is |
| SetupLife.SessionEnds | setup-validation-session.mjs:127-136 | revoking a session leaves nothing of it, not even a review, and touches no other session |
| SetupLife.CreateReplaces | setup-validation-session.mjs:94-111 | a validation replaces the one its session had, under the first unused id; refused exactly when malformed or out of ids |
| SetupLife.GivenUpIff | setup-validation-session.mjs:118-125 | a validation is given up by its own session only, and nothing else goes with it but its reviews |
| SetupLife.ReviewIssuedIff | setup-validation-session.mjs:138-153 | a review is taken exactly for a live validation of the session, and expires with it |
| SetupLife.ReadsBackIff | setup-validation-session.mjs:67-174 | an issued id gives its secret back exactly to its own session, in time, and if no call since has ended it |
| SetupLife.ReviewReadsBackIff | setup-validation-session.mjs:76-165 | a review gives the secret exactly with its validation, session and content, in time, and if nothing has ended either |
| SetupSession.Sessions.CreateValidated | setup-validation-session.mjs:94-111 | replaces the session's validation by a fresh one, or answers invalid |
| SetupSession.Sessions.RevokeReviewsForValidation | setup-validation-session.mjs:36-40 | deleting while iterating leaves exactly the other reviews |
| SetupSession.Sessions.RevokeValidation | setup-validation-session.mjs:42-51 | removes the validation, its active entry and its reviews |
| SetupSession.Sessions.NextId | setup-validation-session.mjs:59-65 | the first unused of sixteen ids, or none |
| SetupSession.Sessions.Read | setup-validation-session.mjs:67-74 | succeeds for a live own id only, and drops an expired one |
| SetupSession.Sessions.ReadReview | setup-validation-session.mjs:76-91 | succeeds for a live matching review of a live validation only |
| SetupSession.Sessions.RevokeSetupSession | setup-validation-session.mjs:127-136 | revokes every validation of the session |
| SetupSession.Sessions.ConsumeReviewedChoice | setup-validation-session.mjs:160-165 | consumes review and validation together |
| SetupSession.Sessions.ConsumeValidatedChoice | setup-validation-session.mjs:167-174 | returns the secret once |
| SetupPlan.FileSystem.CreateFile | setup-wizard-core.mjs:424-447 | one file: exclusive open, fstat or fallback stat, write, close, with every failure |
| SetupPlan.FileSystem.CleanUp | setup-wizard-core.mjs:450-459 | the rollback loop over the recorded files, last first |
| SetupPlan.FileSystem.Write | setup-wizard-core.mjs:412-462 | the whole call equals its specification, failures and other processes included |
| SetupPlan.OutcomeIff | setup-wizard-core.mjs:412-448 | an existing target refuses the plan and nothing else does; undisturbed, it is written exactly when every file has a free path of its own and no call fails |
| SetupPlan.WrittenFilesAreExact | setup-wizard-core.mjs:422-448 | if it returns, every file of the plan was created by it and holds exactly its content, and a path leads to such a file of its own unless others have taken it |
| SetupPlan.WrittenFilesStand | setup-wizard-core.mjs:422-448 | if it returns and others left its paths alone, every path of the plan leads to its own new file, which holds exactly its content |
| SetupPlan.RollbackRemovesEverything | setup-wizard-core.mjs:449-460 | if it fails and clean-up calls succeed, no path leads to a file it created |
| SetupPlan.OthersKeepTheirFilesIff | setup-wizard-core.mjs:429-459 | another process's file is unlinked if and only if the call rolls back and a path changed hands between the stat and the unlink of its clean-up, or somebody else's file was registered by the fallback stat and its unlink is reached |
| SetupPlan.LeftAloneNothingIsLost | setup-wizard-core.mjs:412-462 | as long as others leave the writer's paths alone, whatever fails, nobody else's file is unlinked |
| SetupPlan.RollbackIff | setup-wizard-core.mjs:449-460 | then a failed call leaves none of its files behind if and only if none went unregistered and no clean-up call failed |
| SetupPlan.QuietRollbackIff | setup-wizard-core.mjs:449-460 | undisturbed, a failure restores the paths if and only if nothing went unregistered and no clean-up call failed |
| SetupPlan.QuietWriteAdds | setup-wizard-core.mjs:426-429 | undisturbed, a success changes no path that was there |
| SetupPlan.LeakAfterFstatAndClose | setup-wizard-core.mjs:432-442 | fstat and close failing together leave the file behind |
| SetupPlan.RaceAtUnlink | setup-wizard-core.mjs:452-455 | a file swapped in between stat and unlink is lost |
| SetupPlan.RaceAtFallback | setup-wizard-core.mjs:437-440 | a file swapped in before the fallback stat is registered and lost |
| RunLog.ReadRuns | runlog.mjs:57-67 | the readable records, newest first, at most the limit |
| RunLog.SnapshotIsStable | runlog.mjs:105-108 | however the log grows, the oldest n records are the same |
| RunLog.PageOfSnapshot | runlog.mjs:101-115 | a page with a cursor is the next stretch of the first snapshot |
| RunLog.FollowingReturnsTheSnapshot | runlog.mjs:101-115 | following the cursors ends and yields every run of the first snapshot once, in order, under any appends and limits, as long as every page's bounds let the same runs of it through |
| RunLog.VisibleIsWanted | runlog.mjs:88-99 | what a scope lets through is the readable records that meet every criterion given, newest first |
| RunLog.PagesAreFiltered | runlog.mjs:88-115 | every run on a page is in the log and meets every criterion |
| RunLog.PageLength | runlog.mjs:110-111 | a page is as long as asked for, fifty by default and never more than 200, or as what is left |
| RunLog.WalkRefusedIff | runlog.mjs:104-107 | whatever logs and scopes the pages meet, the next page of a walk is refused as not matching exactly when tenant, project, provider or filters are not the first page's, and as expired exactly when they are but the log is shorter than the first page's |
| RunLog.VaryingBoundsIff | runlog.mjs:101-115 | when the time bounds vary from page to page, the walk yields the first page's visible runs, once and in order, if and only if every page asked for is what the first page's bounds would have shown there |
| RunLog.MovedBoundSkips | dashboard/operational-scope.mjs:30-31 | a walk of one run a page whose `to` moves to the newest of three runs ends without the middle one, unrefused |
| ModelFallback.PickWeighted | model-router.mjs:478-493 | the cumulative loop picks the candidate whose interval the draw falls in |
| ModelFallback.PickIsProportional | model-router.mjs:478-493 | each candidate owns an interval as long as its weight share |
| ModelFallback.WeightlessOnlyAtZero | model-router.mjs:482-488 | a weightless candidate is picked only when it is first and the draw is zero |
| ModelFallback.ResolveModelWithFallback | model-router.mjs:538-577 | the tier loop equals its recursive description and records the attempt |
| ModelFallback.ResolveOutcome | model-router.mjs:546-574 | it answers from the first tier that offers anything, and throws exactly when none does |
| ModelFallback.DrainIsOrderly | model-router.mjs:538-577 | repeated calls return no model twice, never go back a tier, and stop |
| ModelFallback.DrainIsComplete | model-router.mjs:538-577 | and miss no available model of positive weight |
| Board.BoardDb.SeedTasks | state.mjs:137-143 | seeds increments, sprints and tasks in one transaction, or nothing |
| Board.BoardDb.WritePi | state.mjs:145-152 | inserts or updates one increment, an absent status defaulted or kept |
| Board.BoardDb.WriteSprint | state.mjs:154-165 | inserts or updates one sprint, absent columns defaulted or kept |
| Board.ByStartSorts | state.mjs:45-47 | all sprints are listed, by start date, those without one first |
| Board.ByStartIsStable | state.mjs:45-47 | sprints that start together stay in the table's order |
| Board.PiUpserted | state.mjs:145-152 | a declared increment is renamed where it stands, its status kept unless declared, a new one in planning |
| Board.SprintUpserted | state.mjs:154-165 | so is a declared sprint, dates, goal and increment kept unless declared |
| Board.SeedRefusedIff | state.mjs:137-165 | seeding is refused as a whole exactly when a sprint names an increment that neither side knows |
| Board.RebuiltDatabase | render.mjs:20-68 | a database rebuilt from its board has lost only leases, stall counts and sources |
| Board.RenderSeedFixedPoint | render.mjs:20-68 | seeding an empty database from a board and rendering again gives the same board, orders included |
| Board.SeedingOwnBoardIsNothing | render.mjs:35-38 | seeding a database from its own board changes nothing |
| Board.SeedingTwiceIsSeedingOnce | state.mjs:136-143 | seeding twice a board that names nothing twice and dates its tasks is seeding it once, whatever the database held |
| Board.RenderedIsDefinite | render.mjs:57-68 | every rendered board is such a board |
| Profiles.ResolveProfile | profiles.mjs:38-69 | the method equals the specified resolution, failures included |
| Profiles.CollectChain | profiles.mjs:44-61 | the walk ends on every graph with the chain or the right error |
| Profiles.MergeChain | profiles.mjs:63-68 | merging runs from root to leaf |
| Profiles.ResolveOutcome | profiles.mjs:38-61 | resolution succeeds exactly when the chain reaches a root, and fails as unknown or circular exactly when it starts at or meets such a name |
| Profiles.ChildOverridesParent | profiles.mjs:63-68 | a child resolves exactly when its parent does, to its own fields merged onto the parent's |
| Profiles.MergeDecides | profiles.mjs:16-28 | an override decides exactly the paths it speaks about |
| Profiles.NearestDecides | profiles.mjs:38-69 | every setting comes from the profile nearest the leaf that speaks about it |

## Left out

- SQLite: each transaction is one atomic step, and so are the planner's note and sprint writes; the heartbeat's update and its audit row, two statements outside `tx`, are taken as one step too.
- The four lease columns are one optional lease, because the code always sets and clears them together; history rows carry no actor and no note; timestamps are integers; `pruneHistory` is not modelled.
- JSON columns are parsed lists; lower-casing is ASCII; text order is character order.
- `setGovernanceFlags` sets or clears the approval only; snoozing and skipping do not bear on any law here.
- Quiet hours, run budgets and the quota-hold date parsing reach `planRun` as a hold flag and a set of held agents; model routing, provider keys and the harness are one abstract outcome of `decide`.
- `executeRun` stops at its claims: launching, pull-request recovery and run records are arbitrary later steps.
- PlannerCycle: the sprint rollover's writes and the report lists it returns are not modelled; the active sprint and the readiness gates are parameters, and notes use a plain hyphen for a dash.
- OthersReadAsBeforeIff: an insertion whose next entry is indented deeper than the new lines, though outside the ancestor, is not covered; it adopts that entry (`AdoptedExample`), and well-formed text has no such place (`WellFormedFits`).
- ScalarReadsBackIff: numbers with a fraction are not values of the model; the reader keeps their text.
- Policy text: LF line ends; keys and values are compared as text; a path of no parts is excluded; keys such as `__proto__` are ordinary; numbers that print with an exponent and flow arrays are not decoded.
- The split of a line into indentation, key, value and comment is taken as given in `PolicyText`; `PolicyScalar` proves it for the lines the writer prints.
- A crash in the middle of writing the policy file, or of copying the backup, is not modelled; neither is a person deleting a stale lock.
- Field numbers beyond 2^53, gunzip, the sub-message getters and pool classification of antigravity-usage.mjs.
- Which transcript files belong to agents, `verdictFor`, `nonTranscriptUsage`, `providerBreakdown` and combining meters: sums and comparisons with one branch each.
- Windowed: the per-pool windows of antigravity-usage.mjs are separate calls on the records of one pool, and their sum is not modelled.
- LedgerWindow: rows with missing token columns count as zero here; the ledger's tenant and agent filters are applied beforehand.
- AggregatePendingWindows: covers the hourly part; its daily part, which never refreshes the newest day it has written, and the returned counts are not modelled.
- Aggregation: window keys are taken as injective, which a task named `null` breaks; `aggregated_at` is not modelled.
- Setup sessions: one clock reading per call; timers may fire at any time; choices and reviews are compared as text.
- Setup files: inode numbers are not reused while a call runs; other processes do not write into its files; modes and directories are not modelled.
- Run log: records are not projected by `safeRun`; limits are integers; fingerprints do not collide; a torn line is not completed later.
- Weights and draws are exact reals; the seeded generator and the circuit breaker's own state machine are a given draw and a fixed availability predicate.
- Board milestones, founder actions and the Markdown board; profiles with a null `extends` or prototype keys; `undefined` fields count as absent.
- Process spawning, worktrees, git, HTTP, mail, the dashboard, desktop and MCP server, the gateway's proxying, the watchdog, and the field-by-field validators: input, output or one-branch facts.
