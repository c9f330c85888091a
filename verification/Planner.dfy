/**
 * The watchdog's planner cycle: governance holds and releases, sprint adoption, and promotion, all
 * driven by ONE snapshot of the tasks taken before the first write.
 */
module Planner {
  import opened Common
  import opened Machine
  import opened Store
  import opened StoreInvariant
  import opened Listing
  import opened Risk
  import opened Router
  import TaskStore

  /**
   * What a cycle reads besides the tasks: the governance levers, the sprint that is active once the
   * rollover is done, and the two readiness gates with the notes they leave on unready stories.
   */
  datatype Env = Env(
    governance: Governance, activeSprint: Option<string>,
    specEntry: Task -> bool, entryNote: Task -> string,
    specReady: Task -> bool, readyNote: Task -> string)

  /** The six loops of one cycle, in order. */
  datatype Phase = Hold | Unhold | Adopt | CarryOver | Promote | FastTrack

  function Words(action: string): string {
    seq(|action|, i requires 0 <= i < |action| => if action[i] == '_' then ' ' else action[i])
  }

  function Join(actions: seq<string>): string {
    if actions == [] then ""
    else if |actions| == 1 then Words(actions[0])
    else Words(actions[0]) + " + " + Join(actions[1..])
  }

  const HOLD_MARK := "governance hold"

  const HOLD_INTRO := "governance hold: needs founder approval to "

  function HoldNote(g: Governance, tags: seq<string>): string {
    HOLD_INTRO + Join(SensitiveBlocks(g, tags, []))
  }

  /** Where the task stood before its latest recorded move to blocked. */
  function LastMoveInto(h: seq<Row>, id: string, to: Status): Option<Status> {
    if h == [] then None
    else
      var row := h[|h| - 1];
      if row.task == id && row.op == Transitioned && row.to == Some(to) then row.from
      else LastMoveInto(h[..|h| - 1], id, to)
  }

  predicate OurHold(t: Task) {
    t.status == Blocked && t.note.Some? && HOLD_MARK <= t.note.value
  }

  function UnholdTarget(db: Db, id: string): Status {
    var prior := LastMoveInto(db.history, id, Blocked);
    if prior.Some? && prior.value in Targets(Blocked) then prior.value else ReadyForImpl
  }

  /** Unplanned: no sprint at all; an empty sprint id counts as none. */
  predicate Unplanned(t: Task) {
    t.sprint.None? || t.sprint.value == ""
  }

  predicate Workable(t: Task) {
    t.kind == "story" && t.status != Done && t.status != Blocked
  }

  predicate MayHold(t: Task) {
    Workable(t) && t.approvedAt.None?
  }

  predicate ParentInProgress(snap: map<string, Task>, t: Task) {
    t.parent.Some? && t.parent.value != "" && t.parent.value in snap && snap[t.parent.value].status == InProgress
  }

  predicate HasSpecFile(t: Task) {
    t.spec.Some? && t.spec.value != ""
  }

  /** The one write a loop may make for a row. */
  datatype Write = Leave | WriteNote(text: string) | Plan(sprint: string) | GoTo(to: Status, why: string)

  function NoteOnce(t: Task, want: string): Write {
    if t.note == Some(want) then Leave else WriteNote(want)
  }

  /** What a loop does about a row: `snap[id]` decides whether to act, the live tables say how. */
  function Choice(db: Db, env: Env, snap: map<string, Task>, phase: Phase, id: string): Write
    requires id in snap && id in db.tasks
  {
    var t := snap[id];
    var tags := EffectiveRiskTags(db.tasks, id);
    var stop := SensitiveBlock(env.governance, tags).Some?;
    match phase
    case Hold => if MayHold(t) && stop then GoTo(Blocked, HoldNote(env.governance, tags)) else Leave
    case Unhold =>
      if !OurHold(t) then Leave
      else if stop then NoteOnce(t, HoldNote(env.governance, tags))
      else GoTo(UnholdTarget(db, id), "released - policy now permits this action")
    case Adopt =>
      if env.activeSprint.Some? && Workable(t) && Unplanned(t) && ParentInProgress(snap, t)
      then Plan(env.activeSprint.value) else Leave
    case CarryOver =>
      if env.activeSprint.Some? && Workable(t) && !Unplanned(t) && t.sprint != env.activeSprint
      then Plan(env.activeSprint.value) else Leave
    case Promote =>
      if t.status != Proposed || (t.dependsOn != [] && !DepsMet(db.tasks, t.dependsOn)) then Leave
      else if !env.specEntry(t) then NoteOnce(t, env.entryNote(t))
      else GoTo(Spec, "auto-promoted (spec-entry met)")
    case FastTrack =>
      if t.status != Spec || !HasSpecFile(t) then Leave
      else if !env.specReady(t) then NoteOnce(t, env.readyNote(t))
      else GoTo(Designing, "spec complete (DoR met) - fast-tracked")
  }

  /** An illegal move throws and is skipped; `Transition` leaves the tables alone then. */
  function Perform(db: Db, id: string, w: Write, now: int): Db {
    match w
    case Leave => db
    case WriteNote(text) => SetNote(db, id, text, now)
    case Plan(sprint) => SetSprint(db, id, sprint, now)
    case GoTo(to, why) => Transition(db, id, to, Some(Some(why)), "", false, None, now)
  }

  function Visit(db: Db, env: Env, snap: map<string, Task>, phase: Phase, id: string, now: int): Db
    requires id in snap
  {
    if id in db.tasks then Perform(db, id, Choice(db, env, snap, phase, id), now) else db
  }

  function Sweep(db: Db, env: Env, snap: map<string, Task>, phase: Phase, ids: seq<string>, now: int): Db
    requires forall x | x in ids :: x in snap
  {
    if ids == [] then db
    else Visit(Sweep(db, env, snap, phase, ids[..|ids| - 1], now), env, snap, phase, ids[|ids| - 1], now)
  }

  function Listed(snap: map<string, Task>): (ids: seq<string>)
    ensures Elems(ids) == snap.Keys
    ensures forall x | x in ids :: x in snap
  {
    var ids := Rows(snap, snap.Keys);
    RowsElems(snap, snap.Keys);
    assert forall x | x in ids :: x in Elems(ids);
    ids
  }

  function Loop(db: Db, env: Env, snap: map<string, Task>, phase: Phase, now: int): Db {
    Sweep(db, env, snap, phase, Listed(snap), now)
  }

  /** Holds, releases and sprint planning. */
  function Governed(db: Db, env: Env, snap: map<string, Task>, now: int): Db {
    var d0 := Loop(db, env, snap, Hold, now);
    var d1 := Loop(d0, env, snap, Unhold, now);
    var d2 := Loop(d1, env, snap, Adopt, now);
    Loop(d2, env, snap, CarryOver, now)
  }

  function Cycle(db: Db, env: Env, now: int): Db {
    var d3 := Governed(db, env, db.tasks, now);
    var d4 := Loop(d3, env, db.tasks, Promote, now);
    Loop(d4, env, db.tasks, FastTrack, now)
  }

  /** plannerCycle itself: six loops over the snapshot, writing the store as they go. */
  method PlannerCycle(store: TaskStore.TaskStore, env: Env, now: int)
    modifies store
    ensures store.State() == Cycle(old(store.State()), env, now)
  {
    var snap := store.tasks;
    RunLoop(store, env, snap, Hold, now);
    RunLoop(store, env, snap, Unhold, now);
    RunLoop(store, env, snap, Adopt, now);
    RunLoop(store, env, snap, CarryOver, now);
    RunLoop(store, env, snap, Promote, now);
    RunLoop(store, env, snap, FastTrack, now);
  }

  method RunLoop(store: TaskStore.TaskStore, env: Env, snap: map<string, Task>, phase: Phase, now: int)
    modifies store
    ensures store.State() == Loop(old(store.State()), env, snap, phase, now)
  {
    var ids := Listed(snap);
    assert ids[..0] == [];
    for i := 0 to |ids|
      invariant store.State() == Sweep(old(store.State()), env, snap, phase, ids[..i], now)
    {
      SweepNext(old(store.State()), env, snap, phase, ids, i, now);
      if ids[i] in store.tasks {
        var w := Choice(Db(store.tasks, store.locks, store.history), env, snap, phase, ids[i]);
        CommitWrite(store, ids[i], w, now);
      }
    }
    assert ids[..|ids|] == ids;
  }

  lemma SweepNext(db: Db, env: Env, snap: map<string, Task>, phase: Phase, ids: seq<string>, i: nat, now: int)
    requires i < |ids| && forall x | x in ids :: x in snap
    ensures Sweep(db, env, snap, phase, ids[..i + 1], now) ==
            Visit(Sweep(db, env, snap, phase, ids[..i], now), env, snap, phase, ids[i], now)
  {
    assert ids[..i + 1][..i] == ids[..i];
  }

  method CommitWrite(store: TaskStore.TaskStore, id: string, w: Write, now: int)
    modifies store
    ensures store.State() == Perform(old(store.State()), id, w, now)
  {
    match w
    case Leave =>
    case WriteNote(text) => store.SetTaskNote(id, text, now);
    case Plan(sprint) => store.SetTaskSprint(id, sprint, now);
    case GoTo(to, why) => var _ := store.TransitionTask(id, to, Some(Some(why)), "", false, None, now);
  }

  // ---- What a cycle leaves alone ----

  /** What the stale snapshot still tells the truth about, however far the cycle has got. */
  ghost predicate Current(snap: map<string, Task>, db: Db) {
    && db.tasks.Keys == snap.Keys
    && forall k | k in snap ::
         && db.tasks[k].parent == snap[k].parent
         && db.tasks[k].riskTags == snap[k].riskTags
         && (db.tasks[k].status == Done <==> snap[k].status == Done)
  }

  /** A write that never moves a done task, and never moves anything to done. */
  predicate Tame(t: Task, w: Write) {
    w.GoTo? ==> t.status != Done && w.to != Done
  }

  lemma ChoiceIsTame(db: Db, env: Env, snap: map<string, Task>, phase: Phase, id: string)
    requires id in snap && id in db.tasks
    ensures Tame(snap[id], Choice(db, env, snap, phase, id))
  {
    assert Done !in Targets(Blocked);
  }

  /** A write to one row that leaves its parent and tags alone, and does not finish or reopen it. */
  lemma OneRowCurrent(snap: map<string, Task>, db: Db, db': Db, id: string)
    requires Current(snap, db) && id in snap && id in db'.tasks && db'.tasks == db.tasks[id := db'.tasks[id]]
    requires var t, t' := db.tasks[id], db'.tasks[id];
      t'.parent == t.parent && t'.riskTags == t.riskTags && (t'.status == Done <==> t.status == Done)
    ensures Current(snap, db') && forall k | k in snap && k != id :: db'.tasks[k] == db.tasks[k]
  {
  }

  lemma PerformCurrent(snap: map<string, Task>, db: Db, id: string, w: Write, now: int)
    requires Current(snap, db) && id in snap && Tame(snap[id], w)
    ensures var db' := Perform(db, id, w, now);
      Current(snap, db') && (forall k | k in snap && k != id :: db'.tasks[k] == db.tasks[k])
  {
    match w
    case Leave =>
    case WriteNote(text) => OneRowCurrent(snap, db, SetNote(db, id, text, now), id);
    case Plan(sprint) => OneRowCurrent(snap, db, SetSprint(db, id, sprint, now), id);
    case GoTo(to, why) =>
      OneRowCurrent(snap, db, Transition(db, id, to, Some(Some(why)), "", false, None, now), id);
  }

  lemma PerformKeepsInv(db: Db, id: string, w: Write, now: int)
    requires Inv(db)
    ensures Inv(Perform(db, id, w, now))
  {
    match w
    case Leave =>
    case WriteNote(text) => NoteKeepsInv(db, id, text, now);
    case Plan(sprint) => SprintKeepsInv(db, id, sprint, now);
    case GoTo(to, why) => TransitionKeepsInv(db, id, to, Some(Some(why)), "", false, None, now);
  }

  lemma {:induction false} SweepKeepsInv(snap: map<string, Task>, db: Db, env: Env, phase: Phase, ids: seq<string>,
                                         now: int)
    requires Inv(db) && forall x | x in ids :: x in snap
    ensures Inv(Sweep(db, env, snap, phase, ids, now))
  {
    if ids != [] {
      var n := |ids| - 1;
      SweepKeepsInv(snap, db, env, phase, ids[..n], now);
      var prev := Sweep(db, env, snap, phase, ids[..n], now);
      if ids[n] in prev.tasks {
        PerformKeepsInv(prev, ids[n], Choice(prev, env, snap, phase, ids[n]), now);
      }
    }
  }

  /** The status before the task's last move to blocked, as the audit has it. */
  function BeforeBlock(db: Db, id: string): Option<Status> {
    LastMoveInto(db.history, id, Blocked)
  }

  lemma LastMoveNext(h: seq<Row>, row: Row, id: string, to: Status)
    ensures LastMoveInto(h + [row], id, to) ==
            if row.task == id && row.op == Transitioned && row.to == Some(to) then row.from
            else LastMoveInto(h, id, to)
  {
    assert (h + [row])[..|h|] == h;
  }

  /** A write remembers one move to blocked at most: its own. */
  lemma WriteRemembers(db: Db, id: string, w: Write, k: string, now: int)
    ensures BeforeBlock(Perform(db, id, w, now), k) ==
            if k == id && w.GoTo? && w.to == Blocked && id in db.tasks && IsLegal(db.tasks[id].status, Blocked)
            then Some(db.tasks[id].status) else BeforeBlock(db, k)
  {
    assert db.history + [] == db.history;
    if w.GoTo? && id in db.tasks {
      LastMoveNext(db.history, Row(now, id, Some(db.tasks[id].status), Some(w.to), Transitioned), k, Blocked);
    }
  }

  lemma {:induction false} SweepRemembers(snap: map<string, Task>, db: Db, env: Env, phase: Phase, ids: seq<string>,
                                          k: string, now: int)
    requires k !in ids && forall x | x in ids :: x in snap
    ensures BeforeBlock(Sweep(db, env, snap, phase, ids, now), k) == BeforeBlock(db, k)
  {
    if ids != [] {
      var n := |ids| - 1;
      SweepRemembers(snap, db, env, phase, ids[..n], k, now);
      var mid := Sweep(db, env, snap, phase, ids[..n], now);
      if ids[n] in mid.tasks {
        WriteRemembers(mid, ids[n], Choice(mid, env, snap, phase, ids[n]), k, now);
      }
    }
  }

  /** `db'` holds for row `k` what its one visit, made in the tables `mid`, left there. */
  ghost predicate Treated(mid: Db, db': Db, env: Env, snap: map<string, Task>, phase: Phase, k: string, now: int)
    requires k in snap
  {
    && Current(snap, mid)
    && var after := Perform(mid, k, Choice(mid, env, snap, phase, k), now);
       && k in after.tasks && k in db'.tasks && db'.tasks[k] == after.tasks[k]
       && BeforeBlock(db', k) == BeforeBlock(after, k)
  }

  lemma VisitCurrent(snap: map<string, Task>, db: Db, env: Env, phase: Phase, id: string, now: int)
    requires Current(snap, db) && id in snap
    ensures var db' := Visit(db, env, snap, phase, id, now);
      && Current(snap, db') && (forall k | k in snap && k != id :: db'.tasks[k] == db.tasks[k])
      && Treated(db, db', env, snap, phase, id, now)
  {
    ChoiceIsTame(db, env, snap, phase, id);
    PerformCurrent(snap, db, id, Choice(db, env, snap, phase, id), now);
  }

  lemma {:induction false} SweepCurrent(snap: map<string, Task>, db: Db, env: Env, phase: Phase, ids: seq<string>,
                                        now: int)
    requires Current(snap, db) && forall x | x in ids :: x in snap
    ensures var db' := Sweep(db, env, snap, phase, ids, now);
      Current(snap, db') && (forall k | k in snap && k !in ids :: db'.tasks[k] == db.tasks[k])
  {
    if ids != [] {
      var n := |ids| - 1;
      SweepCurrent(snap, db, env, phase, ids[..n], now);
      VisitCurrent(snap, Sweep(db, env, snap, phase, ids[..n], now), env, phase, ids[n], now);
    }
  }

  lemma {:induction false} SweepSplit(snap: map<string, Task>, db: Db, env: Env, phase: Phase, a: seq<string>,
                                      b: seq<string>, now: int)
    requires (forall x | x in a :: x in snap) && forall x | x in b :: x in snap
    ensures forall x | x in a + b :: x in snap
    ensures Sweep(db, env, snap, phase, a + b, now) ==
            Sweep(Sweep(db, env, snap, phase, a, now), env, snap, phase, b, now)
  {
    if b == [] {
      assert a + b == a;
    } else {
      var n := |b| - 1;
      assert (a + b)[..|a| + n] == a + b[..n];
      SweepSplit(snap, db, env, phase, a, b[..n], now);
    }
  }

  /** A loop treats each row once, in tables where that row still is as the loop found it. */
  lemma SweepRow(snap: map<string, Task>, db: Db, env: Env, phase: Phase, before: seq<string>, k: string,
                 after: seq<string>, now: int)
    returns (mid: Db)
    requires Current(snap, db) && k !in before && k !in after
    requires (forall x | x in before :: x in snap) && k in snap && forall x | x in after :: x in snap
    ensures k in mid.tasks && mid.tasks[k] == db.tasks[k] && BeforeBlock(mid, k) == BeforeBlock(db, k)
    ensures forall x | x in before + [k] + after :: x in snap
    ensures Treated(mid, Sweep(db, env, snap, phase, before + [k] + after, now), env, snap, phase, k, now)
  {
    mid := Sweep(db, env, snap, phase, before, now);
    SweepCurrent(snap, db, env, phase, before, now);
    VisitCurrent(snap, mid, env, phase, k, now);
    var next := Visit(mid, env, snap, phase, k, now);
    SweepCurrent(snap, next, env, phase, after, now);
    SweepRemembers(snap, db, env, phase, before, k, now);
    SweepRemembers(snap, next, env, phase, after, k, now);
    SweepSplit(snap, db, env, phase, before, [k], now);
    SweepSplit(snap, db, env, phase, before + [k], after, now);
    SweepOne(mid, env, snap, phase, k, now);
  }

  lemma SweepOne(db: Db, env: Env, snap: map<string, Task>, phase: Phase, k: string, now: int)
    requires k in snap
    ensures Sweep(db, env, snap, phase, [k], now) == Visit(db, env, snap, phase, k, now)
  {
    assert [k][..0] == [];
  }

  /** A cycle keeps leases and locks in step, whatever the levers say. */
  lemma CycleKeepsInv(db: Db, env: Env, now: int)
    requires Inv(db)
    ensures Inv(Cycle(db, env, now))
  {
    var snap, ids := db.tasks, Listed(db.tasks);
    var d0 := Loop(db, env, snap, Hold, now);
    SweepKeepsInv(snap, db, env, Hold, ids, now);
    var d1 := Loop(d0, env, snap, Unhold, now);
    SweepKeepsInv(snap, d0, env, Unhold, ids, now);
    var d2 := Loop(d1, env, snap, Adopt, now);
    SweepKeepsInv(snap, d1, env, Adopt, ids, now);
    var d3 := Loop(d2, env, snap, CarryOver, now);
    SweepKeepsInv(snap, d2, env, CarryOver, ids, now);
    SweepKeepsInv(snap, d3, env, Promote, ids, now);
    SweepKeepsInv(snap, Loop(d3, env, snap, Promote, now), env, FastTrack, ids, now);
  }

  // ---- Where a held story ends the cycle ----

  predicate Held(env: Env, tasks: map<string, Task>, id: string)
    requires id in tasks
  {
    MayHold(tasks[id]) && SensitiveBlock(env.governance, EffectiveRiskTags(tasks, id)).Some?
  }

  /** A story read as proposed whose dependencies are done and that passes the entry gate. */
  predicate Promotable(env: Env, tasks: map<string, Task>, id: string)
    requires id in tasks
  {
    var t := tasks[id];
    t.status == Proposed && (t.dependsOn == [] || DepsMet(tasks, t.dependsOn)) && env.specEntry(t)
  }

  /** A story read as spec whose file exists and that meets the definition of ready. */
  predicate Trackable(env: Env, tasks: map<string, Task>, id: string)
    requires id in tasks
  {
    var t := tasks[id];
    t.status == Spec && HasSpecFile(t) && env.specReady(t)
  }

  lemma ListedOnce(snap: map<string, Task>)
    ensures NoDup(Listed(snap))
  {
    var ids := Rows(snap, snap.Keys);
    RowsOrdered(snap, snap.Keys);
    forall i, j | 0 <= i < j < |ids| ensures ids[i] != ids[j] {
      assert Before(snap, ids[i], ids[j]);
      BeforeIsStrictOrder(snap, ids[i], ids[i]);
    }
  }

  lemma DepsMetCurrent(snap: map<string, Task>, db: Db, deps: seq<string>)
    requires Current(snap, db)
    ensures DepsMet(db.tasks, deps) == DepsMet(snap, deps)
  {
    assert DoneAmong(db.tasks, deps) == DoneAmong(snap, deps);
  }

  /** What each loop chooses for a held story. */
  lemma HeldChoice(snap: map<string, Task>, db: Db, env: Env, phase: Phase, id: string)
    requires Current(snap, db) && id in snap && Held(env, snap, id)
    ensures var w := Choice(db, env, snap, phase, id);
      match phase
      case Hold => w.GoTo? && w.to == Blocked
      case Unhold => w == Leave
      case Adopt => !w.GoTo?
      case CarryOver => !w.GoTo?
      case Promote => if Promotable(env, snap, id) then w.GoTo? && w.to == Spec else !w.GoTo?
      case FastTrack => if Trackable(env, snap, id) then w.GoTo? && w.to == Designing else !w.GoTo?
  {
    EffectiveTagsFrame(snap, db.tasks, id);
    DepsMetCurrent(snap, db, snap[id].dependsOn);
  }

  /** What the writes chosen for a held story do to its row. */
  lemma HeldWrite(db: Db, id: string, w: Write, now: int)
    requires id in db.tasks
    ensures var t := Perform(db, id, w, now).tasks;
      && id in t
      && (!w.GoTo? || db.tasks[id].status.Other? ==>
            t[id].status == db.tasks[id].status && t[id].lease == db.tasks[id].lease)
      && (w.GoTo? && w.to == Blocked && !db.tasks[id].status.Other? && db.tasks[id].status != Done ==>
            t[id].status == Blocked && t[id].lease.None?)
      && (w.GoTo? && (w.to == Spec || w.to == Designing) && db.tasks[id].status == Blocked ==>
            t[id].status == w.to && t[id].lease == db.tasks[id].lease)
  {
    var s := db.tasks[id].status;
    assert Blocked in Targets(s) || s in {Done, Blocked} || s.Other?;
  }

  lemma LoopRow(snap: map<string, Task>, db: Db, env: Env, phase: Phase, id: string, now: int) returns (mid: Db)
    requires Current(snap, db) && id in snap
    ensures id in mid.tasks && mid.tasks[id] == db.tasks[id] && BeforeBlock(mid, id) == BeforeBlock(db, id)
    ensures Current(snap, Loop(db, env, snap, phase, now))
    ensures Treated(mid, Loop(db, env, snap, phase, now), env, snap, phase, id, now)
  {
    var ids := Listed(snap);
    ListedOnce(snap);
    assert id in Elems(ids);
    SweepCurrent(snap, db, env, phase, ids, now);
    var before, after := SplitAt(ids, id);
    mid := SweepRow(snap, db, env, phase, before, id, after, now);
  }

  lemma SplitAt(ids: seq<string>, id: string) returns (before: seq<string>, after: seq<string>)
    requires NoDup(ids) && id in ids
    ensures ids == before + [id] + after && id !in before && id !in after
  {
    var i :| 0 <= i < |ids| && ids[i] == id;
    before, after := ids[..i], ids[i + 1..];
  }

  lemma HeldLoop(snap: map<string, Task>, db: Db, env: Env, phase: Phase, id: string, now: int)
    requires Current(snap, db) && id in snap && Held(env, snap, id)
    requires db.tasks[id].status.Other? <==> snap[id].status.Other?
    requires phase.Hold? ==> db.tasks[id] == snap[id]
    requires phase.Promote? || phase.FastTrack? ==>
      db.tasks[id].status == Blocked || db.tasks[id].status.Other? ||
          !(if phase.Promote? then Promotable(env, snap, id) else Trackable(env, snap, id))
    ensures var db' := Loop(db, env, snap, phase, now);
      && Current(snap, db')
      && db'.tasks[id].lease == (if phase.Hold? && !snap[id].status.Other? then None else db.tasks[id].lease)
      && db'.tasks[id].status ==
         if snap[id].status.Other? then db.tasks[id].status
         else if phase.Hold? then Blocked
         else if phase.Promote? && Promotable(env, snap, id) then Spec
         else if phase.FastTrack? && Trackable(env, snap, id) then Designing
         else db.tasks[id].status
  {
    var mid := LoopRow(snap, db, env, phase, id, now);
    HeldChoice(snap, mid, env, phase, id);
    HeldWrite(mid, id, Choice(mid, env, snap, phase, id), now);
  }

  lemma HeldIsGoverned(db: Db, env: Env, id: string, now: int)
    requires id in db.tasks && Held(env, db.tasks, id)
    ensures var d3, t := Governed(db, env, db.tasks, now), db.tasks[id];
      && Current(db.tasks, d3)
      && d3.tasks[id].status == (if t.status.Other? then t.status else Blocked)
      && d3.tasks[id].lease == (if t.status.Other? then t.lease else None)
  {
    var snap := db.tasks;
    var d0 := Loop(db, env, snap, Hold, now);
    HeldLoop(snap, db, env, Hold, id, now);
    var d1 := Loop(d0, env, snap, Unhold, now);
    HeldLoop(snap, d0, env, Unhold, id, now);
    var d2 := Loop(d1, env, snap, Adopt, now);
    HeldLoop(snap, d1, env, Adopt, id, now);
    HeldLoop(snap, d2, env, CarryOver, id, now);
  }

  /**
   * Every story the cycle reads as workable, unapproved and carrying (or inheriting) a stop-and-ask
   * tag ends the cycle blocked, without a lease or a lock, with exactly three exceptions: one read as
   * proposed that the promotion loop takes to spec and one read as spec that the fast track takes to
   * designing, both let through by the stale snapshot, and one whose status text is none of the eight
   * states, which keeps its status and its lease, as the move to blocked throws and is swallowed.
   */
  lemma HeldStoryEnds(db: Db, env: Env, id: string, now: int)
    requires Inv(db) && id in db.tasks && Held(env, db.tasks, id)
    ensures var db', t := Cycle(db, env, now), db.tasks[id];
      && id in db'.tasks
      && (if t.status.Other? then db'.tasks[id].lease == t.lease
          else db'.tasks[id].lease.None? && forall r :: !Locks(db', r, id))
      && db'.tasks[id].status ==
         if t.status.Other? then t.status
         else if Promotable(env, db.tasks, id) then Spec
         else if Trackable(env, db.tasks, id) then Designing
         else Blocked
  {
    var snap := db.tasks;
    HeldIsGoverned(db, env, id, now);
    var d3 := Governed(db, env, snap, now);
    HeldLoop(snap, d3, env, Promote, id, now);
    HeldLoop(snap, Loop(d3, env, snap, Promote, now), env, FastTrack, id, now);
    var d5 := Cycle(db, env, now);
    CycleKeepsInv(db, env, now);
    if !snap[id].status.Other? {
      forall r ensures !Locks(d5, r, id) {
        assert Locks(d5, r, id) <==> Wants(d5, r, id);
      }
    }
  }

  /** The governance promise, for the four statuses it holds of. */
  lemma HeldStoryIsParked(db: Db, env: Env, id: string, now: int)
    requires Inv(db) && id in db.tasks && Held(env, db.tasks, id)
    requires db.tasks[id].status in {Designing, ReadyForImpl, InProgress, InReview}
    ensures var db' := Cycle(db, env, now);
      id in db'.tasks && db'.tasks[id].status == Blocked && db'.tasks[id].lease.None? && forall r :: !Locks(db', r, id)
  {
    HeldStoryEnds(db, env, id, now);
  }

  const LEAK_TASK := Task(
    "story", None, None, "Pay", "both", Proposed, 1, 3, ["payments"], None, [], [], None, None, None, 0,
    Extra(None, "standard", None, None, None, None, [], 0, None), None, 0)

  const LEAK_DB := Db(map["s" := LEAK_TASK], map[], [])

  lemma PaymentsIsLower()
    ensures Lower("payments") == "payments"
  {
  }

  lemma LeakIsHeld(env: Env)
    requires env.governance == Governance(map[], map["payments" := "spend_money"])
    ensures Held(env, LEAK_DB.tasks, "s")
  {
    assert Reaches(LEAK_DB.tasks, "s", "s") by {
      assert ParentPath(LEAK_DB.tasks, ["s"]);
    }
    assert "payments" in LEAK_TASK.riskTags;
    PaymentsIsLower();
    HeldIff(env.governance, LEAK_DB.tasks, "s");
  }

  /** A held story that leaks: read as proposed, it is blocked and then promoted in the same cycle. */
  lemma ProposedStoryLeaks(env: Env, now: int)
    requires env.governance == Governance(map[], map["payments" := "spend_money"]) && env.specEntry(LEAK_TASK)
    ensures Held(env, LEAK_DB.tasks, "s")
    ensures var db' := Cycle(LEAK_DB, env, now); "s" in db'.tasks && db'.tasks["s"].status == Spec
  {
    LeakIsHeld(env);
    HeldStoryEnds(LEAK_DB, env, "s", now);
  }
}
