/**
 * The planner cycle row by row: the six loops over the store come to one independent story per task, told
 * by the snapshot alone - what is held, what is released again, what flows on, and what is left alone.
 */
module PlannerRows {
  import opened Common
  import opened Machine
  import opened Store
  import opened StoreInvariant
  import opened Risk
  import opened Router
  import opened Planner

  // ---- Each row for itself ----

  /** A task as a loop finds it, and what the audit says it was before it was last blocked. */
  datatype Cell = Cell(row: Task, before: Option<Status>)

  function CellOf(db: Db, id: string): Cell
    requires id in db.tasks
  {
    Cell(db.tasks[id], BeforeBlock(db, id))
  }

  /** The snapshot with nothing in the audit but what one task was before it was last blocked. */
  function Frozen(snap: map<string, Task>, id: string, before: Option<Status>): Db {
    Db(snap, map[], if before.None? then [] else [Row(0, id, before, Some(Blocked), Transitioned)])
  }

  function Written(c: Cell, w: Write, now: int): Cell {
    match w
    case Leave => c
    case WriteNote(text) => c.(row := c.row.(note := Some(text), updatedAt := now))
    case Plan(sprint) => c.(row := c.row.(sprint := Some(sprint), updatedAt := now))
    case GoTo(to, why) =>
      if !IsLegal(c.row.status, to) then c
      else Cell(MovedTask(c.row, to, Some(Some(why)), FreesLease(to), None, now),
                if to == Blocked then Some(c.row.status) else c.before)
  }

  function After(snap: map<string, Task>, env: Env, phase: Phase, id: string, c: Cell, now: int): Cell
    requires id in snap
  {
    Written(c, Choice(Frozen(snap, id, c.before), env, snap, phase, id), now)
  }

  lemma FrozenRemembers(snap: map<string, Task>, id: string, before: Option<Status>)
    ensures BeforeBlock(Frozen(snap, id, before), id) == before
  {
    if before.Some? {
      assert Frozen(snap, id, before).history[..0] == [];
    }
  }

  lemma ChoiceIsFrozen(snap: map<string, Task>, db: Db, env: Env, phase: Phase, id: string)
    requires Current(snap, db) && id in snap
    ensures Choice(db, env, snap, phase, id) == Choice(Frozen(snap, id, BeforeBlock(db, id)), env, snap, phase, id)
  {
    var was := BeforeBlock(db, id);
    EffectiveTagsFrame(snap, db.tasks, id);
    DepsMetCurrent(snap, db, snap[id].dependsOn);
    FrozenRemembers(snap, id, was);
  }

  lemma WriteByRow(db: Db, id: string, w: Write, now: int)
    requires id in db.tasks
    ensures var db' := Perform(db, id, w, now);
      id in db'.tasks && CellOf(db', id) == Written(CellOf(db, id), w, now)
  {
    WriteRemembers(db, id, w, id, now);
  }

  /** One loop does to a row what the snapshot says, whatever it does to the others. */
  lemma LoopByRow(snap: map<string, Task>, db: Db, env: Env, phase: Phase, id: string, now: int)
    requires Current(snap, db) && id in snap
    ensures var db' := Loop(db, env, snap, phase, now);
      Current(snap, db') && CellOf(db', id) == After(snap, env, phase, id, CellOf(db, id), now)
  {
    var mid := LoopRow(snap, db, env, phase, id, now);
    WriteByRow(mid, id, Choice(mid, env, snap, phase, id), now);
    ChoiceIsFrozen(snap, mid, env, phase, id);
  }

  function GovernedCell(snap: map<string, Task>, env: Env, id: string, c: Cell, now: int): Cell
    requires id in snap
  {
    var c1 := After(snap, env, Hold, id, c, now);
    var c2 := After(snap, env, Unhold, id, c1, now);
    var c3 := After(snap, env, Adopt, id, c2, now);
    After(snap, env, CarryOver, id, c3, now)
  }

  function CycleCell(snap: map<string, Task>, env: Env, id: string, c: Cell, now: int): Cell
    requires id in snap
  {
    After(snap, env, FastTrack, id, After(snap, env, Promote, id, GovernedCell(snap, env, id, c, now), now), now)
  }

  /** The whole cycle: no task's outcome depends on what the cycle does to any other. */
  lemma CycleByRow(db: Db, env: Env, id: string, now: int)
    requires id in db.tasks
    ensures var db' := Cycle(db, env, now);
      && db'.tasks.Keys == db.tasks.Keys
      && CellOf(db', id) == CycleCell(db.tasks, env, id, CellOf(db, id), now)
  {
    var snap := db.tasks;
    var d0 := Loop(db, env, snap, Hold, now);
    LoopByRow(snap, db, env, Hold, id, now);
    var d1 := Loop(d0, env, snap, Unhold, now);
    LoopByRow(snap, d0, env, Unhold, id, now);
    var d2 := Loop(d1, env, snap, Adopt, now);
    LoopByRow(snap, d1, env, Adopt, id, now);
    var d3 := Loop(d2, env, snap, CarryOver, now);
    LoopByRow(snap, d2, env, CarryOver, id, now);
    var d4 := Loop(d3, env, snap, Promote, now);
    LoopByRow(snap, d3, env, Promote, id, now);
    LoopByRow(snap, d4, env, FastTrack, id, now);
  }

  // ---- What stops a task ----

  ghost predicate MentionsAt(text: string, action: string, p: nat) {
    p + |action| <= |text| &&
    forall i :: 0 <= i < |action| ==> text[p + i] == if action[i] == '_' then ' ' else action[i]
  }

  /** The words of `action`, somewhere in the text. */
  ghost predicate Mentions(text: string, action: string) {
    exists p: nat :: MentionsAt(text, action, p)
  }

  lemma MentionsAround(head: string, text: string, tail: string, action: string)
    requires Mentions(text, action)
    ensures Mentions(head + text + tail, action)
  {
    var p: nat :| MentionsAt(text, action, p);
    assert (head + text + tail)[|head|..|head| + |text|] == text;
    assert MentionsAt(head + text + tail, action, |head| + p);
  }

  lemma {:induction false} JoinMentions(actions: seq<string>, action: string)
    requires action in actions
    ensures Mentions(Join(actions), action)
    decreases |actions|
  {
    if action == actions[0] {
      assert MentionsAt(Words(action), action, 0);
      if |actions| > 1 {
        MentionsAround([], Words(action), " + " + Join(actions[1..]), action);
        assert Join(actions) == [] + Words(action) + (" + " + Join(actions[1..]));
      }
    } else {
      JoinMentions(actions[1..], action);
      MentionsAround(Words(actions[0]) + " + ", Join(actions[1..]), [], action);
      assert Join(actions) == (Words(actions[0]) + " + ") + Join(actions[1..]) + [];
    }
  }

  /** The note of a hold: it bears the mark and lists, and so names, all that stops the task. */
  ghost predicate NamesStops(env: Env, tasks: map<string, Task>, id: string, note: Option<string>) {
    exists actions ::
      && AllStops(env.governance, tasks, id, actions)
      && note == Some("governance hold: needs founder approval to " + Join(actions))
      && forall a :: a in actions ==> Mentions(note.value, a)
  }

  lemma HoldNoteNames(env: Env, tasks: map<string, Task>, id: string)
    requires id in tasks
    ensures NamesStops(env, tasks, id, Some(HoldNote(env.governance, EffectiveRiskTags(tasks, id))))
  {
    var tags := EffectiveRiskTags(tasks, id);
    var actions := SensitiveBlocks(env.governance, tags, []);
    BlocksAreAllStops(env.governance, tasks, id);
    NoteMentions(actions);
  }

  lemma NoteMentions(actions: seq<string>)
    ensures forall a :: a in actions ==> Mentions("governance hold: needs founder approval to " + Join(actions), a)
  {
    var head := "governance hold: needs founder approval to ";
    forall a | a in actions ensures Mentions(head + Join(actions), a) {
      JoinMentions(actions, a);
      MentionsAround(head, Join(actions), [], a);
      assert head + Join(actions) == head + Join(actions) + [];
    }
  }

  // ---- Blocked rows ----

  /** Blocked by this gate, as its note says. */
  predicate Marked(t: Task) {
    t.status == Blocked && t.note.Some? && "governance hold" <= t.note.value
  }

  /** Only the release loop looks at rows read as blocked, and none at rows read as done. */
  lemma OnlyReleases(snap: map<string, Task>, env: Env, id: string, c: Cell, now: int)
    requires id in snap && (snap[id].status == Blocked || snap[id].status == Done)
    ensures CycleCell(snap, env, id, c, now) == After(snap, env, Unhold, id, c, now)
  {
    forall phase: Phase, d: Cell | !phase.Unhold? ensures After(snap, env, phase, id, d, now) == d {
      assert Choice(Frozen(snap, id, d.before), env, snap, phase, id) == Leave;
    }
  }

  /** What is done, or was blocked by anybody else, the cycle does not touch at all. */
  lemma RestStays(db: Db, env: Env, id: string, now: int)
    requires id in db.tasks
    requires db.tasks[id].status == Done || (db.tasks[id].status == Blocked && !Marked(db.tasks[id]))
    ensures id in Cycle(db, env, now).tasks && Cycle(db, env, now).tasks[id] == db.tasks[id]
  {
    CycleByRow(db, env, id, now);
    OnlyReleases(db.tasks, env, id, CellOf(db, id), now);
  }

  /** A hold that the policy still asks for stays, and its note comes to name what stops the task now. */
  lemma HoldStays(db: Db, env: Env, id: string, now: int)
    requires id in db.tasks && Marked(db.tasks[id]) && Stopped(env.governance, db.tasks, id)
    ensures var db', t := Cycle(db, env, now), db.tasks[id];
      && id in db'.tasks && NamesStops(env, db.tasks, id, db'.tasks[id].note)
      && db'.tasks[id] == t.(note := db'.tasks[id].note,
                             updatedAt := if db'.tasks[id].note == t.note then t.updatedAt else now)
  {
    CycleByRow(db, env, id, now);
    OnlyReleases(db.tasks, env, id, CellOf(db, id), now);
    StopIs(env.governance, db.tasks, id);
    HoldNoteNames(env, db.tasks, id);
  }

  /** The task's last recorded move into blocked is row `k`, and came from `from`. */
  ghost predicate LastBlockedFrom(h: seq<Row>, id: string, k: nat, from: Option<Status>) {
    && k < |h| && IntoBlocked(h[k], id) && h[k].from == from
    && forall j :: k < j < |h| ==> !IntoBlocked(h[j], id)
  }

  predicate IntoBlocked(row: Row, id: string) {
    row.task == id && row.op == Transitioned && row.to == Some(Blocked)
  }

  lemma {:induction false} LastMoveIs(h: seq<Row>, id: string, k: nat, from: Option<Status>)
    requires LastBlockedFrom(h, id, k, from)
    ensures LastMoveInto(h, id, Blocked) == from
    decreases |h|
  {
    if k < |h| - 1 {
      assert !IntoBlocked(h[|h| - 1], id);
      LastMoveIs(h[..|h| - 1], id, k, from);
    }
  }

  lemma {:induction false} NoMoveIs(h: seq<Row>, id: string)
    requires forall j :: 0 <= j < |h| ==> !IntoBlocked(h[j], id)
    ensures LastMoveInto(h, id, Blocked).None?
  {
    if h != [] {
      assert !IntoBlocked(h[|h| - 1], id);
      NoMoveIs(h[..|h| - 1], id);
    }
  }

  /** Where a release leads: back to where the task was, or to ready-for-impl if it cannot go there or nobody knows. */
  function Back(from: Option<Status>): Status {
    if from.Some? && from.value in {Spec, Designing, ReadyForImpl, InProgress} then from.value else ReadyForImpl
  }

  /** The row as a release leaves it. */
  function Released(t: Task, from: Option<Status>, now: int): Task {
    t.(status := Back(from), updatedAt := now, note := Some("released - policy now permits this action"))
  }

  lemma ReleasedCell(snap: map<string, Task>, env: Env, id: string, before: Option<Status>, now: int)
    requires id in snap && Marked(snap[id]) && SensitiveBlock(env.governance, EffectiveRiskTags(snap, id)).None?
    ensures After(snap, env, Unhold, id, Cell(snap[id], before), now).row == Released(snap[id], before, now)
  {
    var frozen := Frozen(snap, id, before);
    FrozenRemembers(snap, id, before);
    assert UnholdTarget(frozen, id) == Back(before);
  }

  lemma HoldEnds(db: Db, env: Env, id: string, now: int)
    requires id in db.tasks && Marked(db.tasks[id]) && !Stopped(env.governance, db.tasks, id)
    ensures var db' := Cycle(db, env, now);
      id in db'.tasks && db'.tasks[id] == Released(db.tasks[id], BeforeBlock(db, id), now)
  {
    CycleByRow(db, env, id, now);
    OnlyReleases(db.tasks, env, id, CellOf(db, id), now);
    StopIs(env.governance, db.tasks, id);
    ReleasedCell(db.tasks, env, id, BeforeBlock(db, id), now);
  }

  /** A hold that the policy no longer asks for is released to where the task was when it was last blocked. */
  lemma HoldIsReleased(db: Db, env: Env, id: string, now: int, k: nat, from: Option<Status>)
    requires id in db.tasks && Marked(db.tasks[id]) && !Stopped(env.governance, db.tasks, id)
    requires LastBlockedFrom(db.history, id, k, from) ||
             (from == None && forall j :: 0 <= j < |db.history| ==> !IntoBlocked(db.history[j], id))
    ensures var db' := Cycle(db, env, now); id in db'.tasks && db'.tasks[id] == Released(db.tasks[id], from, now)
  {
    HoldEnds(db, env, id, now);
    if LastBlockedFrom(db.history, id, k, from) {
      LastMoveIs(db.history, id, k, from);
    } else {
      NoMoveIs(db.history, id);
    }
  }

  // ---- Rows that are not blocked ----

  /** A workable story is pulled into the active sprint: out of another one, or out of none if its epic is under way. */
  predicate Joins(env: Env, tasks: map<string, Task>, t: Task) {
    && env.activeSprint.Some? && t.kind == "story"
    && if t.sprint == None || t.sprint == Some("")
       then t.parent.Some? && t.parent.value != "" && t.parent.value in tasks
            && tasks[t.parent.value].status == InProgress
       else t.sprint != env.activeSprint
  }

  /** What stands between a task and the next stage of the pipeline. */
  datatype Gate = Shut | Unready(note: string) | Ready(to: Status, why: string)

  ghost function GateOf(env: Env, tasks: map<string, Task>, t: Task): Gate {
    if t.status == Proposed && NoDup(t.dependsOn)
       && forall d | d in t.dependsOn :: d in tasks && tasks[d].status == Done then
      if env.specEntry(t) then Ready(Spec, "auto-promoted (spec-entry met)") else Unready(env.entryNote(t))
    else if t.status == Spec && t.spec.Some? && t.spec.value != "" then
      if env.specReady(t) then Ready(Designing, "spec complete (DoR met) - fast-tracked")
      else Unready(env.readyNote(t))
    else Shut
  }

  /** The row as the two sprint loops leave it. */
  ghost predicate PlannedRow(env: Env, tasks: map<string, Task>, t: Task, row: Task, row': Task, now: int) {
    row' == if Joins(env, tasks, t) then row.(sprint := env.activeSprint, updatedAt := now) else row
  }

  lemma PlannedCell(snap: map<string, Task>, env: Env, id: string, c: Cell, now: int)
    requires id in snap && snap[id].status != Done && snap[id].status != Blocked
    ensures var d := After(snap, env, CarryOver, id, After(snap, env, Adopt, id, c, now), now);
      d.before == c.before && PlannedRow(env, snap, snap[id], c.row, d.row, now)
  {
  }

  /** The row as the two gates leave it: they look at the snapshot `t`, and move the row if they can. */
  ghost predicate GatedRow(env: Env, tasks: map<string, Task>, t: Task, row: Task, row': Task, now: int) {
    match GateOf(env, tasks, t)
    case Shut => row' == row
    case Unready(note) => row' == if t.note == Some(note) then row else row.(note := Some(note), updatedAt := now)
    case Ready(to, why) =>
      row' == if IsLegal(row.status, to) then row.(status := to, note := Some(why), updatedAt := now) else row
  }

  lemma GatedCell(snap: map<string, Task>, env: Env, id: string, c: Cell, now: int)
    requires id in snap
    ensures var d := After(snap, env, FastTrack, id, After(snap, env, Promote, id, c, now), now);
      d.before == c.before && GatedRow(env, snap, snap[id], c.row, d.row, now)
  {
    var c1 := After(snap, env, Promote, id, c, now);
    if snap[id].status == Proposed {
      DepsMetIff(snap, snap[id].dependsOn);
      assert Choice(Frozen(snap, id, c1.before), env, snap, FastTrack, id) == Leave;
    } else {
      assert c1 == c;
    }
  }

  /** Read as workable, unapproved, and stopped. */
  ghost predicate HeldBack(env: Env, tasks: map<string, Task>, id: string)
    requires id in tasks
  {
    var t := tasks[id];
    && t.kind == "story" && t.status != Done && t.status != Blocked && t.approvedAt.None?
    && Stopped(env.governance, tasks, id)
  }

  /** The row as the governance gate leaves it; a status that is no state cannot be moved. */
  ghost predicate HoldRow(env: Env, tasks: map<string, Task>, id: string, row': Task, now: int)
    requires id in tasks
  {
    var t := tasks[id];
    if HeldBack(env, tasks, id) && !t.status.Other? then
      NamesStops(env, tasks, id, row'.note) &&
      row' == t.(status := Blocked, note := row'.note, lease := None, updatedAt := now)
    else row' == t
  }

  lemma HoldChoiceIs(snap: map<string, Task>, env: Env, id: string, before: Option<Status>)
    requires id in snap && snap[id].status != Done && snap[id].status != Blocked
    ensures Choice(Frozen(snap, id, before), env, snap, Hold, id) ==
            if HeldBack(env, snap, id) then GoTo(Blocked, HoldNote(env.governance, EffectiveRiskTags(snap, id)))
            else Leave
  {
    StopIs(env.governance, snap, id);
  }

  lemma HoldCell(snap: map<string, Task>, env: Env, id: string, before: Option<Status>, now: int)
    requires id in snap && snap[id].status != Done && snap[id].status != Blocked
    ensures var d := After(snap, env, Hold, id, Cell(snap[id], before), now);
      && HoldRow(env, snap, id, d.row, now)
      && d.before == (if HeldBack(env, snap, id) && !snap[id].status.Other? then Some(snap[id].status) else before)
  {
    HoldChoiceIs(snap, env, id, before);
    if HeldBack(env, snap, id) {
      HoldNoteNames(env, snap, id);
      BlockedCell(Cell(snap[id], before), HoldNote(env.governance, EffectiveRiskTags(snap, id)), now);
    }
  }

  lemma BlockedCell(c: Cell, note: string, now: int)
    requires c.row.status != Done
    ensures Written(c, GoTo(Blocked, note), now) ==
            if c.row.status.Other? then c
            else Cell(c.row.(status := Blocked, note := Some(note), lease := None, updatedAt := now),
                      Some(c.row.status))
  {
    assert IsLegal(c.row.status, Blocked) <==> !c.row.status.Other?;
  }

  lemma NothingToRelease(snap: map<string, Task>, env: Env, id: string, c: Cell, now: int)
    requires id in snap && snap[id].status != Blocked
    ensures After(snap, env, Unhold, id, c, now) == c
  {
  }

  /** The three stages a row that is not blocked goes through. */
  ghost predicate Flows(env: Env, tasks: map<string, Task>, id: string, held: Task, planned: Task, row': Task, now: int)
    requires id in tasks
  {
    && HoldRow(env, tasks, id, held, now)
    && PlannedRow(env, tasks, tasks[id], held, planned, now)
    && GatedRow(env, tasks, tasks[id], planned, row', now)
  }

  lemma RowFlows(db: Db, env: Env, id: string, now: int) returns (held: Task, planned: Task)
    requires id in db.tasks && db.tasks[id].status != Done && db.tasks[id].status != Blocked
    ensures var db' := Cycle(db, env, now);
      && id in db'.tasks && Flows(env, db.tasks, id, held, planned, db'.tasks[id], now)
      && BeforeBlock(db', id) == if HeldBack(env, db.tasks, id) && !db.tasks[id].status.Other?
                                 then Some(db.tasks[id].status) else BeforeBlock(db, id)
  {
    var snap, c := db.tasks, CellOf(db, id);
    CycleByRow(db, env, id, now);
    var c1 := After(snap, env, Hold, id, c, now);
    HoldCell(snap, env, id, c.before, now);
    NothingToRelease(snap, env, id, c1, now);
    var c3 := After(snap, env, CarryOver, id, After(snap, env, Adopt, id, c1, now), now);
    PlannedCell(snap, env, id, c1, now);
    GatedCell(snap, env, id, c3, now);
    held, planned := c1.row, c3.row;
  }

  /**
   * A row that is not held flows: a workable story joins the active sprint, a proposed task whose
   * dependencies are done and that passes the entry gate becomes spec, one in spec whose file meets the
   * definition of ready becomes designing, and one that a gate turns back has the reason for its note,
   * written once. Nothing else of the row changes, its lease least of all.
   */
  lemma OthersFlow(db: Db, env: Env, id: string, now: int)
    requires id in db.tasks && db.tasks[id].status != Done && db.tasks[id].status != Blocked
    requires db.tasks[id].kind != "story" || db.tasks[id].approvedAt.Some? || !Stopped(env.governance, db.tasks, id)
    ensures var db', t := Cycle(db, env, now), db.tasks[id];
      var gate := GateOf(env, db.tasks, t);
      && id in db'.tasks
      && (var t' := db'.tasks[id];
          && t'.status == (if gate.Ready? then gate.to else t.status)
          && t'.note == (match gate case Shut => t.note case Unready(n) => Some(n) case Ready(_, why) => Some(why))
          && t'.sprint == (if Joins(env, db.tasks, t) then env.activeSprint else t.sprint)
          && t' == t.(status := t'.status, note := t'.note, sprint := t'.sprint, updatedAt := t'.updatedAt)
          && t'.updatedAt == (if Joins(env, db.tasks, t) || gate.Ready? || t'.note != t.note then now
                              else t.updatedAt))
  {
    var _, _ := RowFlows(db, env, id, now);
    assert Spec in Targets(Proposed) && Designing in Targets(Spec);
  }

  // ---- Held, and released again ----

  /** A later gate of the same cycle, looking at the snapshot, writes over the hold. */
  ghost predicate Overwritten(env: Env, tasks: map<string, Task>, t: Task) {
    match GateOf(env, tasks, t)
    case Shut => false
    case Unready(note) => t.note != Some(note)
    case Ready(_, _) => true
  }

  /**
   * A held story ends the cycle blocked, with a note that names what stops it, exactly unless a gate further
   * down writes over that: one that lets it through moves it on, and one that turns it back leaves it blocked
   * under a note that no longer says by whom.
   */
  lemma HoldMarks(db: Db, env: Env, id: string, now: int)
    requires id in db.tasks && HeldBack(env, db.tasks, id) && !db.tasks[id].status.Other?
    ensures var db', gate := Cycle(db, env, now), GateOf(env, db.tasks, db.tasks[id]);
      && id in db'.tasks
      && (if !Overwritten(env, db.tasks, db.tasks[id])
          then db'.tasks[id].status == Blocked && NamesStops(env, db.tasks, id, db'.tasks[id].note)
               && BeforeBlock(db', id) == Some(db.tasks[id].status)
          else if gate.Unready? then db'.tasks[id].status == Blocked && db'.tasks[id].note == Some(gate.note)
          else db'.tasks[id].status == gate.to)
  {
    var held, planned := RowFlows(db, env, id, now);
    HeldFlows(env, db.tasks, id, held, planned, Cycle(db, env, now).tasks[id], now);
  }

  lemma HeldFlows(env: Env, tasks: map<string, Task>, id: string, held: Task, planned: Task, row': Task, now: int)
    requires id in tasks && HeldBack(env, tasks, id) && !tasks[id].status.Other?
    requires Flows(env, tasks, id, held, planned, row', now)
    ensures var gate := GateOf(env, tasks, tasks[id]);
      if !Overwritten(env, tasks, tasks[id])
      then row'.status == Blocked && NamesStops(env, tasks, id, row'.note)
      else if gate.Unready? then row'.status == Blocked && row'.note == Some(gate.note)
      else row'.status == gate.to
  {
    assert planned.status == Blocked && planned.note == held.note;
    assert Spec in Targets(Blocked) && Designing in Targets(Blocked);
  }

  lemma NamedIsMarked(env: Env, tasks: map<string, Task>, id: string, t: Task)
    requires t.status == Blocked && NamesStops(env, tasks, id, t.note)
    ensures Marked(t)
  {
    assert "governance hold" <= "governance hold: needs founder approval to ";
  }

  /**
   * Hold and release: once the policy no longer stops it, the next cycle puts a held story back to the status
   * it was held in; but one held in proposed or in review goes to ready-for-impl, whatever it was.
   */
  lemma HoldThenRelease(db: Db, env: Env, env': Env, id: string, now: int, later: int)
    requires id in db.tasks && HeldBack(env, db.tasks, id) && !db.tasks[id].status.Other?
    requires !Overwritten(env, db.tasks, db.tasks[id]) && !Stopped(env'.governance, Cycle(db, env, now).tasks, id)
    ensures var db' := Cycle(Cycle(db, env, now), env', later);
      && id in db'.tasks
      && db'.tasks[id].status == if db.tasks[id].status in {Spec, Designing, ReadyForImpl, InProgress}
                                 then db.tasks[id].status else ReadyForImpl
  {
    HoldMarks(db, env, id, now);
    NamedIsMarked(env, db.tasks, id, Cycle(db, env, now).tasks[id]);
    HoldEnds(Cycle(db, env, now), env', id, later);
  }

  /** One cycle after another, each under its own policy. */
  function Cycles(db: Db, envs: seq<Env>, at: nat -> int): Db {
    if envs == [] then db else Cycle(Cycles(db, envs[..|envs| - 1], at), envs[|envs| - 1], at(|envs| - 1))
  }

  lemma {:induction false} RestStaysForGood(db: Db, envs: seq<Env>, at: nat -> int, id: string)
    requires id in db.tasks && db.tasks[id].status == Blocked && !Marked(db.tasks[id])
    ensures id in Cycles(db, envs, at).tasks && Cycles(db, envs, at).tasks[id] == db.tasks[id]
  {
    if envs != [] {
      RestStaysForGood(db, envs[..|envs| - 1], at, id);
      RestStays(Cycles(db, envs[..|envs| - 1], at), envs[|envs| - 1], id, at(|envs| - 1));
    }
  }

  /**
   * So a held story that a gate turns back in the same cycle is lost: its note is the gate's, and no later
   * cycle releases it, however far the policy is relaxed.
   */
  lemma TurnedBackIsLost(db: Db, env: Env, id: string, now: int, envs: seq<Env>, at: nat -> int)
    requires id in db.tasks && HeldBack(env, db.tasks, id) && !db.tasks[id].status.Other?
    requires var gate := GateOf(env, db.tasks, db.tasks[id]);
      gate.Unready? && db.tasks[id].note != Some(gate.note) && !("governance hold" <= gate.note)
    ensures var db' := Cycles(Cycle(db, env, now), envs, at);
      id in db'.tasks && db'.tasks[id].status == Blocked
  {
    HoldMarks(db, env, id, now);
    RestStaysForGood(Cycle(db, env, now), envs, at, id);
  }
}
