/**
 * The append-only audit explains the tables: replaying it gives back every task's status and stall
 * counter, it only ever records legal moves, and it bounds what the reaper may do to a task's complexity.
 */
module History {
  import opened Common
  import opened Machine
  import opened Store
  import opened StoreInvariant

  /** What the audit remembers of one task. */
  datatype Memory = Memory(status: Status, reaps: nat)

  function Play(m: map<string, Memory>, row: Row): map<string, Memory> {
    match row.op
    case Seeded => if row.to.Some? then m[row.task := Memory(row.to.value, 0)] else m
    case Reaped => if row.task in m then m[row.task := m[row.task].(reaps := m[row.task].reaps + 1)] else m
    case Transitioned =>
      if row.task in m && row.to.Some? then
        m[row.task := Memory(row.to.value, if row.to.value == Done then 0 else m[row.task].reaps)]
      else m
    case _ => m
  }

  function Replay(h: seq<Row>): map<string, Memory> {
    if h == [] then map[] else Play(Replay(h[..|h| - 1]), h[|h| - 1])
  }

  lemma ReplayAppend(h: seq<Row>, row: Row)
    ensures Replay(h + [row]) == Play(Replay(h), row)
  {
    assert (h + [row])[..|h|] == h;
  }

  lemma ReplayAppend2(h: seq<Row>, a: Row, b: Row)
    ensures Replay(h + [a, b]) == Play(Play(Replay(h), a), b)
  {
    assert h + [a, b] == (h + [a]) + [b];
    ReplayAppend(h, a);
    ReplayAppend(h + [a], b);
  }

  function Recall(tasks: map<string, Task>): map<string, Memory> {
    map id | id in tasks :: Memory(tasks[id].status, tasks[id].reapCount)
  }

  ghost predicate Explained(db: Db) {
    Replay(db.history) == Recall(db.tasks)
  }

  /** One audit row, read against what the rows before it say. */
  ghost predicate RowLegal(before: map<string, Memory>, row: Row) {
    && (row.op == Transitioned ==>
          && row.task in before && row.from == Some(before[row.task].status)
          && row.to.Some? && IsLegal(row.from.value, row.to.value))
    && (row.op != Transitioned && row.op != Seeded && row.op != Beat ==>
          row.task in before && row.from == row.to == Some(before[row.task].status))
    && (row.op == Seeded ==> row.task !in before && row.from.None? && row.to.Some?)
  }

  /** Every row was legal against what the rows before it say. */
  ghost predicate Lawful(h: seq<Row>) {
    h == [] || (Lawful(h[..|h| - 1]) && RowLegal(Replay(h[..|h| - 1]), h[|h| - 1]))
  }

  lemma LawfulAppend(h: seq<Row>, row: Row)
    requires Lawful(h) && RowLegal(Replay(h), row)
    ensures Lawful(h + [row])
  {
    assert (h + [row])[..|h|] == h;
  }

  lemma LawfulAppend2(h: seq<Row>, a: Row, b: Row)
    requires Lawful(h) && RowLegal(Replay(h), a) && RowLegal(Play(Replay(h), a), b)
    ensures Lawful(h + [a, b])
  {
    assert h + [a, b] == (h + [a]) + [b];
    LawfulAppend(h, a);
    ReplayAppend(h, a);
    LawfulAppend(h + [a], b);
  }

  /** An upsert of an existing row is not audited, so it must not move it. */
  ghost predicate UpsertKeepsStatus(db: Db, a: Action) {
    a.DoUpsert? && a.id in db.tasks ==> Updated(db.tasks[a.id], a.d, a.now).status == db.tasks[a.id].status
  }

  ghost predicate AuditedRun(actions: seq<Action>) {
    && FairRun(EMPTY, actions)
    && forall k :: 0 <= k < |actions| ==> UpsertKeepsStatus(Run(EMPTY, actions[..k]), actions[k])
  }

  ghost predicate Audited(db: Db) {
    Explained(db) && Lawful(db.history)
  }

  lemma OneRow(db: Db, db': Db, row: Row)
    requires Audited(db) && RowLegal(Recall(db.tasks), row)
    requires db'.history == db.history + [row] && Recall(db'.tasks) == Play(Recall(db.tasks), row)
    ensures Audited(db')
  {
    ReplayAppend(db.history, row);
    LawfulAppend(db.history, row);
  }

  /** One row rewritten and one audit row added for it. */
  lemma OneRowAt(db: Db, db': Db, id: string, row: Row)
    requires Audited(db) && row.task == id && RowLegal(Recall(db.tasks), row)
    requires id in db'.tasks && db'.tasks == db.tasks[id := db'.tasks[id]]
    requires db'.history == db.history + [row]
    requires Play(Recall(db.tasks), row) ==
             Recall(db.tasks)[id := Memory(db'.tasks[id].status, db'.tasks[id].reapCount)]
    ensures Audited(db')
  {
    assert Recall(db'.tasks) == Play(Recall(db.tasks), row);
    OneRow(db, db', row);
  }

  /** A row that records no change, or none at all, beside a rewrite that makes none. */
  lemma SteadyRow(db: Db, db': Db, id: string)
    requires Audited(db) && id in db.tasks && id in db'.tasks && db'.tasks == db.tasks[id := db'.tasks[id]]
    requires db'.tasks[id].status == db.tasks[id].status && db'.tasks[id].reapCount == db.tasks[id].reapCount
    requires db'.history == db.history || exists row: Row ::
      && db'.history == db.history + [row] && row.task == id && row.op in {Claimed, Beat, Released, Annotated}
      && (row.op == Beat || row.from == row.to == Some(db.tasks[id].status))
    ensures Audited(db')
  {
    var m := Recall(db.tasks);
    assert m[id := Memory(db'.tasks[id].status, db'.tasks[id].reapCount)] == m;
    if db'.history == db.history {
      assert Recall(db'.tasks) == m;
    } else {
      var row: Row :| db'.history == db.history + [row]
                      && row.task == id && row.op in {Claimed, Beat, Released, Annotated}
                      && (row.op == Beat || row.from == row.to == Some(db.tasks[id].status));
      OneRowAt(db, db', id, row);
    }
  }

  lemma ReapAudited(db: Db, id: string, now: int)
    requires Inv(db) && Audited(db)
    ensures Audited(ReapOne(db, id, now))
  {
    if id in db.tasks && Expired(db.tasks[id], now) {
      assert Leased(db, id);
      var t := db.tasks[id];
      var db' := ReapOne(db, id, now);
      var rows := WornRows(t, id, now);
      var m, u := Recall(db.tasks), Worn(t, now);
      assert Recall(db'.tasks) == m[id := Memory(u.status, u.reapCount)];
      ReapRowsLegal(m, t, id, now);
      if |rows| == 1 {
        assert rows == [rows[0]];
        OneRow(db, db', rows[0]);
      } else {
        assert rows == [rows[0], rows[1]];
        ReplayAppend2(db.history, rows[0], rows[1]);
        LawfulAppend2(db.history, rows[0], rows[1]);
      }
    }
  }

  lemma ReapRowsLegal(m: map<string, Memory>, t: Task, id: string, now: int)
    requires id in m && m[id] == Memory(t.status, t.reapCount) && t.status in CLAIMABLE
    ensures var rows, u := WornRows(t, id, now), Worn(t, now);
      && 1 <= |rows| <= 2
      && RowLegal(m, rows[0])
      && (|rows| == 1 ==> Play(m, rows[0]) == m[id := Memory(u.status, u.reapCount)])
      && (|rows| == 2 ==> RowLegal(Play(m, rows[0]), rows[1]) &&
                          Play(Play(m, rows[0]), rows[1]) == m[id := Memory(u.status, u.reapCount)])
  {
    assert Blocked in Targets(t.status);
  }

  lemma TransitionAudited(db: Db, id: string, to: Status, note: Given, session: string, release: bool, pr: Given,
                          now: int)
    requires Audited(db)
    ensures Audited(Transition(db, id, to, note, session, release, pr, now))
  {
    if MoveVerdict(db, id, to, session).Moved? {
      var db' := Transition(db, id, to, note, session, release, pr, now);
      OneRowAt(db, db', id, Row(now, id, Some(db.tasks[id].status), Some(to), Transitioned));
    }
  }

  /** An upsert stays in step with the audit exactly when it does not move an existing row. */
  lemma UpsertAuditedIff(db: Db, id: string, d: Declared, now: int)
    requires Audited(db)
    ensures Audited(Upsert(db, id, d, now)) <==> UpsertKeepsStatus(db, DoUpsert(id, d, now))
  {
    var db' := Upsert(db, id, d, now);
    if id in db.tasks {
      if Updated(db.tasks[id], d, now).status == db.tasks[id].status {
        SteadyRow(db, db', id);
      } else {
        assert Recall(db'.tasks)[id] != Recall(db.tasks)[id];
      }
    } else {
      OneRowAt(db, db', id, Row(now, id, None, Some(Inserted(d, now).status), Seeded));
    }
  }

  ghost predicate Steady(a: Action) {
    !a.DoReap? && !a.DoTransition? && !a.DoUpsert?
  }

  lemma SteadyShape(db: Db, a: Action)
    requires Steady(a) && Apply(db, a) != db
    ensures var db' := Apply(db, a);
      && a.id in db.tasks && a.id in db'.tasks && db'.tasks == db.tasks[a.id := db'.tasks[a.id]]
      && db'.tasks[a.id].status == db.tasks[a.id].status && db'.tasks[a.id].reapCount == db.tasks[a.id].reapCount
      && (db'.history == db.history || db'.history == db.history + [db'.history[|db.history|]])
  {
  }

  lemma SteadyRows(db: Db, a: Action)
    requires Steady(a) && a.id in db.tasks && |Apply(db, a).history| > |db.history|
    ensures var row := Apply(db, a).history[|db.history|];
      && row.task == a.id && row.op in {Claimed, Beat, Released, Annotated}
      && (row.op == Beat || row.from == row.to == Some(db.tasks[a.id].status))
  {
  }

  lemma SteadyAudited(db: Db, a: Action)
    requires Steady(a) && Audited(db)
    ensures Audited(Apply(db, a))
  {
    var db' := Apply(db, a);
    if db' != db {
      SteadyShape(db, a);
      if db'.history != db.history {
        SteadyRows(db, a);
      }
      SteadyRow(db, db', a.id);
    }
  }

  /** Every transaction's rows account for what it changed, but for an upsert that moves an existing row. */
  lemma StepAudited(db: Db, a: Action)
    requires Inv(db) && Audited(db)
    ensures Audited(Apply(db, a)) <==> UpsertKeepsStatus(db, a)
  {
    if a.DoReap? {
      ReapAudited(db, a.id, a.now);
    } else if a.DoTransition? {
      TransitionAudited(db, a.id, a.to, a.note, a.session, a.release, a.pr, a.now);
    } else if a.DoUpsert? {
      UpsertAuditedIff(db, a.id, a.d, a.now);
    } else {
      SteadyAudited(db, a);
    }
  }

  /** Replaying the audit of any run rebuilds the tables, and every recorded change was legal when it was made. */
  lemma {:induction false} RunAudited(actions: seq<Action>)
    requires AuditedRun(actions)
    ensures Audited(Run(EMPTY, actions))
  {
    if actions == [] {
      assert Recall(EMPTY.tasks) == map[];
    } else {
      var n := |actions| - 1;
      assert forall k :: 0 <= k < n ==> actions[..n][..k] == actions[..k];
      RunAudited(actions[..n]);
      RunKeepsInv(EMPTY, actions[..n]);
      StepAudited(Run(EMPTY, actions[..n]), actions[n]);
    }
  }

  lemma RunStep(actions: seq<Action>, k: nat)
    requires k < |actions|
    ensures Run(EMPTY, actions[..k + 1]) == Apply(Run(EMPTY, actions[..k]), actions[k])
  {
    assert actions[..k + 1][..k] == actions[..k];
  }

  lemma FairPrefix(actions: seq<Action>, k: nat)
    requires FairRun(EMPTY, actions) && k <= |actions|
    ensures FairRun(EMPTY, actions[..k])
  {
    assert forall j :: 0 <= j < k ==> actions[..k][..j] == actions[..j];
  }

  /** The audit explains every state of a run exactly when no upsert of the run moves an existing row. */
  lemma RunAuditedIff(actions: seq<Action>)
    requires FairRun(EMPTY, actions)
    ensures (forall k :: 0 <= k <= |actions| ==> Audited(Run(EMPTY, actions[..k]))) <==> AuditedRun(actions)
  {
    if AuditedRun(actions) {
      forall k | 0 <= k <= |actions| ensures Audited(Run(EMPTY, actions[..k])) {
        AuditedPrefix(actions, k);
        RunAudited(actions[..k]);
      }
    }
    if forall k :: 0 <= k <= |actions| ==> Audited(Run(EMPTY, actions[..k])) {
      forall k | 0 <= k < |actions| ensures UpsertKeepsStatus(Run(EMPTY, actions[..k]), actions[k]) {
        FairPrefix(actions, k);
        RunKeepsInv(EMPTY, actions[..k]);
        RunStep(actions, k);
        StepAudited(Run(EMPTY, actions[..k]), actions[k]);
      }
    }
  }

  // ---- What is recorded ----

  /** The kinds of audit row an action leaves behind when it does anything. */
  function Kinds(a: Action): set<Op> {
    match a
    case DoClaim(_, _, _, _, _) => {Claimed}
    case DoHeartbeat(_, _, _, _) => {Beat}
    case DoRelease(_, _, _) => {Released}
    case DoForceRelease(_, _, _) => {Released}
    case DoBootRelease(_, _) => {Released}
    case DoReap(_, _) => {Reaped, Remediated, Transitioned}
    case DoTransition(_, _, _, _, _, _, _) => {Transitioned}
    case DoUpsert(_, _, _) => {Seeded}
    case DoAnnotate(_, _, _) => {Annotated}
    case DoSetApproval(_, _, _) => {Annotated}
    case DoSetNote(_, _, _) => {}
    case DoSetSprint(_, _, _) => {}
  }

  lemma StepAppends(db: Db, a: Action)
    ensures var db' := Apply(db, a);
      && db.history <= db'.history
      && forall k :: |db.history| <= k < |db'.history| ==>
           db'.history[k].ts == a.now && db'.history[k].task == a.id && db'.history[k].op in Kinds(a)
  {
  }

  /**
   * The audit only grows, by rows of the action's own kind, stamped with its time and its task. Whatever
   * changes a row is recorded, but for the planner's notes and sprints, an update of a declared task, and the
   * reaper's sweep of a lease on work handed off.
   */
  lemma StepRecords(db: Db, a: Action)
    ensures var db' := Apply(db, a);
      && db.history <= db'.history
      && (forall k :: |db.history| <= k < |db'.history| ==>
            db'.history[k].ts == a.now && db'.history[k].task == a.id && db'.history[k].op in Kinds(a))
      && (db' != db && db'.history == db.history ==>
            || a.DoSetNote? || a.DoSetSprint? || (a.DoUpsert? && a.id in db.tasks)
            || (a.DoReap? && a.id in db.tasks && db.tasks[a.id].status in {Done, InReview}))
      && (forall k :: k in db'.tasks && k != a.id ==> k in db.tasks && db'.tasks[k] == db.tasks[k])
      && (db' != db && !a.DoUpsert? ==> a.id in db'.tasks && db'.tasks[a.id].updatedAt == a.now)
  {
    StepAppends(db, a);
  }

  // ---- What reaping does to a task's complexity over its whole life ----

  function Bumps(h: seq<Row>, id: string): nat {
    if h == [] then 0
    else Bumps(h[..|h| - 1], id) + if h[|h| - 1].op == Remediated && h[|h| - 1].task == id then 1 else 0
  }

  lemma {:induction false} BumpsAppend(h: seq<Row>, more: seq<Row>, id: string)
    ensures Bumps(h + more, id) == Bumps(h, id) + Bumps(more, id)
  {
    if more == [] {
      assert h + more == h;
    } else {
      var n := |more| - 1;
      assert (h + more)[..|h| + n] == h + more[..n];
      BumpsAppend(h, more[..n], id);
    }
  }

  /** Bumps happen on the third and fourth reap only, and the count starts over only for a finished task. */
  function Allowance(t: Task): nat {
    if t.status == Done || t.reapCount >= 4 then 2
    else if t.reapCount == 3 then 1 else 0
  }

  ghost predicate Bounded(db: Db) {
    forall id :: Bumps(db.history, id) <= if id in db.tasks then Allowance(db.tasks[id]) else 0
  }

  lemma BumpsOfRows(rows: seq<Row>, id: string)
    requires |rows| <= 2
    ensures |rows| == 0 ==> Bumps(rows, id) == 0
    ensures |rows| == 1 ==> Bumps(rows, id) == if rows[0].op == Remediated && rows[0].task == id then 1 else 0
    ensures |rows| == 2 ==>
            Bumps(rows, id) == Bumps([rows[0]], id) + if rows[1].op == Remediated && rows[1].task == id then 1 else 0
  {
    if |rows| == 2 {
      assert rows[..1] == [rows[0]];
    }
  }

  /** Anything but a reap: no remediation row, and a complexity only an upsert can change. */
  lemma QuietStep(db: Db, a: Action)
    requires !a.DoReap?
    ensures var db' := Apply(db, a);
      && |db.history| <= |db'.history| <= |db.history| + 1
      && db'.history[..|db.history|] == db.history
      && (|db'.history| > |db.history| ==> db'.history[|db.history|].op != Remediated)
      && (forall id | id in db.tasks :: id in db'.tasks)
      && (forall id | id in db.tasks && id != a.id :: db'.tasks[id] == db.tasks[id])
      && (a.id in db.tasks && !a.DoUpsert? ==> db'.tasks[a.id].complexity == db.tasks[a.id].complexity)
  {
  }

  lemma QuietAllowance(db: Db, a: Action)
    requires !a.DoReap? && UpsertKeepsStatus(db, a) && a.id in db.tasks
    ensures Allowance(Apply(db, a).tasks[a.id]) >= Allowance(db.tasks[a.id])
  {
  }

  lemma NoBumps(db: Db, db': Db, id: string)
    requires Bounded(db)
    requires |db.history| <= |db'.history| <= |db.history| + 1 && db'.history[..|db.history|] == db.history
    requires |db'.history| > |db.history| ==> db'.history[|db.history|].op != Remediated
    requires forall k | k in db.tasks :: k in db'.tasks
    requires forall k | k in db.tasks && k != id :: db'.tasks[k] == db.tasks[k]
    requires id in db.tasks ==> Allowance(db'.tasks[id]) >= Allowance(db.tasks[id])
    ensures Bounded(db')
    ensures forall k :: Bumps(db'.history, k) == Bumps(db.history, k)
  {
    var more := db'.history[|db.history|..];
    assert db'.history == db.history + more;
    forall k
      ensures Bumps(db'.history, k) == Bumps(db.history, k)
      ensures Bumps(db'.history, k) <= if k in db'.tasks then Allowance(db'.tasks[k]) else 0
    {
      BumpsAppend(db.history, more, k);
      BumpsOfRows(more, k);
    }
  }

  lemma QuietBounded(db: Db, a: Action)
    requires !a.DoReap? && Bounded(db) && UpsertKeepsStatus(db, a)
    ensures Bounded(Apply(db, a))
    ensures forall id :: Bumps(Apply(db, a).history, id) == Bumps(db.history, id)
  {
    QuietStep(db, a);
    if a.id in db.tasks {
      QuietAllowance(db, a);
    }
    NoBumps(db, Apply(db, a), a.id);
  }

  lemma ReapBumps(t: Task, id: string, now: int)
    requires t.status != Done && t.status != InReview
    ensures forall k :: Bumps(WornRows(t, id, now), k) == if k == id then Worn(t, now).complexity - t.complexity else 0
    ensures Allowance(Worn(t, now)) >= Allowance(t) + Worn(t, now).complexity - t.complexity
    ensures Worn(t, now).complexity == t.complexity || Worn(t, now).complexity <= MAX_COMPLEXITY
  {
    var rows := WornRows(t, id, now);
    forall k ensures Bumps(rows, k) == if k == id then Worn(t, now).complexity - t.complexity else 0 {
      BumpsOfRows(rows, k);
      BumpsOfRows([rows[0]], k);
    }
  }

  lemma ReapBounded(db: Db, id: string, now: int)
    requires Inv(db) && Bounded(db)
    ensures Bounded(ReapOne(db, id, now))
    ensures id in db.tasks ==>
      var t, t' := db.tasks[id], ReapOne(db, id, now).tasks[id];
      && t'.complexity - t.complexity == Bumps(ReapOne(db, id, now).history, id) - Bumps(db.history, id)
      && (t'.complexity != t.complexity ==> t'.complexity <= MAX_COMPLEXITY)
    ensures forall k :: k != id ==> Bumps(ReapOne(db, id, now).history, k) == Bumps(db.history, k)
  {
    if id in db.tasks && Expired(db.tasks[id], now) {
      assert Leased(db, id);
      var t := db.tasks[id];
      var db' := ReapOne(db, id, now);
      ReapBumps(t, id, now);
      forall k
        ensures Bumps(db'.history, k) == Bumps(db.history, k) + Bumps(WornRows(t, id, now), k)
        ensures Bumps(db'.history, k) <= if k in db'.tasks then Allowance(db'.tasks[k]) else 0
      {
        BumpsAppend(db.history, WornRows(t, id, now), k);
        assert Bumps(db.history, k) <= if k in db.tasks then Allowance(db.tasks[k]) else 0;
      }
    }
  }

  lemma ReapAccount(db: Db, reaped: string, now: int, id: string)
    requires Inv(db) && Bounded(db) && id in db.tasks
    ensures id in ReapOne(db, reaped, now).tasks
    ensures var t, t' := db.tasks[id], ReapOne(db, reaped, now).tasks[id];
      && t'.complexity - t.complexity == Bumps(ReapOne(db, reaped, now).history, id) - Bumps(db.history, id)
      && t'.complexity >= t.complexity
      && (t'.complexity != t.complexity ==> t'.complexity <= MAX_COMPLEXITY)
  {
    ReapBounded(db, reaped, now);
  }

  lemma QuietAccount(db: Db, a: Action, id: string)
    requires !a.DoReap? && Bounded(db) && UpsertKeepsStatus(db, a) && id in db.tasks && !(a.DoUpsert? && a.id == id)
    ensures id in Apply(db, a).tasks && Apply(db, a).tasks[id].complexity == db.tasks[id].complexity
    ensures Bumps(Apply(db, a).history, id) == Bumps(db.history, id)
  {
    QuietStep(db, a);
    QuietBounded(db, a);
  }

  /** Per step, complexity and remediation rows move together, and never past the cap. */
  lemma StepAccount(db: Db, a: Action, id: string)
    requires Inv(db) && Bounded(db) && UpsertKeepsStatus(db, a)
    requires id in db.tasks && !(a.DoUpsert? && a.id == id)
    ensures id in Apply(db, a).tasks
    ensures var t, t' := db.tasks[id], Apply(db, a).tasks[id];
      && t'.complexity - t.complexity == Bumps(Apply(db, a).history, id) - Bumps(db.history, id)
      && t'.complexity >= t.complexity
      && (t'.complexity != t.complexity ==> t'.complexity <= MAX_COMPLEXITY)
  {
    if a.DoReap? {
      ReapAccount(db, a.id, a.now, id);
    } else {
      QuietAccount(db, a, id);
    }
  }

  lemma StepBounded(db: Db, a: Action)
    requires Inv(db) && Bounded(db) && UpsertKeepsStatus(db, a)
    ensures Bounded(Apply(db, a))
  {
    if a.DoReap? {
      ReapBounded(db, a.id, a.now);
    } else {
      QuietBounded(db, a);
    }
  }

  /** Between the two points of the run nobody declares the task anew. */
  ghost predicate Leaves(actions: seq<Action>, k: nat, m: nat, id: string) {
    forall j :: k <= j < m && j < |actions| ==> !(actions[j].DoUpsert? && actions[j].id == id)
  }

  lemma {:induction false} RunBounded(actions: seq<Action>)
    requires AuditedRun(actions)
    ensures Bounded(Run(EMPTY, actions))
  {
    if actions != [] {
      var n := |actions| - 1;
      assert forall k :: 0 <= k < n ==> actions[..n][..k] == actions[..k];
      RunBounded(actions[..n]);
      RunKeepsInv(EMPTY, actions[..n]);
      StepBounded(Run(EMPTY, actions[..n]), actions[n]);
    }
  }

  ghost predicate Grown(db: Db, db': Db, id: string)
    requires id in db.tasks
  {
    && id in db'.tasks
    && db'.tasks[id].complexity >= db.tasks[id].complexity
    && db'.tasks[id].complexity - db.tasks[id].complexity == Bumps(db'.history, id) - Bumps(db.history, id)
    && (db'.tasks[id].complexity != db.tasks[id].complexity ==> db'.tasks[id].complexity <= MAX_COMPLEXITY)
  }

  lemma GrownStep(db: Db, mid: Db, a: Action, id: string)
    requires id in db.tasks && Grown(db, mid, id)
    requires Inv(mid) && Bounded(mid) && UpsertKeepsStatus(mid, a) && !(a.DoUpsert? && a.id == id)
    ensures Grown(db, Apply(mid, a), id)
  {
    StepAccount(mid, a, id);
  }

  lemma AuditedPrefix(actions: seq<Action>, k: nat)
    requires AuditedRun(actions) && k <= |actions|
    ensures AuditedRun(actions[..k])
  {
    assert forall j :: 0 <= j < k ==> actions[..k][..j] == actions[..j];
  }

  lemma PrefixFacts(actions: seq<Action>, k: nat)
    requires AuditedRun(actions) && k < |actions|
    ensures Inv(Run(EMPTY, actions[..k])) && Bounded(Run(EMPTY, actions[..k]))
    ensures UpsertKeepsStatus(Run(EMPTY, actions[..k]), actions[k])
  {
    AuditedPrefix(actions, k);
    RunKeepsInv(EMPTY, actions[..k]);
    RunBounded(actions[..k]);
  }

  lemma GrownOver(db: Db, actions: seq<Action>, j: nat, id: string)
    requires AuditedRun(actions) && j < |actions| && !(actions[j].DoUpsert? && actions[j].id == id)
    requires id in db.tasks && Grown(db, Run(EMPTY, actions[..j]), id)
    ensures Grown(db, Run(EMPTY, actions[..j + 1]), id)
  {
    PrefixFacts(actions, j);
    RunStep(actions, j);
    GrownStep(db, Run(EMPTY, actions[..j]), actions[j], id);
  }

  /** The account of `db`, kept by every later state up to the `m`-th. */
  lemma {:induction false} AccountFrom(db: Db, actions: seq<Action>, k: nat, m: nat, id: string)
    requires AuditedRun(actions) && k <= m <= |actions| && Leaves(actions, k, m, id)
    requires id in db.tasks && Grown(db, Run(EMPTY, actions[..k]), id)
    ensures Grown(db, Run(EMPTY, actions[..m]), id)
    decreases m
  {
    if k < m {
      AccountFrom(db, actions, k, m - 1, id);
      GrownOver(db, actions, m - 1, id);
    }
  }

  lemma ComplexityAccount(actions: seq<Action>, k: nat, m: nat, id: string)
    requires AuditedRun(actions) && k <= m <= |actions| && id in Run(EMPTY, actions[..k]).tasks
    requires Leaves(actions, k, m, id)
    ensures Grown(Run(EMPTY, actions[..k]), Run(EMPTY, actions[..m]), id)
  {
    AccountFrom(Run(EMPTY, actions[..k]), actions, k, m, id);
  }

  /**
   * Left to the reaper, a task's declared complexity grows by at most two over its whole life, and
   * never past five: from any point of a run on, until somebody declares the task anew.
   */
  lemma ReapingRaisesComplexityAtMostTwice(actions: seq<Action>, k: nat, m: nat, id: string)
    requires AuditedRun(actions) && k <= m <= |actions| && id in Run(EMPTY, actions[..k]).tasks
    requires Leaves(actions, k, m, id)
    ensures id in Run(EMPTY, actions[..m]).tasks
    ensures var t, t' := Run(EMPTY, actions[..k]).tasks[id], Run(EMPTY, actions[..m]).tasks[id];
      && t.complexity <= t'.complexity <= t.complexity + 2
      && (t'.complexity == t.complexity || t'.complexity <= MAX_COMPLEXITY)
  {
    ComplexityAccount(actions, k, m, id);
    AuditedPrefix(actions, m);
    RunBounded(actions[..m]);
    var db' := Run(EMPTY, actions[..m]);
    assert Bumps(db'.history, id) <= Allowance(db'.tasks[id]) <= 2;
  }
}
