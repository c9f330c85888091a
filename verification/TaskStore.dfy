/** The state API itself: tables updated in place, one transaction per method. */
module TaskStore {
  import opened Common
  import opened Machine
  import opened Store
  import opened Listing
  import opened Risk
  import opened Router

  lemma ReapShrinks(db: Db, id: string, now: int)
    requires id in db.tasks
    ensures ExpiredIds(ReapOne(db, id, now).tasks, now) == ExpiredIds(db.tasks, now) - {id}
  {
    var db' := ReapOne(db, id, now);
    assert db'.tasks == db.tasks[id := db'.tasks[id]];
    assert !Expired(db'.tasks[id], now);
  }

  function LeasedIds(tasks: map<string, Task>): set<string> {
    set id | id in tasks && tasks[id].lease.Some?
  }

  lemma BootShrinks(db: Db, id: string, now: int)
    requires id in db.tasks
    ensures LeasedIds(BootRelease(db, id, now).tasks) == LeasedIds(db.tasks) - {id}
  {
  }

  lemma BootSnoc(db: Db, ids: seq<string>, id: string, now: int)
    ensures BootReleaseAll(db, ids + [id], now) == BootRelease(BootReleaseAll(db, ids, now), id, now)
  {
    assert (ids + [id])[..|ids|] == ids;
  }

  lemma ReapSnoc(db: Db, ids: seq<string>, id: string, now: int)
    ensures ReapAll(db, ids + [id], now) == ReapOne(ReapAll(db, ids, now), id, now)
  {
    assert (ids + [id])[..|ids|] == ids;
  }

  /** A sweep has visited `done`, each once, and still has `left` of `all` to go. */
  ghost predicate Covers(done: seq<string>, left: set<string>, all: set<string>) {
    NoDup(done) && Elems(done) !! left && Elems(done) + left == all
  }

  lemma CoverNext(done: seq<string>, left: set<string>, all: set<string>, x: string)
    requires Covers(done, left, all) && x in left
    ensures Covers(done + [x], left - {x}, all)
  {
    ElemsSnoc(done, x);
  }

  function WithGiven(tasks: map<string, Task>, id: string, given: Task): map<string, Task> {
    if id in tasks then tasks else tasks[id := given]
  }

  class TaskStore {
    var tasks: map<string, Task>
    var locks: map<string, Lock>
    var history: seq<Row>

    ghost function State(): Db
      reads this
    {
      Db(tasks, locks, history)
    }

    constructor ()
      ensures State() == EMPTY
    {
      tasks, locks, history := map[], map[], [];
    }

    method Audit(row: Row)
      modifies this`history
      ensures history == old(history) + [row]
    {
      history := history + [row];
    }

    /** Takes the lease and every resource lock, or rolls back. */
    method ClaimTask(id: string, agent: string, session: string, ttl: int, now: int, claimable: set<Status>)
      returns (r: ClaimResult)
      modifies this
      ensures r == ClaimVerdict(old(State()), id, agent, session, now, claimable)
      ensures State() == Claim(old(State()), id, agent, session, ttl, now, claimable)
    {
      if id == "" || agent == "" || session == "" {
        return BadArguments;
      }
      if id !in tasks {
        return NoSuchTask;
      }
      var t := tasks[id];
      if LeasedAgainst(t, session, now) {
        return LeasedBy(t.lease.value.owner);
      }
      if t.status !in claimable {
        return NotClaimable;
      }
      var foreign := FindForeign(t.resources, id);
      if foreign.Some? {
        return foreign.value;
      }
      var tasks0, locks0 := tasks, locks;
      tasks := tasks[id := t.(lease := Some(Lease(agent, session, now, now + ttl)), updatedAt := now)];
      var conflict := InsertLocks(t.resources, id, agent, now);
      if conflict {
        tasks, locks := tasks0, locks0;
        return RolledBack;
      }
      Audit(Same(now, id, t.status, Claimed));
      r := Won;
    }

    /** The check loop: the first resource that another task locks. */
    method FindForeign(resources: seq<string>, id: string) returns (r: Option<ClaimResult>)
      ensures var f := FirstForeign(locks, resources, id);
        && (r.Some? <==> f.Some?)
        && (f.Some? ==> f.value in locks && r.value == ResourceLocked(f.value, locks[f.value].task))
      ensures r.None? ==> forall x | x in resources :: !HeldByOther(locks, x, id)
    {
      for i := 0 to |resources|
        invariant FirstForeign(locks, resources, id) == FirstForeign(locks, resources[i..], id)
        invariant forall k :: 0 <= k < i ==> !HeldByOther(locks, resources[k], id)
      {
        assert resources[i..][1..] == resources[i + 1..];
        if HeldByOther(locks, resources[i], id) {
          return Some(ResourceLocked(resources[i], locks[resources[i]].task));
        }
      }
      r := None;
    }

    /** The INSERT loop: stops at the first row that already exists, which aborts the transaction. */
    method InsertLocks(resources: seq<string>, id: string, agent: string, now: int) returns (conflict: bool)
      modifies this`locks
      ensures conflict <==> !Insertable(old(locks), resources)
      ensures !conflict ==> locks == old(locks) + LocksFor(resources, id, agent, now)
    {
      assert old(locks) + LocksFor(resources[..0], id, agent, now) == old(locks);
      for i := 0 to |resources|
        invariant Insertable(old(locks), resources[..i])
        invariant locks == old(locks) + LocksFor(resources[..i], id, agent, now)
      {
        var r := resources[i];
        assert resources[..i + 1] == resources[..i] + [r];
        if r in locks {
          if r in resources[..i] {
            var k :| 0 <= k < i && resources[k] == r;
            assert !NoDup(resources);
          }
          return true;
        }
        locks := locks[r := Lock(id, agent, now)];
        assert locks == old(locks) + LocksFor(resources[..i + 1], id, agent, now);
      }
      assert resources[..|resources|] == resources;
      conflict := false;
    }

    method Heartbeat(id: string, session: string, ttl: int, now: int) returns (ok: bool)
      modifies this
      ensures ok == MayBeat(old(State()), id, session, now)
      ensures State() == Store.Heartbeat(old(State()), id, session, ttl, now)
    {
      ok := id in tasks && LiveLease(tasks[id], now) && tasks[id].lease.value.session == session;
      if ok {
        var t := tasks[id];
        tasks := tasks[id := t.(lease := Some(t.lease.value.(expires := now + ttl)), updatedAt := now)];
        Audit(Row(now, id, None, None, Beat));
      }
    }

    method Free(id: string, now: int)
      requires id in tasks
      modifies this`tasks, this`locks
      ensures State() == Store.FreeLease(old(State()), id, now)
    {
      tasks := tasks[id := tasks[id].(lease := None, updatedAt := now)];
      locks := map r | r in locks && locks[r].task != id :: locks[r];
    }

    method ReleaseLease(id: string, session: string, now: int) returns (ok: bool)
      modifies this
      ensures ok == Holds(old(State()), id, session)
      ensures State() == Release(old(State()), id, session, now)
    {
      if id !in tasks || tasks[id].lease.None? || tasks[id].lease.value.session != session {
        return false;
      }
      var s := tasks[id].status;
      Free(id, now);
      Audit(Same(now, id, s, Released));
      ok := true;
    }

    method ForceReleaseLease(id: string, agent: string, now: int) returns (ok: bool)
      modifies this
      ensures ok == OwnedBy(old(State()), id, agent)
      ensures State() == ForceRelease(old(State()), id, agent, now)
    {
      if id !in tasks || tasks[id].lease.None?
         || tasks[id].lease.value.owner == "" || tasks[id].lease.value.owner != agent {
        return false;
      }
      var s := tasks[id].status;
      Free(id, now);
      Audit(Same(now, id, s, Released));
      ok := true;
    }

    method BootReleaseLease(id: string, now: int)
      modifies this
      ensures State() == BootRelease(old(State()), id, now)
    {
      if id !in tasks || tasks[id].lease.None? {
        return;
      }
      var s := tasks[id].status;
      Free(id, now);
      Audit(Same(now, id, s, Released));
    }

    /** Frees every lease at daemon boot; the order the query lists them in is the database's business. */
    method ReleaseAllLeases(now: int) returns (freed: seq<string>)
      modifies this
      ensures Covers(freed, {}, LeasedIds(old(tasks)))
      ensures State() == BootReleaseAll(old(State()), freed, now)
      ensures LeasedIds(tasks) == {}
    {
      var live := LeasedIds(tasks);
      freed := [];
      while live != {}
        invariant live == LeasedIds(tasks)
        invariant Covers(freed, live, LeasedIds(old(tasks)))
        invariant State() == BootReleaseAll(old(State()), freed, now)
        decreases |live|
      {
        var id :| id in live;
        BootShrinks(State(), id, now);
        BootSnoc(old(State()), freed, id, now);
        CoverNext(freed, live, LeasedIds(old(tasks)), id);
        BootReleaseLease(id, now);
        freed := freed + [id];
        live := live - {id};
      }
    }

    /** Frees every expired lease, wears the task, and blocks or remediates the ones that keep stalling. */
    method ReapExpiredLeases(now: int) returns (reaped: seq<string>)
      modifies this
      ensures Covers(reaped, {}, ExpiredIds(old(tasks), now))
      ensures State() == ReapAll(old(State()), reaped, now)
      ensures ExpiredIds(tasks, now) == {}
    {
      var expired := ExpiredIds(tasks, now);
      reaped := [];
      while expired != {}
        invariant expired == ExpiredIds(tasks, now)
        invariant Covers(reaped, expired, ExpiredIds(old(tasks), now))
        invariant State() == ReapAll(old(State()), reaped, now)
        decreases |expired|
      {
        var id :| id in expired;
        ReapShrinks(State(), id, now);
        ReapSnoc(old(State()), reaped, id, now);
        CoverNext(reaped, expired, ExpiredIds(old(tasks), now), id);
        ReapLease(id, now);
        reaped := reaped + [id];
        expired := expired - {id};
      }
    }

    method ReapLease(id: string, now: int)
      modifies this
      ensures State() == ReapOne(old(State()), id, now)
    {
      if id !in tasks || !Expired(tasks[id], now) {
        return;
      }
      var t := tasks[id];
      Free(id, now);
      if t.status != Done && t.status != InReview {
        Wear(id, t, now);
      }
    }

    /** Counts the reap of a row just freed; the fifth one blocks it, and from the third on it becomes more complex. */
    method Wear(id: string, t: Task, now: int)
      requires id in tasks && tasks[id] == t.(lease := None, updatedAt := now)
      modifies this`tasks, this`history
      ensures tasks == old(tasks)[id := Worn(t, now)]
      ensures history == old(history) + WornRows(t, id, now)
    {
      var n := t.reapCount + 1;
      tasks := tasks[id := tasks[id].(reapCount := n)];
      Audit(Same(now, id, t.status, Reaped));
      if n >= REAP_BLOCK {
        tasks := tasks[id := tasks[id].(status := Blocked, note := Some("auto-blocked after " + Digits(n) + " reaps"))];
        Audit(Row(now, id, Some(t.status), Some(Blocked), Transitioned));
      } else if n >= REAP_REMEDIATE && t.complexity < MAX_COMPLEXITY {
        tasks := tasks[id := tasks[id].(complexity := t.complexity + 1)];
        Audit(Same(now, id, t.status, Remediated));
      }
    }

    method TransitionTask(id: string, to: Status, note: Given, session: string, release: bool, pr: Given, now: int)
      returns (r: MoveResult)
      modifies this
      ensures r == MoveVerdict(old(State()), id, to, session)
      ensures State() == Store.Transition(old(State()), id, to, note, session, release, pr, now)
    {
      if id !in tasks {
        return NoTask;
      }
      var t := tasks[id];
      if !IsLegal(t.status, to) {
        return Illegal;
      }
      if session != "" && (t.lease.None? || t.lease.value.session != session) {
        return NotHolder;
      }
      CommitMove(id, to, note, release || FreesLease(to), pr, now);
      r := Moved;
    }

    method CommitMove(id: string, to: Status, note: Given, free: bool, pr: Given, now: int)
      requires id in tasks
      modifies this
      ensures State() == Store.Move(old(State()), id, to, note, free, pr, now)
    {
      var from := tasks[id].status;
      MoveRow(id, to, note, pr, now);
      if free {
        Free(id, now);
      }
      Audit(Row(now, id, Some(from), Some(to), Transitioned));
    }

    method MoveRow(id: string, to: Status, note: Given, pr: Given, now: int)
      requires id in tasks
      modifies this`tasks
      ensures tasks == old(tasks)[id := MovedTask(old(tasks)[id], to, note, false, pr, now)]
    {
      var t := tasks[id].(status := to, updatedAt := now);
      if note.Some? {
        t := t.(note := note.value);
      }
      if pr.Some? {
        t := t.(pr := pr.value);
      }
      if to == Done {
        t := t.(reapCount := 0);
      }
      tasks := tasks[id := t];
    }

    method UpsertTask(id: string, d: Declared, now: int)
      modifies this
      ensures State() == Store.Upsert(old(State()), id, d, now)
    {
      if id in tasks {
        tasks := tasks[id := Updated(tasks[id], d, now)];
      } else {
        var t := Inserted(d, now);
        tasks := tasks[id := t];
        Audit(Row(now, id, None, Some(t.status), Seeded));
      }
    }

    method SetTaskNote(id: string, note: string, now: int)
      modifies this
      ensures State() == Store.SetNote(old(State()), id, note, now)
    {
      if id in tasks {
        tasks := tasks[id := tasks[id].(note := Some(note), updatedAt := now)];
      }
    }

    method SetTaskSprint(id: string, sprint: string, now: int)
      modifies this
      ensures State() == Store.SetSprint(old(State()), id, sprint, now)
    {
      if id in tasks {
        tasks := tasks[id := tasks[id].(sprint := Some(sprint), updatedAt := now)];
      }
    }

    /** The first row of the ordered query whose dependencies are done and that passes the filter. */
    method NextEligibleTask(now: int, claimable: set<Status>, filter: Filter) returns (r: Option<string>)
      ensures r == NextEligible(tasks, now, claimable, filter)
      ensures r.None? <==> forall k :: !Eligible(tasks, k, now, claimable, filter)
      ensures r.Some? ==> Eligible(tasks, r.value, now, claimable, filter)
      ensures r.Some? ==> forall k :: Eligible(tasks, k, now, claimable, filter) ==>
              k == r.value || Before(tasks, r.value, k)
    {
      NextIsLeast(tasks, now, claimable, filter);
      var rows := Rows(tasks, Candidates(tasks, now, claimable));
      RowsElems(tasks, Candidates(tasks, now, claimable));
      for i := 0 to |rows|
        invariant FirstPassing(tasks, rows, filter) == FirstPassing(tasks, rows[i..], filter)
      {
        assert rows[i..][1..] == rows[i + 1..];
        assert rows[i] in Elems(rows);
        if DepsMet(tasks, tasks[rows[i]].dependsOn) && filter(rows[i], tasks[rows[i]]) {
          return Some(rows[i]);
        }
      }
      r := None;
    }

    /** Walks up the parents, remembering what it has seen; a task that is not in the table stands in for its row. */
    method TaskWithAncestors(id: string, given: Task) returns (chain: seq<string>)
      ensures chain == Chain(WithGiven(tasks, id, given), Some(id), {})
      ensures forall x :: x in chain <==> Reaches(WithGiven(tasks, id, given), id, x)
    {
      ghost var all := WithGiven(tasks, id, given);
      chain := [];
      var seen: set<string> := {};
      var cur := Some((id, if id in tasks then tasks[id] else given));
      while cur.Some? && cur.value.0 !in seen
        invariant cur.Some? ==> cur.value.0 in all && cur.value.1 == all[cur.value.0]
        invariant chain + Chain(all, if cur.Some? then Some(cur.value.0) else None, seen) == Chain(all, Some(id), {})
        invariant cur == Some((id, all[id])) || id in seen
        decreases all.Keys - seen
      {
        var (x, row) := cur.value;
        ghost var rest := Chain(all, ParentRow(all, x), seen + {x});
        assert chain + ([x] + rest) == (chain + [x]) + rest;
        seen := seen + {x};
        chain := chain + [x];
        var p := row.parent;
        cur := if p.Some? && p.value != "" && p.value in tasks then Some((p.value, tasks[p.value])) else None;
      }
      forall x ensures x in chain <==> Reaches(all, id, x) {
        ChainIsReach(all, id, x);
      }
    }
  }
}
