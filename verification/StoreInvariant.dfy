/** Leases and locks agree in every state that any interleaving of transactions can reach. */
module StoreInvariant {
  import opened Common
  import opened Machine
  import opened Store

  predicate Leased(db: Db, id: string) {
    id in db.tasks && db.tasks[id].lease.Some?
  }

  predicate Locks(db: Db, r: string, id: string) {
    r in db.locks && db.locks[r].task == id
  }

  predicate Wants(db: Db, r: string, id: string) {
    Leased(db, id) && r in db.tasks[id].resources
  }

  /** The lock table is exactly the resources of the leased tasks, each lock under its lease's owner. */
  ghost predicate LocksMatchLeases(db: Db) {
    && (forall r, id :: Locks(db, r, id) <==> Wants(db, r, id))
    && (forall r, id :: Locks(db, r, id) && Leased(db, id) ==> db.locks[r].owner == db.tasks[id].lease.value.owner)
  }

  ghost predicate LeasedAreClaimable(db: Db) {
    forall id :: Leased(db, id) ==> db.tasks[id].status in CLAIMABLE
  }

  ghost predicate Inv(db: Db) {
    LocksMatchLeases(db) && LeasedAreClaimable(db)
  }

  /** An upsert may rewrite a row's resources and status unchecked; on a leased row it must leave both alone. */
  ghost predicate UpsertSparesLease(db: Db, id: string, d: Declared, now: int) {
    Leased(db, id) ==>
      var u := Updated(db.tasks[id], d, now);
      Elems(u.resources) == Elems(db.tasks[id].resources) && u.status in CLAIMABLE
  }

  ghost predicate Fair(db: Db, a: Action) {
    a.DoUpsert? ==> UpsertSparesLease(db, a.id, a.d, a.now)
  }

  ghost predicate FairRun(db: Db, actions: seq<Action>) {
    forall k :: 0 <= k < |actions| ==> Fair(Run(db, actions[..k]), actions[k])
  }

  lemma FreeKeepsInv(db: Db, db': Db, id: string)
    requires Inv(db) && id in db.tasks
    requires db'.tasks.Keys == db.tasks.Keys && db'.tasks[id].lease.None?
    requires forall k | k in db.tasks && k != id :: db'.tasks[k] == db.tasks[k]
    requires db'.locks == LocksOfOthers(db.locks, id)
    ensures Inv(db')
  {
    forall r, k ensures Locks(db', r, k) <==> Wants(db', r, k) {
      assert Locks(db, r, k) <==> Wants(db, r, k);
    }
    forall r, k | Locks(db', r, k) && Leased(db', k) ensures db'.locks[r].owner == db'.tasks[k].lease.value.owner {
      assert Locks(db, r, k) && Leased(db, k);
    }
    forall k | Leased(db', k) ensures db'.tasks[k].status in CLAIMABLE {
      assert Leased(db, k);
    }
  }

  /** One row rewritten, locks untouched: same lease owner, same resources, and claimable if leased. */
  lemma RewriteKeepsInv(db: Db, db': Db, id: string)
    requires Inv(db) && id in db'.tasks && db'.tasks.Keys == db.tasks.Keys + {id} && db'.locks == db.locks
    requires forall k | k in db.tasks && k != id :: db'.tasks[k] == db.tasks[k]
    requires Leased(db, id) <==> Leased(db', id)
    requires Leased(db, id) ==>
      && db'.tasks[id].lease.value.owner == db.tasks[id].lease.value.owner
      && Elems(db'.tasks[id].resources) == Elems(db.tasks[id].resources)
      && db'.tasks[id].status in CLAIMABLE
    ensures Inv(db')
  {
    forall r, k ensures Locks(db', r, k) <==> Wants(db', r, k) {
      assert Locks(db, r, k) <==> Wants(db, r, k);
      if Leased(db, id) {
        assert r in Elems(db'.tasks[id].resources) <==> r in Elems(db.tasks[id].resources);
      }
    }
    forall r, k | Locks(db', r, k) && Leased(db', k) ensures db'.locks[r].owner == db'.tasks[k].lease.value.owner {
      assert Locks(db, r, k) && Leased(db, k);
    }
    forall k | Leased(db', k) ensures db'.tasks[k].status in CLAIMABLE {
      assert Leased(db, k);
    }
  }

  lemma ClaimKeepsInv(db: Db, id: string, agent: string, session: string, ttl: int, now: int, claimable: set<Status>)
    requires Inv(db) && claimable <= CLAIMABLE
    ensures Inv(Claim(db, id, agent, session, ttl, now, claimable))
  {
    var db' := Claim(db, id, agent, session, ttl, now, claimable);
    if ClaimVerdict(db, id, agent, session, now, claimable).Won? {
      var t := db.tasks[id];
      forall r ensures !Locks(db, r, id) {
        assert Locks(db, r, id) <==> Wants(db, r, id);
      }
      forall r, k ensures Locks(db', r, k) <==> Wants(db', r, k) {
        assert Locks(db, r, k) <==> Wants(db, r, k);
      }
      forall r, k | Locks(db', r, k) && Leased(db', k) ensures db'.locks[r].owner == db'.tasks[k].lease.value.owner {
        if k != id {
          assert Locks(db, r, k) && Leased(db, k);
        }
      }
      forall k | Leased(db', k) ensures db'.tasks[k].status in CLAIMABLE {
        if k != id {
          assert Leased(db, k);
        }
      }
    }
  }

  lemma TransitionKeepsInv(db: Db, id: string, to: Status, note: Given, session: string, release: bool, pr: Given,
                           now: int)
    requires Inv(db)
    ensures Inv(Transition(db, id, to, note, session, release, pr, now))
  {
    if MoveVerdict(db, id, to, session).Moved? {
      var db' := Transition(db, id, to, note, session, release, pr, now);
      if release || FreesLease(to) {
        FreeKeepsInv(db, db', id);
      } else {
        if Leased(db, id) {
          ClaimableMovesStayOrFree(db.tasks[id].status, to);
        }
        RewriteKeepsInv(db, db', id);
      }
    }
  }

  lemma ReapKeepsInv(db: Db, id: string, now: int)
    requires Inv(db)
    ensures Inv(ReapOne(db, id, now))
  {
    if id in db.tasks && Expired(db.tasks[id], now) {
      FreeKeepsInv(db, ReapOne(db, id, now), id);
    }
  }

  /** Updating an existing row keeps leases and locks in step exactly when it spares a leased row. */
  lemma UpsertKeepsInvIff(db: Db, id: string, d: Declared, now: int)
    requires Inv(db)
    ensures Inv(Upsert(db, id, d, now)) <==> UpsertSparesLease(db, id, d, now)
  {
    var db' := Upsert(db, id, d, now);
    if UpsertSparesLease(db, id, d, now) {
      RewriteKeepsInv(db, db', id);
    } else {
      assert Leased(db', id);
      if db'.tasks[id].status in CLAIMABLE {
        var r :| (r in db'.tasks[id].resources) != (r in db.tasks[id].resources);
        assert Locks(db, r, id) <==> Wants(db, r, id);
        assert Locks(db', r, id) != Wants(db', r, id);
      }
    }
  }

  lemma HeartbeatKeepsInv(db: Db, id: string, session: string, ttl: int, now: int)
    requires Inv(db)
    ensures Inv(Heartbeat(db, id, session, ttl, now))
  {
    if MayBeat(db, id, session, now) {
      assert Leased(db, id);
      RewriteKeepsInv(db, Heartbeat(db, id, session, ttl, now), id);
    }
  }

  lemma FreeingKeepsInv(db: Db, id: string, now: int)
    requires Inv(db) && id in db.tasks
    ensures Inv(FreeAndRecord(db, id, now))
  {
    FreeKeepsInv(db, FreeAndRecord(db, id, now), id);
  }

  lemma TouchKeepsInv(db: Db, id: string, note: Option<string>, sprint: Option<string>, approvedAt: Option<int>,
                      logged: bool, now: int)
    requires Inv(db) && id in db.tasks
    ensures Inv(Touch(db, id, note, sprint, approvedAt, logged, now))
  {
    assert Leased(db, id) ==> db.tasks[id].status in CLAIMABLE;
    RewriteKeepsInv(db, Touch(db, id, note, sprint, approvedAt, logged, now), id);
  }

  lemma NoteKeepsInv(db: Db, id: string, note: string, now: int)
    requires Inv(db)
    ensures Inv(SetNote(db, id, note, now)) && Inv(Annotate(db, id, note, now))
  {
    if id in db.tasks {
      TouchKeepsInv(db, id, Some(note), db.tasks[id].sprint, db.tasks[id].approvedAt, false, now);
      TouchKeepsInv(db, id, Some(note), db.tasks[id].sprint, db.tasks[id].approvedAt, true, now);
    }
  }

  lemma SprintKeepsInv(db: Db, id: string, sprint: string, now: int)
    requires Inv(db)
    ensures Inv(SetSprint(db, id, sprint, now))
  {
    if id in db.tasks {
      TouchKeepsInv(db, id, db.tasks[id].note, Some(sprint), db.tasks[id].approvedAt, false, now);
    }
  }

  lemma ApprovalKeepsInv(db: Db, id: string, approvedAt: Option<int>, now: int)
    requires Inv(db)
    ensures Inv(SetApproval(db, id, approvedAt, now))
  {
    if id in db.tasks {
      TouchKeepsInv(db, id, db.tasks[id].note, db.tasks[id].sprint, approvedAt, true, now);
    }
  }

  lemma StepKeepsInv(db: Db, a: Action)
    requires Inv(db) && Fair(db, a)
    ensures Inv(Apply(db, a))
  {
    match a
    case DoClaim(id, agent, session, ttl, now) => ClaimKeepsInv(db, id, agent, session, ttl, now, CLAIMABLE);
    case DoHeartbeat(id, session, ttl, now) => HeartbeatKeepsInv(db, id, session, ttl, now);
    case DoRelease(id, session, now) => if Holds(db, id, session) { FreeingKeepsInv(db, id, now); }
    case DoForceRelease(id, agent, now) => if OwnedBy(db, id, agent) { FreeingKeepsInv(db, id, now); }
    case DoBootRelease(id, now) => if Leased(db, id) { FreeingKeepsInv(db, id, now); }
    case DoReap(id, now) => ReapKeepsInv(db, id, now);
    case DoTransition(id, to, note, session, release, pr, now) =>
      TransitionKeepsInv(db, id, to, note, session, release, pr, now);
    case DoUpsert(id, d, now) => UpsertKeepsInvIff(db, id, d, now);
    case DoAnnotate(id, note, now) => NoteKeepsInv(db, id, note, now);
    case DoSetNote(id, note, now) => NoteKeepsInv(db, id, note, now);
    case DoSetSprint(id, sprint, now) => SprintKeepsInv(db, id, sprint, now);
    case DoSetApproval(id, approvedAt, now) => ApprovalKeepsInv(db, id, approvedAt, now);
  }

  /** Safety of every run from the empty database. */
  lemma {:induction false} RunKeepsInv(db: Db, actions: seq<Action>)
    requires Inv(db) && FairRun(db, actions)
    ensures Inv(Run(db, actions))
  {
    if actions != [] {
      var n := |actions| - 1;
      assert forall k :: 0 <= k < n ==> actions[..n][..k] == actions[..k];
      RunKeepsInv(db, actions[..n]);
      StepKeepsInv(Run(db, actions[..n]), actions[n]);
    }
  }

  /** No reachable state has two leased tasks that share a resource. */
  lemma MutualExclusion(actions: seq<Action>, a: string, b: string, r: string)
    requires FairRun(EMPTY, actions)
    ensures var db := Run(EMPTY, actions); Wants(db, r, a) && Wants(db, r, b) ==> a == b
  {
    RunKeepsInv(EMPTY, actions);
    var db := Run(EMPTY, actions);
    assert Locks(db, r, a) <==> Wants(db, r, a);
    assert Locks(db, r, b) <==> Wants(db, r, b);
  }

  lemma ReapCounts(db: Db, id: string, now: int)
    requires LeasedAreClaimable(db) && id in db.tasks && Expired(db.tasks[id], now)
    ensures db.tasks[id].status != Done && db.tasks[id].status != InReview
    ensures ReapOne(db, id, now).tasks[id].reapCount == db.tasks[id].reapCount + 1
    ensures |ReapOne(db, id, now).history| > |db.history|
  {
    assert Leased(db, id);
  }

  /**
   * The reaper's silent branch for done and in-review tasks is dead code: every reap in a run is
   * counted and recorded.
   */
  lemma ReaperNeverFreesSilently(actions: seq<Action>, id: string, now: int)
    requires FairRun(EMPTY, actions)
    ensures var db := Run(EMPTY, actions);
      id in db.tasks && Expired(db.tasks[id], now) ==>
        && ReapOne(db, id, now).tasks[id].reapCount == db.tasks[id].reapCount + 1
        && |ReapOne(db, id, now).history| > |db.history|
  {
    RunKeepsInv(EMPTY, actions);
    var db := Run(EMPTY, actions);
    if id in db.tasks && Expired(db.tasks[id], now) {
      ReapCounts(db, id, now);
    }
  }

  // ---- What a claim really needs ----

  lemma {:induction false} ForeignNone(locks: map<string, Lock>, resources: seq<string>, id: string)
    ensures FirstForeign(locks, resources, id).None? <==> forall r | r in resources :: !HeldByOther(locks, r, id)
    ensures var f := FirstForeign(locks, resources, id);
      f.Some? ==> f.value in resources && HeldByOther(locks, f.value, id)
  {
    if resources != [] {
      ForeignNone(locks, resources[1..], id);
      assert resources == [resources[0]] + resources[1..];
    }
  }

  /** In a consistent store a claim is won exactly when nothing live, locked or repeated is in the way. */
  lemma ClaimWonIff(db: Db, id: string, agent: string, session: string, now: int, claimable: set<Status>)
    requires Inv(db) && id in db.tasks && id != "" && agent != "" && session != ""
    ensures var t := db.tasks[id];
      ClaimVerdict(db, id, agent, session, now, claimable).Won? <==>
        && !LeasedAgainst(t, session, now)
        && t.status in claimable
        && (t.lease.Some? ==> t.resources == [])
        && NoDup(t.resources)
        && forall r, k :: r in t.resources && k != id ==> !Wants(db, r, k)
  {
    var t := db.tasks[id];
    ForeignNone(db.locks, t.resources, id);
    forall r | r in t.resources
      ensures HeldByOther(db.locks, r, id) ==> Wants(db, r, db.locks[r].task)
      ensures Locks(db, r, id) <==> t.lease.Some?
    {
      assert Locks(db, r, id) <==> Wants(db, r, id);
      if r in db.locks {
        assert Locks(db, r, db.locks[r].task) <==> Wants(db, r, db.locks[r].task);
      }
    }
    forall r, k | r in t.resources && k != id && Wants(db, r, k) ensures HeldByOther(db.locks, r, id) {
      assert Locks(db, r, k) <==> Wants(db, r, k);
    }
    if t.lease.Some? && t.resources != [] {
      assert t.resources[0] in t.resources;
    }
  }

  /** Taking over an expired but unreaped lease, or re-claiming one's own, throws when there are resources to lock. */
  lemma ReclaimRollsBack(db: Db, id: string, agent: string, session: string, ttl: int, now: int)
    requires Inv(db) && Leased(db, id) && id != "" && agent != "" && session != ""
    requires Expired(db.tasks[id], now) || db.tasks[id].lease.value.session == session
    ensures ClaimVerdict(db, id, agent, session, now, CLAIMABLE) ==
            if db.tasks[id].resources == [] then Won else RolledBack
    ensures db.tasks[id].resources != [] ==> Claim(db, id, agent, session, ttl, now, CLAIMABLE) == db
  {
    var t := db.tasks[id];
    ForeignNone(db.locks, t.resources, id);
    forall r | r in t.resources ensures Locks(db, r, id) {
      assert Locks(db, r, id) <==> Wants(db, r, id);
    }
    if t.resources != [] {
      assert t.resources[0] in t.resources;
    }
  }
}
