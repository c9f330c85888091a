/** How long a lease lives, who can end it, and what stalling does to a task. */
module LeaseLife {
  import opened Common
  import opened Machine
  import opened Store
  import opened StoreInvariant
  import opened Router

  /**
   * An action that is not the holder's own and not an override: whatever another session tries before the
   * lease runs out, and whatever happens to other tasks.
   */
  predicate Spares(a: Action, id: string, l: Lease) {
    a.id != id ||
    match a
    case DoClaim(_, _, session, _, now) => session != l.session && now < l.expires
    case DoHeartbeat(_, session, _, now) => session != l.session || l.expires <= now
    case DoRelease(_, session, _) => session != l.session
    case DoForceRelease(_, agent, _) => agent != l.owner || agent == ""
    case DoBootRelease(_, _) => false
    case DoReap(_, now) => now < l.expires
    case DoTransition(_, to, _, session, release, _, _) =>
      (session != "" && session != l.session) || (!release && to !in {InReview, Done, Blocked})
    case _ => true
  }

  /** The lease that is left after an action that does not spare it. */
  function Left(t: Task, a: Action): Option<Lease>
    requires t.lease.Some?
  {
    match a
    case DoClaim(id, agent, session, ttl, now) =>
      if id != "" && agent != "" && session != "" && t.resources == []
      then Some(Lease(agent, session, now, now + ttl)) else t.lease
    case DoHeartbeat(_, _, ttl, now) => Some(t.lease.value.(expires := now + ttl))
    case DoTransition(_, to, _, _, _, _, _) => if IsLegal(t.status, to) then None else t.lease
    case _ => None
  }

  /** What every action makes of the lease of a task. */
  lemma LeaseAfter(db: Db, a: Action, id: string)
    requires Inv(db) && Leased(db, id)
    ensures var l := db.tasks[id].lease.value;
      && id in Apply(db, a).tasks
      && Apply(db, a).tasks[id].lease == if Spares(a, id, l) then Some(l) else Left(db.tasks[id], a)
  {
    if a.DoClaim? && a.id == id && !Spares(a, id, db.tasks[id].lease.value) {
      if id != "" && a.agent != "" && a.session != "" {
        ReclaimRollsBack(db, id, a.agent, a.session, a.ttl, a.now);
      }
    }
  }

  ghost predicate Spared(actions: seq<Action>, id: string, l: Lease) {
    forall k :: 0 <= k < |actions| ==> Spares(actions[k], id, l)
  }

  /** Through any run of such actions the lease stands as it was. */
  lemma {:induction false} LeaseStands(db: Db, actions: seq<Action>, id: string)
    requires Inv(db) && FairRun(db, actions) && Leased(db, id) && Spared(actions, id, db.tasks[id].lease.value)
    ensures id in Run(db, actions).tasks && Run(db, actions).tasks[id].lease == db.tasks[id].lease
  {
    if actions != [] {
      var n := |actions| - 1;
      assert forall k :: 0 <= k < n ==> actions[..n][..k] == actions[..k];
      LeaseStands(db, actions[..n], id);
      RunKeepsInv(db, actions[..n]);
      LeaseAfter(Run(db, actions[..n]), actions[n], id);
    }
  }

  /** Nobody else gets a task while its lease lives, and from its expiry on the watchdog takes it back. */
  ghost predicate Exclusive(db: Db, id: string, agent: string, session: string, expires: int) {
    && (forall later, b, s :: later < expires && b != "" && s != "" && s != session ==>
          ClaimVerdict(db, id, b, s, later, CLAIMABLE) == LeasedBy(agent))
    && (forall later :: id in ExpiredIds(db.tasks, later) <==> expires <= later)
  }

  lemma StandingIsExclusive(db: Db, id: string, l: Lease)
    requires id in db.tasks && id != "" && db.tasks[id].lease == Some(l)
    ensures Exclusive(db, id, l.owner, l.session, l.expires)
  {
  }

  /**
   * A claim that is won keeps everybody else out for its whole term and not a moment longer, through any
   * run in which neither the holder gives the lease up or renews it nor anybody overrides it.
   */
  lemma ClaimKeepsOthersOut(db: Db, id: string, agent: string, session: string, ttl: int, now: int,
                            actions: seq<Action>)
    requires Inv(db) && ClaimVerdict(db, id, agent, session, now, CLAIMABLE).Won?
    requires var db' := Claim(db, id, agent, session, ttl, now, CLAIMABLE);
      FairRun(db', actions) && Spared(actions, id, Lease(agent, session, now, now + ttl))
    ensures Exclusive(Run(Claim(db, id, agent, session, ttl, now, CLAIMABLE), actions),
                      id, agent, session, now + ttl)
  {
    var db' := Claim(db, id, agent, session, ttl, now, CLAIMABLE);
    ClaimKeepsInv(db, id, agent, session, ttl, now, CLAIMABLE);
    LeaseStands(db', actions, id);
    StandingIsExclusive(Run(db', actions), id, Lease(agent, session, now, now + ttl));
  }

  lemma BeatExtends(db: Db, id: string, session: string, ttl: int, now: int)
    requires Leased(db, id) && db.tasks[id].lease.value.session == session && now < db.tasks[id].lease.value.expires
    ensures var db' := Heartbeat(db, id, session, ttl, now);
      Leased(db', id) && db'.tasks[id].lease.value == db.tasks[id].lease.value.(expires := now + ttl)
  {
  }

  /** A heartbeat of the holder in time starts the term anew; any other heartbeat changes nothing. */
  lemma BeatRenews(db: Db, id: string, session: string, ttl: int, now: int, actions: seq<Action>)
    requires Inv(db) && Leased(db, id) && id != ""
    requires var db', l := Heartbeat(db, id, session, ttl, now), db.tasks[id].lease.value;
      FairRun(db', actions) && Spared(actions, id, l.(expires := now + ttl))
    ensures var db', l := Heartbeat(db, id, session, ttl, now), db.tasks[id].lease.value;
      if l.session == session && now < l.expires
      then Exclusive(Run(db', actions), id, l.owner, session, now + ttl) else db' == db
  {
    var db', l := Heartbeat(db, id, session, ttl, now), db.tasks[id].lease.value;
    if l.session == session && now < l.expires {
      HeartbeatKeepsInv(db, id, session, ttl, now);
      BeatExtends(db, id, session, ttl, now);
      LeaseStands(db', actions, id);
      StandingIsExclusive(Run(db', actions), id, l.(expires := now + ttl));
    }
  }

  /** Task `id` is free, nothing it locked is locked, and every other task and lock is as it was. */
  ghost predicate Freed(db: Db, db': Db, id: string) {
    && id in db'.tasks && db'.tasks[id].lease.None?
    && (forall k :: k in db'.tasks <==> k in db.tasks)
    && (forall k :: k in db.tasks && k != id ==> db'.tasks[k] == db.tasks[k])
    && (forall r, k :: Locks(db', r, k) <==> k != id && Locks(db, r, k))
    && (forall r :: r in db'.locks ==> r in db.locks && db'.locks[r] == db.locks[r])
  }

  /** Whoever holds a lease can give it up, and nobody else can; then anybody can have the task at once. */
  lemma ReleaseFrees(db: Db, id: string, session: string, now: int, b: string, s: string)
    requires Inv(db) && Leased(db, id) && id != "" && b != "" && s != "" && NoDup(db.tasks[id].resources)
    ensures var db' := Release(db, id, session, now);
      if db.tasks[id].lease.value.session == session
      then Freed(db, db', id) && db'.tasks[id].status == db.tasks[id].status
           && ClaimVerdict(db', id, b, s, now, CLAIMABLE).Won?
      else db' == db
  {
    if db.tasks[id].lease.value.session == session {
      FreeingKeepsInv(db, id, now);
      var db' := Release(db, id, session, now);
      forall r, k | r in db'.tasks[id].resources && k != id ensures !Wants(db', r, k) {
        assert Locks(db, r, id) <==> Wants(db, r, id);
        assert Locks(db, r, k) <==> Wants(db, r, k);
      }
      ClaimWonIff(db', id, b, s, now, CLAIMABLE);
    }
  }

  /** The owning agent, under whatever session, can free it too; boot recovery frees it for anybody. */
  lemma OverridesFree(db: Db, id: string, agent: string, now: int)
    requires Inv(db) && Leased(db, id) && agent != ""
    ensures Freed(db, BootRelease(db, id, now), id)
    ensures var db' := ForceRelease(db, id, agent, now);
      if db.tasks[id].lease.value.owner == agent then Freed(db, db', id) else db' == db
  {
  }

  /** Only the holder may move a task under its session's name. */
  lemma StrangersCannotMove(db: Db, id: string, to: Status, note: Given, session: string, release: bool, pr: Given,
                            now: int)
    requires session != "" && id in db.tasks
    requires db.tasks[id].lease.None? || db.tasks[id].lease.value.session != session
    ensures Transition(db, id, to, note, session, release, pr, now) == db
    ensures MoveVerdict(db, id, to, session) == if IsLegal(db.tasks[id].status, to) then NotHolder else Illegal
  {
  }

  /**
   * A legal move by the holder, or by nobody in particular, arrives, writes exactly the note and the link it
   * is given, forgives past stalls on done, and ends the lease if it hands the work off or is told to.
   */
  lemma MoveWrites(db: Db, id: string, to: Status, note: Given, session: string, release: bool, pr: Given, now: int)
    requires Inv(db) && id in db.tasks && IsLegal(db.tasks[id].status, to)
    requires session == "" || (Leased(db, id) && db.tasks[id].lease.value.session == session)
    ensures var db', t := Transition(db, id, to, note, session, release, pr, now), db.tasks[id];
      && MoveVerdict(db, id, to, session) == Moved && id in db'.tasks
      && (var t' := db'.tasks[id];
          && t'.status == to
          && (note.Some? ==> t'.note == note.value) && (note.None? ==> t'.note == t.note)
          && (pr.Some? ==> t'.pr == pr.value) && (pr.None? ==> t'.pr == t.pr)
          && (to == Done ==> t'.reapCount == 0) && (to != Done ==> t'.reapCount == t.reapCount)
          && t' == t.(status := to, note := t'.note, pr := t'.pr, reapCount := t'.reapCount, lease := t'.lease,
                      updatedAt := now))
      && (if release || to in {InReview, Done, Blocked} then Freed(db, db', id)
          else db'.tasks[id].lease == t.lease && db'.locks == db.locks
               && forall k :: k in db.tasks && k != id ==> db'.tasks[k] == db.tasks[k])
  {
  }

  lemma {:induction false} FirstForeignIsFirst(locks: map<string, Lock>, resources: seq<string>, id: string)
    returns (i: nat)
    requires FirstForeign(locks, resources, id).Some?
    ensures i < |resources| && FirstForeign(locks, resources, id) == Some(resources[i])
    ensures resources[i] in locks && locks[resources[i]].task != id
    ensures forall j :: 0 <= j < i ==> resources[j] in locks ==> locks[resources[j]].task == id
  {
    if HeldByOther(locks, resources[0], id) {
      i := 0;
    } else {
      var k := FirstForeignIsFirst(locks, resources[1..], id);
      i := k + 1;
      assert forall j :: 0 < j < i ==> resources[j] == resources[1..][j - 1];
    }
  }

  /** `r` is the first resource of task `id` that a leased task other than it wants. */
  ghost predicate FirstWanted(db: Db, id: string, r: string)
    requires id in db.tasks
  {
    exists i :: 0 <= i < |db.tasks[id].resources| && db.tasks[id].resources[i] == r
                && forall j, k :: 0 <= j < i && k != id ==> !Wants(db, db.tasks[id].resources[j], k)
  }

  /**
   * Every refusal of a well-formed claim gives the true reason, the first that applies: who holds the live
   * lease; or a status nobody may claim; or the first resource that another task holds, and a leased task
   * that really wants it.
   */
  lemma RefusalsAreTrue(db: Db, id: string, agent: string, session: string, now: int)
    requires Inv(db) && id in db.tasks && id != "" && agent != "" && session != ""
    ensures var t, v := db.tasks[id], ClaimVerdict(db, id, agent, session, now, CLAIMABLE);
      var elsewhere := t.lease.Some? && now < t.lease.value.expires && t.lease.value.session != session;
      && (v.LeasedBy? <==> elsewhere) && (elsewhere ==> v.owner == t.lease.value.owner)
      && (v.NotClaimable? <==> !elsewhere && t.status !in {Spec, Designing, ReadyForImpl, InProgress})
      && (v.ResourceLocked? ==> v.holder != id && Wants(db, v.resource, v.holder) && FirstWanted(db, id, v.resource))
      && (v.ResourceLocked? <==>
          !elsewhere && !v.NotClaimable? && exists r, k :: r in t.resources && k != id && Wants(db, r, k))
  {
    var t := db.tasks[id];
    forall r, k ensures Locks(db, r, k) <==> Wants(db, r, k) {
    }
    ForeignNone(db.locks, t.resources, id);
    if FirstForeign(db.locks, t.resources, id).Some? {
      var i := FirstForeignIsFirst(db.locks, t.resources, id);
      assert Locks(db, t.resources[i], db.locks[t.resources[i]].task);
      assert forall j, k :: 0 <= j < i && k != id ==> !Locks(db, t.resources[j], k);
    } else {
      forall r, k | r in t.resources && k != id ensures !Wants(db, r, k) {
        assert !HeldByOther(db.locks, r, id);
        assert !Locks(db, r, k);
      }
    }
  }

  /**
   * An expired lease on work already handed off is freed without a trace: not counted, not recorded, and the
   * row otherwise as it was.
   */
  lemma HandedOffIsFreedSilently(db: Db, id: string, now: int)
    requires id in db.tasks && db.tasks[id].status in {InReview, Done} && db.tasks[id].lease.Some?
    requires db.tasks[id].lease.value.expires <= now
    ensures var db' := ReapOne(db, id, now);
      && Freed(db, db', id) && db'.history == db.history
      && db'.tasks[id] == db.tasks[id].(lease := None, updatedAt := now)
  {
  }

  // ---- A task that keeps stalling ----

  /** One stall: the task is claimed, nobody comes back, and the lease is reaped the moment it runs out. */
  ghost function Round(db: Db, id: string, agent: string, session: string, ttl: int, now: int): Db {
    ReapOne(Claim(db, id, agent, session, ttl, now, CLAIMABLE), id, now + ttl)
  }

  ghost function Stalled(db: Db, id: string, agent: string, session: string, ttl: int, at: nat -> int, k: nat): Db {
    if k == 0 then db
    else
      var prev := Stalled(db, id, agent, session, ttl, at, k - 1);
      Round(prev, id, agent, session, ttl, at(k - 1))
  }

  /** What `k` stalls make of a task that had none: harder from the third on, blocked at the fifth. */
  ghost predicate StalledRow(t: Task, t': Task, k: nat) {
    && t'.lease.None? && t'.reapCount == k && t'.resources == t.resources
    && t'.status == (if k == 5 then Blocked else t.status)
    && t'.note == (if k == 5 then Some("auto-blocked after " + Digits(5) + " reaps") else t.note)
    && t'.complexity == (if k < 3 || t.complexity >= 5 then t.complexity
                         else if k == 3 || t.complexity == 4 then t.complexity + 1 else t.complexity + 2)
  }

  /** A task that can be claimed at once, by anybody. */
  ghost predicate Claimable(db: Db, id: string) {
    && id in db.tasks && db.tasks[id].lease.None? && db.tasks[id].status in CLAIMABLE
    && NoDup(db.tasks[id].resources) && forall r, k :: r in db.tasks[id].resources ==> !Wants(db, r, k)
  }

  /** A claim that is won and then reaped the moment it runs out. */
  lemma ClaimThenReap(db: Db, id: string, agent: string, session: string, ttl: int, now: int)
    requires Inv(db) && ClaimVerdict(db, id, agent, session, now, CLAIMABLE).Won?
    ensures var mid := Claim(db, id, agent, session, ttl, now, CLAIMABLE);
      && Inv(mid) && Leased(mid, id) && Expired(mid.tasks[id], now + ttl)
      && Inv(ReapOne(mid, id, now + ttl))
  {
    var mid := Claim(db, id, agent, session, ttl, now, CLAIMABLE);
    ClaimKeepsInv(db, id, agent, session, ttl, now, CLAIMABLE);
    ReapKeepsInv(mid, id, now + ttl);
  }

  /** What one more stall does to a row. */
  ghost predicate OneMore(t: Task, t': Task) {
    && t'.lease.None? && t'.reapCount == t.reapCount + 1 && t'.resources == t.resources
    && t'.status == (if t.reapCount >= 4 then Blocked else t.status)
    && t'.note == (if t.reapCount < 4 then t.note
                   else Some("auto-blocked after " + Digits(t.reapCount + 1) + " reaps"))
    && t'.complexity == t.complexity + if 2 <= t.reapCount < 4 && t.complexity < 5 then 1 else 0
  }

  lemma StallRow(db: Db, id: string, agent: string, session: string, ttl: int, now: int)
    requires Inv(db) && ClaimVerdict(db, id, agent, session, now, CLAIMABLE).Won?
    ensures var db' := Round(db, id, agent, session, ttl, now);
      && db'.tasks == db.tasks[id := db'.tasks[id]] && OneMore(db.tasks[id], db'.tasks[id])
  {
    ClaimThenReap(db, id, agent, session, ttl, now);
  }

  lemma StallLocks(db: Db, id: string, agent: string, session: string, ttl: int, now: int)
    requires Claimable(db, id) && Inv(db) && ClaimVerdict(db, id, agent, session, now, CLAIMABLE).Won?
    ensures Round(db, id, agent, session, ttl, now).locks == db.locks
  {
    ClaimThenReap(db, id, agent, session, ttl, now);
    forall r | r in db.locks ensures db.locks[r].task != id && r !in db.tasks[id].resources {
      assert Locks(db, r, db.locks[r].task) <==> Wants(db, r, db.locks[r].task);
    }
  }

  lemma OneStall(db: Db, id: string, agent: string, session: string, ttl: int, now: int)
    requires Inv(db) && Claimable(db, id) && id != "" && agent != "" && session != ""
    ensures var db' := Round(db, id, agent, session, ttl, now);
      && Inv(db') && db'.locks == db.locks
      && db'.tasks == db.tasks[id := db'.tasks[id]] && OneMore(db.tasks[id], db'.tasks[id])
  {
    ClaimWonIff(db, id, agent, session, now, CLAIMABLE);
    ClaimThenReap(db, id, agent, session, ttl, now);
    StallRow(db, id, agent, session, ttl, now);
    StallLocks(db, id, agent, session, ttl, now);
  }

  lemma StaysClaimable(db: Db, db': Db, id: string, k: nat)
    requires Claimable(db, id) && id in db'.tasks && db'.tasks == db.tasks[id := db'.tasks[id]]
    requires StalledRow(db.tasks[id], db'.tasks[id], k) && k < 5
    ensures Claimable(db', id)
  {
    forall r, j | r in db'.tasks[id].resources ensures !Wants(db', r, j) {
      assert !Wants(db, r, j);
    }
  }

  lemma StallsAddUp(t: Task, mid: Task, t': Task, k: nat)
    requires t.status in CLAIMABLE && 0 < k <= 5 && StalledRow(t, mid, k - 1) && OneMore(mid, t')
    ensures StalledRow(t, t', k)
  {
  }

  /** `db'` is `db` after `k` stalls of the one task, and nothing else. */
  ghost predicate Stalls(db: Db, db': Db, id: string, k: nat)
    requires id in db.tasks
  {
    && Inv(db') && db'.locks == db.locks
    && id in db'.tasks && db'.tasks == db.tasks[id := db'.tasks[id]] && StalledRow(db.tasks[id], db'.tasks[id], k)
  }

  lemma OneStallMore(db: Db, mid: Db, id: string, agent: string, session: string, ttl: int, now: int, k: nat)
    requires Claimable(db, id) && id != "" && agent != "" && session != ""
    requires k < 5 && Stalls(db, mid, id, k)
    ensures Stalls(db, Round(mid, id, agent, session, ttl, now), id, k + 1)
  {
    StaysClaimable(db, mid, id, k);
    OneStall(mid, id, agent, session, ttl, now);
    StallsAddUp(db.tasks[id], mid.tasks[id], Round(mid, id, agent, session, ttl, now).tasks[id], k + 1);
  }

  /**
   * The stall policy: four lost leases leave the task claimable, the third and fourth make it more complex,
   * never beyond five, and the fifth blocks it. No round leaves anything else behind, not even a lock.
   */
  lemma {:induction false} FiveStalls(db: Db, id: string, agent: string, session: string, ttl: int, at: nat -> int,
                                      k: nat)
    requires Inv(db) && Claimable(db, id) && db.tasks[id].reapCount == 0 && k <= 5
    requires id != "" && agent != "" && session != ""
    ensures Stalls(db, Stalled(db, id, agent, session, ttl, at, k), id, k)
    decreases k
  {
    if k > 0 {
      FiveStalls(db, id, agent, session, ttl, at, k - 1);
      OneStallMore(db, Stalled(db, id, agent, session, ttl, at, k - 1), id, agent, session, ttl, at(k - 1), k - 1);
    }
  }
}
