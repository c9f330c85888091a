/** Which task an agent may work next, and whether it may: nextEligibleTask and router.mjs. */
module Router {
  import opened Common
  import opened Machine
  import opened Store
  import opened StoreInvariant
  import opened Listing
  import opened Risk

  type Filter = (string, Task) -> bool

  // ---- The next eligible task ----

  function DoneAmong(tasks: map<string, Task>, deps: seq<string>): set<string> {
    set d | d in deps && d in tasks && tasks[d].status == Done
  }

  /** SQL counts distinct matching rows and compares with the length of the list. */
  predicate DepsMet(tasks: map<string, Task>, deps: seq<string>) {
    |DoneAmong(tasks, deps)| >= |deps|
  }

  /** So a dependency listed twice is never met, however finished it is. */
  lemma DepsMetIff(tasks: map<string, Task>, deps: seq<string>)
    ensures DepsMet(tasks, deps) <==> NoDup(deps) && forall d | d in deps :: d in tasks && tasks[d].status == Done
  {
    var done, all := DoneAmong(tasks, deps), Elems(deps);
    DistinctCount(deps);
    SubsetSize(done, all);
    if forall d | d in deps :: d in tasks && tasks[d].status == Done {
      assert done == all;
    } else {
      var d :| d in deps && !(d in tasks && tasks[d].status == Done);
      assert d in all && d !in done;
    }
  }

  predicate Selectable(t: Task, now: int, claimable: set<Status>) {
    t.status in claimable && (t.lease.None? || t.lease.value.expires <= now)
  }

  predicate Eligible(tasks: map<string, Task>, id: string, now: int, claimable: set<Status>, filter: Filter) {
    id in tasks && Selectable(tasks[id], now, claimable) && DepsMet(tasks, tasks[id].dependsOn) && filter(id, tasks[id])
  }

  function FirstPassing(tasks: map<string, Task>, rows: seq<string>, filter: Filter): Option<string> {
    if rows == [] then None
    else if rows[0] in tasks && DepsMet(tasks, tasks[rows[0]].dependsOn) && filter(rows[0], tasks[rows[0]]) then
      Some(rows[0])
    else FirstPassing(tasks, rows[1..], filter)
  }

  function Candidates(tasks: map<string, Task>, now: int, claimable: set<Status>): set<string> {
    set id | id in tasks && Selectable(tasks[id], now, claimable)
  }

  function NextEligible(tasks: map<string, Task>, now: int, claimable: set<Status>, filter: Filter): Option<string> {
    FirstPassing(tasks, Rows(tasks, Candidates(tasks, now, claimable)), filter)
  }

  lemma {:induction false} FirstPassingIsLeast(tasks: map<string, Task>, rows: seq<string>, filter: Filter)
    requires Elems(rows) <= tasks.Keys && Ordered(tasks, rows)
    ensures var r := FirstPassing(tasks, rows, filter);
      && (r.None? <==> forall k | k in rows :: !(DepsMet(tasks, tasks[k].dependsOn) && filter(k, tasks[k])))
      && (r.Some? ==>
            && r.value in rows && DepsMet(tasks, tasks[r.value].dependsOn) && filter(r.value, tasks[r.value])
            && forall k | k in rows && DepsMet(tasks, tasks[k].dependsOn) && filter(k, tasks[k]) ::
                 k == r.value || Before(tasks, r.value, k))
  {
    if rows != [] {
      assert rows == [rows[0]] + rows[1..];
      TailElems(tasks, rows);
      FirstIsLeast(tasks, rows);
      forall k | k in rows ensures k in tasks && (k == rows[0] || Before(tasks, rows[0], k)) {
        assert k in Elems(rows);
      }
      FirstPassingIsLeast(tasks, rows[1..], filter);
    }
  }

  /** The answer is the (priority, id)-least eligible task, and there is none exactly when no task is eligible. */
  lemma NextIsLeast(tasks: map<string, Task>, now: int, claimable: set<Status>, filter: Filter)
    ensures var r := NextEligible(tasks, now, claimable, filter);
      && (r.None? <==> forall k :: !Eligible(tasks, k, now, claimable, filter))
      && (r.Some? ==>
            && Eligible(tasks, r.value, now, claimable, filter)
            && forall k :: Eligible(tasks, k, now, claimable, filter) ==> k == r.value || Before(tasks, r.value, k))
  {
    var ids := Candidates(tasks, now, claimable);
    var rows := Rows(tasks, ids);
    RowsOrdered(tasks, ids);
    FirstPassingIsLeast(tasks, rows, filter);
    forall k
      ensures k in rows <==> k in tasks && Selectable(tasks[k], now, claimable)
      ensures Eligible(tasks, k, now, claimable, filter) <==>
              k in rows && k in tasks && DepsMet(tasks, tasks[k].dependsOn) && filter(k, tasks[k])
    {
      assert k in rows <==> k in Elems(rows);
    }
  }

  // ---- One agent's decision ----

  datatype Route = Route(provider: string, keyPresent: bool)

  datatype Budget = Budget(killSwitch: bool, state: map<string, string>, mayClaim: map<string, bool>) {
    predicate Allows(agent: string) {
      if agent in mayClaim then mayClaim[agent]
      else if agent in state then state[agent] != "halt"
      else true
    }
  }

  /** The policy levers and tenant maps a decision reads; `route` stands for model routing and provider lookup. */
  datatype Policy = Policy(
    maxParallel: Option<int>, wipPerAgent: Option<int>, priorityFloor: Option<int>, leaseTtlMin: Option<int>,
    matrix: Option<map<string, seq<string>>>, workStealing: bool,
    governance: Governance, fallbackOnMissingKey: bool, activeSprints: set<string>,
    route: (string, Task) -> Route)

  datatype Reason =
    | KillSwitch | BudgetHalt | MaxParallel | WipPerAgent | NoEligibleTask | BelowPriorityFloor
    | SensitiveAction(action: string) | MissingKey(provider: string) | SessionLimit

  datatype Decision =
    | Grant(agent: string, task: string, provider: string, ttl: int)
    | Deny(agent: string, reason: Reason)

  predicate Capable(p: Policy, agent: string, t: Task) {
    p.matrix.Some? ==>
      && (t.owner == "both" || t.owner == agent || p.workStealing)
      && forall tag | tag in t.riskTags :: tag in p.matrix.value ==> agent in p.matrix.value[tag]
  }

  /** Only stories of an active sprint are workable, unless no sprint is active at all. */
  predicate InSprint(p: Policy, t: Task) {
    p.activeSprints != {} ==>
      && (t.kind == "" || t.kind == "story")
      && t.sprint.Some? && t.sprint.value != "" && t.sprint.value in p.activeSprints
  }

  function WorkFilter(p: Policy, agent: string, exclude: set<string>): Filter {
    (id: string, t: Task) => Capable(p, agent, t) && InSprint(p, t) && id !in exclude
  }

  function Active(tasks: map<string, Task>, now: int): set<string> {
    set id | id in tasks && LiveLease(tasks[id], now)
  }

  function ActiveOf(tasks: map<string, Task>, now: int, agent: string): set<string> {
    set id | id in tasks && LiveLease(tasks[id], now) && tasks[id].lease.value.owner == agent
  }

  const NO_FLOOR := 999

  function Decide(tasks: map<string, Task>, p: Policy, b: Budget, agent: string, now: int,
                  exclude: set<string>): Decision {
    if b.killSwitch then Deny(agent, KillSwitch)
    else if !b.Allows(agent) then Deny(agent, BudgetHalt)
    else if p.maxParallel.Some? && |Active(tasks, now)| >= p.maxParallel.value then Deny(agent, MaxParallel)
    else if p.wipPerAgent.Some? && |ActiveOf(tasks, now, agent)| >= p.wipPerAgent.value then Deny(agent, WipPerAgent)
    else
      var next := NextEligible(tasks, now, CLAIMABLE, WorkFilter(p, agent, exclude));
      if next.None? || next.value !in tasks then Deny(agent, NoEligibleTask)
      else
        var t := tasks[next.value];
        if t.priority > p.priorityFloor.Or(NO_FLOOR) then Deny(agent, BelowPriorityFloor)
        else
          var held :=
            if t.approvedAt.Some? then None else SensitiveBlock(p.governance, EffectiveRiskTags(tasks, next.value));
          if held.Some? then Deny(agent, SensitiveAction(held.value))
          else
            var route := p.route(agent, t);
            var ttl := p.leaseTtlMin.Or(30) * 60 * 1000;
            if route.keyPresent then Grant(agent, next.value, route.provider, ttl)
            else if p.fallbackOnMissingKey then Grant(agent, next.value, "anthropic", ttl)
            else Deny(agent, MissingKey(route.provider))
  }

  /** A grant names the least workable task, within the floor and both limits, with a key or leave to do without. */
  lemma GrantIsSound(tasks: map<string, Task>, p: Policy, b: Budget, agent: string, now: int, exclude: set<string>)
    requires Decide(tasks, p, b, agent, now, exclude).Grant?
    ensures var id := Decide(tasks, p, b, agent, now, exclude).task;
      && !b.killSwitch && b.Allows(agent)
      && (p.maxParallel.Some? ==> |Active(tasks, now)| < p.maxParallel.value)
      && (p.wipPerAgent.Some? ==> |ActiveOf(tasks, now, agent)| < p.wipPerAgent.value)
      && Eligible(tasks, id, now, CLAIMABLE, WorkFilter(p, agent, exclude))
      && (forall k :: Eligible(tasks, k, now, CLAIMABLE, WorkFilter(p, agent, exclude)) ==>
            k == id || Before(tasks, id, k))
      && tasks[id].priority <= p.priorityFloor.Or(NO_FLOOR)
      && (p.route(agent, tasks[id]).keyPresent || p.fallbackOnMissingKey)
  {
    NextIsLeast(tasks, now, CLAIMABLE, WorkFilter(p, agent, exclude));
  }

  /** No agent is ever handed a task that carries or inherits a stop-and-ask tag without the founder's approval. */
  lemma HeldTasksAreNeverGranted(tasks: map<string, Task>, p: Policy, b: Budget, agent: string, now: int,
                                 exclude: set<string>,
                                 id: string, ancestor: string, raw: string)
    requires id in tasks && tasks[id].approvedAt.None?
    requires ancestor in tasks && Reaches(tasks, id, ancestor)
    requires raw in tasks[ancestor].riskTags && p.governance.Blocking(Lower(raw)).Some?
    ensures var d := Decide(tasks, p, b, agent, now, exclude); !(d.Grant? && d.task == id)
  {
    HeldIff(p.governance, tasks, id);
  }

  /** A floor denial hides nothing: no workable task is within the floor. */
  lemma FloorDenialIsComplete(tasks: map<string, Task>, p: Policy, b: Budget, agent: string, now: int,
                              exclude: set<string>, k: string)
    requires Decide(tasks, p, b, agent, now, exclude) == Deny(agent, BelowPriorityFloor)
    requires Eligible(tasks, k, now, CLAIMABLE, WorkFilter(p, agent, exclude))
    ensures tasks[k].priority > p.priorityFloor.Or(NO_FLOOR)
  {
    NextIsLeast(tasks, now, CLAIMABLE, WorkFilter(p, agent, exclude));
  }

  // ---- Every decision, by what the policy promises ----

  /** What an agent can be sent to, in terms of the table and the policy alone. */
  ghost predicate Workable(tasks: map<string, Task>, p: Policy, agent: string, now: int, exclude: set<string>,
                           id: string) {
    && id in tasks && id !in exclude
    && var t := tasks[id];
       && t.status in {Spec, Designing, ReadyForImpl, InProgress}
       && (t.lease.Some? ==> t.lease.value.expires <= now)
       && NoDup(t.dependsOn) && (forall d | d in t.dependsOn :: d in tasks && tasks[d].status == Done)
       && (p.matrix.Some? ==>
             && (t.owner in {"both", agent} || p.workStealing)
             && forall tag | tag in t.riskTags && tag in p.matrix.value :: agent in p.matrix.value[tag])
       && (p.activeSprints != {} ==>
             t.kind in {"", "story"} && t.sprint.Some? && t.sprint.value != "" && t.sprint.value in p.activeSprints)
  }

  lemma EligibleIff(tasks: map<string, Task>, p: Policy, agent: string, now: int, exclude: set<string>, id: string)
    ensures Eligible(tasks, id, now, CLAIMABLE, WorkFilter(p, agent, exclude)) <==>
            Workable(tasks, p, agent, now, exclude, id)
  {
    if id in tasks {
      DepsMetIff(tasks, tasks[id].dependsOn);
    }
  }

  /** The first workable task by priority, and among equals by id. */
  ghost predicate NextUp(tasks: map<string, Task>, p: Policy, agent: string, now: int, exclude: set<string>,
                         id: string) {
    && Workable(tasks, p, agent, now, exclude, id)
    && forall k :: Workable(tasks, p, agent, now, exclude, k) ==>
         || k == id || tasks[id].priority < tasks[k].priority
         || (tasks[id].priority == tasks[k].priority && StrLess(id, k))
  }

  lemma NextUpIff(tasks: map<string, Task>, p: Policy, agent: string, now: int, exclude: set<string>, id: string)
    ensures NextEligible(tasks, now, CLAIMABLE, WorkFilter(p, agent, exclude)) == Some(id) <==>
            NextUp(tasks, p, agent, now, exclude, id)
    ensures NextEligible(tasks, now, CLAIMABLE, WorkFilter(p, agent, exclude)).None? <==>
            forall k :: !Workable(tasks, p, agent, now, exclude, k)
  {
    var f := WorkFilter(p, agent, exclude);
    NextIsLeast(tasks, now, CLAIMABLE, f);
    forall k ensures Eligible(tasks, k, now, CLAIMABLE, f) <==> Workable(tasks, p, agent, now, exclude, k) {
      EligibleIff(tasks, p, agent, now, exclude, k);
    }
    var r := NextEligible(tasks, now, CLAIMABLE, f);
    if r.Some? && NextUp(tasks, p, agent, now, exclude, id) {
      BeforeIsStrictOrder(tasks, id, r.value);
    }
  }

  /** The budget lets the agent work. */
  predicate Funded(b: Budget, agent: string) {
    && !b.killSwitch && (agent in b.mayClaim ==> b.mayClaim[agent])
    && (agent in b.state && agent !in b.mayClaim ==> b.state[agent] != "halt")
  }

  /** The leases that live at `now`, of one agent or of all. */
  function Leases(tasks: map<string, Task>, now: int, agent: Option<string>): set<string> {
    set id | id in tasks && tasks[id].lease.Some? && now < tasks[id].lease.value.expires
             && (agent.Some? ==> tasks[id].lease.value.owner == agent.value)
  }

  /** Neither limit is reached. */
  predicate HasRoom(tasks: map<string, Task>, p: Policy, agent: string, now: int) {
    && (p.maxParallel.Some? ==> |Leases(tasks, now, None)| < p.maxParallel.value)
    && (p.wipPerAgent.Some? ==> |Leases(tasks, now, Some(agent))| < p.wipPerAgent.value)
  }

  lemma LeasesAreActive(tasks: map<string, Task>, now: int, agent: string)
    ensures Leases(tasks, now, None) == Active(tasks, now)
    ensures Leases(tasks, now, Some(agent)) == ActiveOf(tasks, now, agent)
  {
  }

  /** Within the floor, and free of any stop the founder has not lifted. */
  ghost predicate Cleared(tasks: map<string, Task>, p: Policy, id: string)
    requires id in tasks
  {
    && (if p.priorityFloor.Some? then tasks[id].priority <= p.priorityFloor.value else tasks[id].priority <= 999)
    && (tasks[id].approvedAt.Some? || forall action :: !Stops(p.governance, tasks, id, action))
  }

  /** A reason that the task next up is denied for. */
  ghost predicate TrueOf(tasks: map<string, Task>, p: Policy, agent: string, id: string, reason: Reason)
    requires id in tasks
  {
    match reason
    case BelowPriorityFloor => tasks[id].priority > if p.priorityFloor.Some? then p.priorityFloor.value else 999
    case SensitiveAction(action) => tasks[id].approvedAt.None? && Stops(p.governance, tasks, id, action)
    case MissingKey(provider) =>
      Cleared(tasks, p, id) && p.route(agent, tasks[id]) == Route(provider, false) && !p.fallbackOnMissingKey
    case _ => false
  }

  /** A reason that is true, while the ones before it do not apply. */
  ghost predicate Justified(tasks: map<string, Task>, p: Policy, b: Budget, agent: string, now: int,
                            exclude: set<string>, reason: Reason) {
    match reason
    case KillSwitch => b.killSwitch
    case BudgetHalt => !b.killSwitch && !Funded(b, agent)
    case MaxParallel => Funded(b, agent) && p.maxParallel.Some? && |Leases(tasks, now, None)| >= p.maxParallel.value
    case WipPerAgent =>
      && Funded(b, agent) && p.wipPerAgent.Some? && |Leases(tasks, now, Some(agent))| >= p.wipPerAgent.value
      && (p.maxParallel.Some? ==> |Leases(tasks, now, None)| < p.maxParallel.value)
    case NoEligibleTask =>
      Funded(b, agent) && HasRoom(tasks, p, agent, now) && forall k :: !Workable(tasks, p, agent, now, exclude, k)
    case _ =>
      && Funded(b, agent) && HasRoom(tasks, p, agent, now)
      && exists id :: NextUp(tasks, p, agent, now, exclude, id) && TrueOf(tasks, p, agent, id, reason)
  }

  lemma EarlyDenial(tasks: map<string, Task>, p: Policy, b: Budget, agent: string, now: int, exclude: set<string>)
    requires !Funded(b, agent) || !HasRoom(tasks, p, agent, now)
    ensures var d := Decide(tasks, p, b, agent, now, exclude);
      d.Deny? && d.agent == agent && Justified(tasks, p, b, agent, now, exclude, d.reason)
  {
    LeasesAreActive(tasks, now, agent);
  }

  /** What is decided about the task next up. */
  function Verdict(p: Policy, agent: string, id: string, t: Task, held: Option<string>): Decision {
    var route := p.route(agent, t);
    if t.priority > p.priorityFloor.Or(NO_FLOOR) then Deny(agent, BelowPriorityFloor)
    else if t.approvedAt.None? && held.Some? then Deny(agent, SensitiveAction(held.value))
    else if !route.keyPresent && !p.fallbackOnMissingKey then Deny(agent, MissingKey(route.provider))
    else Grant(agent, id, if route.keyPresent then route.provider else "anthropic", p.leaseTtlMin.Or(30) * 60 * 1000)
  }

  lemma LateDecision(tasks: map<string, Task>, p: Policy, b: Budget, agent: string, now: int, exclude: set<string>)
    requires Funded(b, agent) && HasRoom(tasks, p, agent, now)
    ensures var next := NextEligible(tasks, now, CLAIMABLE, WorkFilter(p, agent, exclude));
      && (next.Some? ==> next.value in tasks)
      && Decide(tasks, p, b, agent, now, exclude) ==
         if next.None? then Deny(agent, NoEligibleTask)
         else Verdict(p, agent, next.value, tasks[next.value],
                      SensitiveBlock(p.governance, EffectiveRiskTags(tasks, next.value)))
  {
    LeasesAreActive(tasks, now, agent);
    NextIsLeast(tasks, now, CLAIMABLE, WorkFilter(p, agent, exclude));
  }

  /**
   * A task is granted if and only if money and room allow it, it is the next one up, it is cleared, and its
   * provider has a key or the founder has opted into the fallback - and then to that provider, or to the
   * fallback only for want of a key, for the lease term of the policy in milliseconds.
   */
  lemma GrantIff(tasks: map<string, Task>, p: Policy, b: Budget, agent: string, now: int, exclude: set<string>,
                 id: string, provider: string, ttl: int)
    ensures Decide(tasks, p, b, agent, now, exclude) == Grant(agent, id, provider, ttl) <==>
            && Funded(b, agent) && HasRoom(tasks, p, agent, now)
            && NextUp(tasks, p, agent, now, exclude, id) && Cleared(tasks, p, id)
            && (p.route(agent, tasks[id]).keyPresent || p.fallbackOnMissingKey)
            && provider == (if p.route(agent, tasks[id]).keyPresent then p.route(agent, tasks[id]).provider
                            else "anthropic")
            && ttl == (if p.leaseTtlMin.Some? then p.leaseTtlMin.value else 30) * 60000
  {
    if Funded(b, agent) && HasRoom(tasks, p, agent, now) {
      LateDecision(tasks, p, b, agent, now, exclude);
      NextUpIff(tasks, p, agent, now, exclude, id);
      if id in tasks {
        StopIs(p.governance, tasks, id);
      }
    } else {
      EarlyDenial(tasks, p, b, agent, now, exclude);
    }
  }

  lemma NextIsDenied(tasks: map<string, Task>, p: Policy, agent: string, id: string)
    requires id in tasks
    ensures var d := Verdict(p, agent, id, tasks[id], SensitiveBlock(p.governance, EffectiveRiskTags(tasks, id)));
      d.Deny? ==> d.agent == agent && TrueOf(tasks, p, agent, id, d.reason)
  {
    StopIs(p.governance, tasks, id);
  }

  /** Every denial gives the agent the true reason, and the ones before it do not apply. */
  lemma DenialIsTrue(tasks: map<string, Task>, p: Policy, b: Budget, agent: string, now: int, exclude: set<string>)
    requires Decide(tasks, p, b, agent, now, exclude).Deny?
    ensures var d := Decide(tasks, p, b, agent, now, exclude);
      d.agent == agent && Justified(tasks, p, b, agent, now, exclude, d.reason)
  {
    if Funded(b, agent) && HasRoom(tasks, p, agent, now) {
      LateDecision(tasks, p, b, agent, now, exclude);
      var next := NextEligible(tasks, now, CLAIMABLE, WorkFilter(p, agent, exclude));
      var id := next.Or("");
      NextUpIff(tasks, p, agent, now, exclude, id);
      if next.Some? {
        NextIsDenied(tasks, p, agent, id);
      }
    } else {
      EarlyDenial(tasks, p, b, agent, now, exclude);
    }
  }

  // ---- After a reap, at the same instant ----

  /** The ids the watchdog's query selects. */
  function ExpiredIds(tasks: map<string, Task>, now: int): set<string> {
    set id | id in tasks && Expired(tasks[id], now)
  }

  lemma ReapOneRow(db: Db, id: string, now: int, k: string)
    requires Inv(db)
    ensures var db' := ReapOne(db, id, now);
      && db'.tasks.Keys == db.tasks.Keys
      && (k in db.tasks ==>
            db'.tasks[k] == if k == id && Expired(db.tasks[k], now) then Worn(db.tasks[k], now) else db.tasks[k])
  {
    if id in db.tasks && Expired(db.tasks[id], now) {
      assert Leased(db, id);
    }
  }

  lemma {:induction false} ReapAllKeepsInv(db: Db, ids: seq<string>, now: int)
    requires Inv(db)
    ensures Inv(ReapAll(db, ids, now))
  {
    if ids != [] {
      var n := |ids| - 1;
      ReapAllKeepsInv(db, ids[..n], now);
      ReapKeepsInv(ReapAll(db, ids[..n], now), ids[n], now);
    }
  }

  /** What the rows of a swept table are: exactly the expired leases that were visited have been worn. */
  ghost predicate Swept(db: Db, db': Db, ids: seq<string>, now: int, k: string) {
    && db'.tasks.Keys == db.tasks.Keys
    && (k in db.tasks ==>
          db'.tasks[k] == if k in ids && Expired(db.tasks[k], now) then Worn(db.tasks[k], now) else db.tasks[k])
  }

  lemma SweptStep(db: Db, mid: Db, ids: seq<string>, id: string, now: int, k: string)
    requires Inv(mid) && Swept(db, mid, ids, now, k)
    ensures Swept(db, ReapOne(mid, id, now), ids + [id], now, k)
  {
    ReapOneRow(mid, id, now, k);
  }

  lemma {:induction false} ReapAllRows(db: Db, ids: seq<string>, now: int, k: string)
    requires Inv(db)
    ensures Inv(ReapAll(db, ids, now))
    ensures Swept(db, ReapAll(db, ids, now), ids, now, k)
  {
    ReapAllKeepsInv(db, ids, now);
    if ids != [] {
      var n := |ids| - 1;
      ReapAllRows(db, ids[..n], now, k);
      SweptStep(db, ReapAll(db, ids[..n], now), ids[..n], ids[n], now, k);
      assert ids == ids[..n] + [ids[n]];
    }
  }

  /** The order the watchdog frees leases in leaves no trace in the tables. */
  lemma ReapOrderIsIrrelevant(db: Db, a: seq<string>, b: seq<string>, now: int)
    requires Inv(db) && Elems(a) == Elems(b)
    ensures ReapAll(db, a, now).tasks == ReapAll(db, b, now).tasks
    ensures ReapAll(db, a, now).locks.Keys == ReapAll(db, b, now).locks.Keys
  {
    var x, y := ReapAll(db, a, now), ReapAll(db, b, now);
    ReapAllRows(db, a, now, "");
    ReapAllRows(db, b, now, "");
    forall k | k in db.tasks ensures x.tasks[k] == y.tasks[k] {
      ReapAllRows(db, a, now, k);
      ReapAllRows(db, b, now, k);
      assert k in a <==> k in Elems(a);
      assert k in b <==> k in Elems(b);
    }
    forall r ensures r in x.locks <==> r in y.locks {
      if r in x.locks {
        assert Locks(x, r, x.locks[r].task) <==> Wants(x, r, x.locks[r].task);
        assert Locks(y, r, x.locks[r].task) <==> Wants(y, r, x.locks[r].task);
      }
      if r in y.locks {
        assert Locks(x, r, y.locks[r].task) <==> Wants(x, r, y.locks[r].task);
        assert Locks(y, r, y.locks[r].task) <==> Wants(y, r, y.locks[r].task);
      }
    }
  }

  /**
   * Right after a reap the next task is unleased, and claiming it at that instant wins exactly when
   * its resources are listed once each and no leased task holds one of them.
   */
  lemma ClaimAfterReap(db: Db, ids: seq<string>, now: int, filter: Filter, agent: string, session: string)
    requires Inv(db) && Elems(ids) == ExpiredIds(db.tasks, now)
    requires NextEligible(ReapAll(db, ids, now).tasks, now, CLAIMABLE, filter).Some?
    requires agent != "" && session != ""
    ensures var db' := ReapAll(db, ids, now);
      var id := NextEligible(db'.tasks, now, CLAIMABLE, filter).value;
      && id in db'.tasks && db'.tasks[id].lease.None?
      && (id != "" ==>
            (ClaimVerdict(db', id, agent, session, now, CLAIMABLE).Won? <==>
             NoDup(db'.tasks[id].resources) && forall r, k :: r in db'.tasks[id].resources ==> !Wants(db', r, k)))
  {
    var db' := ReapAll(db, ids, now);
    NextIsLeast(db'.tasks, now, CLAIMABLE, filter);
    var id := NextEligible(db'.tasks, now, CLAIMABLE, filter).value;
    ReapAllRows(db, ids, now, id);
    assert id in ids <==> id in Elems(ids);
    if id != "" {
      ClaimWonIff(db', id, agent, session, now, CLAIMABLE);
    }
  }
}
