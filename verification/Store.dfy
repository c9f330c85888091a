/**
 * The task and lease store of state.mjs, as functions on whole database values: what one committed
 * transaction makes of the tables it found. `TaskStore` implements these; `StoreInvariant` and
 * `History` prove what every run of them keeps.
 */
module Store {
  import opened Common
  import opened Machine

  /** The four lease columns, which are always set together and cleared together. */
  datatype Lease = Lease(owner: string, session: string, acquired: int, expires: int)

  datatype Lock = Lock(task: string, owner: string, acquired: int)

  /** Declarative columns that nothing here reads: they are stored and projected only. */
  datatype Extra = Extra(
    acceptance: Option<string>, lane: string, taskType: Option<string>,
    snoozedUntil: Option<int>, skippedAt: Option<int>, skipReason: Option<string>,
    contracts: seq<string>, createdAt: int, source: Option<string>)

  datatype Task = Task(
    kind: string, parent: Option<string>, sprint: Option<string>, title: string, owner: string,
    status: Status, priority: int, complexity: int, riskTags: seq<string>, approvedAt: Option<int>,
    resources: seq<string>, dependsOn: seq<string>, spec: Option<string>, pr: Option<string>,
    note: Option<string>, updatedAt: int, extra: Extra,
    lease: Option<Lease>, reapCount: nat)

  datatype Op = Seeded | Claimed | Beat | Released | Reaped | Remediated | Transitioned | Annotated

  datatype Row = Row(ts: int, task: string, from: Option<Status>, to: Option<Status>, op: Op)

  datatype Db = Db(tasks: map<string, Task>, locks: map<string, Lock>, history: seq<Row>)

  const EMPTY := Db(map[], map[], [])

  function Same(now: int, id: string, s: Status, op: Op): Row {
    Row(now, id, Some(s), Some(s), op)
  }

  // ---- Claiming ----

  datatype ClaimResult =
    | BadArguments
    | NoSuchTask
    | LeasedBy(owner: string)
    | NotClaimable
    | ResourceLocked(resource: string, holder: string)
    | RolledBack  // a lock row already existed: the transaction threw and left no trace
    | Won

  predicate LiveLease(t: Task, now: int) {
    t.lease.Some? && t.lease.value.expires > now
  }

  /** Somebody else's live lease; a session never stands in its own way here. */
  predicate LeasedAgainst(t: Task, session: string, now: int) {
    LiveLease(t, now) && t.lease.value.session != session
  }

  predicate HeldByOther(locks: map<string, Lock>, r: string, id: string) {
    r in locks && locks[r].task != id
  }

  /** The first listed resource that another task locks. */
  function FirstForeign(locks: map<string, Lock>, resources: seq<string>, id: string): Option<string> {
    if resources == [] then None
    else if HeldByOther(locks, resources[0], id) then Some(resources[0])
    else FirstForeign(locks, resources[1..], id)
  }

  /** Every lock INSERT succeeds: nothing listed is locked yet, not even by this task, and nothing is listed twice. */
  ghost predicate Insertable(locks: map<string, Lock>, resources: seq<string>) {
    NoDup(resources) && forall r | r in resources :: r !in locks
  }

  ghost function ClaimVerdict(db: Db, id: string, agent: string, session: string, now: int,
                              claimable: set<Status>): ClaimResult {
    if id == "" || agent == "" || session == "" then BadArguments
    else if id !in db.tasks then NoSuchTask
    else
      var t := db.tasks[id];
      if LeasedAgainst(t, session, now) then LeasedBy(t.lease.value.owner)
      else if t.status !in claimable then NotClaimable
      else
        var foreign := FirstForeign(db.locks, t.resources, id);
        if foreign.Some? then
          if foreign.value in db.locks then ResourceLocked(foreign.value, db.locks[foreign.value].task) else RolledBack
        else if !Insertable(db.locks, t.resources) then RolledBack
        else Won
  }

  function LocksFor(resources: seq<string>, id: string, agent: string, now: int): map<string, Lock> {
    map r | r in resources :: Lock(id, agent, now)
  }

  ghost function Claim(db: Db, id: string, agent: string, session: string, ttl: int, now: int,
                       claimable: set<Status>): Db {
    if !ClaimVerdict(db, id, agent, session, now, claimable).Won? then db
    else
      var t := db.tasks[id];
      Db(db.tasks[id := t.(lease := Some(Lease(agent, session, now, now + ttl)), updatedAt := now)],
         db.locks + LocksFor(t.resources, id, agent, now),
         db.history + [Same(now, id, t.status, Claimed)])
  }

  // ---- Keeping and giving up a lease ----

  predicate MayBeat(db: Db, id: string, session: string, now: int) {
    id in db.tasks && LiveLease(db.tasks[id], now) && db.tasks[id].lease.value.session == session
  }

  function Heartbeat(db: Db, id: string, session: string, ttl: int, now: int): Db {
    if !MayBeat(db, id, session, now) then db
    else
      var t := db.tasks[id];
      db.(tasks := db.tasks[id := t.(lease := Some(t.lease.value.(expires := now + ttl)), updatedAt := now)],
          history := db.history + [Row(now, id, None, None, Beat)])
  }

  function LocksOfOthers(locks: map<string, Lock>, id: string): map<string, Lock> {
    map r | r in locks && locks[r].task != id :: locks[r]
  }

  function FreeLease(db: Db, id: string, now: int): Db
    requires id in db.tasks
  {
    db.(tasks := db.tasks[id := db.tasks[id].(lease := None, updatedAt := now)],
        locks := LocksOfOthers(db.locks, id))
  }

  function FreeAndRecord(db: Db, id: string, now: int): Db
    requires id in db.tasks
  {
    var f := FreeLease(db, id, now);
    f.(history := db.history + [Same(now, id, db.tasks[id].status, Released)])
  }

  predicate Holds(db: Db, id: string, session: string) {
    id in db.tasks && db.tasks[id].lease.Some? && db.tasks[id].lease.value.session == session
  }

  function Release(db: Db, id: string, session: string, now: int): Db {
    if Holds(db, id, session) then FreeAndRecord(db, id, now) else db
  }

  predicate OwnedBy(db: Db, id: string, agent: string) {
    id in db.tasks && db.tasks[id].lease.Some? && db.tasks[id].lease.value.owner == agent && agent != ""
  }

  function ForceRelease(db: Db, id: string, agent: string, now: int): Db {
    if OwnedBy(db, id, agent) then FreeAndRecord(db, id, now) else db
  }

  /** One transaction of the boot-time sweep. */
  function BootRelease(db: Db, id: string, now: int): Db {
    if id in db.tasks && db.tasks[id].lease.Some? then FreeAndRecord(db, id, now) else db
  }

  function BootReleaseAll(db: Db, ids: seq<string>, now: int): Db {
    if ids == [] then db
    else BootRelease(BootReleaseAll(db, ids[..|ids| - 1], now), ids[|ids| - 1], now)
  }

  // ---- Reaping ----

  predicate Expired(t: Task, now: int) {
    t.lease.Some? && t.lease.value.expires <= now
  }

  const REAP_BLOCK: nat := 5
  const REAP_REMEDIATE: nat := 3
  const MAX_COMPLEXITY := 5

  function Worn(t: Task, now: int): Task {
    var n := t.reapCount + 1;
    var u := t.(lease := None, updatedAt := now, reapCount := n);
    if n >= REAP_BLOCK then
      u.(status := Blocked, note := Some("auto-blocked after " + Digits(n) + " reaps"))
    else if n >= REAP_REMEDIATE && t.complexity < MAX_COMPLEXITY then u.(complexity := t.complexity + 1)
    else u
  }

  function WornRows(t: Task, id: string, now: int): seq<Row> {
    var n := t.reapCount + 1;
    [Same(now, id, t.status, Reaped)] +
    (if n >= REAP_BLOCK then [Row(now, id, Some(t.status), Some(Blocked), Transitioned)]
     else if n >= REAP_REMEDIATE && t.complexity < MAX_COMPLEXITY then [Same(now, id, t.status, Remediated)]
     else [])
  }

  /** One transaction of the watchdog's sweep. */
  function ReapOne(db: Db, id: string, now: int): Db {
    if id !in db.tasks || !Expired(db.tasks[id], now) then db
    else
      var t := db.tasks[id];
      if t.status == Done || t.status == InReview then FreeLease(db, id, now)
      else
        Db(db.tasks[id := Worn(t, now)],
           LocksOfOthers(db.locks, id),
           db.history + WornRows(t, id, now))
  }

  function ReapAll(db: Db, ids: seq<string>, now: int): Db {
    if ids == [] then db
    else ReapOne(ReapAll(db, ids[..|ids| - 1], now), ids[|ids| - 1], now)
  }

  // ---- Moving through the state machine ----

  datatype MoveResult = NoTask | Illegal | NotHolder | Moved

  /** `session == ""` asks for no lease; an unknown task or an illegal move throws. */
  function MoveVerdict(db: Db, id: string, to: Status, session: string): MoveResult {
    if id !in db.tasks then NoTask
    else if !IsLegal(db.tasks[id].status, to) then Illegal
    else if session != "" && !Holds(db, id, session) then NotHolder
    else Moved
  }

  /** A property a caller may leave out, or give as a value or as null. */
  type Given = Option<Option<string>>

  function MovedTask(t: Task, to: Status, note: Given, free: bool, pr: Given, now: int): Task {
    t.(status := to, updatedAt := now,
       note := note.Or(t.note), pr := pr.Or(t.pr),
       reapCount := if to == Done then 0 else t.reapCount,
       lease := if free then None else t.lease)
  }

  /** The row moved, the lease and its locks freed if `free`, and the move recorded. */
  function Move(db: Db, id: string, to: Status, note: Given, free: bool, pr: Given, now: int): Db
    requires id in db.tasks
  {
    Db(db.tasks[id := MovedTask(db.tasks[id], to, note, free, pr, now)],
       if free then LocksOfOthers(db.locks, id) else db.locks,
       db.history + [Row(now, id, Some(db.tasks[id].status), Some(to), Transitioned)])
  }

  function Transition(db: Db, id: string, to: Status, note: Given, session: string, release: bool, pr: Given,
                      now: int): Db {
    if MoveVerdict(db, id, to, session).Moved? then Move(db, id, to, note, release || FreesLease(to), pr, now) else db
  }

  // ---- Declarative writes ----

  /** A task as a board or a planner declares it; `None` is an absent or null property. */
  datatype Declared = Declared(
    kind: Option<string>, parent: Option<string>, sprint: Option<string>, title: string, owner: Option<string>,
    status: Option<Status>, priority: Option<int>, complexity: Option<int>, riskTags: Option<seq<string>>,
    approvedAt: Option<int>, resources: Option<seq<string>>, dependsOn: Option<seq<string>>,
    spec: Option<string>, pr: Option<string>, note: Option<string>, updatedAt: Option<int>,
    acceptance: Option<string>, lane: Option<string>, taskType: Option<string>,
    snoozedUntil: Option<int>, skippedAt: Option<int>, skipReason: Option<string>,
    contracts: Option<seq<string>>, createdAt: Option<int>, source: Option<string>)

  function Inserted(d: Declared, now: int): Task {
    Task(d.kind.Or("feature"), d.parent, d.sprint, d.title, d.owner.Or("both"),
         d.status.Or(Proposed), d.priority.Or(100), d.complexity.Or(3), d.riskTags.Or([]), d.approvedAt,
         d.resources.Or([]), d.dependsOn.Or([]), d.spec, d.pr, d.note, d.updatedAt.Or(now),
         Extra(d.acceptance, d.lane.Or("standard"), d.taskType, d.snoozedUntil, d.skippedAt, d.skipReason,
               d.contracts.Or([]), d.createdAt.Or(now), d.source),
         None, 0)
  }

  /** Rewrites the declared columns of an existing row; JSON columns fall back to empty, not to their old value. */
  function Updated(t: Task, d: Declared, now: int): Task {
    Task(d.kind.Or(t.kind), d.parent.OrElse(t.parent), d.sprint.OrElse(t.sprint), d.title, d.owner.Or(t.owner),
         d.status.Or(t.status), d.priority.Or(t.priority), d.complexity.Or(t.complexity), d.riskTags.Or([]),
         d.approvedAt.OrElse(t.approvedAt),
         d.resources.Or([]), d.dependsOn.Or([]), d.spec.OrElse(t.spec), d.pr.OrElse(t.pr), d.note.OrElse(t.note),
         d.updatedAt.Or(now),
         Extra(d.acceptance.OrElse(t.extra.acceptance), d.lane.Or(t.extra.lane), d.taskType.OrElse(t.extra.taskType),
               d.snoozedUntil.OrElse(t.extra.snoozedUntil), d.skippedAt.OrElse(t.extra.skippedAt),
               d.skipReason.OrElse(t.extra.skipReason), d.contracts.Or([]), t.extra.createdAt,
               d.source.OrElse(t.extra.source)),
         t.lease, t.reapCount)
  }

  function Upsert(db: Db, id: string, d: Declared, now: int): Db {
    if id in db.tasks then db.(tasks := db.tasks[id := Updated(db.tasks[id], d, now)])
    else
      var t := Inserted(d, now);
      db.(tasks := db.tasks[id := t], history := db.history + [Row(now, id, None, Some(t.status), Seeded)])
  }

  /** Writes the columns no state-machine rule looks at; `logged` says whether an audit row is added. */
  function Touch(db: Db, id: string, note: Option<string>, sprint: Option<string>, approvedAt: Option<int>,
                 logged: bool, now: int): Db {
    if id !in db.tasks then db
    else
      var t := db.tasks[id];
      db.(tasks := db.tasks[id := t.(note := note, sprint := sprint, approvedAt := approvedAt, updatedAt := now)],
          history := db.history + if logged then [Same(now, id, t.status, Annotated)] else [])
  }

  /** annotateTask */
  function Annotate(db: Db, id: string, note: string, now: int): Db {
    if id !in db.tasks then db
    else Touch(db, id, Some(note), db.tasks[id].sprint, db.tasks[id].approvedAt, true, now)
  }

  /** setTaskNote */
  function SetNote(db: Db, id: string, note: string, now: int): Db {
    if id !in db.tasks then db
    else Touch(db, id, Some(note), db.tasks[id].sprint, db.tasks[id].approvedAt, false, now)
  }

  /** setTaskSprint */
  function SetSprint(db: Db, id: string, sprint: string, now: int): Db {
    if id !in db.tasks then db
    else Touch(db, id, db.tasks[id].note, Some(sprint), db.tasks[id].approvedAt, false, now)
  }

  /** setGovernanceFlags, as far as the founder approval goes */
  function SetApproval(db: Db, id: string, approvedAt: Option<int>, now: int): Db {
    if id !in db.tasks then db
    else Touch(db, id, db.tasks[id].note, db.tasks[id].sprint, approvedAt, true, now)
  }

  // ---- Runs ----

  /** One committed transaction, by any process. */
  datatype Action =
    | DoClaim(id: string, agent: string, session: string, ttl: int, now: int)
    | DoHeartbeat(id: string, session: string, ttl: int, now: int)
    | DoRelease(id: string, session: string, now: int)
    | DoForceRelease(id: string, agent: string, now: int)
    | DoBootRelease(id: string, now: int)
    | DoReap(id: string, now: int)
    | DoTransition(id: string, to: Status, note: Given, session: string, release: bool, pr: Given, now: int)
    | DoUpsert(id: string, d: Declared, now: int)
    | DoAnnotate(id: string, text: string, now: int)
    | DoSetNote(id: string, text: string, now: int)
    | DoSetSprint(id: string, sprint: string, now: int)
    | DoSetApproval(id: string, approvedAt: Option<int>, now: int)

  ghost function Apply(db: Db, a: Action): Db {
    match a
    case DoClaim(id, agent, session, ttl, now) => Claim(db, id, agent, session, ttl, now, CLAIMABLE)
    case DoHeartbeat(id, session, ttl, now) => Heartbeat(db, id, session, ttl, now)
    case DoRelease(id, session, now) => Release(db, id, session, now)
    case DoForceRelease(id, agent, now) => ForceRelease(db, id, agent, now)
    case DoBootRelease(id, now) => BootRelease(db, id, now)
    case DoReap(id, now) => ReapOne(db, id, now)
    case DoTransition(id, to, note, session, release, pr, now) =>
      Transition(db, id, to, note, session, release, pr, now)
    case DoUpsert(id, d, now) => Upsert(db, id, d, now)
    case DoAnnotate(id, note, now) => Annotate(db, id, note, now)
    case DoSetNote(id, note, now) => SetNote(db, id, note, now)
    case DoSetSprint(id, sprint, now) => SetSprint(db, id, sprint, now)
    case DoSetApproval(id, approvedAt, now) => SetApproval(db, id, approvedAt, now)
  }

  /** The tables after the actions have committed in this order: any interleaving of any processes. */
  ghost function Run(db: Db, actions: seq<Action>): Db {
    if actions == [] then db
    else Apply(Run(db, actions[..|actions| - 1]), actions[|actions| - 1])
  }
}
