/**
 * The committed board (render.mjs) and seeding from it (state.mjs): rendering and seeding are a
 * fixed point, so a fresh checkout rebuilds the same board.
 */
module Board {
  import opened Common
  import opened Machine
  import opened Store
  import opened Listing
  import TaskStore

  datatype Pi = Pi(id: string, name: string, status: string)

  datatype Sprint = Sprint(id: string, pi: Option<string>, name: string, start: Option<string>, end: Option<string>,
                           goal: Option<string>, status: string)

  /** The planning tables, in rowid order, beside the task tables. */
  datatype Database = Database(pis: seq<Pi>, sprints: seq<Sprint>, db: Db)

  datatype Entry = Entry(id: string, declared: Declared)

  /** Increments and sprints as a board declares them: an absent status is `None`. */
  datatype DeclaredPi = DeclaredPi(id: string, name: string, status: Option<string>)

  datatype DeclaredSprint = DeclaredSprint(id: string, pi: Option<string>, name: string, start: Option<string>,
                                           end: Option<string>, goal: Option<string>, status: Option<string>)

  datatype BoardJson = BoardJson(pis: seq<DeclaredPi>, sprints: seq<DeclaredSprint>, tasks: seq<Entry>)

  // ---- Rendering ----

  /** Every durable column; the lease, the stall counter and the source are not durable. */
  function ProjectTask(t: Task): Declared {
    Declared(Some(t.kind), t.parent, t.sprint, t.title, Some(t.owner), Some(t.status),
             Some(t.priority), Some(t.complexity), Some(t.riskTags), t.approvedAt,
             Some(t.resources), Some(t.dependsOn), t.spec, t.pr, t.note, Some(t.updatedAt),
             t.extra.acceptance, Some(t.extra.lane), t.extra.taskType, t.extra.snoozedUntil, t.extra.skippedAt,
             t.extra.skipReason, Some(t.extra.contracts), Some(t.extra.createdAt), None)
  }

  /** NULL start dates come first. */
  predicate StartsBefore(a: Sprint, b: Sprint) {
    b.start.Some? && (a.start.None? || StrLess(a.start.value, b.start.value))
  }

  /** Stable: a sprint goes behind those that do not start after it. */
  function Place(s: seq<Sprint>, x: Sprint): seq<Sprint> {
    if s == [] || !StartsBefore(x, s[|s| - 1]) then s + [x] else Place(s[..|s| - 1], x) + [s[|s| - 1]]
  }

  function ByStart(s: seq<Sprint>): seq<Sprint> {
    if s == [] then [] else Place(ByStart(s[..|s| - 1]), s[|s| - 1])
  }

  function Entries(tasks: map<string, Task>, rows: seq<string>): seq<Entry>
    requires forall id | id in rows :: id in tasks
  {
    if rows == [] then []
    else Entries(tasks, rows[..|rows| - 1]) + [Entry(rows[|rows| - 1], ProjectTask(tasks[rows[|rows| - 1]]))]
  }

  function ListTasks(tasks: map<string, Task>): (rows: seq<string>)
    ensures forall id | id in rows :: id in tasks
  {
    var rows := Rows(tasks, tasks.Keys);
    RowsElems(tasks, tasks.Keys);
    assert forall id | id in rows :: id in Elems(rows);
    rows
  }

  function DeclarePi(p: Pi): DeclaredPi {
    DeclaredPi(p.id, p.name, Some(p.status))
  }

  function DeclareSprint(s: Sprint): DeclaredSprint {
    DeclaredSprint(s.id, s.pi, s.name, s.start, s.end, s.goal, Some(s.status))
  }

  function DeclarePis(list: seq<Pi>): (r: seq<DeclaredPi>)
    ensures |r| == |list| && forall k :: 0 <= k < |r| ==> r[k] == DeclarePi(list[k])
  {
    if list == [] then [] else DeclarePis(list[..|list| - 1]) + [DeclarePi(list[|list| - 1])]
  }

  function DeclareSprints(list: seq<Sprint>): (r: seq<DeclaredSprint>)
    ensures |r| == |list| && forall k :: 0 <= k < |r| ==> r[k] == DeclareSprint(list[k])
  {
    if list == [] then [] else DeclareSprints(list[..|list| - 1]) + [DeclareSprint(list[|list| - 1])]
  }

  /** buildBoardJson */
  function Render(d: Database): BoardJson {
    BoardJson(DeclarePis(d.pis), DeclareSprints(ByStart(d.sprints)), Entries(d.db.tasks, ListTasks(d.db.tasks)))
  }

  // ---- Seeding ----

  const PLANNING := "planning"

  function NewPi(p: DeclaredPi): Pi {
    Pi(p.id, p.name, p.status.Or(PLANNING))
  }

  function MergePi(prior: Pi, p: DeclaredPi): Pi {
    Pi(p.id, p.name, p.status.Or(prior.status))
  }

  function UpsertPi(pis: seq<Pi>, p: DeclaredPi): seq<Pi> {
    if pis == [] then [NewPi(p)]
    else if pis[0].id == p.id then [MergePi(pis[0], p)] + pis[1..]
    else [pis[0]] + UpsertPi(pis[1..], p)
  }

  function UpsertPis(pis: seq<Pi>, list: seq<DeclaredPi>): seq<Pi> {
    if list == [] then pis else UpsertPi(UpsertPis(pis, list[..|list| - 1]), list[|list| - 1])
  }

  function NewSprint(s: DeclaredSprint): Sprint {
    Sprint(s.id, s.pi, s.name, s.start, s.end, s.goal, s.status.Or(PLANNING))
  }

  function MergeSprint(prior: Sprint, s: DeclaredSprint): Sprint {
    Sprint(s.id, s.pi.OrElse(prior.pi), s.name, s.start.OrElse(prior.start), s.end.OrElse(prior.end),
           s.goal.OrElse(prior.goal), s.status.Or(prior.status))
  }

  function UpsertSprint(sprints: seq<Sprint>, s: DeclaredSprint): seq<Sprint> {
    if sprints == [] then [NewSprint(s)]
    else if sprints[0].id == s.id then [MergeSprint(sprints[0], s)] + sprints[1..]
    else [sprints[0]] + UpsertSprint(sprints[1..], s)
  }

  function UpsertSprints(sprints: seq<Sprint>, list: seq<DeclaredSprint>): seq<Sprint> {
    if list == [] then sprints else UpsertSprint(UpsertSprints(sprints, list[..|list| - 1]), list[|list| - 1])
  }

  predicate KnownPi(pis: seq<Pi>, pi: Option<string>) {
    pi.None? || exists k :: 0 <= k < |pis| && pis[k].id == pi.value
  }

  function UpsertTasks(db: Db, list: seq<Entry>, now: int): Db {
    if list == [] then db
    else Upsert(UpsertTasks(db, list[..|list| - 1], now), list[|list| - 1].id, list[|list| - 1].declared, now)
  }

  /** seedTasks; `None` is the transaction that a foreign key aborts. */
  function Seed(d: Database, b: BoardJson, now: int): Option<Database> {
    var pis := UpsertPis(d.pis, b.pis);
    if forall k | 0 <= k < |b.sprints| :: KnownPi(pis, b.sprints[k].pi) then
      Some(Database(pis, UpsertSprints(d.sprints, b.sprints), UpsertTasks(d.db, b.tasks, now)))
    else None
  }

  /** The planning tables and the task store on one connection. */
  class BoardDb {
    var pis: seq<Pi>
    var sprints: seq<Sprint>
    const store: TaskStore.TaskStore

    ghost function State(): Database
      reads this, store
    {
      Database(pis, sprints, store.State())
    }

    constructor ()
      ensures State() == Database([], [], EMPTY) && fresh(store)
    {
      pis, sprints := [], [];
      store := new TaskStore.TaskStore();
    }

    method WritePi(p: DeclaredPi)
      modifies this`pis
      ensures pis == UpsertPi(old(pis), p)
    {
      var i := 0;
      while i < |pis| && pis[i].id != p.id
        invariant 0 <= i <= |pis|
        invariant UpsertPi(pis, p) == pis[..i] + UpsertPi(pis[i..], p)
      {
        assert pis[i..][1..] == pis[i + 1..];
        assert pis[..i + 1] + UpsertPi(pis[i + 1..], p) == pis[..i] + ([pis[i]] + UpsertPi(pis[i + 1..], p));
        i := i + 1;
      }
      if i < |pis| {
        assert pis[i..][1..] == pis[i + 1..];
        pis := pis[..i] + ([MergePi(pis[i], p)] + pis[i + 1..]);
      } else {
        pis := pis[..i] + [NewPi(p)];
      }
    }

    method WriteSprint(s: DeclaredSprint)
      modifies this`sprints
      ensures sprints == UpsertSprint(old(sprints), s)
    {
      var i := 0;
      while i < |sprints| && sprints[i].id != s.id
        invariant 0 <= i <= |sprints|
        invariant UpsertSprint(sprints, s) == sprints[..i] + UpsertSprint(sprints[i..], s)
      {
        assert sprints[i..][1..] == sprints[i + 1..];
        assert sprints[..i + 1] + UpsertSprint(sprints[i + 1..], s) ==
               sprints[..i] + ([sprints[i]] + UpsertSprint(sprints[i + 1..], s));
        i := i + 1;
      }
      if i < |sprints| {
        assert sprints[i..][1..] == sprints[i + 1..];
        sprints := sprints[..i] + ([MergeSprint(sprints[i], s)] + sprints[i + 1..]);
      } else {
        sprints := sprints[..i] + [NewSprint(s)];
      }
    }

    /** One transaction: program increments, sprints, tasks; a foreign-key failure rolls it back. */
    method SeedTasks(b: BoardJson, now: int) returns (ok: bool)
      modifies this`pis, this`sprints, store
      ensures ok <==> Seed(old(State()), b, now).Some?
      ensures State() == Seed(old(State()), b, now).Or(old(State()))
    {
      var pis0, sprints0 := pis, sprints;
      assert b.pis[..0] == [];
      for i := 0 to |b.pis|
        invariant pis == UpsertPis(pis0, b.pis[..i])
        invariant store.State() == old(store.State()) && sprints == sprints0
      {
        assert b.pis[..i + 1][..i] == b.pis[..i];
        WritePi(b.pis[i]);
      }
      assert b.pis[..|b.pis|] == b.pis;
      assert b.sprints[..0] == [];
      for i := 0 to |b.sprints|
        invariant pis == UpsertPis(pis0, b.pis)
        invariant sprints == UpsertSprints(sprints0, b.sprints[..i])
        invariant forall k :: 0 <= k < i ==> KnownPi(pis, b.sprints[k].pi)
        invariant store.State() == old(store.State())
      {
        assert b.sprints[..i + 1][..i] == b.sprints[..i];
        if !KnownPi(pis, b.sprints[i].pi) {
          pis, sprints := pis0, sprints0;
          return false;
        }
        WriteSprint(b.sprints[i]);
      }
      assert b.sprints[..|b.sprints|] == b.sprints;
      SeedRows(b.tasks, now);
      ok := true;
    }

    method SeedRows(list: seq<Entry>, now: int)
      modifies store
      ensures store.State() == UpsertTasks(old(store.State()), list, now)
    {
      assert list[..0] == [];
      for i := 0 to |list|
        invariant store.State() == UpsertTasks(old(store.State()), list[..i], now)
      {
        assert list[..i + 1][..i] == list[..i];
        store.UpsertTask(list[i].id, list[i].declared, now);
      }
      assert list[..|list|] == list;
    }
  }

  // ---- Tables as the schema keeps them ----

  ghost predicate DistinctPis(pis: seq<Pi>) {
    forall i, j :: 0 <= i < j < |pis| ==> pis[i].id != pis[j].id
  }

  ghost predicate DistinctPiIds(list: seq<DeclaredPi>) {
    forall i, j :: 0 <= i < j < |list| ==> list[i].id != list[j].id
  }

  ghost predicate DistinctSprintIds(list: seq<DeclaredSprint>) {
    forall i, j :: 0 <= i < j < |list| ==> list[i].id != list[j].id
  }

  ghost predicate DistinctSprints(s: seq<Sprint>) {
    forall i, j :: 0 <= i < j < |s| ==> s[i].id != s[j].id
  }

  ghost predicate DistinctEntries(list: seq<Entry>) {
    forall i, j :: 0 <= i < j < |list| ==> list[i].id != list[j].id
  }

  /** Primary and foreign keys. */
  ghost predicate WellKeyed(d: Database) {
    && DistinctPis(d.pis) && DistinctSprints(d.sprints)
    && forall k :: 0 <= k < |d.sprints| ==> KnownPi(d.pis, d.sprints[k].pi)
  }

  // ---- Sprint order ----

  ghost predicate InOrder(s: seq<Sprint>) {
    forall i, j :: 0 <= i < j < |s| ==> !StartsBefore(s[j], s[i])
  }

  lemma StartsTrans(a: Sprint, b: Sprint, c: Sprint)
    requires !StartsBefore(b, a) && !StartsBefore(c, b)
    ensures !StartsBefore(c, a)
  {
    if StartsBefore(c, a) && c.start.Some? {
      if b.start.Some? {
        StrLessTotal(c.start.value, b.start.value);
        StrLessTotal(a.start.value, b.start.value);
        if StrLess(b.start.value, c.start.value) {
          StrLessTrans(b.start.value, c.start.value, a.start.value);
        }
      }
    }
  }

  lemma AppendInOrder(s: seq<Sprint>, x: Sprint)
    requires InOrder(s) && forall y | y in s :: !StartsBefore(x, y)
    ensures InOrder(s + [x])
  {
    assert forall i :: 0 <= i < |s| ==> s[i] in s;
  }

  lemma LastIsLatest(s: seq<Sprint>, x: Sprint)
    requires InOrder(s) && s != [] && !StartsBefore(x, s[|s| - 1])
    ensures forall y | y in s :: !StartsBefore(x, y)
  {
    forall y | y in s ensures !StartsBefore(x, y) {
      var i :| 0 <= i < |s| && s[i] == y;
      if i < |s| - 1 {
        StartsTrans(y, s[|s| - 1], x);
      }
    }
  }

  lemma BeforeIsOneWay(a: Sprint, b: Sprint)
    requires StartsBefore(a, b)
    ensures !StartsBefore(b, a)
  {
    if a.start.Some? && b.start.Some? {
      StrLessTotal(a.start.value, b.start.value);
    }
  }

  lemma LastOut(s: seq<Sprint>)
    requires s != []
    ensures multiset(s) == multiset(s[..|s| - 1]) + multiset{s[|s| - 1]}
  {
    assert s == s[..|s| - 1] + [s[|s| - 1]];
  }

  lemma {:induction false} PlaceElems(s: seq<Sprint>, x: Sprint)
    ensures multiset(Place(s, x)) == multiset(s) + multiset{x}
  {
    if s != [] && StartsBefore(x, s[|s| - 1]) {
      LastOut(s);
      PlaceElems(s[..|s| - 1], x);
    }
  }

  lemma PlacedBefore(init: seq<Sprint>, x: Sprint, last: Sprint)
    requires InOrder(init + [last]) && StartsBefore(x, last)
    ensures forall y | y in Place(init, x) :: !StartsBefore(last, y)
  {
    PlaceElems(init, x);
    BeforeIsOneWay(x, last);
    forall y | y in Place(init, x) ensures !StartsBefore(last, y) {
      assert y in multiset(Place(init, x));
      if y != x {
        var i :| 0 <= i < |init| && init[i] == y;
        assert (init + [last])[i] == y && (init + [last])[|init|] == last;
      }
    }
  }

  lemma {:induction false} PlaceKeepsOrder(s: seq<Sprint>, x: Sprint)
    requires InOrder(s)
    ensures InOrder(Place(s, x))
  {
    if s == [] {
    } else if StartsBefore(x, s[|s| - 1]) {
      var init, last := s[..|s| - 1], s[|s| - 1];
      assert s == init + [last];
      PlaceKeepsOrder(init, x);
      PlacedBefore(init, x, last);
      AppendInOrder(Place(init, x), last);
    } else {
      LastIsLatest(s, x);
      AppendInOrder(s, x);
    }
  }

  /** The sprints that start then, in the order they are listed in. */
  function StartingAt(s: seq<Sprint>, start: Option<string>): seq<Sprint> {
    if s == [] then []
    else StartingAt(s[..|s| - 1], start) + if s[|s| - 1].start == start then [s[|s| - 1]] else []
  }

  lemma StartingAtSnoc(s: seq<Sprint>, x: Sprint, start: Option<string>)
    ensures StartingAt(s + [x], start) == StartingAt(s, start) + if x.start == start then [x] else []
  {
    assert (s + [x])[..|s|] == s;
  }

  lemma PlacedInFront(init: seq<Sprint>, x: Sprint, last: Sprint, start: Option<string>)
    requires StartsBefore(x, last)
    requires StartingAt(Place(init, x), start) == StartingAt(init, start) + if x.start == start then [x] else []
    ensures StartingAt(Place(init, x) + [last], start) ==
            StartingAt(init + [last], start) + if x.start == start then [x] else []
  {
    StartingAtSnoc(Place(init, x), last, start);
    StartingAtSnoc(init, last, start);
    BeforeIsOneWay(x, last);
    assert x.start != last.start;
  }

  lemma {:induction false} PlaceIsStable(s: seq<Sprint>, x: Sprint, start: Option<string>)
    ensures StartingAt(Place(s, x), start) == StartingAt(s, start) + if x.start == start then [x] else []
  {
    if s != [] && StartsBefore(x, s[|s| - 1]) {
      var init, last := s[..|s| - 1], s[|s| - 1];
      PlaceIsStable(init, x, start);
      PlacedInFront(init, x, last, start);
      assert s == init + [last];
    } else {
      StartingAtSnoc(s, x, start);
    }
  }

  /** In the order of their starts, text for text, and those without one first. */
  ghost predicate Dated(s: seq<Sprint>) {
    forall i, j :: 0 <= i < j < |s| && s[i].start.Some? ==>
      s[j].start.Some? && (s[i].start == s[j].start || StrLess(s[i].start.value, s[j].start.value))
  }

  lemma InOrderIsDated(s: seq<Sprint>)
    requires InOrder(s)
    ensures Dated(s)
  {
    forall i, j | 0 <= i < j < |s| && s[i].start.Some?
      ensures s[j].start.Some? && (s[i].start == s[j].start || StrLess(s[i].start.value, s[j].start.value))
    {
      assert !StartsBefore(s[j], s[i]);
      if s[j].start.Some? {
        StrLessTotal(s[i].start.value, s[j].start.value);
      }
    }
  }

  /** The listing has every sprint of the table, in the order of their starts. */
  lemma {:induction false} ByStartSorts(s: seq<Sprint>)
    ensures InOrder(ByStart(s)) && Dated(ByStart(s)) && multiset(ByStart(s)) == multiset(s)
  {
    if s != [] {
      ByStartSorts(s[..|s| - 1]);
      PlaceKeepsOrder(ByStart(s[..|s| - 1]), s[|s| - 1]);
      PlaceElems(ByStart(s[..|s| - 1]), s[|s| - 1]);
      LastOut(s);
    }
    InOrderIsDated(ByStart(s));
  }

  /** And it is stable: sprints that start together stay in the table's order. */
  lemma {:induction false} ByStartIsStable(s: seq<Sprint>, start: Option<string>)
    ensures StartingAt(ByStart(s), start) == StartingAt(s, start)
  {
    if s != [] {
      ByStartIsStable(s[..|s| - 1], start);
      PlaceIsStable(ByStart(s[..|s| - 1]), s[|s| - 1], start);
    }
  }

  lemma {:induction false} ByStartOfOrdered(s: seq<Sprint>)
    requires InOrder(s)
    ensures ByStart(s) == s
  {
    if s != [] {
      var n := |s| - 1;
      ByStartOfOrdered(s[..n]);
      assert s == s[..n] + [s[n]];
    }
  }

  /** Listing sprints loses and repeats none of them. */
  lemma ByStartDistinct(s: seq<Sprint>)
    requires DistinctSprints(s)
    ensures DistinctSprints(ByStart(s)) && forall x :: x in ByStart(s) <==> x in s
  {
    ByStartSorts(s);
    var b := ByStart(s);
    forall x ensures x in b <==> x in s {
      assert x in multiset(b) <==> x in multiset(s);
    }
    forall i, j | 0 <= i < j < |b| ensures b[i].id != b[j].id {
      if b[i].id == b[j].id {
        assert b[i] in s && b[j] in s;
        assert b[i] == b[j];
        TwiceInMultiset(b, i, j);
        OnceInMultiset(s, b[i]);
      }
    }
  }

  lemma TwiceInMultiset(b: seq<Sprint>, i: nat, j: nat)
    requires i < j < |b| && b[i] == b[j]
    ensures multiset(b)[b[i]] >= 2
  {
    assert b == b[..j] + [b[j]] + b[j + 1..];
    assert b[i] in b[..j];
  }

  lemma {:induction false} OnceInMultiset(s: seq<Sprint>, x: Sprint)
    requires DistinctSprints(s)
    ensures multiset(s)[x] <= 1
  {
    if s != [] {
      var n := |s| - 1;
      OnceInMultiset(s[..n], x);
      assert s == s[..n] + [s[n]];
      if x == s[n] {
        assert x !in s[..n];
      }
    }
  }

  // ---- Planning tables ----

  lemma {:induction false} PiIsNew(pis: seq<Pi>, p: DeclaredPi)
    requires forall k :: 0 <= k < |pis| ==> pis[k].id != p.id
    ensures UpsertPi(pis, p) == pis + [NewPi(p)]
  {
    if pis != [] {
      PiIsNew(pis[1..], p);
      assert pis == [pis[0]] + pis[1..];
    }
  }

  lemma {:induction false} PiIsKnown(pis: seq<Pi>, k: nat)
    requires DistinctPis(pis) && k < |pis|
    ensures UpsertPi(pis, DeclarePi(pis[k])) == pis
  {
    assert pis == [pis[0]] + pis[1..];
    if k > 0 {
      assert pis[1..][k - 1] == pis[k];
      PiIsKnown(pis[1..], k - 1);
    }
  }

  /** Position `k` is where a row with this id stands, or the end if there is none. */
  ghost predicate StandsAt(ids: seq<string>, id: string, k: nat) {
    k <= |ids| && (k < |ids| ==> ids[k] == id) && forall j :: 0 <= j < k ==> ids[j] != id
  }

  function PiIds(pis: seq<Pi>): (ids: seq<string>)
    ensures |ids| == |pis| && forall k :: 0 <= k < |ids| ==> ids[k] == pis[k].id
  {
    seq(|pis|, k requires 0 <= k < |pis| => pis[k].id)
  }

  function SprintIds(s: seq<Sprint>): (ids: seq<string>)
    ensures |ids| == |s| && forall k :: 0 <= k < |ids| ==> ids[k] == s[k].id
  {
    seq(|s|, k requires 0 <= k < |s| => s[k].id)
  }

  /** A declared increment is renamed where it stands, its status kept unless declared; a new one is in planning. */
  lemma {:induction false} PiUpserted(pis: seq<Pi>, p: DeclaredPi, k: nat)
    requires StandsAt(PiIds(pis), p.id, k)
    ensures UpsertPi(pis, p) ==
            if k == |pis| then pis + [Pi(p.id, p.name, if p.status.Some? then p.status.value else "planning")]
            else pis[k := Pi(p.id, p.name, if p.status.Some? then p.status.value else pis[k].status)]
  {
    if k == |pis| {
      PiIsNew(pis, p);
    } else {
      assert pis == [pis[0]] + pis[1..];
      if k > 0 {
        PiUpserted(pis[1..], p, k - 1);
      }
    }
  }

  /** The sprint with every column that is declared, and the others as they were. */
  function Renewed(was: Sprint, x: DeclaredSprint): Sprint {
    Sprint(x.id, if x.pi.Some? then x.pi else was.pi, x.name,
           if x.start.Some? then x.start else was.start, if x.end.Some? then x.end else was.end,
           if x.goal.Some? then x.goal else was.goal, if x.status.Some? then x.status.value else was.status)
  }

  lemma MergeRenews(was: Sprint, x: DeclaredSprint)
    ensures MergeSprint(was, x) == Renewed(was, x)
  {
  }

  lemma RenewedBehind(first: Sprint, rest: seq<Sprint>, x: DeclaredSprint, k: nat)
    requires k < |rest| && first.id != x.id && UpsertSprint(rest, x) == rest[k := Renewed(rest[k], x)]
    ensures UpsertSprint([first] + rest, x) == ([first] + rest)[k + 1 := Renewed(rest[k], x)]
  {
    assert ([first] + rest)[1..] == rest;
  }

  /** So is a declared sprint: dates, goal and increment keep what they were unless declared. */
  lemma {:induction false} SprintUpserted(s: seq<Sprint>, x: DeclaredSprint, k: nat)
    requires StandsAt(SprintIds(s), x.id, k)
    ensures UpsertSprint(s, x) ==
            if k == |s| then s + [Renewed(Sprint(x.id, None, x.name, None, None, None, "planning"), x)]
            else s[k := Renewed(s[k], x)]
  {
    if k == |s| {
      SprintIsNew(s, x);
    } else {
      MergeRenews(s[0], x);
      assert s == [s[0]] + s[1..];
      if k > 0 {
        assert SprintIds(s[1..]) == SprintIds(s)[1..];
        SprintUpserted(s[1..], x, k - 1);
        RenewedBehind(s[0], s[1..], x, k - 1);
      }
    }
  }

  lemma {:induction false} SprintIsNew(s: seq<Sprint>, x: DeclaredSprint)
    requires forall k :: 0 <= k < |s| ==> s[k].id != x.id
    ensures UpsertSprint(s, x) == s + [NewSprint(x)]
  {
    if s != [] {
      SprintIsNew(s[1..], x);
      assert s == [s[0]] + s[1..];
    }
  }

  lemma {:induction false} SprintIsKnown(s: seq<Sprint>, k: nat)
    requires DistinctSprints(s) && k < |s|
    ensures UpsertSprint(s, DeclareSprint(s[k])) == s
  {
    assert s == [s[0]] + s[1..];
    if k > 0 {
      assert s[1..][k - 1] == s[k];
      SprintIsKnown(s[1..], k - 1);
    }
  }

  lemma {:induction false} FreshPis(list: seq<Pi>)
    requires DistinctPis(list)
    ensures UpsertPis([], DeclarePis(list)) == list
  {
    if list != [] {
      var init, last := list[..|list| - 1], list[|list| - 1];
      FreshPis(init);
      PiIsNew(init, DeclarePi(last));
      assert DeclarePis(list)[..|list| - 1] == DeclarePis(init);
      assert list == init + [last];
    }
  }

  lemma {:induction false} FreshSprints(list: seq<Sprint>)
    requires DistinctSprints(list)
    ensures UpsertSprints([], DeclareSprints(list)) == list
  {
    if list != [] {
      var init, last := list[..|list| - 1], list[|list| - 1];
      FreshSprints(init);
      SprintIsNew(init, DeclareSprint(last));
      assert DeclareSprints(list)[..|list| - 1] == DeclareSprints(init);
      assert list == init + [last];
    }
  }

  lemma {:induction false} KnownPis(pis: seq<Pi>, list: seq<Pi>)
    requires DistinctPis(pis) && forall p | p in list :: p in pis
    ensures UpsertPis(pis, DeclarePis(list)) == pis
  {
    if list != [] {
      var init, last := list[..|list| - 1], list[|list| - 1];
      KnownPis(pis, init);
      assert DeclarePis(list)[..|list| - 1] == DeclarePis(init);
      assert last in pis;
      var k :| 0 <= k < |pis| && pis[k] == last;
      PiIsKnown(pis, k);
    }
  }

  lemma {:induction false} KnownSprints(s: seq<Sprint>, list: seq<Sprint>)
    requires DistinctSprints(s) && forall x | x in list :: x in s
    ensures UpsertSprints(s, DeclareSprints(list)) == s
  {
    if list != [] {
      var init, last := list[..|list| - 1], list[|list| - 1];
      KnownSprints(s, init);
      assert DeclareSprints(list)[..|list| - 1] == DeclareSprints(init);
      assert last in s;
      var k :| 0 <= k < |s| && s[k] == last;
      SprintIsKnown(s, k);
    }
  }

  // ---- Tasks ----

  lemma UpdateWithOwn(t: Task, now: int)
    ensures Updated(t, ProjectTask(t), now) == t
  {
  }

  lemma UpdateTwice(t: Task, d: Declared, now: int, later: int)
    requires d.updatedAt.Some?
    ensures Updated(Updated(t, d, now), d, later) == Updated(t, d, now)
    ensures Updated(Inserted(d, now), d, later) == Inserted(d, now)
  {
  }

  lemma {:induction false} EntriesShape(tasks: map<string, Task>, rows: seq<string>)
    requires forall id | id in rows :: id in tasks
    ensures var e := Entries(tasks, rows);
      |e| == |rows| && forall k :: 0 <= k < |rows| ==> e[k] == Entry(rows[k], ProjectTask(tasks[rows[k]]))
  {
    if rows != [] {
      EntriesShape(tasks, rows[..|rows| - 1]);
    }
  }

  lemma ListedDistinct(tasks: map<string, Task>)
    ensures NoDup(ListTasks(tasks)) && Elems(ListTasks(tasks)) == tasks.Keys && Ordered(tasks, ListTasks(tasks))
  {
    RowsOrdered(tasks, tasks.Keys);
    var rows := ListTasks(tasks);
    forall i, j | 0 <= i < j < |rows| ensures rows[i] != rows[j] {
      assert Before(tasks, rows[i], rows[j]);
      BeforeIsStrictOrder(tasks, rows[i], rows[i]);
    }
  }

  function Ids(list: seq<Entry>): set<string> {
    set k | 0 <= k < |list| :: list[k].id
  }

  lemma IdsSnoc(list: seq<Entry>)
    requires list != []
    ensures Ids(list) == Ids(list[..|list| - 1]) + {list[|list| - 1].id}
  {
    forall id ensures id in Ids(list) <==> id in Ids(list[..|list| - 1]) || id == list[|list| - 1].id {
    }
  }

  lemma UpsertKeys(db: Db, e: Entry, now: int)
    ensures Upsert(db, e.id, e.declared, now).tasks.Keys == db.tasks.Keys + {e.id}
  {
  }

  lemma {:induction false} UpsertTasksKeys(db: Db, list: seq<Entry>, now: int)
    ensures UpsertTasks(db, list, now).tasks.Keys == db.tasks.Keys + Ids(list)
  {
    if list != [] {
      var n := |list| - 1;
      UpsertTasksKeys(db, list[..n], now);
      UpsertKeys(UpsertTasks(db, list[..n], now), list[n], now);
      IdsSnoc(list);
    }
  }

  lemma {:induction false} UpsertTasksOther(db: Db, list: seq<Entry>, now: int, id: string)
    requires forall k :: 0 <= k < |list| ==> list[k].id != id
    ensures var after := UpsertTasks(db, list, now).tasks;
      (id in after <==> id in db.tasks) && (id in after ==> after[id] == db.tasks[id])
  {
    if list != [] {
      UpsertTasksOther(db, list[..|list| - 1], now, id);
    }
  }

  function Seeded(db: Db, e: Entry, now: int): Task {
    if e.id in db.tasks then Updated(db.tasks[e.id], e.declared, now) else Inserted(e.declared, now)
  }

  /** Seeding distinct entries: each ends as its own upsert of the row that was there. */
  lemma {:induction false} UpsertTasksAt(db: Db, list: seq<Entry>, now: int, k: nat)
    requires DistinctEntries(list) && k < |list|
    ensures var after := UpsertTasks(db, list, now).tasks;
      list[k].id in after && after[list[k].id] == Seeded(db, list[k], now)
  {
    var n := |list| - 1;
    if k == n {
      UpsertTasksOther(db, list[..n], now, list[n].id);
    } else {
      UpsertTasksAt(db, list[..n], now, k);
    }
  }

  /** Task lists agree when ids and priorities do. */
  lemma SameListing(a: map<string, Task>, b: map<string, Task>)
    requires a.Keys == b.Keys && forall id | id in a :: a[id].priority == b[id].priority
    ensures ListTasks(a) == ListTasks(b)
  {
    ListedDistinct(a);
    ListedDistinct(b);
    var rows := ListTasks(a);
    forall i, j | 0 <= i < j < |rows| ensures rows[i] in b && rows[j] in b && Before(b, rows[i], rows[j]) {
      assert Before(a, rows[i], rows[j]);
    }
    OrderedUnique(b, rows, ListTasks(b));
  }

  lemma {:induction false} EntriesAlike(a: map<string, Task>, b: map<string, Task>, rows: seq<string>)
    requires forall id | id in rows :: id in a && id in b && ProjectTask(a[id]) == ProjectTask(b[id])
    ensures Entries(a, rows) == Entries(b, rows)
  {
    if rows != [] {
      assert rows[|rows| - 1] in rows;
      EntriesAlike(a, b, rows[..|rows| - 1]);
    }
  }

  lemma SameEntries(a: map<string, Task>, b: map<string, Task>)
    requires a.Keys == b.Keys && forall id | id in a :: ProjectTask(a[id]) == ProjectTask(b[id])
    ensures Entries(a, ListTasks(a)) == Entries(b, ListTasks(b))
  {
    forall id | id in a ensures a[id].priority == b[id].priority {
      assert ProjectTask(a[id]).priority == ProjectTask(b[id]).priority;
    }
    SameListing(a, b);
    EntriesAlike(a, b, ListTasks(a));
  }

  /** The entries of a board name each task once and carry its projection. */
  lemma EntriesOfTask(tasks: map<string, Task>, id: string) returns (k: nat)
    requires id in tasks
    ensures var e := Entries(tasks, ListTasks(tasks));
      k < |e| && e[k] == Entry(id, ProjectTask(tasks[id])) && DistinctEntries(e)
      && Ids(e) == tasks.Keys
  {
    ListedDistinct(tasks);
    var rows := ListTasks(tasks);
    EntriesShape(tasks, rows);
    EntryIds(tasks);
    assert id in Elems(rows);
    k :| 0 <= k < |rows| && rows[k] == id;
  }

  lemma EntryIds(tasks: map<string, Task>)
    ensures var e := Entries(tasks, ListTasks(tasks));
      DistinctEntries(e) && Ids(e) == tasks.Keys
  {
    ListedDistinct(tasks);
    EntriesShape(tasks, ListTasks(tasks));
    RowIds(tasks, ListTasks(tasks));
  }

  lemma {:induction false} RowIds(tasks: map<string, Task>, rows: seq<string>)
    requires forall id | id in rows :: id in tasks
    ensures Ids(Entries(tasks, rows)) == Elems(rows)
  {
    if rows != [] {
      var init, last := rows[..|rows| - 1], rows[|rows| - 1];
      RowIds(tasks, init);
      IdsSnoc(Entries(tasks, rows));
      assert Entries(tasks, rows)[..|Entries(tasks, rows)| - 1] == Entries(tasks, init);
      assert rows == init + [last];
      ElemsSnoc(init, last);
    }
  }

  // ---- Foreign keys ----

  ghost predicate PiAmong(pis: seq<Pi>, id: string) {
    exists k :: 0 <= k < |pis| && pis[k].id == id
  }

  ghost predicate PiDeclared(list: seq<DeclaredPi>, id: string) {
    exists k :: 0 <= k < |list| && list[k].id == id
  }

  lemma {:induction false} PiAdded(pis: seq<Pi>, p: DeclaredPi, id: string)
    ensures PiAmong(UpsertPi(pis, p), id) <==> PiAmong(pis, id) || p.id == id
  {
    if pis != [] && pis[0].id != p.id {
      PiAdded(pis[1..], p, id);
      var more := UpsertPi(pis[1..], p);
      assert UpsertPi(pis, p) == [pis[0]] + more;
      assert pis == [pis[0]] + pis[1..];
      assert PiAmong([pis[0]] + more, id) <==> pis[0].id == id || PiAmong(more, id) by {
        FirstOrAmong(pis[0], more, id);
      }
      FirstOrAmong(pis[0], pis[1..], id);
    } else {
      assert UpsertPi(pis, p)[0].id == p.id;
      if pis != [] {
        assert pis == [pis[0]] + pis[1..];
        FirstOrAmong(pis[0], pis[1..], id);
        FirstOrAmong(MergePi(pis[0], p), pis[1..], id);
      }
    }
  }

  lemma FirstOrAmong(first: Pi, rest: seq<Pi>, id: string)
    ensures PiAmong([first] + rest, id) <==> first.id == id || PiAmong(rest, id)
  {
    var all := [first] + rest;
    if PiAmong(rest, id) {
      var k :| 0 <= k < |rest| && rest[k].id == id;
      assert all[k + 1].id == id;
    }
    if first.id == id {
      assert all[0].id == id;
    }
  }

  lemma {:induction false} PisAdded(pis: seq<Pi>, list: seq<DeclaredPi>, id: string)
    ensures PiAmong(UpsertPis(pis, list), id) <==> PiAmong(pis, id) || PiDeclared(list, id)
  {
    if list != [] {
      var n := |list| - 1;
      PisAdded(pis, list[..n], id);
      PiAdded(UpsertPis(pis, list[..n]), list[n], id);
    }
  }

  /** Seeding is refused, as a whole, exactly when a sprint names an increment that neither side knows. */
  lemma SeedRefusedIff(d: Database, b: BoardJson, now: int)
    ensures Seed(d, b, now).None? <==>
            exists k :: 0 <= k < |b.sprints| && b.sprints[k].pi.Some?
                        && !PiAmong(d.pis, b.sprints[k].pi.value) && !PiDeclared(b.pis, b.sprints[k].pi.value)
  {
    forall k | 0 <= k < |b.sprints| && b.sprints[k].pi.Some?
      ensures KnownPi(UpsertPis(d.pis, b.pis), b.sprints[k].pi) <==>
              PiAmong(d.pis, b.sprints[k].pi.value) || PiDeclared(b.pis, b.sprints[k].pi.value)
    {
      PisAdded(d.pis, b.pis, b.sprints[k].pi.value);
    }
  }

  // ---- The fixed point ----

  /** A task as a fresh checkout has it: no lease, no stalls, no word of where it came from, all else as it was. */
  function Durable(t: Task): Task {
    t.(lease := None, reapCount := 0, extra := t.extra.(source := None))
  }

  /** A database rebuilt from its board has lost nothing but what is not durable. */
  lemma RebuiltDatabase(d: Database, now: int)
    requires WellKeyed(d)
    ensures var rebuilt := Seed(Database([], [], EMPTY), Render(d), now);
      && rebuilt.Some? && rebuilt.value.pis == d.pis && rebuilt.value.sprints == ByStart(d.sprints)
      && rebuilt.value.db.locks == map[] && rebuilt.value.db.tasks.Keys == d.db.tasks.Keys
      && forall id :: id in d.db.tasks ==> rebuilt.value.db.tasks[id] == Durable(d.db.tasks[id])
  {
    FreshPis(d.pis);
    ListedSprintsKnown(d);
    ByStartDistinct(d.sprints);
    FreshSprints(ByStart(d.sprints));
    RebuiltTasks(d.db.tasks, now);
  }

  lemma {:induction false} SeedingLocksNothing(db: Db, list: seq<Entry>, now: int)
    ensures UpsertTasks(db, list, now).locks == db.locks
  {
    if list != [] {
      SeedingLocksNothing(db, list[..|list| - 1], now);
    }
  }

  lemma RebuiltTasks(tasks: map<string, Task>, now: int)
    ensures var rebuilt := UpsertTasks(EMPTY, Entries(tasks, ListTasks(tasks)), now);
      && rebuilt.locks == map[] && rebuilt.tasks.Keys == tasks.Keys
      && forall id :: id in tasks ==> rebuilt.tasks[id] == Durable(tasks[id])
  {
    var list := Entries(tasks, ListTasks(tasks));
    SeedingLocksNothing(EMPTY, list, now);
    EntryIds(tasks);
    UpsertTasksKeys(EMPTY, list, now);
    forall id | id in tasks ensures UpsertTasks(EMPTY, list, now).tasks[id] == Durable(tasks[id]) {
      var k := EntriesOfTask(tasks, id);
      UpsertTasksAt(EMPTY, list, now, k);
    }
  }

  /** Seeding an empty database from a board and rendering it again gives the same board, orders included. */
  lemma RenderSeedFixedPoint(d: Database, now: int)
    requires WellKeyed(d)
    ensures var rebuilt := Seed(Database([], [], EMPTY), Render(d), now);
      rebuilt.Some? && Render(rebuilt.value) == Render(d)
  {
    FreshPis(d.pis);
    ListedSprintsKnown(d);
    ByStartDistinct(d.sprints);
    FreshSprints(ByStart(d.sprints));
    ByStartSorts(d.sprints);
    ByStartOfOrdered(ByStart(d.sprints));
    SeededTasksRender(d.db.tasks, now);
  }

  lemma ListedSprintsKnown(d: Database)
    requires WellKeyed(d)
    ensures forall k :: 0 <= k < |Render(d).sprints| ==> KnownPi(d.pis, Render(d).sprints[k].pi)
  {
    ByStartDistinct(d.sprints);
    forall k | 0 <= k < |Render(d).sprints| ensures KnownPi(d.pis, Render(d).sprints[k].pi) {
      assert ByStart(d.sprints)[k] in d.sprints;
    }
  }

  lemma SeededTasksRender(tasks: map<string, Task>, now: int)
    ensures var rebuilt := UpsertTasks(EMPTY, Entries(tasks, ListTasks(tasks)), now).tasks;
      Entries(rebuilt, ListTasks(rebuilt)) == Entries(tasks, ListTasks(tasks))
  {
    RebuiltTasks(tasks, now);
    SameEntries(UpsertTasks(EMPTY, Entries(tasks, ListTasks(tasks)), now).tasks, tasks);
  }

  /** Seeding a database from its own board changes nothing at all: not a column, not the audit. */
  lemma SeedingOwnBoardIsNothing(d: Database, now: int)
    requires WellKeyed(d)
    ensures Seed(d, Render(d), now) == Some(d)
  {
    KnownPis(d.pis, d.pis);
    ByStartDistinct(d.sprints);
    KnownSprints(d.sprints, ByStart(d.sprints));
    ListedSprintsKnown(d);
    ListedDistinct(d.db.tasks);
    EntriesShape(d.db.tasks, ListTasks(d.db.tasks));
    OwnTasks(d.db, Render(d).tasks, now);
  }

  lemma {:induction false} OwnTasks(db: Db, list: seq<Entry>, now: int)
    requires forall k :: 0 <= k < |list| ==>
             list[k].id in db.tasks && list[k].declared == ProjectTask(db.tasks[list[k].id])
    ensures UpsertTasks(db, list, now) == db
  {
    if list != [] {
      var n := |list| - 1;
      OwnTasks(db, list[..n], now);
      UpdateWithOwn(db.tasks[list[n].id], now);
      assert db.tasks[list[n].id := db.tasks[list[n].id]] == db.tasks;
    }
  }

  // Seeding a list of rows with distinct ids leaves each of them in place, where writing it again is a no-op.

  ghost predicate PiSettled(pis: seq<Pi>, p: DeclaredPi) {
    UpsertPi(pis, p) == pis
  }

  ghost predicate SprintSettled(s: seq<Sprint>, x: DeclaredSprint) {
    UpsertSprint(s, x) == s
  }

  lemma {:induction false} PiSettles(pis: seq<Pi>, p: DeclaredPi)
    ensures PiSettled(UpsertPi(pis, p), p)
  {
    if pis != [] && pis[0].id != p.id {
      PiSettles(pis[1..], p);
      assert ([pis[0]] + UpsertPi(pis[1..], p))[1..] == UpsertPi(pis[1..], p);
    }
  }

  lemma {:induction false} PiStaysSettled(pis: seq<Pi>, p: DeclaredPi, q: DeclaredPi)
    requires PiSettled(pis, p) && p.id != q.id
    ensures PiSettled(UpsertPi(pis, q), p)
  {
    if pis == [] {
      assert false;
    } else if pis[0].id == p.id {
      assert UpsertPi(pis, q) == [pis[0]] + UpsertPi(pis[1..], q);
      assert UpsertPi(pis, p)[0] == pis[0];
    } else {
      assert UpsertPi(pis, p)[1..] == pis[1..];
      if pis[0].id != q.id {
        PiStaysSettled(pis[1..], p, q);
        assert ([pis[0]] + UpsertPi(pis[1..], q))[1..] == UpsertPi(pis[1..], q);
      } else {
        assert ([MergePi(pis[0], q)] + pis[1..])[1..] == pis[1..];
      }
    }
  }

  lemma {:induction false} PiListSettles(pis: seq<Pi>, list: seq<DeclaredPi>, k: nat)
    requires DistinctPiIds(list) && k < |list|
    ensures PiSettled(UpsertPis(pis, list), list[k])
  {
    var n := |list| - 1;
    if k == n {
      PiSettles(UpsertPis(pis, list[..n]), list[n]);
    } else {
      PiListSettles(pis, list[..n], k);
      PiStaysSettled(UpsertPis(pis, list[..n]), list[k], list[n]);
    }
  }

  lemma {:induction false} PisSettle(pis: seq<Pi>, list: seq<DeclaredPi>, again: seq<DeclaredPi>)
    requires DistinctPiIds(list) && again <= list
    ensures UpsertPis(UpsertPis(pis, list), again) == UpsertPis(pis, list)
  {
    if again != [] {
      PisSettle(pis, list, again[..|again| - 1]);
      PiListSettles(pis, list, |again| - 1);
    }
  }

  lemma {:induction false} SprintSettles(s: seq<Sprint>, x: DeclaredSprint)
    ensures SprintSettled(UpsertSprint(s, x), x)
  {
    if s != [] && s[0].id != x.id {
      SprintSettles(s[1..], x);
      assert ([s[0]] + UpsertSprint(s[1..], x))[1..] == UpsertSprint(s[1..], x);
    }
  }

  lemma {:induction false} SprintStaysSettled(s: seq<Sprint>, x: DeclaredSprint, y: DeclaredSprint)
    requires SprintSettled(s, x) && x.id != y.id
    ensures SprintSettled(UpsertSprint(s, y), x)
  {
    if s == [] {
      assert false;
    } else if s[0].id == x.id {
      assert UpsertSprint(s, y) == [s[0]] + UpsertSprint(s[1..], y);
      assert UpsertSprint(s, x)[0] == s[0];
    } else {
      assert UpsertSprint(s, x)[1..] == s[1..];
      if s[0].id != y.id {
        SprintStaysSettled(s[1..], x, y);
        assert ([s[0]] + UpsertSprint(s[1..], y))[1..] == UpsertSprint(s[1..], y);
      } else {
        assert ([MergeSprint(s[0], y)] + s[1..])[1..] == s[1..];
      }
    }
  }

  lemma {:induction false} SprintListSettles(s: seq<Sprint>, list: seq<DeclaredSprint>, k: nat)
    requires DistinctSprintIds(list) && k < |list|
    ensures SprintSettled(UpsertSprints(s, list), list[k])
  {
    var n := |list| - 1;
    if k == n {
      SprintSettles(UpsertSprints(s, list[..n]), list[n]);
    } else {
      SprintListSettles(s, list[..n], k);
      SprintStaysSettled(UpsertSprints(s, list[..n]), list[k], list[n]);
    }
  }

  lemma {:induction false} SprintsSettle(s: seq<Sprint>, list: seq<DeclaredSprint>, again: seq<DeclaredSprint>)
    requires DistinctSprintIds(list) && again <= list
    ensures UpsertSprints(UpsertSprints(s, list), again) == UpsertSprints(s, list)
  {
    if again != [] {
      SprintsSettle(s, list, again[..|again| - 1]);
      SprintListSettles(s, list, |again| - 1);
    }
  }

  /** A board that names nothing twice and says when each task was last changed. */
  ghost predicate Definite(b: BoardJson) {
    && DistinctPiIds(b.pis) && DistinctSprintIds(b.sprints) && DistinctEntries(b.tasks)
    && forall k :: 0 <= k < |b.tasks| ==> b.tasks[k].declared.updatedAt.Some?
  }

  lemma RenderedIsDefinite(d: Database)
    requires WellKeyed(d)
    ensures Definite(Render(d))
  {
    ByStartDistinct(d.sprints);
    EntryIds(d.db.tasks);
    EntriesShape(d.db.tasks, ListTasks(d.db.tasks));
  }

  lemma TaskSettles(db: Db, list: seq<Entry>, now: int, later: int, k: nat)
    requires DistinctEntries(list) && k < |list| && list[k].declared.updatedAt.Some?
    ensures var once := UpsertTasks(db, list, now).tasks;
      list[k].id in once && Updated(once[list[k].id], list[k].declared, later) == once[list[k].id]
  {
    UpsertTasksAt(db, list, now, k);
    if list[k].id in db.tasks {
      UpdateTwice(db.tasks[list[k].id], list[k].declared, now, later);
    } else {
      UpdateTwice(Inserted(list[k].declared, now), list[k].declared, now, later);
    }
  }

  /** Whatever the database held before, seeding the same definite board a second time changes nothing further. */
  lemma SeedingTwiceIsSeedingOnce(d: Database, b: BoardJson, now: int, later: int)
    requires Definite(b) && Seed(d, b, now).Some?
    ensures Seed(Seed(d, b, now).value, b, later) == Seed(d, b, now)
  {
    var once := Seed(d, b, now).value;
    PisSettle(d.pis, b.pis, b.pis);
    SprintsSettle(d.sprints, b.sprints, b.sprints);
    forall k | 0 <= k < |b.tasks|
      ensures b.tasks[k].id in once.db.tasks
      ensures Updated(once.db.tasks[b.tasks[k].id], b.tasks[k].declared, later) == once.db.tasks[b.tasks[k].id]
    {
      TaskSettles(d.db, b.tasks, now, later, k);
    }
    TasksSettled(once.db, b.tasks, later);
  }

  lemma {:induction false} TasksSettled(db: Db, list: seq<Entry>, now: int)
    requires forall k :: 0 <= k < |list| ==>
             list[k].id in db.tasks && Updated(db.tasks[list[k].id], list[k].declared, now) == db.tasks[list[k].id]
    ensures UpsertTasks(db, list, now) == db
  {
    if list != [] {
      var n := |list| - 1;
      TasksSettled(db, list[..n], now);
      assert db.tasks[list[n].id := db.tasks[list[n].id]] == db.tasks;
    }
  }
}
