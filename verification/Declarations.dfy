/** What declaring a task does to its row, over any number of declarations. */
module Declarations {
  import opened Common
  import opened Machine
  import opened Store

  /** The task declared again and again: declaration number `k` comes at `at(k)`. */
  function Declare(db: Db, id: string, ds: seq<Declared>, at: nat -> int): Db {
    if ds == [] then db
    else Upsert(Declare(db, id, ds[..|ds| - 1], at), id, ds[|ds| - 1], at(|ds| - 1))
  }

  /** What the latest declaration that gives a column at all says about it. */
  function Latest<T>(ds: seq<Declared>, column: Declared -> Option<T>): Option<T> {
    if ds == [] then None
    else if column(ds[|ds| - 1]).Some? then column(ds[|ds| - 1])
    else Latest(ds[..|ds| - 1], column)
  }

  /** The row there was, or a new one: a proposed feature of middling complexity that anybody may take. */
  function Base(db: Db, id: string, first: Declared, now: int): Task {
    if id in db.tasks then db.tasks[id]
    else
      Task("feature", None, None, first.title, "both", Proposed, 100, 3, [], None, [], [], None, None, None, now,
           Extra(None, "standard", None, None, None, None, [], first.createdAt.Or(now), None), None, 0)
  }

  /** The value of a column that cannot be unset: the latest declared, else what it was. */
  predicate Takes<T(==)>(ds: seq<Declared>, column: Declared -> Option<T>, was: T, value: T) {
    value == Latest(ds, column).Or(was)
  }

  /** The same of a column that may be null. */
  predicate TakesAny<T(==)>(ds: seq<Declared>, column: Declared -> Option<T>, was: Option<T>, value: Option<T>) {
    value == Latest(ds, column).OrElse(was)
  }

  ghost predicate WorkColumns(ds: seq<Declared>, was: Task, row: Task) {
    && Takes(ds, (d: Declared) => d.kind, was.kind, row.kind)
    && Takes(ds, (d: Declared) => d.owner, was.owner, row.owner)
    && Takes(ds, (d: Declared) => d.status, was.status, row.status)
    && Takes(ds, (d: Declared) => d.priority, was.priority, row.priority)
    && Takes(ds, (d: Declared) => d.complexity, was.complexity, row.complexity)
    && TakesAny(ds, (d: Declared) => d.parent, was.parent, row.parent)
    && TakesAny(ds, (d: Declared) => d.sprint, was.sprint, row.sprint)
    && TakesAny(ds, (d: Declared) => d.approvedAt, was.approvedAt, row.approvedAt)
    && TakesAny(ds, (d: Declared) => d.spec, was.spec, row.spec)
    && TakesAny(ds, (d: Declared) => d.pr, was.pr, row.pr)
    && TakesAny(ds, (d: Declared) => d.note, was.note, row.note)
  }

  ghost predicate ExtraColumns(ds: seq<Declared>, was: Extra, row: Extra) {
    && Takes(ds, (d: Declared) => d.lane, was.lane, row.lane)
    && TakesAny(ds, (d: Declared) => d.acceptance, was.acceptance, row.acceptance)
    && TakesAny(ds, (d: Declared) => d.taskType, was.taskType, row.taskType)
    && TakesAny(ds, (d: Declared) => d.snoozedUntil, was.snoozedUntil, row.snoozedUntil)
    && TakesAny(ds, (d: Declared) => d.skippedAt, was.skippedAt, row.skippedAt)
    && TakesAny(ds, (d: Declared) => d.skipReason, was.skipReason, row.skipReason)
    && TakesAny(ds, (d: Declared) => d.source, was.source, row.source)
  }

  /** What no earlier declaration has a say in: the lists, the title and the time of the last change. */
  predicate LastColumns(d: Declared, row: Task, now: int) {
    && row.title == d.title
    && row.riskTags == d.riskTags.Or([]) && row.resources == d.resources.Or([]) && row.dependsOn == d.dependsOn.Or([])
    && row.extra.contracts == d.contracts.Or([])
    && row.updatedAt == d.updatedAt.Or(now)
  }

  /** What no declaration can touch. */
  predicate OwnColumns(was: Task, row: Task) {
    row.lease == was.lease && row.reapCount == was.reapCount && row.extra.createdAt == was.extra.createdAt
  }

  lemma LatestOne<T>(d: Declared, column: Declared -> Option<T>)
    ensures Latest([d], column) == column(d)
  {
    assert [d][..0] == [];
  }

  lemma InsertColumns(d: Declared, was: Task, now: int)
    requires was == Base(EMPTY, "", d, now)
    ensures WorkColumns([d], was, Inserted(d, now)) && ExtraColumns([d], was.extra, Inserted(d, now).extra)
    ensures LastColumns(d, Inserted(d, now), now) && OwnColumns(was, Inserted(d, now))
  {
    assert [d][..0] == [];
  }

  lemma UpdateWorkColumns(ds: seq<Declared>, was: Task, mid: Task, now: int)
    requires ds != [] && WorkColumns(ds[..|ds| - 1], was, mid)
    ensures WorkColumns(ds, was, Updated(mid, ds[|ds| - 1], now))
  {
  }

  lemma UpdateExtraColumns(ds: seq<Declared>, was: Task, mid: Task, now: int)
    requires ds != [] && ExtraColumns(ds[..|ds| - 1], was.extra, mid.extra)
    ensures ExtraColumns(ds, was.extra, Updated(mid, ds[|ds| - 1], now).extra)
  {
  }

  /** The row of the task after the declarations, told column by column; `was` is the row they found or made. */
  ghost predicate RowDeclared(ds: seq<Declared>, was: Task, row: Task, now: int) {
    && ds != [] && WorkColumns(ds, was, row) && ExtraColumns(ds, was.extra, row.extra)
    && LastColumns(ds[|ds| - 1], row, now) && OwnColumns(was, row)
  }

  lemma FirstDeclared(db: Db, id: string, d: Declared, now: int)
    ensures var db' := Upsert(db, id, d, now);
      && id in db'.tasks && db'.tasks == db.tasks[id := db'.tasks[id]] && db'.locks == db.locks
      && RowDeclared([d], Base(db, id, d, now), db'.tasks[id], now)
  {
    if id in db.tasks {
      NothingDeclared(db.tasks[id]);
      assert [d][..0] == [];
      UpdateWorkColumns([d], db.tasks[id], db.tasks[id], now);
      UpdateExtraColumns([d], db.tasks[id], db.tasks[id], now);
    } else {
      InsertColumns(d, Base(db, id, d, now), now);
    }
  }

  lemma NothingDeclared(was: Task)
    ensures WorkColumns([], was, was) && ExtraColumns([], was.extra, was.extra)
  {
  }

  lemma DeclaredAgain(ds: seq<Declared>, was: Task, mid: Task, before: int, now: int)
    requires |ds| > 1 && RowDeclared(ds[..|ds| - 1], was, mid, before)
    ensures RowDeclared(ds, was, Updated(mid, ds[|ds| - 1], now), now)
  {
    UpdateWorkColumns(ds, was, mid, now);
    UpdateExtraColumns(ds, was, mid, now);
  }

  /**
   * Declared columns land and stay until they are declared again; a column nobody declares keeps its value, or
   * the default it was born with; lists are as last declared, absent meaning empty; and the lease, the stall
   * count, the birth date, every other row and every lock are out of reach.
   */
  lemma {:induction false} LatestDeclarationWins(db: Db, id: string, ds: seq<Declared>, at: nat -> int)
    requires ds != []
    ensures var db' := Declare(db, id, ds, at);
      && id in db'.tasks && db'.tasks == db.tasks[id := db'.tasks[id]] && db'.locks == db.locks
      && RowDeclared(ds, Base(db, id, ds[0], at(0)), db'.tasks[id], at(|ds| - 1))
  {
    var n := |ds| - 1;
    if n == 0 {
      assert ds == [ds[0]] && ds[..0] == [];
      FirstDeclared(db, id, ds[0], at(0));
    } else {
      LatestDeclarationWins(db, id, ds[..n], at);
      DeclaredAgain(ds, Base(db, id, ds[0], at(0)), Declare(db, id, ds[..n], at).tasks[id], at(n - 1), at(n));
    }
  }
}
