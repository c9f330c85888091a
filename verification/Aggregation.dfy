/** Incremental hourly and daily spend rollups (aggregation.mjs) against a from-scratch group-by of the raw events. */
module Aggregation {
  import opened Common

  const HOUR: int := 3600000
  const HOURS_A_DAY: nat := 24

  /** A ledger event; `None` is a NULL column. */
  datatype Event = Event(ts: int, provider: string, model: string, agent: string, task: Option<string>,
                         input: Option<int>, output: Option<int>, cacheRead: Option<int>, cacheWrite: Option<int>,
                         total: Option<int>, cost: Option<real>)

  /** What is summed, NULL over no rows at all; `calls` counts the events. */
  datatype Amount =
    | Nothing
    | Amount(input: int, output: int, cacheRead: int, cacheWrite: int, total: int, cost: real, calls: int)
  {
    function Plus(a: Amount): Amount {
      if this.Nothing? then a
      else if a.Nothing? then this
      else Amount(input + a.input, output + a.output, cacheRead + a.cacheRead, cacheWrite + a.cacheWrite,
                  total + a.total, cost + a.cost, calls + a.calls)
    }

    function Calls(): int {
      if Nothing? then 0 else calls
    }
  }

  lemma PlusAssoc(a: Amount, b: Amount, c: Amount)
    ensures a.Plus(b.Plus(c)) == a.Plus(b).Plus(c)
  {
  }

  lemma PlusNothing(a: Amount)
    ensures a.Plus(Nothing) == a && Nothing.Plus(a) == a
  {
  }

  datatype Dims = Dims(provider: string, model: string, agent: string, task: Option<string>)

  /** The row key, taken apart: distinct keys are distinct window keys. */
  datatype Key = Key(bucket: int, dims: Dims)

  type Table = map<Key, Amount>

  /** Corrupted events - no cost, or no or a negative token total - are skipped. */
  predicate Counts(e: Event) {
    e.cost.Some? && e.total.Some? && e.total.value >= 0
  }

  function HourOf(e: Event): int {
    e.ts / HOUR
  }

  /** The grouping folds a NULL task and the text "__null__" into one. */
  function DimsOf(e: Event): Dims {
    Dims(e.provider, e.model, e.agent, if e.task == Some("__null__") then None else e.task)
  }

  function KeyOf(e: Event): Key {
    Key(HourOf(e), DimsOf(e))
  }

  function AmountOf(e: Event): Amount {
    Amount(e.input.Or(0), e.output.Or(0), e.cacheRead.Or(0), e.cacheWrite.Or(0), e.total.Or(0), e.cost.Or(0.0), 1)
  }

  /** SUM and COUNT over the counted events of one group. */
  function Sum(events: seq<Event>, k: Key): Amount {
    if events == [] then Nothing
    else
      var rest, e := Sum(events[..|events| - 1], k), events[|events| - 1];
      if Counts(e) && KeyOf(e) == k then rest.Plus(AmountOf(e)) else rest
  }

  function Keys(events: seq<Event>): set<Key> {
    set e | e in events && Counts(e) :: KeyOf(e)
  }

  /** The from-scratch group-by of every counted event. */
  function Exact(events: seq<Event>): Table {
    map k | k in Keys(events) :: Sum(events, k)
  }

  // ---- One hour, and all pending hours ----

  function HourRows(events: seq<Event>, h: int): Table {
    map k | k in Keys(events) && k.bucket == h :: Sum(events, k)
  }

  function Hours(t: Table): set<int> {
    set k | k in t :: k.bucket
  }

  predicate IsLast(t: Table, last: Option<int>) {
    if last.None? then t == map[] else last.value in Hours(t) && forall k | k in t :: k.bucket <= last.value
  }

  /** The last aggregated hour again, and every hour of the events after it. */
  function Pending(t: Table, events: seq<Event>, last: Option<int>): Table {
    t + map k | k in Keys(events) && (last.Some? ==> k.bucket >= last.value) :: Sum(events, k)
  }

  /** The distinct hours of the counted events past the last aggregated hour. */
  function HoursAfter(events: seq<Event>, last: Option<int>): set<int> {
    set k | k in Keys(events) && (last.Some? ==> k.bucket >= last.value + 1) :: k.bucket
  }

  /** The pending table with the hours `left` still missing. */
  function Partial(t: Table, events: seq<Event>, last: Option<int>, left: set<int>): Table {
    t + PendingRows(events, last, left)
  }

  lemma AllHoursLeft(t: Table, events: seq<Event>, last: Option<int>)
    ensures Partial(t, events, last, HoursAfter(events, last)) ==
            if last.Some? then t + HourRows(events, last.value) else t
  {
    var p := Partial(t, events, last, HoursAfter(events, last));
    forall k | k in Keys(events) && (last.Some? ==> k.bucket >= last.value)
      ensures k.bucket !in HoursAfter(events, last) <==> last.Some? && k.bucket == last.value
    {
    }
    assert last.None? ==> p == t;
  }

  /** The rows of the hours that are not left out. */
  function PendingRows(events: seq<Event>, last: Option<int>, left: set<int>): Table {
    map k | k in Keys(events) && (last.Some? ==> k.bucket >= last.value) && k.bucket !in left :: Sum(events, k)
  }

  lemma HourJoins(events: seq<Event>, last: Option<int>, left: set<int>, h: int)
    requires h in left && (last.Some? ==> h >= last.value)
    ensures PendingRows(events, last, left) + HourRows(events, h) == PendingRows(events, last, left - {h})
  {
  }

  lemma OneHourLess(t: Table, events: seq<Event>, last: Option<int>, left: set<int>, h: int)
    requires h in left && (last.Some? ==> h >= last.value)
    ensures Partial(t, events, last, left) + HourRows(events, h) == Partial(t, events, last, left - {h})
  {
    HourJoins(events, last, left, h);
    var rows := PendingRows(events, last, left);
    assert (t + rows) + HourRows(events, h) == t + (rows + HourRows(events, h));
  }

  /** The table once all rows but those of `todo` replaced or joined the ones it had. */
  function Written(t: Table, rows: Table, todo: set<Key>): Table {
    t + (rows - todo)
  }

  lemma NoRowWritten(t: Table, rows: Table)
    ensures Written(t, rows, rows.Keys) == t
  {
  }

  lemma AllRowsWritten(t: Table, rows: Table)
    ensures Written(t, rows, {}) == t + rows
  {
    assert rows - {} == rows;
  }

  lemma OneRowLess(t: Table, rows: Table, todo: set<Key>, k: Key)
    requires k in todo && k in rows
    ensures Written(t, rows, todo)[k := rows[k]] == Written(t, rows, todo - {k})
  {
  }

  lemma NoHourLeft(t: Table, events: seq<Event>, last: Option<int>)
    ensures Partial(t, events, last, {}) == Pending(t, events, last)
  {
  }

  class Analytics {
    var events: seq<Event>
    var hourly: Table
    var daily: Table

    constructor ()
      ensures events == [] && hourly == map[] && daily == map[]
    {
      events, hourly, daily := [], map[], map[];
    }

    method Record(batch: seq<Event>)
      modifies this`events
      ensures events == old(events) + batch
    {
      events := events + batch;
    }

    method LastAggregatedHour() returns (last: Option<int>)
      ensures IsLast(hourly, last)
    {
      last := None;
      var todo := hourly.Keys;
      while todo != {}
        invariant todo <= hourly.Keys
        invariant last.None? ==> todo == hourly.Keys
        invariant last.Some? ==> last.value in Hours(hourly)
        invariant forall k | k in hourly && k !in todo :: last.Some? && k.bucket <= last.value
        decreases |todo|
      {
        var k :| k in todo;
        if last.None? || k.bucket > last.value {
          last := Some(k.bucket);
        }
        todo := todo - {k};
      }
      if last.None? {
        assert hourly == map[];
      }
    }

    /** INSERT OR REPLACE one row per group of the hour. */
    method AggregateHour(h: int)
      modifies this`hourly
      ensures hourly == old(hourly) + HourRows(events, h)
    {
      var rows := HourRows(events, h);
      var todo := rows.Keys;
      NoRowWritten(old(hourly), rows);
      while todo != {}
        invariant todo <= rows.Keys
        invariant hourly == Written(old(hourly), rows, todo)
        decreases |todo|
      {
        var k :| k in todo;
        OneRowLess(old(hourly), rows, todo, k);
        hourly := hourly[k := rows[k]];
        todo := todo - {k};
      }
      AllRowsWritten(old(hourly), rows);
    }

    /** The hourly part of aggregatePendingWindows. */
    method AggregatePendingWindows()
      modifies this`hourly
      ensures exists last :: IsLast(old(hourly), last) && hourly == Pending(old(hourly), events, last)
    {
      var last := LastAggregatedHour();
      ghost var was := hourly;
      if last.Some? {
        AggregateHour(last.value);
      }
      var hours := HoursAfter(events, last);
      AllHoursLeft(was, events, last);
      while hours != {}
        invariant hours <= HoursAfter(events, last)
        invariant hourly == Partial(was, events, last, hours)
        decreases |hours|
      {
        var h :| h in hours;
        OneHourLess(was, events, last, hours, h);
        AggregateHour(h);
        hours := hours - {h};
      }
      NoHourLeft(was, events, last);
    }

    /** GROUP BY dimensions over the hourly rows of one day. */
    method AggregateDay(day: int)
      modifies this`daily
      ensures daily == old(daily) + DayRows(hourly, day)
    {
      var rows := DayRows(hourly, day);
      var todo := rows.Keys;
      NoRowWritten(old(daily), rows);
      while todo != {}
        invariant todo <= rows.Keys
        invariant daily == Written(old(daily), rows, todo)
        decreases |todo|
      {
        var k :| k in todo;
        OneRowLess(old(daily), rows, todo, k);
        daily := daily[k := rows[k]];
        todo := todo - {k};
      }
      AllRowsWritten(old(daily), rows);
    }
  }

  // ---- The incremental table is the exact one ----

  lemma {:induction false} SumConcat(a: seq<Event>, b: seq<Event>, k: Key)
    ensures Sum(a + b, k) == Sum(a, k).Plus(Sum(b, k))
  {
    if b == [] {
      assert a + b == a;
      PlusNothing(Sum(a, k));
    } else {
      var init, e := b[..|b| - 1], b[|b| - 1];
      assert (a + b)[..|a| + |b| - 1] == a + init;
      SumConcat(a, init, k);
      PlusAssoc(Sum(a, k), Sum(init, k), AmountOf(e));
    }
  }

  /** A group has rows exactly when it has calls. */
  lemma {:induction false} CallsCount(events: seq<Event>, k: Key)
    ensures Sum(events, k).Calls() >= 0
    ensures Sum(events, k).Calls() > 0 <==> k in Keys(events)
    ensures k !in Keys(events) ==> Sum(events, k) == Nothing
  {
    if events != [] {
      var n := |events| - 1;
      CallsCount(events[..n], k);
      assert events == events[..n] + [events[n]];
      if k in Keys(events) && k !in Keys(events[..n]) {
        var e :| e in events && Counts(e) && KeyOf(e) == k;
        assert e == events[n];
      }
    }
  }

  lemma KeysConcat(a: seq<Event>, b: seq<Event>)
    ensures Keys(a + b) == Keys(a) + Keys(b)
  {
  }

  /** Nothing that counts arrives for an hour before the last aggregated one. */
  ghost predicate Timely(batch: seq<Event>, last: Option<int>) {
    forall e | e in batch && Counts(e) :: last.Some? ==> HourOf(e) >= last.value
  }

  /** A group the batch does not touch keeps its sum; one it does touch gains calls. */
  lemma BatchEffect(events: seq<Event>, batch: seq<Event>, k: Key)
    ensures k !in Keys(batch) ==> Sum(events + batch, k) == Sum(events, k)
    ensures k in Keys(batch) ==> Sum(events + batch, k) != Sum(events, k)
  {
    SumConcat(events, batch, k);
    CallsCount(batch, k);
    PlusNothing(Sum(events, k));
  }

  lemma PendingRow(events: seq<Event>, batch: seq<Event>, last: Option<int>, k: Key)
    requires IsLast(Exact(events), last) && k in Keys(events + batch)
    requires k in Keys(events) || !(last.Some? && k.bucket < last.value)
    ensures k in Pending(Exact(events), events + batch, last)
    ensures Pending(Exact(events), events + batch, last)[k] == Sum(events + batch, k) <==>
            !(k in Keys(batch) && last.Some? && k.bucket < last.value)
  {
    KeysConcat(events, batch);
    BatchEffect(events, batch, k);
  }

  /** The group of a late event is missing or short of it. */
  lemma LateIsMissed(events: seq<Event>, batch: seq<Event>, last: Option<int>, e: Event)
    requires IsLast(Exact(events), last) && last.Some? && e in batch && Counts(e) && HourOf(e) < last.value
    ensures Pending(Exact(events), events + batch, last) != Exact(events + batch)
  {
    var k, t' := KeyOf(e), Pending(Exact(events), events + batch, last);
    assert k in Keys(batch);
    KeysConcat(events, batch);
    assert k in Exact(events + batch);
    if k in Keys(events) {
      PendingRow(events, batch, last, k);
    } else {
      assert k !in t';
    }
  }

  lemma TimelyIsExact(events: seq<Event>, batch: seq<Event>, last: Option<int>)
    requires IsLast(Exact(events), last) && Timely(batch, last)
    ensures Pending(Exact(events), events + batch, last) == Exact(events + batch)
  {
    var all := events + batch;
    var t' := Pending(Exact(events), all, last);
    KeysConcat(events, batch);
    assert forall k :: k in Keys(batch) && last.Some? ==> k.bucket >= last.value;
    forall k | k in Keys(all) ensures k in t' && t'[k] == Sum(all, k) {
      PendingRow(events, batch, last, k);
    }
    assert t'.Keys == Keys(all);
  }

  /**
   * If the table was exact and a batch arrives, one run makes it exact again precisely when no
   * counted event of the batch belongs to an hour before the last aggregated one.
   */
  lemma PendingIsExactIff(events: seq<Event>, batch: seq<Event>, last: Option<int>)
    requires IsLast(Exact(events), last)
    ensures Pending(Exact(events), events + batch, last) == Exact(events + batch) <==> Timely(batch, last)
  {
    if Timely(batch, last) {
      TimelyIsExact(events, batch, last);
    } else {
      var e :| e in batch && Counts(e) && last.Some? && HourOf(e) < last.value;
      LateIsMissed(events, batch, last, e);
    }
  }

  /** Batches arriving one after another, with a run after each. */
  function Arrived(batches: seq<seq<Event>>): seq<Event> {
    if batches == [] then [] else Arrived(batches[..|batches| - 1]) + batches[|batches| - 1]
  }

  /** Tables a history of batches and runs can produce. */
  ghost predicate Produces(batches: seq<seq<Event>>, tables: seq<Table>, lasts: seq<Option<int>>) {
    && |tables| == |batches| + 1 && |lasts| == |batches| && tables[0] == map[]
    && forall i :: 0 <= i < |batches| ==>
         IsLast(tables[i], lasts[i]) && tables[i + 1] == Pending(tables[i], Arrived(batches[..i + 1]), lasts[i])
  }

  /** As long as no event comes late, the incremental table is the exact group-by after every run. */
  lemma {:induction false} EveryRunIsExact(batches: seq<seq<Event>>, tables: seq<Table>, lasts: seq<Option<int>>,
                                           n: nat)
    requires Produces(batches, tables, lasts) && n <= |batches|
    requires forall i :: 0 <= i < n ==> Timely(batches[i], lasts[i])
    ensures tables[n] == Exact(Arrived(batches[..n]))
  {
    if n == 0 {
      assert Arrived(batches[..0]) == [];
      assert Exact([]) == map[];
    } else {
      EveryRunIsExact(batches, tables, lasts, n - 1);
      assert batches[..n][..n - 1] == batches[..n - 1];
      PendingIsExactIff(Arrived(batches[..n - 1]), batches[n - 1], lasts[n - 1]);
      assert tables[n - 1 + 1] == Pending(tables[n - 1], Arrived(batches[..n - 1 + 1]), lasts[n - 1]);
    }
  }

  // ---- Days ----

  function Row(t: Table, k: Key): Amount {
    if k in t then t[k] else Nothing
  }

  /** SUM over the rows of `n` consecutive hours. */
  function SumHours(t: Table, dims: Dims, h: int, n: nat): Amount {
    if n == 0 then Nothing else SumHours(t, dims, h, n - 1).Plus(Row(t, Key(h + n - 1, dims)))
  }

  function DayRows(t: Table, day: int): Table {
    map k | k in (set r | r in t && r.bucket / HOURS_A_DAY == day :: Key(day, r.dims)) ::
      SumHours(t, k.dims, day * HOURS_A_DAY, HOURS_A_DAY)
  }

  function DayOf(e: Event): int {
    e.ts / (HOUR * HOURS_A_DAY)
  }

  function SumDay(events: seq<Event>, day: int, dims: Dims): Amount {
    if events == [] then Nothing
    else
      var rest, e := SumDay(events[..|events| - 1], day, dims), events[|events| - 1];
      if Counts(e) && DayOf(e) == day && DimsOf(e) == dims then rest.Plus(AmountOf(e)) else rest
  }

  /** The one-step daily group-by of the raw events. */
  function ExactDay(events: seq<Event>, day: int): Table {
    map k | k in (set e | e in events && Counts(e) && DayOf(e) == day :: Key(day, DimsOf(e))) ::
      SumDay(events, day, k.dims)
  }

  lemma DayOfHour(e: Event)
    ensures DayOf(e) == HourOf(e) / HOURS_A_DAY
  {
    var q := e.ts / HOUR;
    assert e.ts == q * HOUR + e.ts % HOUR;
    assert q == q / 24 * 24 + q % 24;
    assert 0 <= q % 24 * HOUR + e.ts % HOUR < 24 * HOUR;
  }

  lemma RowOfExact(events: seq<Event>, k: Key)
    ensures Row(Exact(events), k) == Sum(events, k)
  {
    CallsCount(events, k);
  }

  /** What an event adds to the rows of the given dimensions. */
  function Share(e: Event, dims: Dims): Amount {
    if Counts(e) && DimsOf(e) == dims then AmountOf(e) else Nothing
  }

  function OnlyAt(hour: int, at: int, extra: Amount): Amount {
    if hour == at then extra else Nothing
  }

  lemma RowNext(events: seq<Event>, e: Event, k: Key)
    ensures Row(Exact(events + [e]), k) == Row(Exact(events), k).Plus(OnlyAt(k.bucket, HourOf(e), Share(e, k.dims)))
  {
    RowOfExact(events + [e], k);
    RowOfExact(events, k);
    assert (events + [e])[..|events|] == events;
    PlusNothing(Sum(events, k));
  }

  /** An extra that falls in one of two parts is added once to their sum. */
  lemma PlusSplit(a: Amount, b: Amount, x: Amount, y: Amount, extra: Amount)
    requires (x == Nothing && y == extra) || (y == Nothing && x == extra)
    ensures a.Plus(x).Plus(b.Plus(y)) == a.Plus(b).Plus(extra)
  {
  }

  /** `t'` is `t` with `extra` more in the row of one hour. */
  ghost predicate Raised(t: Table, t': Table, dims: Dims, at: int, extra: Amount) {
    forall b :: Row(t', Key(b, dims)) == Row(t, Key(b, dims)).Plus(OnlyAt(b, at, extra))
  }

  function Within(h: int, n: nat, at: int, extra: Amount): Amount {
    if h <= at < h + n then extra else Nothing
  }

  lemma OneHourMore(t: Table, t': Table, dims: Dims, h: int, n: nat, at: int, extra: Amount)
    requires Raised(t, t', dims, at, extra) && n > 0
    requires SumHours(t', dims, h, n - 1) == SumHours(t, dims, h, n - 1).Plus(Within(h, n - 1, at, extra))
    ensures SumHours(t', dims, h, n) == SumHours(t, dims, h, n).Plus(Within(h, n, at, extra))
  {
    var k := Key(h + n - 1, dims);
    assert Row(t', k) == Row(t, k).Plus(OnlyAt(h + n - 1, at, extra));
    PlusSplit(SumHours(t, dims, h, n - 1), Row(t, k),
              Within(h, n - 1, at, extra), OnlyAt(h + n - 1, at, extra), Within(h, n, at, extra));
  }

  /** Raising one hour's row raises the sum over any hours that include it. */
  lemma {:induction false} SumHoursNext(t: Table, t': Table, dims: Dims, h: int, n: nat, at: int, extra: Amount)
    requires Raised(t, t', dims, at, extra)
    ensures SumHours(t', dims, h, n) == SumHours(t, dims, h, n).Plus(Within(h, n, at, extra))
    decreases n
  {
    if n == 0 {
      PlusNothing(Nothing);
    } else {
      SumHoursNext(t, t', dims, h, n - 1, at, extra);
      OneHourMore(t, t', dims, h, n, at, extra);
    }
  }

  lemma {:induction false} SumHoursOfNone(dims: Dims, h: int, n: nat)
    ensures SumHours(Exact([]), dims, h, n) == Nothing
  {
    if n > 0 {
      SumHoursOfNone(dims, h, n - 1);
    }
  }

  lemma SumDayNext(init: seq<Event>, e: Event, day: int, dims: Dims)
    ensures SumDay(init + [e], day, dims) ==
            SumDay(init, day, dims).Plus(if DayOf(e) == day then Share(e, dims) else Nothing)
  {
    assert (init + [e])[..|init|] == init;
    PlusNothing(SumDay(init, day, dims));
  }

  lemma RaisedBy(init: seq<Event>, e: Event, dims: Dims)
    ensures Raised(Exact(init), Exact(init + [e]), dims, HourOf(e), Share(e, dims))
  {
    forall b
      ensures Row(Exact(init + [e]), Key(b, dims)) ==
              Row(Exact(init), Key(b, dims)).Plus(OnlyAt(b, HourOf(e), Share(e, dims)))
    {
      RowNext(init, e, Key(b, dims));
    }
  }

  lemma WithinDay(e: Event, day: int, n: nat, extra: Amount)
    requires n == HOURS_A_DAY
    ensures Within(day * HOURS_A_DAY, n, HourOf(e), extra) == if DayOf(e) == day then extra else Nothing
  {
    DayOfHour(e);
  }

  lemma DayNext(init: seq<Event>, e: Event, day: int, dims: Dims, n: nat)
    requires n == HOURS_A_DAY
    requires SumHours(Exact(init), dims, day * HOURS_A_DAY, n) == SumDay(init, day, dims)
    ensures SumHours(Exact(init + [e]), dims, day * HOURS_A_DAY, n) == SumDay(init + [e], day, dims)
  {
    RaisedBy(init, e, dims);
    SumHoursNext(Exact(init), Exact(init + [e]), dims, day * HOURS_A_DAY, n, HourOf(e), Share(e, dims));
    SumDayNext(init, e, day, dims);
    WithinDay(e, day, n, Share(e, dims));
  }

  lemma {:induction false} SumOfDay(events: seq<Event>, day: int, dims: Dims, n: nat)
    requires n == HOURS_A_DAY
    ensures SumHours(Exact(events), dims, day * HOURS_A_DAY, n) == SumDay(events, day, dims)
  {
    if events == [] {
      SumHoursOfNone(dims, day * HOURS_A_DAY, n);
    } else {
      SumOfDay(events[..|events| - 1], day, dims, n);
      DayNext(events[..|events| - 1], events[|events| - 1], day, dims, n);
      assert events == events[..|events| - 1] + [events[|events| - 1]];
    }
  }

  /** Rolling up exact hours gives exactly the daily group-by of the raw events. */
  lemma DayIsExact(events: seq<Event>, day: int)
    ensures DayRows(Exact(events), day) == ExactDay(events, day)
  {
    var a, b := DayRows(Exact(events), day), ExactDay(events, day);
    forall k ensures k in a <==> k in b {
      if k in a {
        var r :| r in Exact(events) && r.bucket / HOURS_A_DAY == day && Key(day, r.dims) == k;
        var e :| e in events && Counts(e) && KeyOf(e) == r;
        DayOfHour(e);
      }
      if k in b {
        var e :| e in events && Counts(e) && DayOf(e) == day && Key(day, DimsOf(e)) == k;
        DayOfHour(e);
        assert KeyOf(e) in Exact(events);
      }
    }
    forall k | k in a ensures a[k] == b[k] {
      SumOfDay(events, day, k.dims, HOURS_A_DAY);
    }
  }
}
