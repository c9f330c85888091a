/**
 * What the rollup tables say about the money: every cell of every row is the plain sum of one column over
 * the events behind it, and nothing is lost or counted twice on the way to the totals.
 */
module Totals {
  import opened Common
  import opened Aggregation

  datatype Column = Input | Output | CacheRead | CacheWrite | Tokens | Cost | Calls

  /** A column of a raw event, NULL counting as nothing; every event is one call. */
  function Field(e: Event, c: Column): real {
    match c
    case Input => if e.input.Some? then e.input.value as real else 0.0
    case Output => if e.output.Some? then e.output.value as real else 0.0
    case CacheRead => if e.cacheRead.Some? then e.cacheRead.value as real else 0.0
    case CacheWrite => if e.cacheWrite.Some? then e.cacheWrite.value as real else 0.0
    case Tokens => if e.total.Some? then e.total.value as real else 0.0
    case Cost => if e.cost.Some? then e.cost.value else 0.0
    case Calls => 1.0
  }

  /** The same column of a row. */
  function Cell(a: Amount, c: Column): real {
    match a
    case Nothing => 0.0
    case Amount(input, output, cacheRead, cacheWrite, total, cost, calls) =>
      match c
      case Input => input as real
      case Output => output as real
      case CacheRead => cacheRead as real
      case CacheWrite => cacheWrite as real
      case Tokens => total as real
      case Cost => cost
      case Calls => calls as real
  }

  /** The sum of a column over the events that `pick` picks. */
  ghost function Total(events: seq<Event>, pick: Event -> bool, c: Column): real {
    if events == [] then 0.0
    else Total(events[..|events| - 1], pick, c) +
         if pick(events[|events| - 1]) then Field(events[|events| - 1], c) else 0.0
  }

  /** A sound event: it has a cost, and a token total that is not negative. */
  predicate Sound(e: Event) {
    e.cost.Some? && e.total.Some? && e.total.value >= 0
  }

  /** Of the given provider, model, agent and task, the marker text standing for no task at all. */
  predicate Of(e: Event, d: Dims) {
    && e.provider == d.provider && e.model == d.model && e.agent == d.agent
    && (if e.task == Some("__null__") then d.task == None else d.task == e.task)
  }

  /** Within `n` hours from hour `h` on. */
  predicate During(e: Event, h: int, n: nat) {
    h * 3600000 <= e.ts < (h + n) * 3600000
  }

  function InGroup(k: Key): Event -> bool {
    (e: Event) => Sound(e) && During(e, k.bucket, 1) && Of(e, k.dims)
  }

  function InDayGroup(k: Key): Event -> bool {
    (e: Event) => Sound(e) && During(e, k.bucket * 24, 24) && Of(e, k.dims)
  }

  lemma CellsAdd(a: Amount, b: Amount, c: Column)
    ensures Cell(a.Plus(b), c) == Cell(a, c) + Cell(b, c)
  {
  }

  lemma CellOfEvent(e: Event, c: Column)
    ensures Cell(AmountOf(e), c) == Field(e, c)
  {
  }

  lemma InHour(e: Event, h: int)
    ensures HourOf(e) == h <==> During(e, h, 1)
  {
    var q, r := e.ts / HOUR, e.ts % HOUR;
    assert e.ts == q * HOUR + r && 0 <= r < HOUR;
  }

  lemma InDay(e: Event, day: int)
    ensures DayOf(e) == day <==> During(e, day * 24, 24)
  {
    var n := HOUR * HOURS_A_DAY;
    var q, r := e.ts / n, e.ts % n;
    assert e.ts == q * n + r && 0 <= r < n;
    assert (day * 24 + 24) * 3600000 == (day + 1) * n;
  }

  lemma {:induction false} SumIsTotal(events: seq<Event>, k: Key, c: Column)
    ensures Cell(Sum(events, k), c) == Total(events, InGroup(k), c)
  {
    if events != [] {
      var init, e := events[..|events| - 1], events[|events| - 1];
      SumIsTotal(init, k, c);
      InHour(e, k.bucket);
      assert InGroup(k)(e) <==> Counts(e) && KeyOf(e) == k;
      CellsAdd(Sum(init, k), AmountOf(e), c);
      CellOfEvent(e, c);
    }
  }

  lemma {:induction false} SumDayIsTotal(events: seq<Event>, k: Key, c: Column)
    ensures Cell(SumDay(events, k.bucket, k.dims), c) == Total(events, InDayGroup(k), c)
  {
    if events != [] {
      var init, e := events[..|events| - 1], events[|events| - 1];
      SumDayIsTotal(init, k, c);
      InDay(e, k.bucket);
      assert InDayGroup(k)(e) <==> Counts(e) && DayOf(e) == k.bucket && DimsOf(e) == k.dims;
      CellsAdd(SumDay(init, k.bucket, k.dims), AmountOf(e), c);
      CellOfEvent(e, c);
    }
  }

  /**
   * A group has a row exactly when it has a sound event, and every cell of the row is the sum of its column
   * over the sound events of the group in that hour.
   */
  lemma RowsAreSums(events: seq<Event>, k: Key, c: Column)
    ensures k in Exact(events) <==> exists e :: e in events && InGroup(k)(e)
    ensures k in Exact(events) ==> Cell(Exact(events)[k], c) == Total(events, InGroup(k), c)
  {
    SumIsTotal(events, k, c);
    forall e | e in events ensures InGroup(k)(e) <==> Counts(e) && KeyOf(e) == k {
      InHour(e, k.bucket);
    }
  }

  /** The daily rows, rolled up from the hourly ones, say the same of the day. */
  lemma DayRowsAreSums(events: seq<Event>, day: int, dims: Dims, c: Column)
    ensures var k, t := Key(day, dims), DayRows(Exact(events), day);
      && (k in t <==> exists e :: e in events && InDayGroup(k)(e))
      && (k in t ==> Cell(t[k], c) == Total(events, InDayGroup(k), c))
  {
    var k := Key(day, dims);
    DayIsExact(events, day);
    SumDayIsTotal(events, k, c);
    forall e | e in events
      ensures InDayGroup(k)(e) <==> Counts(e) && DayOf(e) == day && DimsOf(e) == dims
    {
      InDay(e, day);
    }
  }

  // ---- Whole tables ----

  /** The sum of a column over the listed rows. */
  function Sheet(t: Table, keys: seq<Key>, c: Column): real {
    if keys == [] then 0.0
    else Sheet(t, keys[..|keys| - 1], c) +
         if keys[|keys| - 1] in t then Cell(t[keys[|keys| - 1]], c) else 0.0
  }

  /** Sound events of the listed groups. */
  function InGroups(keys: seq<Key>): Event -> bool {
    (e: Event) => Sound(e) && KeyOf(e) in keys
  }

  lemma {:induction false} TotalSplits(events: seq<Event>, a: Event -> bool, b: Event -> bool, both: Event -> bool,
                                       c: Column)
    requires forall e | e in events :: !(a(e) && b(e)) && (both(e) <==> a(e) || b(e))
    ensures Total(events, both, c) == Total(events, a, c) + Total(events, b, c)
  {
    if events != [] {
      assert events[|events| - 1] in events;
      TotalSplits(events[..|events| - 1], a, b, both, c);
    }
  }

  lemma {:induction false} TotalOfNone(events: seq<Event>, pick: Event -> bool, c: Column)
    requires forall e | e in events :: !pick(e)
    ensures Total(events, pick, c) == 0.0
  {
    if events != [] {
      assert events[|events| - 1] in events;
      TotalOfNone(events[..|events| - 1], pick, c);
    }
  }

  lemma {:induction false} SheetIsTotal(events: seq<Event>, keys: seq<Key>, c: Column)
    requires NoDup(keys)
    ensures Sheet(Exact(events), keys, c) == Total(events, InGroups(keys), c)
    decreases |keys|
  {
    if keys == [] {
      TotalOfNone(events, InGroups(keys), c);
    } else {
      var init, k := keys[..|keys| - 1], keys[|keys| - 1];
      SheetIsTotal(events, init, c);
      SumIsTotal(events, k, c);
      CallsCount(events, k);
      assert keys == init + [k];
      forall e | e in events
        ensures InGroup(k)(e) <==> Sound(e) && KeyOf(e) == k
        ensures !(InGroups(init)(e) && InGroup(k)(e)) && (InGroups(keys)(e) <==> InGroups(init)(e) || InGroup(k)(e))
      {
        InHour(e, k.bucket);
      }
      TotalSplits(events, InGroups(init), InGroup(k), InGroups(keys), c);
    }
  }

  lemma {:induction false} TotalSame(events: seq<Event>, a: Event -> bool, b: Event -> bool, c: Column)
    requires forall e | e in events :: a(e) <==> b(e)
    ensures Total(events, a, c) == Total(events, b, c)
  {
    if events != [] {
      assert events[|events| - 1] in events;
      TotalSame(events[..|events| - 1], a, b, c);
    }
  }

  /**
   * Conservation: however the rows of the hourly table are listed, each once, a column adds up to its sum
   * over all sound events, each counted once - calls, tokens and money alike.
   */
  lemma NothingIsLost(events: seq<Event>, keys: seq<Key>, c: Column)
    requires NoDup(keys) && Elems(keys) == Exact(events).Keys
    ensures Sheet(Exact(events), keys, c) == Total(events, Sound, c)
  {
    SheetIsTotal(events, keys, c);
    forall e | e in events ensures InGroups(keys)(e) <==> Sound(e) {
      if Sound(e) {
        assert KeyOf(e) in Exact(events);
        assert KeyOf(e) in Elems(keys);
      }
    }
    TotalSame(events, InGroups(keys), Sound, c);
  }
}
