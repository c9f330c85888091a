/**
 * Quota windows: the activity-anchored five-hour sessions and plan weeks that claude-usage.mjs,
 * antigravity-usage.mjs and budget.mjs each compute, over transcripts or over the gateway ledger.
 */
module Windows {
  import opened Common

  const H5: int := 5 * 60 * 60 * 1000
  const WEEK: int := 7 * 24 * 60 * 60 * 1000

  datatype Usage = Usage(input: int, output: int, cacheWrite: int, cacheRead: int, billable: int, count: int) {
    function Plus(u: Usage): Usage {
      Usage(input + u.input, output + u.output, cacheWrite + u.cacheWrite, cacheRead + u.cacheRead,
            billable + u.billable, count + u.count)
    }
  }

  const ZERO := Usage(0, 0, 0, 0, 0, 0)

  datatype Rec = Rec(ts: Option<int>, use: Usage, isAgent: bool)

  // ---- Ordering the timestamps ----

  ghost predicate Sorted(s: seq<int>) {
    forall i, j :: 0 <= i < j < |s| ==> s[i] <= s[j]
  }

  function Insert(s: seq<int>, x: int): seq<int> {
    if s == [] || x <= s[0] then [x] + s else [s[0]] + Insert(s[1..], x)
  }

  function Sort(s: seq<int>): seq<int> {
    if s == [] then [] else Insert(Sort(s[1..]), s[0])
  }

  lemma ConsSorted(h: int, t: seq<int>)
    requires Sorted(t) && forall y | y in t :: h <= y
    ensures Sorted([h] + t)
  {
    var s := [h] + t;
    forall i, j | 0 <= i < j < |s| ensures s[i] <= s[j] {
      assert s[j] == t[j - 1] && t[j - 1] in t;
      if i > 0 {
        assert s[i] == t[i - 1];
      }
    }
  }

  lemma {:induction false} InsertSorts(s: seq<int>, x: int)
    requires Sorted(s)
    ensures Sorted(Insert(s, x)) && multiset(Insert(s, x)) == multiset(s) + multiset{x}
  {
    if s == [] || x <= s[0] {
      ConsSorted(x, s);
    } else {
      var rest := s[1..];
      InsertSorts(rest, x);
      assert s == [s[0]] + rest;
      var t := Insert(rest, x);
      forall y | y in t ensures s[0] <= y {
        assert y in multiset(t);
        assert y in rest || y == x;
      }
      ConsSorted(s[0], t);
    }
  }

  lemma {:induction false} SortSorts(s: seq<int>)
    ensures Sorted(Sort(s)) && multiset(Sort(s)) == multiset(s)
    ensures forall x :: x in Sort(s) <==> x in s
  {
    if s != [] {
      SortSorts(s[1..]);
      InsertSorts(Sort(s[1..]), s[0]);
      assert s == [s[0]] + s[1..];
    }
    forall x ensures x in Sort(s) <==> x in s {
      assert x in multiset(Sort(s)) <==> x in multiset(s);
    }
  }

  lemma HeadOut(s: seq<int>)
    requires s != []
    ensures multiset(s) == multiset{s[0]} + multiset(s[1..])
  {
    assert s == [s[0]] + s[1..];
  }

  lemma HeadIsLeast(s: seq<int>, x: int)
    requires Sorted(s) && x in multiset(s)
    ensures s != [] && s[0] <= x
  {
    var i :| 0 <= i < |s| && s[i] == x;
  }

  lemma SameHead(s: seq<int>, t: seq<int>)
    requires Sorted(s) && Sorted(t) && multiset(s) == multiset(t) && s != []
    ensures t != [] && s[0] == t[0]
  {
    assert s[0] in multiset(t);
    HeadIsLeast(t, s[0]);
    assert t[0] in multiset(s);
    HeadIsLeast(s, t[0]);
  }

  lemma SameTail(s: seq<int>, t: seq<int>)
    requires multiset(s) == multiset(t) && s != [] && t != [] && s[0] == t[0]
    ensures multiset(s[1..]) == multiset(t[1..])
  {
    HeadOut(s);
    HeadOut(t);
    assert multiset(s[1..]) == multiset(s) - multiset{s[0]};
    assert multiset(t[1..]) == multiset(t) - multiset{t[0]};
  }

  lemma {:induction false} SortedUnique(s: seq<int>, t: seq<int>)
    requires Sorted(s) && Sorted(t) && multiset(s) == multiset(t)
    ensures s == t
    decreases |s|
  {
    if s == [] {
      assert |multiset(t)| == 0;
    } else {
      SameHead(s, t);
      SameTail(s, t);
      SortedUnique(s[1..], t[1..]);
      assert s == [s[0]] + s[1..] && t == [t[0]] + t[1..];
    }
  }

  // ---- Five-hour sessions ----

  /** The session starts: the first record opens one, and so does the first record after one has run out. */
  function Anchors(s: seq<int>): seq<int> {
    if s == [] then []
    else
      var a := Anchors(s[..|s| - 1]);
      var x := s[|s| - 1];
      if a == [] || x >= a[|a| - 1] + H5 then a + [x] else a
  }

  predicate InSession(anchor: int, x: int) {
    anchor <= x < anchor + H5
  }

  ghost predicate Spaced(a: seq<int>) {
    forall i, j :: 0 <= i < j < |a| ==> a[i] + H5 <= a[j]
  }

  ghost predicate Hit(a: seq<int>, x: int) {
    exists i :: 0 <= i < |a| && InSession(a[i], x)
  }

  /** The greedy partition: starts are records at least five hours apart, and every record is in a session. */
  ghost predicate Partition(a: seq<int>, s: seq<int>) {
    && (forall x :: x in a ==> x in s)
    && Spaced(a)
    && (forall x :: x in s ==> Hit(a, x))
  }

  lemma HitMore(a: seq<int>, x: int, y: int)
    requires Hit(a, y) || InSession(x, y)
    ensures Hit(a + [x], y)
  {
    if InSession(x, y) {
      assert InSession((a + [x])[|a|], y);
    } else {
      var i :| 0 <= i < |a| && InSession(a[i], y);
      assert InSession((a + [x])[i], y);
    }
  }

  lemma PartitionNext(a: seq<int>, s: seq<int>, x: int)
    requires Partition(a, s) && (forall y | y in s :: y <= x)
    ensures a == [] || x >= a[|a| - 1] + H5 ==> Partition(a + [x], s + [x])
    ensures a != [] && x < a[|a| - 1] + H5 ==> Partition(a, s + [x])
  {
    if a == [] || x >= a[|a| - 1] + H5 {
      forall y | y in s + [x] ensures Hit(a + [x], y) {
        HitMore(a, x, y);
      }
    } else {
      assert a[|a| - 1] in a;
      assert InSession(a[|a| - 1], x);
    }
  }

  lemma {:induction false} AnchorsPartition(s: seq<int>)
    requires Sorted(s)
    ensures Partition(Anchors(s), s)
  {
    if s != [] {
      var init, x := s[..|s| - 1], s[|s| - 1];
      AnchorsPartition(init);
      assert s == init + [x];
      PartitionNext(Anchors(init), init, x);
    }
  }

  /** Each record lies in exactly one session. */
  lemma OneSession(a: seq<int>, x: int, i: nat, j: nat)
    requires Spaced(a) && i < |a| && j < |a| && InSession(a[i], x) && InSession(a[j], x)
    ensures i == j && a[i] <= x < a[i] + 18000000
  {
  }

  /** The session a start of `b` falls into comes no earlier than its own position. */
  lemma NotEarlier(a: seq<int>, b: seq<int>, k: nat, i: nat)
    requires Spaced(b) && k <= |a| && k < |b| && a[..k] == b[..k] && i < |a| && InSession(a[i], b[k])
    ensures i >= k
  {
    forall m | 0 <= m < k ensures a[m] == b[m] {
      assert a[..k][m] == b[..k][m];
    }
  }

  lemma StartsAgree(a: seq<int>, b: seq<int>, s: seq<int>, k: nat)
    requires Partition(a, s) && Partition(b, s) && k <= |a| && k < |b| && a[..k] == b[..k]
    ensures k < |a| && a[k] <= b[k]
  {
    assert b[k] in b;
    assert Hit(a, b[k]);
    var j :| 0 <= j < |a| && InSession(a[j], b[k]);
    NotEarlier(a, b, k, j);
    assert j == k || a[k] + H5 <= a[j];
  }

  /** There is only one such partition: the sessions are determined by which instants were recorded. */
  lemma {:induction false} PartitionUnique(a: seq<int>, b: seq<int>, s: seq<int>, n: nat)
    requires Partition(a, s) && Partition(b, s) && n <= |a| && n <= |b|
    ensures a[..n] == b[..n]
    ensures n == |a| ==> n == |b|
  {
    if n > 0 {
      PartitionUnique(a, b, s, n - 1);
      StartsAgree(a, b, s, n - 1);
      StartsAgree(b, a, s, n - 1);
      assert a[..n] == a[..n - 1] + [a[n - 1]] && b[..n] == b[..n - 1] + [b[n - 1]];
    }
    if n < |b| {
      StartsAgree(a, b, s, n);
    }
  }

  /** The stamped records that are not in the future. */
  function Stamps(rs: seq<Rec>, now: int): seq<int> {
    if rs == [] then []
    else if rs[0].ts.Some? && rs[0].ts.value <= now then [rs[0].ts.value] + Stamps(rs[1..], now)
    else Stamps(rs[1..], now)
  }

  lemma {:induction false} StampsElems(rs: seq<Rec>, now: int, x: int)
    ensures x in Stamps(rs, now) <==> x <= now && exists r :: r in rs && r.ts == Some(x)
  {
    if rs != [] {
      StampsElems(rs[1..], now, x);
      assert rs == [rs[0]] + rs[1..];
    }
  }

  /** The start of the session that is still open at `now`. */
  function OpenSession(rs: seq<Rec>, now: int): Option<int> {
    var a := Anchors(Sort(Stamps(rs, now)));
    if a != [] && now < a[|a| - 1] + H5 then Some(a[|a| - 1]) else None
  }

  /** The loop all three meters run over their sorted timestamps. */
  method FindSession(rs: seq<Rec>, now: int) returns (start: Option<int>)
    ensures start == OpenSession(rs, now)
  {
    var stamped := Sort(Stamps(rs, now));
    var ws: Option<int> := None;
    assert stamped[..0] == [];
    for i := 0 to |stamped|
      invariant var a := Anchors(stamped[..i]); ws == if a == [] then None else Some(a[|a| - 1])
    {
      assert stamped[..i + 1][..i] == stamped[..i];
      if ws.None? || stamped[i] >= ws.value + H5 {
        ws := Some(stamped[i]);
      }
    }
    assert stamped[..|stamped|] == stamped;
    start := if ws.Some? && now < ws.value + H5 then ws else None;
  }

  lemma PartitionIsAnchors(rs: seq<Rec>, now: int, a: seq<int>)
    requires Partition(a, Stamps(rs, now))
    ensures a == Anchors(Sort(Stamps(rs, now)))
  {
    var t := Stamps(rs, now);
    SortSorts(t);
    AnchorsPartition(Sort(t));
    var b := Anchors(Sort(t));
    assert Partition(b, t);
    if |a| <= |b| {
      PartitionUnique(a, b, t, |a|);
    } else {
      PartitionUnique(b, a, t, |b|);
    }
    assert a == a[..|a|] && b == b[..|b|];
  }

  /**
   * What an open session is: it starts at a record, `now` is inside it, and the records from its
   * start on are exactly those of the last session of the partition. Otherwise every session is over.
   */
  lemma OpenSessionIsLast(rs: seq<Rec>, now: int, a: seq<int>)
    requires Partition(a, Stamps(rs, now))
    ensures var open := OpenSession(rs, now);
      && (open.Some? <==> a != [] && InSession(a[|a| - 1], now))
      && (open.Some? ==> open.value == a[|a| - 1]
                         && forall x :: x in Stamps(rs, now) ==> (x >= open.value <==> InSession(open.value, x)))
      && (open.None? ==> !Hit(a, now))
  {
    PartitionIsAnchors(rs, now, a);
    forall x | x in Stamps(rs, now) ensures x <= now {
      StampsElems(rs, now, x);
    }
    if a != [] {
      assert a[|a| - 1] in a;
      assert forall i :: 0 <= i < |a| - 1 ==> a[i] + H5 <= a[|a| - 1];
    }
  }

  // ---- Summing a window ----

  function Total(rs: seq<Rec>, counts: Rec -> bool): Usage {
    if rs == [] then ZERO
    else
      var rest := Total(rs[..|rs| - 1], counts);
      if counts(rs[|rs| - 1]) then rest.Plus(rs[|rs| - 1].use) else rest
  }

  datatype Meters = Meters(last5h: Usage, last7d: Usage, total: Usage)

  /** `start` is `None` for a window that starts at infinity: nothing is in it. */
  predicate Since(r: Rec, start: Option<int>, now: int) {
    r.ts.Some? && r.ts.value <= now && start.Some? && r.ts.value >= start.value
  }

  function Metered(rs: seq<Rec>, agent: bool, start5h: Option<int>, startWeek: int, now: int): Meters {
    Meters(Total(rs, (r: Rec) => r.isAgent == agent && Since(r, start5h, now)),
           Total(rs, (r: Rec) => r.isAgent == agent && Since(r, Some(startWeek), now)),
           Total(rs, (r: Rec) => r.isAgent == agent))
  }

  function Start5h(rs: seq<Rec>, session5h: bool, now: int): Option<int> {
    if session5h then OpenSession(rs, now) else Some(now - H5)
  }

  /** Records without a timestamp, which no window can hold. */
  function Untimed(rs: seq<Rec>): nat {
    if rs == [] then 0 else Untimed(rs[..|rs| - 1]) + if rs[|rs| - 1].ts.None? then 1 else 0
  }

  /** claudeUsage and antigravity's windowed(): one pass that splits agent and founder activity. */
  method Windowed(rs: seq<Rec>, now: int, weekStart: Option<int>, session5h: bool)
    returns (main: Meters, founder: Meters, session: Option<int>, noTimestamp: nat)
    ensures session == if session5h then OpenSession(rs, now) else None
    ensures noTimestamp == Untimed(rs)
    ensures main == Metered(rs, true, Start5h(rs, session5h, now), weekStart.Or(now - WEEK), now)
    ensures founder == Metered(rs, false, Start5h(rs, session5h, now), weekStart.Or(now - WEEK), now)
  {
    var start5h := Some(now - H5);
    session := None;
    if session5h {
      session := FindSession(rs, now);
      start5h := session;
    }
    var startWeek := weekStart.Or(now - WEEK);
    main, founder, noTimestamp := Meters(ZERO, ZERO, ZERO), Meters(ZERO, ZERO, ZERO), 0;
    assert rs[..0] == [];
    for i := 0 to |rs|
      invariant main == Metered(rs[..i], true, start5h, startWeek, now)
      invariant founder == Metered(rs[..i], false, start5h, startWeek, now)
      invariant noTimestamp == Untimed(rs[..i])
    {
      assert rs[..i + 1][..i] == rs[..i];
      if rs[i].ts.None? {
        noTimestamp := noTimestamp + 1;
      }
      if rs[i].isAgent {
        main := Add(main, rs[i], start5h, startWeek, now);
      } else {
        founder := Add(founder, rs[i], start5h, startWeek, now);
      }
    }
    assert rs[..|rs|] == rs;
  }

  function Add(m: Meters, r: Rec, start5h: Option<int>, startWeek: int, now: int): Meters {
    var m := m.(total := m.total.Plus(r.use));
    if r.ts.None? || r.ts.value > now then m
    else
      var m := if Since(r, start5h, now) then m.(last5h := m.last5h.Plus(r.use)) else m;
      if r.ts.value >= startWeek then m.(last7d := m.last7d.Plus(r.use)) else m
  }

  // ---- The sums, in plain figures ----

  datatype Figure = Input | Output | CacheWrite | CacheRead | Billable | Count

  function Of(u: Usage, f: Figure): int {
    match f
    case Input => u.input
    case Output => u.output
    case CacheWrite => u.cacheWrite
    case CacheRead => u.cacheRead
    case Billable => u.billable
    case Count => u.count
  }

  /** One figure added up over the records that `pick` picks. */
  ghost function SumOf(rs: seq<Rec>, pick: Rec -> bool, f: Figure): int {
    if rs == [] then 0
    else SumOf(rs[..|rs| - 1], pick, f) + if pick(rs[|rs| - 1]) then Of(rs[|rs| - 1].use, f) else 0
  }

  lemma {:induction false} TotalIsSum(rs: seq<Rec>, p: Rec -> bool, q: Rec -> bool, f: Figure)
    requires forall r | r in rs :: p(r) <==> q(r)
    ensures Of(Total(rs, p), f) == SumOf(rs, q, f)
  {
    if rs != [] {
      assert rs[|rs| - 1] in rs;
      TotalIsSum(rs[..|rs| - 1], p, q, f);
    }
  }

  /** Records of the one kind of activity, agent or founder, stamped from `start` to `now`, both included. */
  function Within(agent: bool, start: int, now: int): Rec -> bool {
    (r: Rec) => r.isAgent == agent && r.ts.Some? && start <= r.ts.value <= now
  }

  /**
   * Each meter is the plain sum, figure by figure, of what lies in its window: the week from its boundary, or
   * the last seven days; the open session, nothing without one, or the last five hours; and everything.
   */
  lemma MetersAreSums(rs: seq<Rec>, agent: bool, session5h: bool, weekStart: Option<int>, now: int, f: Figure)
    ensures var m := Metered(rs, agent, Start5h(rs, session5h, now), weekStart.Or(now - WEEK), now);
      var week := if weekStart.Some? then weekStart.value else now - 604800000;
      var open := OpenSession(rs, now);
      && Of(m.total, f) == SumOf(rs, (r: Rec) => r.isAgent == agent, f)
      && Of(m.last7d, f) == SumOf(rs, Within(agent, week, now), f)
      && Of(m.last5h, f) == if !session5h then SumOf(rs, Within(agent, now - 18000000, now), f)
                            else if open.Some? then SumOf(rs, Within(agent, open.value, now), f) else 0
  {
    var start, week := Start5h(rs, session5h, now), weekStart.Or(now - WEEK);
    TotalIsSum(rs, (r: Rec) => r.isAgent == agent, (r: Rec) => r.isAgent == agent, f);
    TotalIsSum(rs, (r: Rec) => r.isAgent == agent && Since(r, Some(week), now), Within(agent, week, now), f);
    if start.Some? {
      TotalIsSum(rs, (r: Rec) => r.isAgent == agent && Since(r, start, now), Within(agent, start.value, now), f);
    } else {
      Nothing(rs, (r: Rec) => r.isAgent == agent && Since(r, start, now));
    }
  }

  lemma {:induction false} TotalSplit(rs: seq<Rec>, p: Rec -> bool, q: Rec -> bool, both: Rec -> bool)
    requires forall r | r in rs :: both(r) <==> (p(r) || q(r))
    requires forall r | r in rs :: !(p(r) && q(r))
    ensures Total(rs, both) == Total(rs, p).Plus(Total(rs, q))
  {
    if rs != [] {
      assert rs[|rs| - 1] in rs;
      TotalSplit(rs[..|rs| - 1], p, q, both);
    }
  }

  lemma {:induction false} TotalSame(rs: seq<Rec>, p: Rec -> bool, q: Rec -> bool)
    requires forall r | r in rs :: p(r) <==> q(r)
    ensures Total(rs, p) == Total(rs, q)
  {
    if rs != [] {
      assert rs[|rs| - 1] in rs;
      TotalSame(rs[..|rs| - 1], p, q);
    }
  }

  lemma {:induction false} TotalConcat(a: seq<Rec>, b: seq<Rec>, p: Rec -> bool)
    ensures Total(a + b, p) == Total(a, p).Plus(Total(b, p))
  {
    if b == [] {
      assert a + b == a;
    } else {
      assert (a + b)[..|a| + |b| - 1] == a + b[..|b| - 1];
      TotalConcat(a, b[..|b| - 1], p);
    }
  }

  lemma {:induction false} TotalPermutes(a: seq<Rec>, b: seq<Rec>, p: Rec -> bool)
    requires multiset(a) == multiset(b)
    ensures Total(a, p) == Total(b, p)
  {
    if a == [] {
      assert |b| == |multiset(b)| == |multiset(a)| == 0;
    } else {
      var n := |a| - 1;
      assert a == a[..n] + [a[n]];
      var left, right := TakeOut(b, a[..n], a[n]);
      TotalPermutes(a[..n], left + right, p);
      TotalConcat(left, right, p);
      TotalConcat(left, [a[n]] + right, p);
      TotalConcat([a[n]], right, p);
      TotalConcat(a[..n], [a[n]], p);
    }
  }

  /**
   * With activity-anchored sessions, last5h is exactly the last session of the partition while it is
   * open, else nothing.
   */
  lemma Last5hIsTheOpenSession(rs: seq<Rec>, now: int, a: seq<int>, agent: bool, startWeek: int)
    requires Partition(a, Stamps(rs, now))
    ensures var last5h := Metered(rs, agent, OpenSession(rs, now), startWeek, now).last5h;
      if a != [] && InSession(a[|a| - 1], now)
      then last5h == Total(rs, (r: Rec) => r.isAgent == agent && r.ts.Some? && r.ts.value <= now
                                           && InSession(a[|a| - 1], r.ts.value))
      else last5h == ZERO
  {
    var open := OpenSession(rs, now);
    var p := (r: Rec) => r.isAgent == agent && Since(r, open, now);
    OpenSessionIsLast(rs, now, a);
    if open.Some? {
      var q := (r: Rec) => r.isAgent == agent && r.ts.Some? && r.ts.value <= now && InSession(a[|a| - 1], r.ts.value);
      forall r | r in rs ensures p(r) <==> q(r) {
        if r.ts.Some? && r.ts.value <= now {
          StampsElems(rs, now, r.ts.value);
        }
      }
      TotalSame(rs, p, q);
    } else {
      Nothing(rs, p);
    }
  }

  lemma {:induction false} Nothing(rs: seq<Rec>, p: Rec -> bool)
    requires forall r | r in rs :: !p(r)
    ensures Total(rs, p) == ZERO
  {
    if rs != [] {
      assert rs[|rs| - 1] in rs;
      Nothing(rs[..|rs| - 1], p);
    }
  }

  lemma {:induction false} StampsConcat(a: seq<Rec>, b: seq<Rec>, now: int)
    ensures Stamps(a + b, now) == Stamps(a, now) + Stamps(b, now)
  {
    if a == [] {
      assert a + b == b;
    } else {
      assert (a + b)[1..] == a[1..] + b;
      StampsConcat(a[1..], b, now);
    }
  }

  lemma {:induction false} StampsPermute(a: seq<Rec>, b: seq<Rec>, now: int)
    requires multiset(a) == multiset(b)
    ensures multiset(Stamps(a, now)) == multiset(Stamps(b, now))
  {
    if a == [] {
      assert |b| == |multiset(b)| == |multiset(a)| == 0;
    } else {
      assert a == [a[0]] + a[1..];
      var left, right := TakeOut(b, a[1..], a[0]);
      StampsPermute(a[1..], left + right, now);
      StampsConcat(left, right, now);
      StampsConcat(left, [a[0]] + right, now);
      StampsConcat([a[0]], right, now);
      StampsConcat([a[0]], a[1..], now);
    }
  }

  /** No meter depends on the order in which files and lines were read. */
  lemma OrderIsIrrelevant(a: seq<Rec>, b: seq<Rec>, agent: bool, session5h: bool, startWeek: int, now: int)
    requires multiset(a) == multiset(b)
    ensures OpenSession(a, now) == OpenSession(b, now)
    ensures Metered(a, agent, Start5h(a, session5h, now), startWeek, now) ==
            Metered(b, agent, Start5h(b, session5h, now), startWeek, now)
  {
    StampsPermute(a, b, now);
    SortSorts(Stamps(a, now));
    SortSorts(Stamps(b, now));
    SortedUnique(Sort(Stamps(a, now)), Sort(Stamps(b, now)));
    var start := Start5h(a, session5h, now);
    TotalPermutes(a, b, (r: Rec) => r.isAgent == agent && Since(r, start, now));
    TotalPermutes(a, b, (r: Rec) => r.isAgent == agent && Since(r, Some(startWeek), now));
    TotalPermutes(a, b, (r: Rec) => r.isAgent == agent);
  }

  // ---- The ledger's window ----

  /** queryWindow: the half-open window [since, until). */
  function Query(events: seq<Rec>, since: Option<int>, until: Option<int>): Usage {
    Total(events, (r: Rec) => r.ts.Some? && (since.Some? ==> r.ts.value >= since.value)
                              && (until.Some? ==> r.ts.value < until.value))
  }

  /** Two half-open queries and an unbounded total; a closed session leaves the first window empty. */
  function LedgerMeters(events: seq<Rec>, start5h: Option<int>, startWeek: int, now: int): Meters {
    Meters(if start5h.Some? then Query(events, start5h, Some(now)) else ZERO,
           Query(events, Some(startWeek), Some(now)),
           Query(events, None, None))
  }

  method LedgerWindow(events: seq<Rec>, now: int, weekStart: Option<int>, session5h: bool)
    returns (w: Meters, session: Option<int>)
    ensures session == if session5h then OpenSession(events, now) else None
    ensures w == LedgerMeters(events, Start5h(events, session5h, now), weekStart.Or(now - WEEK), now)
  {
    var start5h := Some(now - H5);
    session := None;
    if session5h {
      session := FindSession(events, now);
      start5h := session;
    }
    w := Meters(if start5h.Some? then Query(events, start5h, Some(now)) else ZERO,
                Query(events, Some(weekStart.Or(now - WEEK)), Some(now)),
                Query(events, None, None));
  }

  function AtInstant(events: seq<Rec>, now: int): Usage {
    Total(events, (r: Rec) => r.ts == Some(now))
  }

  /** In one window the meter counts what the ledger's query counts, and what is stamped `now`. */
  lemma OneWindow(events: seq<Rec>, now: int, start: int)
    requires (forall r | r in events :: r.isAgent) && start <= now
    ensures Total(events, (r: Rec) => r.isAgent == true && Since(r, Some(start), now)) ==
            Query(events, Some(start), Some(now)).Plus(AtInstant(events, now))
  {
    var before := (r: Rec) => r.ts.Some? && (Some(start).Some? ==> r.ts.value >= start)
                              && (Some(now).Some? ==> r.ts.value < now);
    TotalSplit(events, before, (r: Rec) => r.ts == Some(now),
               (r: Rec) => r.isAgent == true && Since(r, Some(start), now));
    TotalSame(events, before,
              (r: Rec) => r.ts.Some? && (Some(start).Some? ==> r.ts.value >= Some(start).value)
                          && (Some(now).Some? ==> r.ts.value < Some(now).value));
  }

  lemma NoWindow(events: seq<Rec>, now: int)
    ensures Total(events, (r: Rec) => r.isAgent == true && Since(r, None, now)) == ZERO
  {
    var never := (r: Rec) => false;
    TotalSame(events, (r: Rec) => r.isAgent == true && Since(r, None, now), never);
    TotalOfNone(events, never);
  }

  lemma {:induction false} TotalOfNone(rs: seq<Rec>, p: Rec -> bool)
    requires forall r | r in rs :: !p(r)
    ensures Total(rs, p) == ZERO
  {
    if rs != [] {
      assert rs[|rs| - 1] in rs;
      TotalOfNone(rs[..|rs| - 1], p);
    }
  }

  lemma EverythingCounts(events: seq<Rec>)
    requires forall r | r in events :: r.isAgent && r.ts.Some?
    ensures Total(events, (r: Rec) => r.isAgent == true) == Query(events, None, None)
  {
    var none: Option<int> := None;
    TotalSame(events, (r: Rec) => r.isAgent == true,
              (r: Rec) => r.ts.Some? && (none.Some? ==> r.ts.value >= none.value)
                          && (none.Some? ==> r.ts.value < none.value));
  }

  /**
   * The two metering paths anchor the same session, but they do not always agree on what is in a
   * window: the ledger's queries exclude `now` itself. In each window that holds `now` the transcript
   * meter is larger by exactly what is stamped at that instant, so the windows agree if and only if
   * that comes to nothing.
   */
  lemma LedgerAgreesIff(events: seq<Rec>, now: int, start5h: Option<int>, startWeek: int)
    requires (forall r | r in events :: r.isAgent) && startWeek <= now && (start5h.Some? ==> start5h.value <= now)
    ensures var meter := Metered(events, true, start5h, startWeek, now);
      var ledger := LedgerMeters(events, start5h, startWeek, now);
      && ((forall r | r in events :: r.ts.Some?) ==> meter.total == ledger.total)
      && meter.last7d == ledger.last7d.Plus(AtInstant(events, now))
      && meter.last5h == (if start5h.Some? then ledger.last5h.Plus(AtInstant(events, now)) else ledger.last5h)
      && (meter.last7d == ledger.last7d && meter.last5h == ledger.last5h <==> AtInstant(events, now) == ZERO)
  {
    if forall r | r in events :: r.ts.Some? {
      EverythingCounts(events);
    }
    OneWindow(events, now, startWeek);
    if start5h.Some? {
      OneWindow(events, now, start5h.value);
    } else {
      NoWindow(events, now);
    }
  }

  lemma TotalOne(r: Rec, p: Rec -> bool)
    ensures Total([r], p) == if p(r) then r.use else ZERO
  {
    assert [r][..0] == [];
  }

  /** Such a disagreement does occur: one event, stamped now, opens a session that the ledger counts as empty. */
  lemma LedgerMissesNow(now: int, u: Usage)
    requires u != ZERO
    ensures var events := [Rec(Some(now), u, true)];
      && OpenSession(events, now) == Some(now)
      && Metered(events, true, OpenSession(events, now), now, now).last5h == u
      && Query(events, OpenSession(events, now), Some(now)) == ZERO
  {
    var events := [Rec(Some(now), u, true)];
    assert events[1..] == [];
    TotalOne(events[0], (r: Rec) => r.isAgent == true && Since(r, Some(now), now));
    TotalOne(events[0],
             (r: Rec) => r.ts.Some? && (Some(now).Some? ==> r.ts.value >= Some(now).value)
                         && (Some(now).Some? ==> r.ts.value < Some(now).value));
    assert Stamps(events, now) == [now];
    assert Sort([now]) == [now];
    assert [now][..0] == [];
    assert Anchors([now]) == [now];
  }

  // ---- Plan weeks ----

  /** weekWindow: the latest boundary at or before now; JavaScript's floor is Dafny's division by a positive. */
  function WeekStart(anchor: int, now: int): int {
    anchor + (now - anchor) / WEEK * WEEK
  }

  /** For any anchor, past or future, this is the only boundary congruent to it whose week contains `now`. */
  lemma WeekWindow(anchor: int, now: int, s: int)
    ensures s == WeekStart(anchor, now) <==> s <= now < s + WEEK && (s - anchor) % WEEK == 0
  {
    var q := (now - anchor) / WEEK;
    assert (WeekStart(anchor, now) - anchor) % WEEK == 0 by {
      assert q * WEEK % WEEK == 0;
    }
    if s <= now < s + WEEK && (s - anchor) % WEEK == 0 {
      var k := (s - anchor) / WEEK;
      assert s == anchor + k * WEEK;
      assert k == q;
    }
  }
}
