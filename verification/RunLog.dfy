/** Snapshot pagination over the append-only run log (runlog.mjs). */
module RunLog {
  import opened Common

  datatype Run = Run(id: Option<string>, ts: Option<string>, task: string, project: Option<string>,
                     provider: Option<string>, outcome: string)

  /** One line of the log file: a record, or a blank or torn line that the reader skips. */
  datatype Line = Record(run: Run) | Unreadable

  type Log = seq<Line>

  /** Request scope and filters; an absent (or empty) criterion does not filter. */
  datatype Scope = Scope(tenant: string, from: string, to: string, project: string, provider: string)
  datatype Filters = Filters(state: string, task: string, runId: string)

  /** What a cursor is bound to. The time bounds are not part of it. */
  datatype Key = Key(tenant: string, project: string, provider: string, filters: Filters)

  datatype Cursor = Cursor(n: int, o: int, f: Key)

  datatype Page = InvalidCursor | ExpiredCursor | Page(items: seq<Run>, next: Option<Cursor>)

  function KeyOf(s: Scope, f: Filters): Key {
    Key(s.tenant, s.project, s.provider, f)
  }

  predicate Passes(r: Run, s: Scope, f: Filters) {
    && (s.from != "" ==> r.ts.Some? && r.ts.value != "" && !StrLess(r.ts.value, s.from))
    && (s.to != "" ==> r.ts.Some? && r.ts.value != "" && StrLess(r.ts.value, s.to))
    && (s.project != "" ==> s.project + "/" <= r.task || r.project == Some(s.project))
    && (s.provider != "" ==> r.provider == Some(s.provider))
    && (f.state != "" ==> r.outcome == f.state)
    && (f.task != "" ==> r.task == f.task)
    && (f.runId != "" ==> r.id == Some(f.runId))
  }

  function VisibleFrom(rs: seq<Run>, s: Scope, f: Filters, i: nat): seq<Run>
    requires i <= |rs|
    decreases |rs| - i
  {
    if i == |rs| then []
    else (if Passes(rs[i], s, f) then [rs[i]] else []) + VisibleFrom(rs, s, f, i + 1)
  }

  function Visible(rs: seq<Run>, s: Scope, f: Filters): seq<Run> {
    VisibleFrom(rs, s, f, 0)
  }

  /** The readable records among the first `n` lines, newest first. */
  function NewestOf(log: Log, n: nat): seq<Run>
    requires n <= |log|
  {
    if n == 0 then []
    else (if log[n - 1].Record? then [log[n - 1].run] else []) + NewestOf(log, n - 1)
  }

  function Newest(log: Log): seq<Run> {
    NewestOf(log, |log|)
  }

  /** readRuns: push every readable line, then reverse; a limit of 0 means all of them. */
  method ReadRuns(log: Log, limit: nat) returns (recs: seq<Run>)
    ensures recs == if limit == 0 || limit >= |Newest(log)| then Newest(log) else Newest(log)[..limit]
  {
    var pushed: seq<Run> := [];
    for i := 0 to |log|
      invariant Reverse(pushed) == NewestOf(log, i)
    {
      if log[i].Record? {
        assert (pushed + [log[i].run])[..|pushed|] == pushed;
        pushed := pushed + [log[i].run];
      }
    }
    recs := Reverse(pushed);
    if limit != 0 && limit < |recs| {
      recs := recs[..limit];
    }
  }

  function Reverse(s: seq<Run>): seq<Run> {
    if s == [] then [] else [s[|s| - 1]] + Reverse(s[..|s| - 1])
  }

  /** The elements from position `a` up to position `b`. */
  function Stretch(s: seq<Run>, a: nat, b: nat): (r: seq<Run>)
    requires b <= |s|
    ensures |r| == if a < b then b - a else 0
    decreases b
  {
    if a < b then Stretch(s, a, b - 1) + [s[b - 1]] else []
  }

  /** JavaScript's slice: negative positions count from the end, everything is clamped. */
  function Slice(s: seq<Run>, from: int, to: int): seq<Run> {
    Stretch(s, Clamp(from, |s|), Clamp(to, |s|))
  }

  function Clamp(i: int, n: nat): (r: nat)
    ensures r <= n
  {
    if i < 0 then (if i + n < 0 then 0 else i + n) else if i > n then n else i
  }

  type PageSize = l: int | 1 <= l <= 200 witness 1

  function PageLimit(limit: int): PageSize {
    var l := if limit == 0 then 50 else limit;
    if l < 1 then 1 else if l > 200 then 200 else l
  }

  function PageFrom(visible: seq<Run>, c: Cursor, limit: int): Page {
    var items := Slice(visible, c.o, c.o + limit);
    var next := c.o + |items|;
    Page(items, if next < |visible| then Some(Cursor(c.n, next, c.f)) else None)
  }

  function Query(log: Log, s: Scope, f: Filters, cursor: Option<Cursor>, limit: int): Page {
    var all := Newest(log);
    var c := cursor.Or(Cursor(|all|, 0, KeyOf(s, f)));
    if c.f != KeyOf(s, f) then InvalidCursor
    else if c.n > |all| then ExpiredCursor
    else PageFrom(Visible(Slice(all, |all| - c.n, |all|), s, f), c, PageLimit(limit))
  }

  // ---- The snapshot does not move ----

  lemma {:induction false} NewestKept(older: Log, newer: Log, n: nat)
    requires older <= newer && n <= |older|
    ensures NewestOf(newer, n) == NewestOf(older, n)
    decreases n
  {
    if n > 0 {
      NewestKept(older, newer, n - 1);
      assert older[n - 1] == newer[n - 1];
    }
  }

  lemma {:induction false} StretchIs(s: seq<Run>, a: nat, b: nat)
    requires a <= b <= |s|
    ensures Stretch(s, a, b) == s[a..b]
    decreases b
  {
    if a < b {
      StretchIs(s, a, b - 1);
      assert s[a..b] == s[a..b - 1] + [s[b - 1]];
    }
  }

  /** The records of `part` are the last ones of `all`. */
  ghost predicate Ends(all: seq<Run>, part: seq<Run>) {
    |part| <= |all| && all[|all| - |part|..] == part
  }

  lemma EndsMore(head: seq<Run>, all: seq<Run>, part: seq<Run>)
    requires Ends(all, part)
    ensures Ends(head + all, part)
  {
    var n := |all| - |part|;
    assert (head + all)[|head| + n..] == all[n..];
  }

  lemma {:induction false} NewestEnds(newer: Log, n: nat, m: nat)
    requires n <= m <= |newer|
    ensures Ends(NewestOf(newer, m), NewestOf(newer, n))
    decreases m
  {
    if n < m {
      NewestEnds(newer, n, m - 1);
      EndsMore(if newer[m - 1].Record? then [newer[m - 1].run] else [], NewestOf(newer, m - 1), NewestOf(newer, n));
    }
  }

  /** However the log has grown, the oldest n records are the same ones, in the same order. */
  lemma SnapshotIsStable(older: Log, newer: Log)
    requires older <= newer
    ensures |Newest(older)| <= |Newest(newer)|
    ensures Slice(Newest(newer), |Newest(newer)| - |Newest(older)|, |Newest(newer)|) == Newest(older)
  {
    NewestKept(older, newer, |older|);
    NewestEnds(newer, |older|, |newer|);
    var n := |Newest(newer)| - |Newest(older)|;
    StretchIs(Newest(newer), n, |Newest(newer)|);
  }

  /** JavaScript's slice for every pair of positions: a negative one counts from the end, none goes out of range. */
  lemma SliceOf(s: seq<Run>, from: int, to: int)
    ensures var lo := if from >= 0 then from else if |s| + from > 0 then |s| + from else 0;
      var hi := if to >= |s| then |s| else if to >= 0 then to else if |s| + to > 0 then |s| + to else 0;
      Slice(s, from, to) == if lo < hi then s[lo..hi] else []
  {
    if Clamp(from, |s|) < Clamp(to, |s|) {
      StretchIs(s, Clamp(from, |s|), Clamp(to, |s|));
    }
  }

  lemma SliceLength(s: seq<Run>, o: nat, l: nat)
    ensures |Slice(s, o, o + l)| == if o >= |s| then 0 else if o + l > |s| then |s| - o else l
  {
  }

  lemma SliceIs(s: seq<Run>, o: nat, l: nat)
    requires o <= |s|
    ensures o + |Slice(s, o, o + l)| <= |s| && Slice(s, o, o + l) == s[o..o + |Slice(s, o, o + l)|]
  {
    SliceLength(s, o, l);
    StretchIs(s, o, o + |Slice(s, o, o + l)|);
  }

  /** A page with a cursor, from the log of the first page alone. */
  lemma SnapshotPage(first: Log, log: Log, s: Scope, f: Filters, o: int, limit: int)
    requires first <= log
    ensures var at := Cursor(|Newest(first)|, o, KeyOf(s, f));
      Query(log, s, f, Some(at), limit) == PageFrom(Visible(Newest(first), s, f), at, PageLimit(limit))
  {
    SnapshotIsStable(first, log);
  }

  lemma StretchPage(visible: seq<Run>, at: Cursor, limit: int)
    requires 0 <= at.o <= |visible| && limit > 0
    ensures var p := PageFrom(visible, at, limit);
      && at.o + |p.items| <= |visible| && p.items == visible[at.o..at.o + |p.items|]
      && (at.o < |visible| ==> |p.items| >= 1)
      && p.next == if at.o + |p.items| < |visible| then Some(at.(o := at.o + |p.items|)) else None
  {
    SliceLength(visible, at.o, limit);
    SliceIs(visible, at.o, limit);
  }

  /** One page of a walk is as long as asked for - fifty unless said, never more than 200 - or as what is left. */
  lemma PageLength(visible: seq<Run>, at: Cursor, limit: int)
    requires 0 <= at.o <= |visible|
    ensures var left, n := |visible| - at.o, |PageFrom(visible, at, PageLimit(limit)).items|;
      n == if limit < 0 then (if left < 1 then left else 1)
           else if limit == 0 then (if left < 50 then left else 50)
           else if limit > 200 then (if left < 200 then left else 200)
           else if left < limit then left else limit
  {
    SliceLength(visible, at.o, PageLimit(limit));
  }

  /** One page of a walk: from offset o it returns the next stretch of the first snapshot. */
  lemma PageOfSnapshot(first: Log, log: Log, s: Scope, f: Filters, o: nat, limit: int)
    requires first <= log
    requires o <= |Visible(Newest(first), s, f)|
    ensures var visible := Visible(Newest(first), s, f);
      var p := Query(log, s, f, Some(Cursor(|Newest(first)|, o, KeyOf(s, f))), limit);
      p.Page? && o + |p.items| <= |visible| && p.items == visible[o..o + |p.items|]
      && (o < |visible| ==> |p.items| >= 1)
      && p.next == if o + |p.items| < |visible| then Some(Cursor(|Newest(first)|, o + |p.items|, KeyOf(s, f))) else None
  {
    SnapshotPage(first, log, s, f, o, limit);
    StretchPage(Visible(Newest(first), s, f), Cursor(|Newest(first)|, o, KeyOf(s, f)), PageLimit(limit));
  }

  // ---- What a scope lets through ----

  /** Not earlier than `from`, in the order of ISO timestamps. */
  predicate NotBefore(ts: string, from: string) {
    ts == from || StrLess(from, ts)
  }

  /** Every criterion that is given, and only that. */
  ghost predicate Meets(r: Run, s: Scope, f: Filters) {
    && (s.from == "" || exists t :: r.ts == Some(t) && t != "" && NotBefore(t, s.from))
    && (s.to == "" || exists t :: r.ts == Some(t) && t != "" && StrLess(t, s.to))
    && (s.project in {"", r.project.Or("")} || exists rest :: r.task == s.project + "/" + rest)
    && (s.provider in {"", r.provider.Or("")}) && f.state in {"", r.outcome}
    && f.task in {"", r.task} && f.runId in {"", r.id.Or("")}
  }

  lemma MeetsIff(r: Run, s: Scope, f: Filters)
    ensures Passes(r, s, f) <==> Meets(r, s, f)
  {
    if r.ts.Some? {
      StrLessTotal(r.ts.value, s.from);
    }
    var head := s.project + "/";
    if head <= r.task {
      assert r.task == s.project + "/" + r.task[|head|..];
    }
    if rest :| r.task == s.project + "/" + rest {
      assert head <= r.task;
    }
  }

  /** Of the first `n` lines, newest first: the records that can be read and meet all criteria. */
  ghost function Wanted(log: Log, n: nat, s: Scope, f: Filters): seq<Run>
    requires n <= |log|
  {
    if n == 0 then []
    else (if log[n - 1].Record? && Meets(log[n - 1].run, s, f) then [log[n - 1].run] else []) +
         Wanted(log, n - 1, s, f)
  }

  lemma {:induction false} VisibleBehind(r: Run, rest: seq<Run>, s: Scope, f: Filters, i: nat)
    requires i <= |rest|
    ensures VisibleFrom([r] + rest, s, f, i + 1) == VisibleFrom(rest, s, f, i)
    decreases |rest| - i
  {
    if i < |rest| {
      VisibleBehind(r, rest, s, f, i + 1);
    }
  }

  /** What a scope lets through of a log is what is wanted of it, whatever else the log holds. */
  lemma {:induction false} VisibleIsWanted(log: Log, n: nat, s: Scope, f: Filters)
    requires n <= |log|
    ensures Visible(NewestOf(log, n), s, f) == Wanted(log, n, s, f)
    decreases n
  {
    if n > 0 {
      VisibleIsWanted(log, n - 1, s, f);
      if log[n - 1].Record? {
        MeetsIff(log[n - 1].run, s, f);
        VisibleBehind(log[n - 1].run, NewestOf(log, n - 1), s, f, 0);
      } else {
        assert NewestOf(log, n) == NewestOf(log, n - 1);
      }
    }
  }

  lemma {:induction false} WantedIff(log: Log, n: nat, s: Scope, f: Filters, r: Run)
    requires n <= |log|
    ensures r in Wanted(log, n, s, f) <==> Record(r) in log[..n] && Meets(r, s, f)
    decreases n
  {
    if n > 0 {
      WantedIff(log, n - 1, s, f, r);
      assert log[..n] == log[..n - 1] + [log[n - 1]];
    }
  }

  /** Every run on a page is in the log and meets every criterion of the page's scope and filters. */
  lemma PagesAreFiltered(log: Log, s: Scope, f: Filters, cursor: Option<Cursor>, limit: int, r: Run)
    requires Query(log, s, f, cursor, limit).Page? && r in Query(log, s, f, cursor, limit).items
    ensures Record(r) in log && Meets(r, s, f)
  {
    var all := Newest(log);
    var c := cursor.Or(Cursor(|all|, 0, KeyOf(s, f)));
    var snapshot := Slice(all, |all| - c.n, |all|);
    InStretch(Visible(snapshot, s, f), Clamp(c.o, |Visible(snapshot, s, f)|),
              Clamp(c.o + PageLimit(limit), |Visible(snapshot, s, f)|), r);
    VisibleIsIn(snapshot, s, f, 0, r);
    InStretch(all, Clamp(|all| - c.n, |all|), |all|, r);
    NewestIsIn(log, |log|, r);
    MeetsIff(r, s, f);
  }

  lemma {:induction false} InStretch(s: seq<Run>, a: nat, b: nat, r: Run)
    requires b <= |s| && r in Stretch(s, a, b)
    ensures r in s
    decreases b
  {
    if a < b && r != s[b - 1] {
      InStretch(s, a, b - 1, r);
    }
  }

  lemma {:induction false} VisibleIsIn(rs: seq<Run>, s: Scope, f: Filters, i: nat, r: Run)
    requires i <= |rs| && r in VisibleFrom(rs, s, f, i)
    ensures r in rs && Passes(r, s, f)
    decreases |rs| - i
  {
    if !(Passes(rs[i], s, f) && r == rs[i]) {
      VisibleIsIn(rs, s, f, i + 1, r);
    }
  }

  lemma {:induction false} NewestIsIn(log: Log, n: nat, r: Run)
    requires n <= |log| && r in NewestOf(log, n)
    ensures Record(r) in log
    decreases n
  {
    if log[n - 1] != Record(r) {
      NewestIsIn(log, n - 1, r);
    }
  }

  // ---- Following the cursors ----

  datatype Walk = Asking(cursor: Option<Cursor>) | Finished | Invalid | Expired

  function NextState(log: Log, s: Scope, f: Filters, limit: int, got: seq<Run>, walk: Walk): (seq<Run>, Walk) {
    if !walk.Asking? then (got, walk)
    else
      match Query(log, s, f, walk.cursor, limit)
      case Page(items, next) => (got + items, if next.None? then Finished else Asking(next))
      case InvalidCursor => (got, Invalid)
      case ExpiredCursor => (got, Expired)
  }

  /** What the client asks for at each page, and the log it is answered from. */
  datatype Session = Session(log: nat -> Log, scope: nat -> Scope, filters: nat -> Filters, limit: nat -> int) {
    function First(): seq<Run> {
      Newest(log(0))
    }

    function Bound(k: nat): Key {
      KeyOf(scope(k), filters(k))
    }

    /** What the bounds and filters of page `k` let through of the first page's snapshot. */
    function Seen(k: nat): seq<Run> {
      Visible(First(), scope(k), filters(k))
    }

    function Lists(): PageLists {
      PageLists((k: nat) => Seen(k), (k: nat) => PageLimit(limit(k)))
    }
  }

  /** After `k` pages: what has been collected, and what the client does next. */
  function Follow(c: Session, k: nat): (seq<Run>, Walk) {
    if k == 0 then ([], Asking(None))
    else
      var prev := Follow(c, k - 1);
      NextState(c.log(k - 1), c.scope(k - 1), c.filters(k - 1), c.limit(k - 1), prev.0, prev.1)
  }

  // ---- Refused cursors ----

  /** Every cursor is bound to the size of the first log and to what the first page asked for. */
  ghost predicate BoundToFirst(c: Session, got: seq<Run>, walk: Walk) {
    walk.Asking? ==> walk.cursor == Some(Cursor(|c.First()|, |got|, c.Bound(0)))
  }

  lemma {:induction false} CursorsAreBound(c: Session, k: nat)
    requires k > 0
    ensures BoundToFirst(c, Follow(c, k).0, Follow(c, k).1)
    decreases k
  {
    if k == 1 {
      assert Follow(c, 0) == ([], Asking(None));
    } else {
      CursorsAreBound(c, k - 1);
    }
  }

  /** Page `k` asks for the tenant, project, provider and filters of the first one. */
  predicate AsksTheSame(c: Session, k: nat) {
    && c.scope(k).tenant == c.scope(0).tenant && c.scope(k).project == c.scope(0).project
    && c.scope(k).provider == c.scope(0).provider && c.filters(k) == c.filters(0)
  }

  /**
   * Whatever the logs, scopes and limits of the pages so far: the next page is refused as not matching
   * exactly when its tenant, project, provider or filters are not the first page's, and as expired exactly
   * when they are but the log is shorter than the first page's was.
   */
  lemma WalkRefusedIff(c: Session, k: nat)
    requires k > 0 && Follow(c, k).1.Asking?
    ensures Follow(c, k + 1).1 == Invalid <==> !AsksTheSame(c, k)
    ensures Follow(c, k + 1).1 == Expired <==> AsksTheSame(c, k) && |Newest(c.log(k))| < |c.First()|
  {
    CursorsAreBound(c, k);
  }

  // ---- Pages of lists ----

  /** The list every page is taken from, and how many runs it takes. */
  datatype PageLists = PageLists(seen: nat -> seq<Run>, size: nat -> PageSize)

  datatype Pile = Pile(runs: seq<Run>, ended: bool)

  /** The first `k` pages, each beginning in its own list where the one before it stopped, until a list is used up. */
  function Collect(w: PageLists, k: nat): Pile {
    if k == 0 then Pile([], false)
    else
      var p := Collect(w, k - 1);
      if p.ended then p else Add(p.runs, w.seen(k - 1), w.size(k - 1))
  }

  function Add(got: seq<Run>, seen: seq<Run>, l: PageSize): Pile {
    var more := got + Slice(seen, |got|, |got| + l);
    Pile(more, |more| >= |seen|)
  }

  /** A page as the first list would have shown it there; it may only fail to notice that it is the last. */
  ghost predicate SamePage(seen: seq<Run>, first: seq<Run>, o: nat, l: nat) {
    Slice(seen, o, o + l) == Slice(first, o, o + l) && (|seen| <= o + l ==> |first| <= o + l)
  }

  ghost predicate PageAgrees(w: PageLists, k: nat) {
    Collect(w, k).ended || SamePage(w.seen(k), w.seen(0), |Collect(w, k).runs|, w.size(k))
  }

  /** Every one of the first `k` pages that was asked for was such a page. */
  ghost predicate PagesAgree(w: PageLists, k: nat) {
    k == 0 || (PagesAgree(w, k - 1) && PageAgrees(w, k - 1))
  }

  /** A prefix of the first list has been collected, at least one run a page, and all of it in the end. */
  ghost predicate OnTrack(first: seq<Run>, k: nat, p: Pile) {
    p.runs <= first && if p.ended then p.runs == first else k <= |p.runs|
  }

  lemma TakesStretch(first: seq<Run>, got: seq<Run>, l: nat)
    requires got <= first
    ensures got + Slice(first, |got|, |got| + l) <= first
  {
    SliceIs(first, |got|, l);
    var n := |got| + |Slice(first, |got|, |got| + l)|;
    assert got + first[|got|..n] == first[..n];
  }

  lemma SamePageTaken(seen: seq<Run>, first: seq<Run>, k: nat, got: seq<Run>, l: PageSize)
    requires got <= first && k <= |got| && SamePage(seen, first, |got|, l)
    ensures OnTrack(first, k + 1, Add(got, seen, l))
  {
    TakesStretch(first, got, l);
    SliceLength(seen, |got|, l);
    SliceLength(first, |got|, l);
  }

  lemma {:induction false} StaysOnTrack(w: PageLists, k: nat)
    requires PagesAgree(w, k)
    ensures OnTrack(w.seen(0), k, Collect(w, k))
    decreases k
  {
    if k > 0 {
      StaysOnTrack(w, k - 1);
      var p := Collect(w, k - 1);
      if !p.ended {
        SamePageTaken(w.seen(k - 1), w.seen(0), k - 1, p.runs, w.size(k - 1));
      }
    }
  }

  /** What has been collected is never given back, and after the end nothing more is collected. */
  lemma {:induction false} OnlyCollects(w: PageLists, j: nat, k: nat)
    requires j <= k
    ensures Collect(w, j).runs <= Collect(w, k).runs
    ensures Collect(w, j).ended ==> Collect(w, k) == Collect(w, j)
    decreases k
  {
    if j < k {
      OnlyCollects(w, j, k - 1);
    }
  }

  lemma Continued(first: seq<Run>, got: seq<Run>, items: seq<Run>)
    requires got + items <= first
    ensures items == Slice(first, |got|, |got| + |items|)
  {
    StretchIs(first, |got|, |got| + |items|);
    assert first[|got|..|got| + |items|] == (got + items)[|got|..];
  }

  /** A page that differs from the first list's page goes beyond that list or ends too early. */
  lemma SamePageIf(seen: seq<Run>, first: seq<Run>, got: seq<Run>, l: PageSize)
    requires var p := Add(got, seen, l); p.runs <= first && (p.ended ==> p.runs == first)
    ensures SamePage(seen, first, |got|, l)
  {
    SliceLength(seen, |got|, l);
    SliceLength(first, |got|, l);
    Continued(first, got, Slice(seen, |got|, |got| + l));
  }

  lemma PageAgreesIf(w: PageLists, j: nat, k: nat)
    requires Collect(w, k).runs == w.seen(0) && 0 < j <= k
    ensures PageAgrees(w, j - 1)
  {
    OnlyCollects(w, j, k);
    var p := Collect(w, j - 1);
    if !p.ended {
      assert Collect(w, j) == Add(p.runs, w.seen(j - 1), w.size(j - 1));
      SamePageIf(w.seen(j - 1), w.seen(0), p.runs, w.size(j - 1));
    }
  }

  lemma {:induction false} NoWrongPages(w: PageLists, j: nat, k: nat)
    requires Collect(w, k).runs == w.seen(0) && j <= k
    ensures PagesAgree(w, j)
    decreases j
  {
    if j > 0 {
      NoWrongPages(w, j - 1, k);
      PageAgreesIf(w, j, k);
    }
  }

  lemma {:induction false} EqualListsAgree(w: PageLists, k: nat)
    requires forall j: nat :: w.seen(j) == w.seen(0)
    ensures PagesAgree(w, k)
    decreases k
  {
    if k > 0 {
      EqualListsAgree(w, k - 1);
      assert w.seen(k - 1) == w.seen(0);
    }
  }

  lemma EqualListsEnd(w: PageLists, k: nat)
    requires k > 0 && w.seen(k - 1) == w.seen(0) && !Collect(w, k).ended
    ensures |Collect(w, k).runs| < |w.seen(0)|
  {
  }

  // ---- Walks that are not refused ----

  /** The first page's log is only appended to, and all pages ask for the same tenant, project, provider and filters. */
  ghost predicate Steady(c: Session) {
    forall k: nat :: c.log(0) <= c.log(k) && AsksTheSame(c, k)
  }

  /** What the client holds when `p` has been collected. */
  function Holding(p: Pile, at: Cursor): (seq<Run>, Walk) {
    (p.runs, if p.ended then Finished else Asking(Some(at.(o := |p.runs|))))
  }

  lemma PageTaken(visible: seq<Run>, at: Cursor, l: PageSize, got: seq<Run>)
    requires at.o == |got|
    ensures var p := PageFrom(visible, at, l);
      Holding(Add(got, visible, l), at) == (got + p.items, if p.next.None? then Finished else Asking(p.next))
  {
  }

  lemma NextTaken(first: Log, log: Log, s: Scope, f: Filters, limit: int, got: seq<Run>, walk: Walk)
    requires first <= log
    requires walk == Asking(Some(Cursor(|Newest(first)|, |got|, KeyOf(s, f)))) ||
             (walk == Asking(None) && log == first && got == [])
    ensures var at := Cursor(|Newest(first)|, |got|, KeyOf(s, f));
      NextState(log, s, f, limit, got, walk) == Holding(Add(got, Visible(Newest(first), s, f), PageLimit(limit)), at)
  {
    SnapshotPage(first, log, s, f, |got|, limit);
    PageTaken(Visible(Newest(first), s, f), Cursor(|Newest(first)|, |got|, KeyOf(s, f)), PageLimit(limit), got);
  }

  /**
   * The client collects exactly the pages of the lists that the bounds of its pages let through of the
   * first snapshot.
   */
  lemma {:induction false} FollowCollects(c: Session, k: nat)
    requires Steady(c) && k > 0
    ensures Follow(c, k) == Holding(Collect(c.Lists(), k), Cursor(|c.First()|, 0, c.Bound(0)))
    decreases k
  {
    assert c.log(0) <= c.log(k - 1) && AsksTheSame(c, k - 1);
    if k == 1 {
      assert Follow(c, 0) == ([], Asking(None)) && Collect(c.Lists(), 0) == Pile([], false);
    } else {
      FollowCollects(c, k - 1);
    }
    var prev := Follow(c, k - 1);
    if prev.1.Asking? {
      NextTaken(c.log(0), c.log(k - 1), c.scope(k - 1), c.filters(k - 1), c.limit(k - 1), prev.0, prev.1);
    }
  }

  /**
   * When the time bounds differ from page to page, which no cursor notices: after more pages than the first
   * page's bounds let through runs, the walk has ended with exactly these runs, once and in order, if and
   * only if every page it asked for was what the first page's bounds would have shown there.
   */
  lemma VaryingBoundsIff(c: Session, k: nat)
    requires Steady(c) && k > |c.Seen(0)|
    ensures Follow(c, k) == (c.Seen(0), Finished) <==> PagesAgree(c.Lists(), k)
  {
    var w := c.Lists();
    FollowCollects(c, k);
    assert w.seen(0) == c.Seen(0);
    if PagesAgree(w, k) {
      StaysOnTrack(w, k);
    }
    if Collect(w, k).runs == w.seen(0) {
      NoWrongPages(w, k, k);
    }
  }

  /**
   * Whatever is appended between pages and whatever limits are asked for: as long as the bounds of every
   * page let the same runs of the first snapshot through, following nextCursor ends after at most one page
   * per such run (or one page, if there is none), and has then returned each of them once, in order.
   */
  lemma FollowingReturnsTheSnapshot(c: Session, k: nat)
    requires Steady(c) && (forall j: nat :: c.Seen(j) == c.Seen(0)) && k > 0 && k >= |c.Seen(0)|
    ensures Follow(c, k) == (c.Seen(0), Finished)
    ensures c.Seen(0) == Wanted(c.log(0), |c.log(0)|, c.scope(0), c.filters(0))
  {
    var w := c.Lists();
    VisibleIsWanted(c.log(0), |c.log(0)|, c.scope(0), c.filters(0));
    FollowCollects(c, k);
    assert forall j: nat :: w.seen(j) == c.Seen(j);
    EqualListsAgree(w, k);
    StaysOnTrack(w, k);
    if !Collect(w, k).ended {
      EqualListsEnd(w, k);
    }
  }

  // ---- Bounds that move ----

  predicate Open(s: Scope, f: Filters) {
    s.from == s.to == s.project == s.provider == "" && f.state == f.task == f.runId == ""
  }

  /** Three runs, stamped in the order they were appended. */
  ghost predicate Three(log: Log, a: Run, b: Run, c: Run) {
    && log == [Record(a), Record(b), Record(c)] && a.ts.Some? && b.ts.Some? && c.ts.Some?
    && a.ts.value != "" && StrLess(a.ts.value, b.ts.value) && StrLess(b.ts.value, c.ts.value)
  }

  lemma ThreeNewest(log: Log, a: Run, b: Run, c: Run)
    requires Three(log, a, b, c)
    ensures Newest(log) == [c, b, a]
  {
    assert NewestOf(log, 1) == [a];
    assert NewestOf(log, 2) == [b, a];
  }

  lemma ThreeVisible(a: Run, b: Run, c: Run, s: Scope, f: Filters)
    ensures Passes(a, s, f) && Passes(b, s, f) ==>
            Visible([c, b, a], s, f) == if Passes(c, s, f) then [c, b, a] else [b, a]
  {
    var rs := [c, b, a];
    if Passes(a, s, f) && Passes(b, s, f) {
      assert VisibleFrom(rs, s, f, 2) == [a];
      assert VisibleFrom(rs, s, f, 1) == [b, a];
    }
  }

  lemma OneRun(seen: seq<Run>, o: nat)
    requires o < |seen|
    ensures Slice(seen, o, o + 1) == [seen[o]]
  {
    SliceLength(seen, o, 1);
    SliceIs(seen, o, 1);
  }

  lemma TwoPages(w: PageLists, a: Run, b: Run, c: Run)
    requires w.seen(0) == [c, b, a] && w.seen(1) == [b, a] && w.size(0) == w.size(1) == 1
    ensures Collect(w, 2) == Pile([c, a], true)
  {
    assert Collect(w, 0) == Pile([], false);
    OneRun([c, b, a], 0);
    assert Collect(w, 1) == Add([], [c, b, a], 1) && [] + [c] == [c];
    OneRun([b, a], 1);
    assert Collect(w, 2) == Add([c], [b, a], 1) && [c] + [a] == [c, a];
  }

  /** One run a page from a log that stays as it is, with the bound `to` from the second page on. */
  function Moved(log: Log, s: Scope, to: string, f: Filters): Session {
    Session(_ => log, k => if k == 0 then s else s.(to := to), _ => f, _ => 1)
  }

  /**
   * A walk without bounds on its first page and with `to` at the newest run from then on ends without
   * having returned the run in the middle, and no cursor is refused.
   */
  lemma MovedBoundSkips(log: Log, a: Run, b: Run, c: Run, s: Scope, f: Filters)
    requires Three(log, a, b, c) && Open(s, f)
    ensures var walk := Moved(log, s, c.ts.value, f);
      Steady(walk) && walk.Seen(0) == [c, b, a] && Follow(walk, 2) == ([c, a], Finished) && b !in [c, a]
  {
    StrLessTotal(a.ts.value, b.ts.value);
    StrLessTotal(b.ts.value, c.ts.value);
    StrLessTotal(c.ts.value, c.ts.value);
    StrLessTrans(a.ts.value, b.ts.value, c.ts.value);
    ThreeNewest(log, a, b, c);
    ThreeVisible(a, b, c, s, f);
    ThreeVisible(a, b, c, s.(to := c.ts.value), f);
    var walk := Moved(log, s, c.ts.value, f);
    assert walk.Seen(0) == [c, b, a] && walk.Seen(1) == [b, a];
    TwoPages(walk.Lists(), a, b, c);
    FollowCollects(walk, 2);
  }
}
