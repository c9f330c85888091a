/** From when to when a validation, and a review of it, can be read: everything that ends them, and nothing else. */
module SetupLife {
  import opened Common
  import opened SetupSession

  // ---- What each call ends ----

  /** The call ends the stored validation `v`, whose record is `r`. */
  predicate Ends(t: Tables, e: Event, v: string, r: Validation) {
    match e
    case Create(choice, secret, s, _, _, _) => choice.Some? && secret != "" && s != "" && s == r.session
    case Get(w, _, now) => w == v && r.expires <= now
    case RevokeChoice(w, s) => w == v && s == r.session
    case RevokeSession(s) => s == r.session
    case MakeReview(w, _, _, _, now) => w == v && r.expires <= now
    case GetReviewed(_, _, _, _, _) => false
    case ConsumeReviewed(k, w, s, content, now) =>
      && w == v && s == r.session && now < r.expires
      && k in t.revs && t.revs[k].validation == v && t.revs[k].review == content
    case Consume(w, s, now) => w == v && (s == r.session || r.expires <= now)
    case ValidationTimer(w) => w == v
    case ReviewTimer(_) => false
  }

  /** A validation is as it was after a call that does not end it, and gone after one that does, but for a new issue. */
  lemma StoredAfter(t: Tables, e: Event, v: string)
    requires Inv(t) && v in t.vals
    ensures var (t', out) := Step(t, e);
      if Ends(t, e, v, t.vals[v]) then v !in t'.vals || (e.Create? && out == Issued(v))
      else v in t'.vals && t'.vals[v] == t.vals[v] && !(e.Create? && out == Issued(v))
  {
    match e
    case Create(choice, secret, s, ids, now, ttl) => FreshIsFresh(RevokeActive(t, s), ids, ATTEMPTS);
    case _ =>
  }

  /** The call ends the stored review `k`, whose record is `r`. */
  predicate EndsReview(t: Tables, e: Event, k: string, r: Review)
    requires r.validation in t.vals
  {
    || Ends(t, e, r.validation, t.vals[r.validation])
    || (e.ReviewTimer? && e.r == k)
    || ((e.GetReviewed? || e.ConsumeReviewed?) && e.r == k && r.expires <= e.now)
  }

  lemma ReviewStoredAfter(t: Tables, e: Event, k: string)
    requires Inv(t) && k in t.revs
    ensures var t' := Step(t, e).0;
      if EndsReview(t, e, k, t.revs[k]) then k !in t'.revs else k in t'.revs && t'.revs[k] == t.revs[k]
  {
    var v := t.revs[k].validation;
    match e
    case Create(choice, secret, s, ids, now, ttl) => FreshIsFresh(RevokeActive(t, s), ids, ATTEMPTS);
    case MakeReview(_, _, _, ids, _) => FreshIsFresh(t, ids, ATTEMPTS);
    case _ =>
  }

  /** Logging out: nothing of the session is left, not even a review, and nothing of any other session is touched. */
  ghost predicate SessionGone(t: Tables, t': Tables, s: string) {
    && s !in t'.active
    && (forall v :: v in t'.vals <==> v in t.vals && t.vals[v].session != s)
    && (forall k :: k in t'.revs <==> k in t.revs && t.revs[k].session != s)
    && (forall v :: v in t'.vals ==> t'.vals[v] == t.vals[v])
    && (forall k :: k in t'.revs ==> t'.revs[k] == t.revs[k])
  }

  lemma SessionEnds(t: Tables, s: string)
    requires Inv(t)
    ensures SessionGone(t, Step(t, RevokeSession(s)).0, s)
    ensures Step(t, RevokeSession(s)).1 == Flag(exists v :: v in t.vals && t.vals[v].session == s)
  {
  }

  /** A validation can be given up by its own session, and by no other; it is gone at once, and nothing else is. */
  lemma GivenUpIff(t: Tables, v: string, s: string)
    requires Inv(t)
    ensures var (t', out) := Step(t, RevokeChoice(v, s));
      && out == Flag(v in t.vals && t.vals[v].session == s)
      && (if v in t.vals && t.vals[v].session == s then
            && t'.vals == t.vals - {v} && t'.active == t.active - {s}
            && (forall k :: k in t'.revs <==> k in t.revs && t.revs[k].validation != v)
            && (forall k :: k in t'.revs ==> t'.revs[k] == t.revs[k])
          else t' == t)
  {
  }

  /** `id` is the first of the sixteen ids drawn that names nothing. */
  ghost predicate FirstUnused(t: Tables, ids: seq<string>, id: string) {
    exists i :: 0 <= i < |ids| && i < 16 && ids[i] == id && id !in t.vals && id !in t.revs &&
      forall j :: 0 <= j < i ==> ids[j] in t.vals || ids[j] in t.revs
  }

  lemma {:induction false} FreshIsFirst(t: Tables, ids: seq<string>, tries: nat) returns (i: nat)
    requires Fresh(t, ids, tries).Some?
    ensures i < |ids| && i < tries && ids[i] == Fresh(t, ids, tries).value && ids[i] !in t.vals && ids[i] !in t.revs
    ensures forall j :: 0 <= j < i ==> ids[j] in t.vals || ids[j] in t.revs
    decreases tries
  {
    if ids[0] !in t.vals && ids[0] !in t.revs {
      i := 0;
    } else {
      var k := FreshIsFirst(t, ids[1..], tries - 1);
      i := k + 1;
      assert forall j :: 0 < j < i ==> ids[j] == ids[1..][j - 1];
    }
  }

  lemma UnusedIff(t: Tables, ids: seq<string>)
    ensures Fresh(t, ids, ATTEMPTS).None? <==> forall id :: !FirstUnused(t, ids, id)
    ensures Fresh(t, ids, ATTEMPTS).Some? ==> FirstUnused(t, ids, Fresh(t, ids, ATTEMPTS).value)
  {
    FreshIsFresh(t, ids, ATTEMPTS);
    if Fresh(t, ids, ATTEMPTS).Some? {
      var i := FreshIsFirst(t, ids, ATTEMPTS);
      assert FirstUnused(t, ids, ids[i]);
    }
  }

  /**
   * A well-formed validation takes the place of whatever its session had, under the first unused id; it is
   * refused exactly when it is malformed, which changes nothing, or when all ids drawn are in use.
   */
  lemma CreateReplaces(t: Tables, choice: Option<string>, secret: string, s: string, ids: seq<string>, now: int,
                       ttl: int)
    requires Inv(t)
    ensures var (t', out) := Step(t, Create(choice, secret, s, ids, now, ttl));
      var rest := RevokeActive(t, s);
      && SessionGone(t, rest, s)
      && (if choice.None? || secret == "" || s == "" then out == Invalid && t' == t
          else if out.Issued? then
            && FirstUnused(rest, ids, out.id) && t'.revs == rest.revs && t'.active[s := out.id] == t'.active
            && t'.vals == rest.vals[out.id := Validation(choice.value, secret, s, now + ttl, false)]
          else out == Invalid && t' == rest && forall id :: !FirstUnused(rest, ids, id))
  {
    SessionEnds(t, s);
    UnusedIff(RevokeActive(t, s), ids);
  }

  /** A review is taken for a live validation of the session, and runs out with it. */
  lemma ReviewIssuedIff(t: Tables, v: string, s: string, content: Option<string>, ids: seq<string>, now: int)
    requires Inv(t)
    ensures var (t', out) := Step(t, MakeReview(v, s, content, ids, now));
      && (out.Issued? <==>
          && v in t.vals && t.vals[v].session == s && now < t.vals[v].expires && content.Some?
          && exists id :: FirstUnused(t, ids, id))
      && (out.Issued? ==>
            && FirstUnused(t, ids, out.id) && t'.vals == t.vals && t'.active == t.active
            && t'.revs == t.revs[out.id := Review(v, s, content.value, t.vals[v].expires, false)])
      && (!out.Issued? ==> out == Invalid)
  {
    UnusedIff(t, ids);
  }

  // ---- Over whole runs ----

  function Record(e: Event): Validation
    requires e.Create? && e.choice.Some?
  {
    Validation(e.choice.value, e.secret, e.session, e.now + e.ttl, false)
  }

  /** No call between number `j` and number `n` ends the validation. */
  ghost predicate Untouched(events: seq<Event>, j: nat, n: nat, v: string, r: Validation)
    requires n <= |events|
  {
    forall m :: j < m < n ==> !Ends(Run(events[..m]), events[m], v, r)
  }

  lemma RunNext(events: seq<Event>, m: nat)
    requires m < |events|
    ensures Run(events[..m + 1]) == Step(Run(events[..m]), events[m]).0
    ensures Inv(Run(events[..m])) && Answer(events, m) == Step(Run(events[..m]), events[m]).1
  {
    assert events[..m + 1][..m] == events[..m];
    RunKeepsInv(events[..m]);
  }

  /** The laws of one call, for call number `m` of a run. */
  lemma StoredNext(events: seq<Event>, m: nat, v: string)
    requires m < |events| && v in Run(events[..m]).vals
    ensures var t, t' := Run(events[..m]), Run(events[..m + 1]);
      if Ends(t, events[m], v, t.vals[v]) then v !in t'.vals || IssuedAt(events, m, v)
      else v in t'.vals && t'.vals[v] == t.vals[v]
  {
    RunNext(events, m);
    StoredAfter(Run(events[..m]), events[m], v);
  }

  lemma NoReviewAfter(t: Tables, e: Event, k: string)
    requires Inv(t) && k !in t.revs && !(e.MakeReview? && Step(t, e).1 == Issued(k))
    ensures k !in Step(t, e).0.revs
  {
  }

  lemma NoReviewNext(events: seq<Event>, m: nat, k: string)
    requires m < |events| && k !in Run(events[..m]).revs && !ReviewedAt(events, m, k)
    ensures k !in Run(events[..m + 1]).revs
  {
    RunNext(events, m);
    NoReviewAfter(Run(events[..m]), events[m], k);
  }

  lemma IssuedIsStored(events: seq<Event>, j: nat, v: string)
    requires IssuedAt(events, j, v)
    ensures events[j].choice.Some?
    ensures v in Run(events[..j + 1]).vals && Run(events[..j + 1]).vals[v] == Record(events[j])
  {
    RunNext(events, j);
  }

  lemma {:induction false} LivesUntilEnded(events: seq<Event>, j: nat, n: nat, v: string)
    requires IssuedAt(events, j, v) && events[j].choice.Some? && j < n <= |events|
    requires Untouched(events, j, n, v, Record(events[j]))
    ensures v in Run(events[..n]).vals && Run(events[..n]).vals[v] == Record(events[j])
    decreases n
  {
    if n == j + 1 {
      IssuedIsStored(events, j, v);
    } else {
      LivesUntilEnded(events, j, n - 1, v);
      StoredNext(events, n - 1, v);
    }
  }

  /** The first call that ends a validation. */
  lemma {:induction false} FirstEnd(events: seq<Event>, j: nat, n: nat, v: string, r: Validation) returns (m: nat)
    requires n <= |events| && !Untouched(events, j, n, v, r)
    ensures j < m < n && Ends(Run(events[..m]), events[m], v, r) && Untouched(events, j, m, v, r)
    decreases n
  {
    if Untouched(events, j, n - 1, v, r) {
      m := n - 1;
    } else {
      m := FirstEnd(events, j, n - 1, v, r);
    }
  }

  lemma GoneWhenEnded(events: seq<Event>, j: nat, n: nat, v: string)
    requires IssuedAt(events, j, v) && events[j].choice.Some? && j < n <= |events|
    requires forall m :: j < m < n ==> !IssuedAt(events, m, v)
    requires !Untouched(events, j, n, v, Record(events[j]))
    ensures v !in Run(events[..n]).vals
  {
    var m := FirstEnd(events, j, n, v, Record(events[j]));
    LivesUntilEnded(events, j, m, v);
    StoredNext(events, m, v);
    GoneStaysGone(events, m + 1, n, v);
  }

  /**
   * An issued id gives its secret and choice back, to a read or to the one consumption, if and only if it is
   * its own session that asks, it has not expired, and no call since has ended it; in every other case the
   * answer is invalid.
   */
  lemma ReadsBackIff(events: seq<Event>, j: nat, n: nat, v: string, s: string, now: int)
    requires IssuedAt(events, j, v) && events[j].choice.Some? && j < n < |events|
    requires events[n] == Get(v, s, now) || events[n] == Consume(v, s, now)
    requires forall m :: j < m < n ==> !IssuedAt(events, m, v)
    ensures Answer(events, n) ==
            if s == events[j].session && now < events[j].now + events[j].ttl
               && Untouched(events, j, n, v, Record(events[j]))
            then Secret(events[j].choice.value, events[j].secret) else Invalid
  {
    RunNext(events, n);
    if Untouched(events, j, n, v, Record(events[j])) {
      LivesUntilEnded(events, j, n, v);
    } else {
      GoneWhenEnded(events, j, n, v);
    }
  }

  // ---- Reviews over whole runs ----

  /** Call `j` took review `k` of validation `v`. */
  predicate ReviewedAt(events: seq<Event>, j: nat, k: string) {
    j < |events| && events[j].MakeReview? && Answer(events, j) == Issued(k)
  }

  /** Call `m` leaves the review alone, and its validation. */
  ghost predicate LeavesReview(events: seq<Event>, m: nat, k: string, r: Review)
    requires m < |events|
  {
    r.validation in Run(events[..m]).vals && !EndsReview(Run(events[..m]), events[m], k, r)
  }

  /** No call between number `j` and number `n` ends the review or its validation. */
  ghost predicate ReviewUntouched(events: seq<Event>, j: nat, n: nat, k: string, r: Review)
    requires n <= |events|
  {
    forall m :: j < m < n ==> LeavesReview(events, m, k, r)
  }

  ghost predicate HasReview(events: seq<Event>, m: nat, k: string, r: Review)
    requires m <= |events|
  {
    k in Run(events[..m]).revs && Run(events[..m]).revs[k] == r
  }

  lemma ReviewNext(events: seq<Event>, m: nat, k: string, r: Review)
    requires m < |events| && HasReview(events, m, k, r)
    ensures if LeavesReview(events, m, k, r) then HasReview(events, m + 1, k, r) else k !in Run(events[..m + 1]).revs
  {
    RunNext(events, m);
    ReviewStoredAfter(Run(events[..m]), events[m], k);
  }

  lemma {:induction false} ReviewLives(events: seq<Event>, j: nat, n: nat, k: string, r: Review)
    requires j < n <= |events| && HasReview(events, j + 1, k, r)
    requires ReviewUntouched(events, j, n, k, r)
    ensures HasReview(events, n, k, r)
    decreases n
  {
    if n > j + 1 {
      ReviewLives(events, j, n - 1, k, r);
      ReviewNext(events, n - 1, k, r);
    }
  }

  lemma {:induction false} ReviewGone(events: seq<Event>, j: nat, m: nat, n: nat, k: string, r: Review)
    requires j < m < n <= |events| && HasReview(events, j + 1, k, r)
    requires forall i :: j < i < n ==> !ReviewedAt(events, i, k)
    requires !LeavesReview(events, m, k, r)
    ensures k !in Run(events[..n]).revs
    decreases n
  {
    if m == n - 1 {
      if forall i :: j < i < m ==> LeavesReview(events, i, k, r) {
        ReviewLives(events, j, m, k, r);
        ReviewNext(events, m, k, r);
      } else {
        var i :| j < i < m && !LeavesReview(events, i, k, r);
        ReviewGone(events, j, i, n - 1, k, r);
        NoReviewNext(events, n - 1, k);
      }
    } else {
      ReviewGone(events, j, m, n - 1, k, r);
      NoReviewNext(events, n - 1, k);
    }
  }

  /** The review that call `j` took, and the validation behind it. */
  lemma ReviewIsTaken(events: seq<Event>, j: nat, k: string)
    requires ReviewedAt(events, j, k)
    ensures var e, t := events[j], Run(events[..j]);
      && e.v in t.vals && e.content.Some?
      && k in Run(events[..j + 1]).revs
      && Run(events[..j + 1]).revs[k] == Review(e.v, e.session, e.content.value, t.vals[e.v].expires, false)
      && e.v in Run(events[..j + 1]).vals && Run(events[..j + 1]).vals[e.v] == t.vals[e.v]
      && t.vals[e.v].session == e.session
  {
    RunNext(events, j);
    var e := events[j];
    ReviewIssuedIff(Run(events[..j]), e.v, e.session, e.content, e.ids, e.now);
  }

  lemma {:induction false} ValidationStands(events: seq<Event>, j: nat, n: nat, k: string, r: Review, w: Validation)
    requires j < n <= |events| && r.validation in Run(events[..j + 1]).vals
    requires Run(events[..j + 1]).vals[r.validation] == w && ReviewUntouched(events, j, n, k, r)
    ensures r.validation in Run(events[..n]).vals && Run(events[..n]).vals[r.validation] == w
    decreases n
  {
    if n > j + 1 {
      ValidationStands(events, j, n - 1, k, r, w);
      assert LeavesReview(events, n - 1, k, r);
      StoredNext(events, n - 1, r.validation);
    }
  }

  /**
   * A review gives the secret of its validation, to a read or to the one consumption, if and only if it is
   * asked for with that validation, by its session, with the very content reviewed, in time, and nothing has
   * ended the review or the validation since.
   */
  lemma ReviewReadsBackIff(events: seq<Event>, j: nat, n: nat, k: string, v: string, s: string, content: string,
                           now: int)
    requires ReviewedAt(events, j, k) && events[j].v in Run(events[..j]).vals && events[j].content.Some?
    requires j < n < |events| && forall i :: j < i < n ==> !ReviewedAt(events, i, k)
    requires events[n] == GetReviewed(k, v, s, content, now) || events[n] == ConsumeReviewed(k, v, s, content, now)
    ensures var e, w := events[j], Run(events[..j]).vals[events[j].v];
      Answer(events, n) ==
        if v == e.v && s == e.session && content == e.content.value && now < w.expires
           && ReviewUntouched(events, j, n, k, Review(e.v, e.session, e.content.value, w.expires, false))
        then Secret(w.choice, w.secret) else Invalid
  {
    var e, w := events[j], Run(events[..j]).vals[events[j].v];
    var r := Review(e.v, e.session, e.content.value, w.expires, false);
    ReviewIsTaken(events, j, k);
    RunNext(events, n);
    if ReviewUntouched(events, j, n, k, r) {
      ReviewLives(events, j, n, k, r);
      ValidationStands(events, j, n, k, r, w);
    } else {
      var m :| j < m < n && !LeavesReview(events, m, k, r);
      ReviewGone(events, j, m, n, k, r);
    }
  }
}
