/**
 * The server-memory secret handoff of setup-validation-session.mjs: one live validation a session,
 * reviews that hang off it, and single use. A call sees one reading of the clock.
 */
module SetupSession {
  import opened Common

  datatype Validation = Validation(choice: string, secret: string, session: string, expires: int, consumed: bool)
  datatype Review = Review(validation: string, session: string, review: string, expires: int, consumed: bool)

  /** The three maps. */
  datatype Tables = Tables(vals: map<string, Validation>, revs: map<string, Review>, active: map<string, string>)

  const NOTHING := Tables(map[], map[], map[])

  datatype Out = Invalid | Issued(id: string) | Secret(choice: string, secret: string) | Flag(ok: bool)

  const ATTEMPTS: nat := 16

  // ---- What each operation makes of the tables ----

  function DropReview(t: Tables, r: string): Tables {
    t.(revs := t.revs - {r})
  }

  function ReviewsOfOthers(revs: map<string, Review>, v: string): map<string, Review> {
    map r | r in revs && revs[r].validation != v :: revs[r]
  }

  function Revoke(t: Tables, v: string): Tables {
    if v !in t.vals then t
    else
      var s := t.vals[v].session;
      Tables(t.vals - {v}, ReviewsOfOthers(t.revs, v),
             if s in t.active && t.active[s] == v then t.active - {s} else t.active)
  }

  /** The first of at most sixteen random ids that names nothing yet. */
  function Fresh(t: Tables, ids: seq<string>, tries: nat): Option<string> {
    if tries == 0 || ids == [] then None
    else if ids[0] !in t.vals && ids[0] !in t.revs then Some(ids[0])
    else Fresh(t, ids[1..], tries - 1)
  }

  predicate Readable(t: Tables, v: string, s: string, now: int) {
    v in t.vals && t.vals[v].session == s && !t.vals[v].consumed && t.vals[v].expires > now
  }

  /** A failed read still revokes a validation it finds expired, whoever asked. */
  function AfterRead(t: Tables, v: string, now: int): Tables {
    if v in t.vals && t.vals[v].expires <= now then Revoke(t, v) else t
  }

  predicate Matches(t: Tables, r: string, v: string, s: string, review: string, now: int) {
    && r in t.revs && t.revs[r].validation == v && t.revs[r].session == s
    && !t.revs[r].consumed && t.revs[r].expires > now && t.revs[r].review == review
  }

  function AfterReviewRead(t: Tables, r: string, v: string, s: string, review: string, now: int): Tables {
    if Matches(t, r, v, s, review, now) then AfterRead(t, v, now)
    else if r in t.revs && t.revs[r].expires <= now then DropReview(t, r)
    else t
  }

  datatype Event =
    | Create(choice: Option<string>, secret: string, session: string, ids: seq<string>, now: int, ttl: int)
    | Get(v: string, session: string, now: int)
    | RevokeChoice(v: string, session: string)
    | RevokeSession(session: string)
    | MakeReview(v: string, session: string, content: Option<string>, ids: seq<string>, now: int)
    | GetReviewed(r: string, v: string, session: string, review: string, now: int)
    | ConsumeReviewed(r: string, v: string, session: string, review: string, now: int)
    | Consume(v: string, session: string, now: int)
    | ValidationTimer(v: string)
    | ReviewTimer(r: string)

  function RevokeActive(t: Tables, s: string): Tables {
    if s in t.active then Revoke(t, t.active[s]) else t
  }

  function Step(t: Tables, e: Event): (Tables, Out) {
    match e
    case Create(choice, secret, s, ids, now, ttl) =>
      if choice.None? || secret == "" || s == "" then (t, Invalid)
      else
        var t := RevokeActive(t, s);
        var id := Fresh(t, ids, ATTEMPTS);
        if id.None? then (t, Invalid)
        else
          (t.(vals := t.vals[id.value := Validation(choice.value, secret, s, now + ttl, false)],
              active := t.active[s := id.value]), Issued(id.value))
    case Get(v, s, now) =>
      if Readable(t, v, s, now) then (t, Secret(t.vals[v].choice, t.vals[v].secret))
      else (AfterRead(t, v, now), Invalid)
    case RevokeChoice(v, s) =>
      if v in t.vals && t.vals[v].session == s then (Revoke(t, v), Flag(true)) else (t, Flag(false))
    case RevokeSession(s) =>
      (RevokeActive(t, s), Flag(s in t.active))
    case MakeReview(v, s, review, ids, now) =>
      if !Readable(t, v, s, now) then (AfterRead(t, v, now), Invalid)
      else
        var id := Fresh(t, ids, ATTEMPTS);
        if review.None? || id.None? then (t, Invalid)
        else (t.(revs := t.revs[id.value := Review(v, s, review.value, t.vals[v].expires, false)]), Issued(id.value))
    case GetReviewed(r, v, s, review, now) =>
      if Matches(t, r, v, s, review, now) && Readable(t, v, s, now) then (t, Secret(t.vals[v].choice, t.vals[v].secret))
      else (AfterReviewRead(t, r, v, s, review, now), Invalid)
    case ConsumeReviewed(r, v, s, review, now) =>
      if Matches(t, r, v, s, review, now) && Readable(t, v, s, now)
      then (Revoke(DropReview(t, r), v), Secret(t.vals[v].choice, t.vals[v].secret))
      else (AfterReviewRead(t, r, v, s, review, now), Invalid)
    case Consume(v, s, now) =>
      if Readable(t, v, s, now) then (Revoke(t, v), Secret(t.vals[v].choice, t.vals[v].secret))
      else (AfterRead(t, v, now), Invalid)
    case ValidationTimer(v) => (Revoke(t, v), Flag(true))
    case ReviewTimer(r) => (DropReview(t, r), Flag(true))
  }

  // ---- What every run keeps ----

  ghost predicate Inv(t: Tables) {
    // each session's active entry names its one stored validation, and nothing else is stored
    && (forall s :: s in t.active ==> t.active[s] in t.vals && t.vals[t.active[s]].session == s)
    && (forall v :: v in t.vals ==> t.vals[v].session in t.active && t.active[t.vals[v].session] == v)
    // every review belongs to a stored validation of the same session and expires with it
    && (forall r :: r in t.revs ==>
          t.revs[r].validation in t.vals
          && t.revs[r].session == t.vals[t.revs[r].validation].session
          && t.revs[r].expires == t.vals[t.revs[r].validation].expires)
    // nothing consumed is stored, and an id names one thing
    && (forall v :: v in t.vals ==> !t.vals[v].consumed)
    && (forall r :: r in t.revs ==> !t.revs[r].consumed)
    && t.vals.Keys !! t.revs.Keys
  }

  lemma RevokeKeepsInv(t: Tables, v: string)
    requires Inv(t)
    ensures Inv(Revoke(t, v)) && v !in Revoke(t, v).vals
    ensures forall k :: k in Revoke(t, v).vals <==> k in t.vals && k != v
  {
  }

  lemma {:induction false} FreshIsFresh(t: Tables, ids: seq<string>, tries: nat)
    ensures var f := Fresh(t, ids, tries);
      && (f.Some? ==> f.value in ids && f.value !in t.vals && f.value !in t.revs)
      && (f.None? ==> forall i :: 0 <= i < |ids| && i < tries ==> ids[i] in t.vals || ids[i] in t.revs)
  {
    if tries > 0 && ids != [] {
      FreshIsFresh(t, ids[1..], tries - 1);
      assert ids == [ids[0]] + ids[1..];
    }
  }

  lemma CreateKeepsInv(t: Tables, choice: Option<string>, secret: string, s: string, ids: seq<string>, now: int,
                       ttl: int)
    requires Inv(t)
    ensures Inv(Step(t, Create(choice, secret, s, ids, now, ttl)).0)
  {
    var t1 := RevokeActive(t, s);
    RevokeActiveKeepsInv(t, s);
    assert s !in t1.active;
    FreshIsFresh(t1, ids, ATTEMPTS);
  }

  lemma MakeReviewKeepsInv(t: Tables, v: string, s: string, review: Option<string>, ids: seq<string>, now: int)
    requires Inv(t)
    ensures Inv(Step(t, MakeReview(v, s, review, ids, now)).0)
  {
    RevokeKeepsInv(t, v);
    FreshIsFresh(t, ids, ATTEMPTS);
  }

  lemma DropKeepsInv(t: Tables, r: string)
    requires Inv(t)
    ensures Inv(DropReview(t, r))
  {
  }

  lemma AfterReadKeepsInv(t: Tables, v: string, now: int)
    requires Inv(t)
    ensures Inv(AfterRead(t, v, now))
  {
    RevokeKeepsInv(t, v);
  }

  lemma AfterReviewReadKeepsInv(t: Tables, r: string, v: string, s: string, review: string, now: int)
    requires Inv(t)
    ensures Inv(AfterReviewRead(t, r, v, s, review, now))
  {
    AfterReadKeepsInv(t, v, now);
    DropKeepsInv(t, r);
  }

  lemma ConsumeReviewedKeepsInv(t: Tables, r: string, v: string, s: string, review: string, now: int)
    requires Inv(t)
    ensures Inv(Step(t, ConsumeReviewed(r, v, s, review, now)).0)
  {
    AfterReviewReadKeepsInv(t, r, v, s, review, now);
    DropKeepsInv(t, r);
    RevokeKeepsInv(DropReview(t, r), v);
  }

  lemma RevokeActiveKeepsInv(t: Tables, s: string)
    requires Inv(t)
    ensures Inv(RevokeActive(t, s))
  {
    if s in t.active {
      RevokeKeepsInv(t, t.active[s]);
    }
  }

  lemma StepKeepsInv(t: Tables, e: Event)
    requires Inv(t)
    ensures Inv(Step(t, e).0)
  {
    match e
    case Create(choice, secret, s, ids, now, ttl) => CreateKeepsInv(t, choice, secret, s, ids, now, ttl);
    case Get(v, s, now) => AfterReadKeepsInv(t, v, now);
    case RevokeChoice(v, s) => RevokeKeepsInv(t, v);
    case RevokeSession(s) => RevokeActiveKeepsInv(t, s);
    case MakeReview(v, s, review, ids, now) => MakeReviewKeepsInv(t, v, s, review, ids, now);
    case GetReviewed(r, v, s, review, now) => AfterReviewReadKeepsInv(t, r, v, s, review, now);
    case ConsumeReviewed(r, v, s, review, now) => ConsumeReviewedKeepsInv(t, r, v, s, review, now);
    case Consume(v, s, now) =>
      AfterReadKeepsInv(t, v, now);
      RevokeKeepsInv(t, v);
    case ValidationTimer(v) => RevokeKeepsInv(t, v);
    case ReviewTimer(r) => DropKeepsInv(t, r);
  }

  /** Consuming a review is dropping it and then consuming its validation. */
  lemma ConsumedInTwo(t: Tables, r: string, v: string, s: string, review: string, now: int)
    requires Inv(t) && Matches(t, r, v, s, review, now) && Readable(t, v, s, now)
    ensures Inv(DropReview(t, r))
    ensures Step(DropReview(t, r), Consume(v, s, now)) == Step(t, ConsumeReviewed(r, v, s, review, now))
  {
    DropKeepsInv(t, r);
  }

  function Run(events: seq<Event>): Tables {
    if events == [] then NOTHING else Step(Run(events[..|events| - 1]), events[|events| - 1]).0
  }

  /** What call number `k` of the run answered. */
  function Answer(events: seq<Event>, k: nat): Out
    requires k < |events|
  {
    Step(Run(events[..k]), events[k]).1
  }

  lemma {:induction false} RunKeepsInv(events: seq<Event>)
    ensures Inv(Run(events))
  {
    if events != [] {
      RunKeepsInv(events[..|events| - 1]);
      StepKeepsInv(Run(events[..|events| - 1]), events[|events| - 1]);
    }
  }

  /** In every reachable state a session has at most one stored validation. */
  lemma OneValidationPerSession(events: seq<Event>, v: string, w: string)
    ensures var t := Run(events);
      v in t.vals && w in t.vals && t.vals[v].session == t.vals[w].session ==> v == w
  {
    RunKeepsInv(events);
  }

  // ---- Single use ----

  predicate IssuedAt(events: seq<Event>, j: nat, v: string) {
    j < |events| && events[j].Create? && Answer(events, j) == Issued(v)
  }

  /** Call `j` issued `v` with what is stored under it now, and it has been stored ever since. */
  ghost predicate Origin(events: seq<Event>, j: nat, v: string, r: Validation) {
    && IssuedAt(events, j, v)
    && events[j].choice == Some(r.choice) && events[j].secret == r.secret && events[j].session == r.session
    && r.expires == events[j].now + events[j].ttl
    && forall m :: j < m <= |events| ==> v in Run(events[..m]).vals
  }

  /** A step changes stored validations only by issuing a fresh one or removing some. */
  lemma StepChanges(t: Tables, e: Event, v: string)
    requires Inv(t)
    ensures v in Step(t, e).0.vals ==>
      (v in t.vals && Step(t, e).0.vals[v] == t.vals[v] && !(e.Create? && Step(t, e).1 == Issued(v)))
      || (e.Create? && Step(t, e).1 == Issued(v) && v !in RevokeActive(t, e.session).vals
          && e.choice.Some?
          && Step(t, e).0.vals[v] == Validation(e.choice.value, e.secret, e.session, e.now + e.ttl, false))
  {
    match e
    case Create(choice, secret, s, ids, now, ttl) => FreshIsFresh(RevokeActive(t, s), ids, ATTEMPTS);
    case _ =>
  }

  lemma OriginStays(events: seq<Event>, e: Event, j: nat, v: string, r: Validation)
    requires Origin(events, j, v, r) && v in Run(events + [e]).vals
    ensures Origin(events + [e], j, v, r)
  {
    var all := events + [e];
    assert all[..j] == events[..j];
    forall m | j < m <= |all| ensures v in Run(all[..m]).vals {
      if m <= |events| {
        assert all[..m] == events[..m];
      } else {
        assert all[..m] == all;
      }
    }
  }

  lemma OriginHere(init: seq<Event>, e: Event, v: string, r: Validation)
    requires e.Create? && Step(Run(init), e).1 == Issued(v) && v in Step(Run(init), e).0.vals
    requires e.choice == Some(r.choice) && e.secret == r.secret && e.session == r.session && r.expires == e.now + e.ttl
    ensures Origin(init + [e], |init|, v, r)
  {
    var all := init + [e];
    assert all[..|init|] == init && all[..|all|] == all && all[..|all| - 1] == init;
    forall m | |init| < m <= |all| ensures v in Run(all[..m]).vals {
      assert m == |all|;
    }
  }

  lemma {:induction false} StoredHasOrigin(events: seq<Event>, v: string) returns (j: nat)
    requires v in Run(events).vals
    ensures Origin(events, j, v, Run(events).vals[v])
    decreases |events|
  {
    var init, e := events[..|events| - 1], events[|events| - 1];
    var t := Run(init);
    assert events == init + [e];
    RunKeepsInv(init);
    StepChanges(t, e, v);
    if v in t.vals && Step(t, e).0.vals[v] == t.vals[v] && !(e.Create? && Step(t, e).1 == Issued(v)) {
      j := StoredHasOrigin(init, v);
      OriginStays(init, e, j, v, t.vals[v]);
    } else {
      j := |init|;
      OriginHere(init, e, v, Step(t, e).0.vals[v]);
    }
  }

  /** The validation id a call reads or consumes a secret through. */
  predicate Reads(e: Event, v: string, s: string, now: int) {
    (e.Get? || e.Consume? || e.GetReviewed? || e.ConsumeReviewed?) && e.v == v && e.session == s && e.now == now
  }

  /**
   * A secret only ever comes back to the session that handed it over: whatever call answers with
   * one, an earlier call of that session issued that very id with that very secret and choice, the
   * id has not expired, and it was stored at every moment in between - so not consumed, revoked,
   * timed out or replaced.
   */
  lemma SecretsComeFromTheirSession(events: seq<Event>, k: nat, v: string, s: string, now: int) returns (j: nat)
    requires k < |events| && Reads(events[k], v, s, now) && Answer(events, k).Secret?
    ensures j < k && IssuedAt(events, j, v)
    ensures events[j].session == s && now < events[j].now + events[j].ttl
    ensures Answer(events, k) == Secret(events[j].choice.value, events[j].secret) && events[j].choice.Some?
    ensures forall m :: j < m <= k ==> v in Run(events[..m]).vals
  {
    var before := events[..k];
    j := StoredHasOrigin(before, v);
    assert before[..j] == events[..j];
    forall m | j < m <= k ensures v in Run(events[..m]).vals {
      assert before[..m] == events[..m];
    }
  }

  /** A consumed or revoked id is gone when the call returns. */
  lemma EndsNow(t: Tables, e: Event)
    requires Inv(t)
    requires ((e.Consume? || e.ConsumeReviewed?) && Step(t, e).1.Secret?)
      || (e.RevokeChoice? && Step(t, e).1 == Flag(true)) || e.ValidationTimer?
    ensures e.v !in Step(t, e).0.vals
    ensures forall r :: r in Step(t, e).0.revs ==> Step(t, e).0.revs[r].validation != e.v
  {
    RevokeKeepsInv(t, e.v);
    StepKeepsInv(t, e);
  }

  /** And it stays gone until it is issued again: every call that would read through it answers invalid. */
  lemma {:induction false} GoneStaysGone(events: seq<Event>, k: nat, n: nat, v: string)
    requires k <= n <= |events| && v !in Run(events[..k]).vals
    requires forall j :: k <= j < n ==> !IssuedAt(events, j, v)
    ensures v !in Run(events[..n]).vals
    ensures forall s, now :: n < |events| && Reads(events[n], v, s, now) ==> Answer(events, n) == Invalid
  {
    if k < n {
      GoneStaysGone(events, k, n - 1, v);
      var t := Run(events[..n - 1]);
      assert events[..n][..n - 1] == events[..n - 1];
      RunKeepsInv(events[..n - 1]);
      StepChanges(t, events[n - 1], v);
      assert !IssuedAt(events, n - 1, v);
    }
  }

  // ---- The store itself ----

  class Sessions {
    var vals: map<string, Validation>
    var revs: map<string, Review>
    var active: map<string, string>

    ghost function State(): Tables
      reads this
    {
      Tables(vals, revs, active)
    }

    ghost predicate Valid()
      reads this
    {
      Inv(State())
    }

    constructor ()
      ensures Valid() && State() == NOTHING
    {
      vals, revs, active := map[], map[], map[];
    }

    method RevokeReview(r: string)
      modifies this`revs
      ensures State() == DropReview(old(State()), r)
    {
      revs := revs - {r};
    }

    /** Deletes while walking over the reviews there were. */
    method RevokeReviewsForValidation(v: string)
      modifies this`revs
      ensures revs == ReviewsOfOthers(old(revs), v)
    {
      var todo := revs.Keys;
      while todo != {}
        invariant todo <= old(revs).Keys
        invariant revs == map r | r in old(revs) && (r in todo || old(revs)[r].validation != v) :: old(revs)[r]
        decreases |todo|
      {
        var r :| r in todo;
        if r in revs && revs[r].validation == v {
          RevokeReview(r);
        }
        todo := todo - {r};
      }
    }

    method RevokeValidation(v: string)
      modifies this
      ensures State() == Revoke(old(State()), v)
    {
      if v !in vals {
        return;
      }
      var s := vals[v].session;
      vals := vals - {v};
      if s in active && active[s] == v {
        active := active - {s};
      }
      RevokeReviewsForValidation(v);
    }

    method NextId(ids: seq<string>) returns (id: Option<string>)
      ensures id == Fresh(State(), ids, ATTEMPTS)
    {
      var i := 0;
      while i < ATTEMPTS && i < |ids|
        invariant 0 <= i <= ATTEMPTS && i <= |ids|
        invariant Fresh(State(), ids, ATTEMPTS) == Fresh(State(), ids[i..], ATTEMPTS - i)
      {
        assert ids[i..][1..] == ids[i + 1..];
        if ids[i] !in vals && ids[i] !in revs {
          return Some(ids[i]);
        }
        i := i + 1;
      }
      id := None;
    }

    method Read(v: string, s: string, now: int) returns (r: Option<Validation>)
      modifies this
      ensures r == if Readable(old(State()), v, s, now) then Some(old(vals)[v]) else None
      ensures State() == AfterRead(old(State()), v, now)
    {
      if v !in vals || vals[v].session != s || vals[v].consumed || vals[v].expires <= now {
        if v in vals && vals[v].expires <= now {
          RevokeValidation(v);
        }
        return None;
      }
      r := Some(vals[v]);
    }

    method ReadReview(r: string, v: string, s: string, review: string, now: int) returns (ok: bool)
      modifies this
      ensures ok <==> Matches(old(State()), r, v, s, review, now) && Readable(old(State()), v, s, now)
      ensures State() == AfterReviewRead(old(State()), r, v, s, review, now)
    {
      if r !in revs || revs[r].validation != v || revs[r].session != s || revs[r].consumed
         || revs[r].expires <= now || revs[r].review != review {
        if r in revs && revs[r].expires <= now {
          RevokeReview(r);
        }
        return false;
      }
      var record := Read(v, s, now);
      ok := record.Some?;
    }

    method CreateValidated(choice: Option<string>, secret: string, s: string, ids: seq<string>, now: int, ttl: int)
      returns (out: Out)
      requires Valid()
      modifies this
      ensures Valid()
      ensures (State(), out) == Step(old(State()), Create(choice, secret, s, ids, now, ttl))
    {
      StepKeepsInv(State(), Create(choice, secret, s, ids, now, ttl));
      if choice.None? || secret == "" || s == "" {
        return Invalid;
      }
      if s in active {
        RevokeValidation(active[s]);
      }
      var id := NextId(ids);
      if id.None? {
        return Invalid;
      }
      vals := vals[id.value := Validation(choice.value, secret, s, now + ttl, false)];
      active := active[s := id.value];
      out := Issued(id.value);
    }

    method GetValidatedChoice(v: string, s: string, now: int) returns (out: Out)
      requires Valid()
      modifies this
      ensures Valid()
      ensures (State(), out) == Step(old(State()), Get(v, s, now))
    {
      StepKeepsInv(State(), Get(v, s, now));
      var r := Read(v, s, now);
      out := if r.Some? then Secret(r.value.choice, r.value.secret) else Invalid;
    }

    method RevokeValidatedChoice(v: string, s: string) returns (out: Out)
      requires Valid()
      modifies this
      ensures Valid()
      ensures (State(), out) == Step(old(State()), RevokeChoice(v, s))
    {
      StepKeepsInv(State(), RevokeChoice(v, s));
      if v !in vals || vals[v].session != s {
        return Flag(false);
      }
      RevokeValidation(v);
      out := Flag(true);
    }

    /** Walks over every stored validation; the invariant says it meets the session at most once. */
    method RevokeSetupSession(s: string) returns (out: Out)
      requires Valid()
      modifies this
      ensures Valid()
      ensures (State(), out) == Step(old(State()), RevokeSession(s))
    {
      StepKeepsInv(State(), RevokeSession(s));
      var todo, revoked := vals.Keys, false;
      while todo != {}
        invariant todo <= old(vals).Keys
        invariant revoked <==> s in old(active) && old(active)[s] !in todo
        invariant State() == if revoked then RevokeActive(old(State()), s) else old(State())
        decreases |todo|
      {
        var v :| v in todo;
        if v in vals && vals[v].session == s {
          RevokeValidation(v);
          revoked := true;
        }
        todo := todo - {v};
      }
      out := Flag(revoked);
    }

    method CreateReviewedSetup(v: string, s: string, review: Option<string>, ids: seq<string>, now: int)
      returns (out: Out)
      requires Valid()
      modifies this
      ensures Valid()
      ensures (State(), out) == Step(old(State()), MakeReview(v, s, review, ids, now))
    {
      StepKeepsInv(State(), MakeReview(v, s, review, ids, now));
      var validation := Read(v, s, now);
      if validation.None? || review.None? {
        return Invalid;
      }
      var id := NextId(ids);
      if id.None? {
        return Invalid;
      }
      revs := revs[id.value := Review(v, s, review.value, validation.value.expires, false)];
      out := Issued(id.value);
    }

    method GetReviewedChoice(r: string, v: string, s: string, review: string, now: int) returns (out: Out)
      requires Valid()
      modifies this
      ensures Valid()
      ensures (State(), out) == Step(old(State()), GetReviewed(r, v, s, review, now))
    {
      var ok := ReadReview(r, v, s, review, now);
      StepKeepsInv(old(State()), GetReviewed(r, v, s, review, now));
      if !ok {
        return Invalid;
      }
      out := GetValidatedChoice(v, s, now);
    }

    method ConsumeReviewedChoice(r: string, v: string, s: string, review: string, now: int) returns (out: Out)
      requires Valid()
      modifies this
      ensures Valid()
      ensures (State(), out) == Step(old(State()), ConsumeReviewed(r, v, s, review, now))
    {
      StepKeepsInv(State(), ConsumeReviewed(r, v, s, review, now));
      var ok := ReadReview(r, v, s, review, now);
      if !ok {
        return Invalid;
      }
      ConsumedInTwo(old(State()), r, v, s, review, now);
      revs := revs[r := revs[r].(consumed := true)];
      RevokeReview(r);
      assert State() == DropReview(old(State()), r);
      out := ConsumeValidatedChoice(v, s, now);
    }

    method ConsumeValidatedChoice(v: string, s: string, now: int) returns (out: Out)
      requires Valid()
      modifies this
      ensures Valid()
      ensures (State(), out) == Step(old(State()), Consume(v, s, now))
    {
      StepKeepsInv(State(), Consume(v, s, now));
      var r := Read(v, s, now);
      if r.None? {
        return Invalid;
      }
      vals := vals[v := r.value.(consumed := true)];
      assert vals - {v} == old(vals) - {v};
      RevokeValidation(v);
      out := Secret(r.value.choice, r.value.secret);
    }
  }
}
