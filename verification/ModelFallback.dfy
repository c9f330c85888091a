/** Weighted model choice with fallback across candidates and tiers (model-router.mjs), over exact arithmetic. */
module ModelFallback {
  import opened Common

  datatype Candidate = Candidate(model: string, weight: real)

  type Tier = seq<Candidate>

  /** The weight of the first `n` candidates. */
  function Sum(cs: seq<Candidate>, n: nat): real
    requires n <= |cs|
  {
    if n == 0 then 0.0 else Sum(cs, n - 1) + cs[n - 1].weight
  }

  function Total(cs: seq<Candidate>): real {
    Sum(cs, |cs|)
  }

  ghost predicate NonNegative(cs: seq<Candidate>) {
    forall c | c in cs :: c.weight >= 0.0
  }

  // ---- One weighted pick ----

  /** The upper end of candidate `i`'s share of the random interval. */
  function Upper(cs: seq<Candidate>, i: nat): real
    requires i <= |cs| && Total(cs) > 0.0
  {
    Sum(cs, i) / Total(cs)
  }

  /** The running shares the draw is compared with. */
  function Bounds(cs: seq<Candidate>): (us: seq<real>)
    requires Total(cs) > 0.0
    ensures |us| == |cs| && forall i :: 0 <= i < |us| ==> us[i] == Upper(cs, i + 1)
  {
    seq(|cs|, i requires 0 <= i < |cs| => Upper(cs, i + 1))
  }

  /** The first bound the draw does not exceed, else the last one. */
  function PickFrom(us: seq<real>, rand: real, i: nat): (r: nat)
    requires i < |us|
    ensures i <= r < |us|
    decreases |us| - i
  {
    if rand <= us[i] || i + 1 == |us| then i else PickFrom(us, rand, i + 1)
  }

  lemma TotalOfNone(cs: seq<Candidate>)
    requires Total(cs) > 0.0
    ensures cs != []
  {
  }

  function Pick(cs: seq<Candidate>, rand: real): Option<Candidate> {
    if Total(cs) <= 0.0 then None
    else
      TotalOfNone(cs);
      Some(cs[PickFrom(Bounds(cs), rand, 0)])
  }

  lemma AddShares(a: real, b: real, t: real)
    requires t > 0.0
    ensures (a + b) / t == a / t + b / t
  {
  }

  lemma WholeShare(cs: seq<Candidate>)
    requires Total(cs) > 0.0
    ensures Upper(cs, 0) == 0.0 && Upper(cs, |cs|) == 1.0
  {
  }

  lemma ShareOf(cs: seq<Candidate>, i: nat)
    requires Total(cs) > 0.0 && i < |cs|
    ensures Upper(cs, i + 1) - Upper(cs, i) == cs[i].weight / Total(cs)
  {
    AddShares(Sum(cs, i), cs[i].weight, Total(cs));
  }

  method PickWeighted(cs: seq<Candidate>, rand: real) returns (r: Option<Candidate>)
    ensures r == Pick(cs, rand)
  {
    var total := 0.0;
    for i := 0 to |cs|
      invariant total == Sum(cs, i)
    {
      total := total + cs[i].weight;
    }
    if total <= 0.0 {
      return None;
    }
    TotalOfNone(cs);
    WholeShare(cs);
    ghost var bounds := Bounds(cs);
    var cumulative := 0.0;
    for i := 0 to |cs|
      invariant cumulative == Upper(cs, i)
      invariant i < |cs| ==> PickFrom(bounds, rand, 0) == PickFrom(bounds, rand, i)
      invariant i == |cs| ==> PickFrom(bounds, rand, 0) == |cs| - 1
    {
      ShareOf(cs, i);
      cumulative := cumulative + cs[i].weight / total;
      if rand <= cumulative {
        return Some(cs[i]);
      }
    }
    r := Some(cs[|cs| - 1]);
  }

  lemma {:induction false} SumGrows(cs: seq<Candidate>, i: nat, j: nat)
    requires NonNegative(cs) && i <= j <= |cs|
    ensures Sum(cs, i) <= Sum(cs, j)
    decreases j
  {
    if i < j {
      SumGrows(cs, i, j - 1);
      assert cs[j - 1] in cs;
    }
  }

  lemma DivMonotone(a: real, b: real, t: real)
    requires a <= b && t > 0.0
    ensures a / t <= b / t
  {
    AddShares(a, b - a, t);
    assert (b - a) / t >= 0.0;
  }

  ghost predicate Sorted(us: seq<real>) {
    forall i, j :: 0 <= i <= j < |us| ==> us[i] <= us[j]
  }

  lemma UpperGrows(cs: seq<Candidate>, i: nat, j: nat)
    requires NonNegative(cs) && Total(cs) > 0.0 && i <= j <= |cs|
    ensures Upper(cs, i) <= Upper(cs, j)
  {
    SumGrows(cs, i, j);
    DivMonotone(Sum(cs, i), Sum(cs, j), Total(cs));
  }

  lemma BoundsSorted(cs: seq<Candidate>)
    requires NonNegative(cs) && Total(cs) > 0.0
    ensures Sorted(Bounds(cs))
  {
    forall i, j | 0 <= i <= j < |cs| ensures Bounds(cs)[i] <= Bounds(cs)[j] {
      UpperGrows(cs, i + 1, j + 1);
    }
  }

  /** Among sorted bounds that reach the draw, the one picked is the one whose interval the draw falls in. */
  lemma {:induction false} PickFromIsShare(us: seq<real>, rand: real, k: nat, i: nat)
    requires Sorted(us) && k < |us| && i < |us| && rand <= us[|us| - 1]
    requires k == 0 || rand > us[k - 1]
    ensures PickFrom(us, rand, k) == i <==> i >= k && (i == k || rand > us[i - 1]) && rand <= us[i]
    decreases |us| - k
  {
    if rand > us[k] && k + 1 < |us| {
      PickFromIsShare(us, rand, k + 1, i);
    }
  }

  /** Candidate `i` owns the half-open interval (Upper(i), Upper(i+1)] of the unit interval (the first one also owns 0),
      whose length is its share of the total weight. */
  lemma PickIsProportional(cs: seq<Candidate>, rand: real, i: nat)
    requires NonNegative(cs) && Total(cs) > 0.0 && i < |cs| && 0.0 <= rand <= 1.0
    ensures PickFrom(Bounds(cs), rand, 0) == i <==> (i == 0 || rand > Upper(cs, i)) && rand <= Upper(cs, i + 1)
    ensures Upper(cs, i + 1) - Upper(cs, i) == cs[i].weight / Total(cs)
    ensures Upper(cs, 0) == 0.0 && Upper(cs, |cs|) == 1.0
  {
    WholeShare(cs);
    BoundsSorted(cs);
    PickFromIsShare(Bounds(cs), rand, 0, i);
    ShareOf(cs, i);
  }

  /** A weightless candidate is chosen only when it comes first and the draw is exactly zero. */
  lemma WeightlessOnlyAtZero(cs: seq<Candidate>, rand: real)
    requires NonNegative(cs) && Total(cs) > 0.0 && 0.0 <= rand <= 1.0
    ensures Pick(cs, rand).value.weight == 0.0 <==> cs[0].weight == 0.0 && rand == 0.0
  {
    TotalOfNone(cs);
    var i := PickFrom(Bounds(cs), rand, 0);
    PickIsProportional(cs, rand, i);
    PickIsProportional(cs, rand, 0);
    NoShare(cs[i].weight, Total(cs));
    NoShare(cs[0].weight, Total(cs));
  }

  lemma NoShare(w: real, t: real)
    requires t > 0.0
    ensures w / t == 0.0 <==> w == 0.0
  {
  }

  // ---- Falling back ----

  function Remaining(tier: Tier, up: string -> bool, attempted: set<string>): Tier {
    if tier == [] then []
    else
      var rest := Remaining(tier[..|tier| - 1], up, attempted);
      var c := tier[|tier| - 1];
      if c.model !in attempted && up(c.model) then rest + [c] else rest
  }

  lemma {:induction false} RemainingElems(tier: Tier, up: string -> bool, attempted: set<string>)
    ensures forall c :: c in Remaining(tier, up, attempted) <==> c in tier && c.model !in attempted && up(c.model)
  {
    if tier != [] {
      RemainingElems(tier[..|tier| - 1], up, attempted);
      assert tier == tier[..|tier| - 1] + [tier[|tier| - 1]];
    }
  }

  datatype Choice = Exhausted | Chosen(model: string, tier: nat)

  /** The first tier that still offers something decides; `draw` is the random number used for a tier. */
  function ResolveFrom(tiers: seq<Tier>, up: string -> bool, attempted: set<string>, draw: nat -> real, i: nat): Choice
    decreases |tiers| - i
  {
    if i >= |tiers| then Exhausted
    else
      var pick := Pick(Remaining(tiers[i], up, attempted), draw(i));
      if pick.Some? then Chosen(pick.value.model, i) else ResolveFrom(tiers, up, attempted, draw, i + 1)
  }

  /** The caller's set of attempted models, which every call mutates. */
  class Attempts {
    var models: set<string>

    constructor ()
      ensures models == {}
    {
      models := {};
    }
  }

  method FilterTier(tier: Tier, up: string -> bool, attempted: set<string>) returns (r: Tier)
    ensures r == Remaining(tier, up, attempted)
  {
    r := [];
    assert tier[..0] == [];
    for i := 0 to |tier|
      invariant r == Remaining(tier[..i], up, attempted)
    {
      assert tier[..i + 1][..i] == tier[..i];
      if tier[i].model !in attempted && up(tier[i].model) {
        r := r + [tier[i]];
      }
    }
    assert tier[..|tier|] == tier;
  }

  method ResolveModelWithFallback(tiers: seq<Tier>, up: string -> bool, attempts: Attempts, draw: nat -> real)
    returns (r: Choice)
    modifies attempts
    ensures r == ResolveFrom(tiers, up, old(attempts.models), draw, 0)
    ensures attempts.models == old(attempts.models) + if r.Chosen? then {r.model} else {}
  {
    for i := 0 to |tiers|
      invariant attempts.models == old(attempts.models)
      invariant ResolveFrom(tiers, up, old(attempts.models), draw, 0) ==
                ResolveFrom(tiers, up, old(attempts.models), draw, i)
    {
      var available := FilterTier(tiers[i], up, attempts.models);
      var selected := PickWeighted(available, draw(i));
      if selected.Some? {
        attempts.models := attempts.models + {selected.value.model};
        return Chosen(selected.value.model, i);
      }
    }
    r := Exhausted;
  }

  // ---- Calling it until it gives up ----

  ghost predicate Sensible(tiers: seq<Tier>) {
    forall i :: 0 <= i < |tiers| ==> NonNegative(tiers[i])
  }

  /** Something a tier can still offer. */
  ghost predicate Offers(tier: Tier, up: string -> bool, attempted: set<string>) {
    exists c :: c in tier && c.weight > 0.0 && c.model !in attempted && up(c.model)
  }

  lemma {:induction false} SumPositive(cs: seq<Candidate>, n: nat)
    requires NonNegative(cs) && n <= |cs|
    ensures Sum(cs, n) >= 0.0
    ensures Sum(cs, n) > 0.0 <==> exists k :: 0 <= k < n && cs[k].weight > 0.0
    decreases n
  {
    if n > 0 {
      SumPositive(cs, n - 1);
      assert cs[n - 1] in cs;
    }
  }

  lemma TotalPositive(cs: seq<Candidate>)
    requires NonNegative(cs)
    ensures Total(cs) > 0.0 <==> exists c :: c in cs && c.weight > 0.0
  {
    SumPositive(cs, |cs|);
    if c :| c in cs && c.weight > 0.0 {
      var k :| 0 <= k < |cs| && cs[k] == c;
    }
  }

  lemma PickOutcome(tier: Tier, up: string -> bool, attempted: set<string>, rand: real)
    requires NonNegative(tier)
    ensures var r := Pick(Remaining(tier, up, attempted), rand);
      && (r.Some? <==> Offers(tier, up, attempted))
      && (r.Some? ==> r.value in tier && r.value.model !in attempted && up(r.value.model))
  {
    var left := Remaining(tier, up, attempted);
    RemainingElems(tier, up, attempted);
    TotalPositive(left);
    if Total(left) > 0.0 {
      TotalOfNone(left);
      assert left[PickFrom(Bounds(left), rand, 0)] in left;
    }
  }

  lemma {:induction false} ResolveOutcome(tiers: seq<Tier>, up: string -> bool, attempted: set<string>,
                                          draw: nat -> real, i: nat)
    requires Sensible(tiers)
    ensures var r := ResolveFrom(tiers, up, attempted, draw, i);
      && (r.Exhausted? ==> forall j :: i <= j < |tiers| ==> !Offers(tiers[j], up, attempted))
      && (r.Chosen? ==>
            && i <= r.tier < |tiers| && Offers(tiers[r.tier], up, attempted)
            && (forall j :: i <= j < r.tier ==> !Offers(tiers[j], up, attempted))
            && r.model !in attempted && up(r.model)
            && exists c :: c in tiers[r.tier] && c.model == r.model)
    decreases |tiers| - i
  {
    if i < |tiers| {
      PickOutcome(tiers[i], up, attempted, draw(i));
      var pick := Pick(Remaining(tiers[i], up, attempted), draw(i));
      if pick.None? {
        ResolveOutcome(tiers, up, attempted, draw, i + 1);
      }
    }
  }

  function Models(tiers: seq<Tier>): set<string> {
    set i, c | 0 <= i < |tiers| && c in tiers[i] :: c.model
  }

  /** The answers of call after call until it throws; every call has its own draws. */
  ghost function Drain(tiers: seq<Tier>, up: string -> bool, attempted: set<string>, draws: nat -> nat -> real,
                       call: nat): seq<Choice>
    requires Sensible(tiers)
    decreases Models(tiers) - attempted
  {
    var r := ResolveFrom(tiers, up, attempted, draws(call), 0);
    ResolveOutcome(tiers, up, attempted, draws(call), 0);
    if r.Exhausted? then [] else [r] + Drain(tiers, up, attempted + {r.model}, draws, call + 1)
  }

  /** Every answer is a fresh available model of its tier, and the tiers never go back. */
  ghost predicate Orderly(tiers: seq<Tier>, up: string -> bool, attempted: set<string>, out: seq<Choice>) {
    && (forall k :: 0 <= k < |out| ==>
          out[k].Chosen? && out[k].tier < |tiers| && out[k].model !in attempted && up(out[k].model)
          && exists c :: c in tiers[out[k].tier] && c.model == out[k].model)
    && (forall j, k :: 0 <= j < k < |out| ==>
          out[j].Chosen? && out[k].Chosen? && out[j].model != out[k].model && out[j].tier <= out[k].tier)
  }

  /** Nothing is offered by a tier once nothing was: attempts only grow. */
  lemma OffersShrinks(tier: Tier, up: string -> bool, a: set<string>, b: set<string>)
    requires a <= b && Offers(tier, up, b)
    ensures Offers(tier, up, a)
  {
  }

  /** Where an answer comes from. */
  ghost predicate Answered(tiers: seq<Tier>, up: string -> bool, attempted: set<string>, d: Choice) {
    d.Chosen? && d.tier < |tiers| && Offers(tiers[d.tier], up, attempted)
  }

  lemma OrderlyCons(tiers: seq<Tier>, up: string -> bool, attempted: set<string>, r: Choice, rest: seq<Choice>)
    requires r.Chosen? && r.tier < |tiers| && r.model !in attempted && up(r.model)
    requires exists c :: c in tiers[r.tier] && c.model == r.model
    requires Orderly(tiers, up, attempted + {r.model}, rest)
    requires forall k :: 0 <= k < |rest| ==> rest[k].Chosen? && r.tier <= rest[k].tier
    ensures Orderly(tiers, up, attempted, [r] + rest)
  {
  }

  lemma LaterTiers(tiers: seq<Tier>, up: string -> bool, attempted: set<string>, r: Choice, rest: seq<Choice>, k: nat)
    requires r.Chosen? && r.tier < |tiers| && k < |rest| && Answered(tiers, up, attempted + {r.model}, rest[k])
    requires forall j :: 0 <= j < r.tier ==> !Offers(tiers[j], up, attempted)
    ensures Answered(tiers, up, attempted, rest[k]) && r.tier <= rest[k].tier
  {
    OffersShrinks(tiers[rest[k].tier], up, attempted, attempted + {r.model});
  }

  lemma {:induction false} DrainIsOrderly(tiers: seq<Tier>, up: string -> bool, attempted: set<string>,
                                          draws: nat -> nat -> real, call: nat)
    requires Sensible(tiers)
    ensures Orderly(tiers, up, attempted, Drain(tiers, up, attempted, draws, call))
    ensures forall k :: 0 <= k < |Drain(tiers, up, attempted, draws, call)| ==>
              Answered(tiers, up, attempted, Drain(tiers, up, attempted, draws, call)[k])
    decreases Models(tiers) - attempted
  {
    var r := ResolveFrom(tiers, up, attempted, draws(call), 0);
    ResolveOutcome(tiers, up, attempted, draws(call), 0);
    if r.Chosen? {
      var more := attempted + {r.model};
      DrainIsOrderly(tiers, up, more, draws, call + 1);
      var rest := Drain(tiers, up, more, draws, call + 1);
      forall k | 0 <= k < |rest| ensures Answered(tiers, up, attempted, rest[k]) && r.tier <= rest[k].tier {
        LaterTiers(tiers, up, attempted, r, rest, k);
      }
      OrderlyCons(tiers, up, attempted, r, rest);
      assert Drain(tiers, up, attempted, draws, call) == [r] + rest;
    }
  }

  ghost predicate Returns(out: seq<Choice>, model: string) {
    exists k :: 0 <= k < |out| && out[k].Chosen? && out[k].model == model
  }

  /**
   * Retrying until the error is thrown misses no available model of positive weight that had not
   * been attempted before; with `DrainIsOrderly`, each is returned exactly once.
   */
  lemma {:induction false} DrainIsComplete(tiers: seq<Tier>, up: string -> bool, attempted: set<string>,
                                           draws: nat -> nat -> real, call: nat,
                                           i: nat, c: Candidate)
    requires Sensible(tiers) && i < |tiers| && c in tiers[i] && c.weight > 0.0 && up(c.model) && c.model !in attempted
    ensures Returns(Drain(tiers, up, attempted, draws, call), c.model)
    decreases Models(tiers) - attempted
  {
    var r := ResolveFrom(tiers, up, attempted, draws(call), 0);
    ResolveOutcome(tiers, up, attempted, draws(call), 0);
    assert Offers(tiers[i], up, attempted);
    assert r.Chosen?;
    var more := attempted + {r.model};
    var rest, out := Drain(tiers, up, more, draws, call + 1), Drain(tiers, up, attempted, draws, call);
    assert out == [r] + rest;
    if r.model == c.model {
      assert out[0] == r && out[0].Chosen? && out[0].model == c.model;
    } else {
      DrainIsComplete(tiers, up, more, draws, call + 1, i, c);
      var k :| 0 <= k < |rest| && rest[k].Chosen? && rest[k].model == c.model;
      assert out[k + 1] == rest[k] && out[k + 1].Chosen? && out[k + 1].model == c.model;
    }
  }
}
