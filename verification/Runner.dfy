/** One tick of the trigger loop: who is sent to which task, and what the claims that follow do. */
module Runner {
  import opened Common
  import opened Machine
  import opened Store
  import opened StoreInvariant
  import opened Risk
  import opened Router

  /** Agents are decided one after another; each grant is withheld from the agents still to come. */
  function Plan(tasks: map<string, Task>, p: Policy, b: Budget, now: int, quotaHeld: set<string>,
                agents: seq<string>, taken: set<string>): (ds: seq<Decision>)
    ensures |ds| == |agents|
  {
    if agents == [] then []
    else if agents[0] in quotaHeld then
      [Deny(agents[0], SessionLimit)] + Plan(tasks, p, b, now, quotaHeld, agents[1..], taken)
    else
      var d := Decide(tasks, p, b, agents[0], now, taken);
      [d] + Plan(tasks, p, b, now, quotaHeld, agents[1..], if d.Grant? then taken + {d.task} else taken)
  }

  lemma {:induction false} PlanShape(tasks: map<string, Task>, p: Policy, b: Budget, now: int, quotaHeld: set<string>,
                                     agents: seq<string>, taken: set<string>)
    ensures var ds := Plan(tasks, p, b, now, quotaHeld, agents, taken);
      forall i :: 0 <= i < |agents| ==> ds[i].agent == agents[i]
  {
    if agents != [] {
      var ds := Plan(tasks, p, b, now, quotaHeld, agents, taken);
      var taken' := if agents[0] !in quotaHeld && ds[0].Grant? then taken + {ds[0].task} else taken;
      PlanShape(tasks, p, b, now, quotaHeld, agents[1..], taken');
      assert ds[1..] == Plan(tasks, p, b, now, quotaHeld, agents[1..], taken');
    }
  }

  lemma PlanStep(tasks: map<string, Task>, p: Policy, b: Budget, now: int, quotaHeld: set<string>,
                 agents: seq<string>, i: nat, taken: set<string>)
    requires i < |agents|
    ensures Plan(tasks, p, b, now, quotaHeld, agents[i..], taken) ==
      if agents[i] in quotaHeld then
        [Deny(agents[i], SessionLimit)] + Plan(tasks, p, b, now, quotaHeld, agents[i + 1..], taken)
      else
        var d := Decide(tasks, p, b, agents[i], now, taken);
        [d] + Plan(tasks, p, b, now, quotaHeld, agents[i + 1..], if d.Grant? then taken + {d.task} else taken)
  {
    assert agents[i..][1..] == agents[i + 1..];
  }

  method PlanRun(tasks: map<string, Task>, p: Policy, b: Budget, now: int, quotaHeld: set<string>,
                 agents: seq<string>, hold: bool) returns (fire: bool, decisions: seq<Decision>)
    ensures decisions == if hold then [] else Plan(tasks, p, b, now, quotaHeld, agents, {})
    ensures fire <==> exists i :: 0 <= i < |decisions| && decisions[i].Grant?
  {
    decisions := [];
    if hold {
      return false, [];
    }
    var taken := {};
    ghost var plan := Plan(tasks, p, b, now, quotaHeld, agents, {});
    assert agents[0..] == agents && [] + plan == plan;
    for i := 0 to |agents|
      invariant decisions + Plan(tasks, p, b, now, quotaHeld, agents[i..], taken) == plan
    {
      ghost var before, was := decisions, taken;
      PlanStep(tasks, p, b, now, quotaHeld, agents, i, taken);
      if agents[i] in quotaHeld {
        decisions := decisions + [Deny(agents[i], SessionLimit)];
      } else {
        var d := Decide(tasks, p, b, agents[i], now, taken);
        if d.Grant? {
          taken := taken + {d.task};
        }
        decisions := decisions + [d];
      }
      SeqAssoc(before, decisions[|before|], Plan(tasks, p, b, now, quotaHeld, agents[i + 1..], taken));
    }
    fire := exists i :: 0 <= i < |decisions| && decisions[i].Grant?;
  }

  lemma SeqAssoc<T>(a: seq<T>, x: T, b: seq<T>)
    ensures (a + [x]) + b == a + ([x] + b)
  {
  }

  /** The tasks withheld from agent `i`: those taken before, and those granted since. */
  function TakenBy(ds: seq<Decision>, taken: set<string>, i: nat): set<string>
    requires i <= |ds|
  {
    if i == 0 then taken else TakenBy(ds, taken, i - 1) + if ds[i - 1].Grant? then {ds[i - 1].task} else {}
  }

  lemma {:induction false} TakenHas(ds: seq<Decision>, taken: set<string>, i: nat, j: nat)
    requires j < i <= |ds| && ds[j].Grant?
    ensures ds[j].task in TakenBy(ds, taken, i)
    decreases i
  {
    if j < i - 1 {
      TakenHas(ds, taken, i - 1, j);
    }
  }

  lemma {:induction false} TakenAfter(d: Decision, rest: seq<Decision>, taken: set<string>, i: nat)
    requires i <= |rest|
    ensures TakenBy([d] + rest, taken, i + 1) == TakenBy(rest, taken + (if d.Grant? then {d.task} else {}), i)
    decreases i
  {
    if i > 0 {
      TakenAfter(d, rest, taken, i - 1);
    }
  }

  lemma PlanBehind(tasks: map<string, Task>, p: Policy, b: Budget, now: int, quotaHeld: set<string>,
                   agents: seq<string>, taken: set<string>)
    requires agents != []
    ensures var ds := Plan(tasks, p, b, now, quotaHeld, agents, taken);
      ds == [ds[0]] + Plan(tasks, p, b, now, quotaHeld, agents[1..], taken + if ds[0].Grant? then {ds[0].task} else {})
  {
    assert taken + {} == taken;
  }

  /** Whom the quota holds is told so; all others are decided on the same tables, with the earlier grants excluded. */
  lemma {:induction false} EveryoneIsDecided(tasks: map<string, Task>, p: Policy, b: Budget, now: int,
                                             quotaHeld: set<string>,
                                             agents: seq<string>, taken: set<string>, i: nat)
    requires i < |agents|
    ensures var ds := Plan(tasks, p, b, now, quotaHeld, agents, taken);
      ds[i] == if agents[i] in quotaHeld then Deny(agents[i], SessionLimit)
               else Decide(tasks, p, b, agents[i], now, TakenBy(ds, taken, i))
    decreases i
  {
    var ds := Plan(tasks, p, b, now, quotaHeld, agents, taken);
    if i > 0 {
      var taken' := taken + if ds[0].Grant? then {ds[0].task} else {};
      var rest := Plan(tasks, p, b, now, quotaHeld, agents[1..], taken');
      PlanBehind(tasks, p, b, now, quotaHeld, agents, taken);
      EveryoneIsDecided(tasks, p, b, now, quotaHeld, agents[1..], taken', i - 1);
      TakenAfter(ds[0], rest, taken, i - 1);
    }
  }

  lemma GrantsAreDecided(tasks: map<string, Task>, p: Policy, b: Budget, now: int, quotaHeld: set<string>,
                         agents: seq<string>, taken: set<string>, i: nat)
    requires i < |agents| && Plan(tasks, p, b, now, quotaHeld, agents, taken)[i].Grant?
    ensures var ds := Plan(tasks, p, b, now, quotaHeld, agents, taken);
      ds[i] == Decide(tasks, p, b, agents[i], now, TakenBy(ds, taken, i))
  {
    EveryoneIsDecided(tasks, p, b, now, quotaHeld, agents, taken, i);
  }

  /** No two agents are sent to the same task. */
  lemma GrantsAreDistinct(tasks: map<string, Task>, p: Policy, b: Budget, now: int, quotaHeld: set<string>,
                          agents: seq<string>, i: nat, j: nat)
    requires i < j < |agents|
    requires var ds := Plan(tasks, p, b, now, quotaHeld, agents, {}); ds[i].Grant? && ds[j].Grant?
    ensures var ds := Plan(tasks, p, b, now, quotaHeld, agents, {}); ds[i].task != ds[j].task
  {
    var ds := Plan(tasks, p, b, now, quotaHeld, agents, {});
    GrantsAreDecided(tasks, p, b, now, quotaHeld, agents, {}, j);
    TakenHas(ds, {}, j, i);
    GrantIsSound(tasks, p, b, agents[j], now, TakenBy(ds, {}, j));
  }

  // ---- The claims that follow ----

  /** executeRun's claim loop with nothing happening in between: one claim per grant, in order. */
  ghost function ClaimGrants(db: Db, ds: seq<Decision>, session: Decision -> string, now: int): Db {
    if ds == [] then db
    else
      var prev := ClaimGrants(db, ds[..|ds| - 1], session, now);
      var d := ds[|ds| - 1];
      if d.Grant? then Claim(prev, d.task, d.agent, session(d), d.ttl, now, CLAIMABLE) else prev
  }

  function Grants(ds: seq<Decision>): nat {
    if ds == [] then 0 else Grants(ds[..|ds| - 1]) + if ds[|ds| - 1].Grant? then 1 else 0
  }

  function GrantsTo(ds: seq<Decision>, agent: string): nat {
    if ds == [] then 0
    else GrantsTo(ds[..|ds| - 1], agent) + if ds[|ds| - 1].Grant? && ds[|ds| - 1].agent == agent then 1 else 0
  }

  lemma OneMoreActive(db: Db, db': Db, id: string, now: int)
    requires forall k | k in db'.tasks && k != id :: k in db.tasks && db'.tasks[k] == db.tasks[k]
    ensures |Active(db'.tasks, now)| <= |Active(db.tasks, now)| + 1
  {
    SubsetSize(Active(db'.tasks, now), Active(db.tasks, now) + {id});
  }

  lemma OneMoreOf(db: Db, db': Db, id: string, now: int, who: string)
    requires forall k | k in db'.tasks && k != id :: k in db.tasks && db'.tasks[k] == db.tasks[k]
    ensures |ActiveOf(db'.tasks, now, who)| <= |ActiveOf(db.tasks, now, who)| + 1
    ensures id in db'.tasks && db'.tasks[id].lease.Some? && db'.tasks[id].lease.value.owner != who ==>
            |ActiveOf(db'.tasks, now, who)| <= |ActiveOf(db.tasks, now, who)|
  {
    SubsetSize(ActiveOf(db'.tasks, now, who), ActiveOf(db.tasks, now, who) + {id});
    if id in db'.tasks && db'.tasks[id].lease.Some? && db'.tasks[id].lease.value.owner != who {
      SubsetSize(ActiveOf(db'.tasks, now, who), ActiveOf(db.tasks, now, who));
    }
  }

  /** One claim brings at most one more live lease, and only to the claiming agent. */
  lemma ClaimAddsOne(db: Db, id: string, agent: string, session: string, ttl: int, now: int, who: string)
    ensures var db' := Claim(db, id, agent, session, ttl, now, CLAIMABLE);
      && |Active(db'.tasks, now)| <= |Active(db.tasks, now)| + 1
      && |ActiveOf(db'.tasks, now, who)| <= |ActiveOf(db.tasks, now, who)| + if who == agent then 1 else 0
  {
    OneMoreActive(db, Claim(db, id, agent, session, ttl, now, CLAIMABLE), id, now);
    OneMoreOf(db, Claim(db, id, agent, session, ttl, now, CLAIMABLE), id, now, who);
  }

  lemma {:induction false} ClaimsAddGrants(db: Db, ds: seq<Decision>, session: Decision -> string, now: int,
                                           who: string)
    ensures var db' := ClaimGrants(db, ds, session, now);
      && |Active(db'.tasks, now)| <= |Active(db.tasks, now)| + Grants(ds)
      && |ActiveOf(db'.tasks, now, who)| <= |ActiveOf(db.tasks, now, who)| + GrantsTo(ds, who)
  {
    if ds != [] {
      var n := |ds| - 1;
      ClaimsAddGrants(db, ds[..n], session, now, who);
      if ds[n].Grant? {
        var d := ds[n];
        ClaimAddsOne(ClaimGrants(db, ds[..n], session, now), d.task, d.agent, session(d), d.ttl, now, who);
      }
    }
  }

  lemma {:induction false} GrantCounts(ds: seq<Decision>, agents: seq<string>, agent: string)
    requires |ds| == |agents| && forall i :: 0 <= i < |ds| ==> ds[i].agent == agents[i]
    ensures Grants(ds) <= |ds| && GrantsTo(ds, agent) <= multiset(agents)[agent]
    ensures Grants(ds) > 0 ==> exists i :: 0 <= i < |ds| && ds[i].Grant?
    ensures GrantsTo(ds, agent) > 0 <==> exists i :: 0 <= i < |ds| && ds[i].Grant? && ds[i].agent == agent
    decreases |ds|
  {
    if ds != [] {
      var n := |ds| - 1;
      GrantCounts(ds[..n], agents[..n], agent);
      assert forall i :: 0 <= i < n ==> ds[..n][i] == ds[i];
      assert agents == agents[..n] + [agents[n]];
      if ds[n].Grant? {
        assert ds[n].Grant? && 0 <= n < |ds|;
      }
    }
  }

  /**
   * Planning a tick and running its claims keeps every agent within wip_per_agent plus the number of
   * times the roster repeats it, and the whole within max_parallel plus the width of the roster less
   * one; whoever is already over a limit, or not on the roster, gets nothing more.
   */
  lemma TickStaysWithinLimits(db: Db, p: Policy, b: Budget, now: int, quotaHeld: set<string>, agents: seq<string>,
                              session: Decision -> string, who: string)
    ensures var ds := Plan(db.tasks, p, b, now, quotaHeld, agents, {});
      var db' := ClaimGrants(db, ds, session, now);
      var (total, total') := (|Active(db.tasks, now)|, |Active(db'.tasks, now)|);
      var (mine, mine') := (|ActiveOf(db.tasks, now, who)|, |ActiveOf(db'.tasks, now, who)|);
      && (p.maxParallel.Some? ==> total' <= total || total' <= p.maxParallel.value - 1 + |agents|)
      && (p.wipPerAgent.Some? ==> mine' <= mine || mine' <= p.wipPerAgent.value - 1 + multiset(agents)[who])
      && (who !in agents ==> mine' <= mine)
  {
    var ds := Plan(db.tasks, p, b, now, quotaHeld, agents, {});
    PlanShape(db.tasks, p, b, now, quotaHeld, agents, {});
    ClaimsAddGrants(db, ds, session, now, who);
    GrantCounts(ds, agents, who);
    if Grants(ds) > 0 {
      var i :| 0 <= i < |ds| && ds[i].Grant?;
      GrantWasAllowed(db.tasks, p, b, now, quotaHeld, agents, i);
    }
    if GrantsTo(ds, who) > 0 {
      var i :| 0 <= i < |ds| && ds[i].Grant? && ds[i].agent == who;
      assert agents[i] == who;
      GrantWasAllowed(db.tasks, p, b, now, quotaHeld, agents, i);
    }
  }

  lemma GrantWasAllowed(tasks: map<string, Task>, p: Policy, b: Budget, now: int, quotaHeld: set<string>,
                        agents: seq<string>, i: nat)
    requires i < |agents| && Plan(tasks, p, b, now, quotaHeld, agents, {})[i].Grant?
    ensures p.maxParallel.Some? ==> |Active(tasks, now)| < p.maxParallel.value
    ensures p.wipPerAgent.Some? ==> |ActiveOf(tasks, now, agents[i])| < p.wipPerAgent.value
    ensures var id := Plan(tasks, p, b, now, quotaHeld, agents, {})[i].task;
      id in tasks && Selectable(tasks[id], now, CLAIMABLE)
  {
    GrantsAreDecided(tasks, p, b, now, quotaHeld, agents, {}, i);
    GrantIsSound(tasks, p, b, agents[i], now, TakenBy(Plan(tasks, p, b, now, quotaHeld, agents, {}), {}, i));
  }

  lemma {:induction false} ClaimsTouchOnlyGranted(db: Db, ds: seq<Decision>, session: Decision -> string, now: int,
                                                  id: string)
    requires Inv(db) && id in db.tasks && forall i :: 0 <= i < |ds| && ds[i].Grant? ==> ds[i].task != id
    ensures var db' := ClaimGrants(db, ds, session, now); Inv(db') && id in db'.tasks && db'.tasks[id] == db.tasks[id]
  {
    if ds != [] {
      var n := |ds| - 1;
      ClaimsTouchOnlyGranted(db, ds[..n], session, now, id);
      if ds[n].Grant? {
        var d := ds[n];
        ClaimKeepsInv(ClaimGrants(db, ds[..n], session, now), d.task, d.agent, session(d), d.ttl, now, CLAIMABLE);
      }
    }
  }

  /**
   * The dedupe works: on freshly reaped tables a granted claim never finds its task leased or moved.
   * It is lost only to a lock, exactly when its resources repeat or a leased task holds one.
   */
  lemma GrantedClaimsLoseOnlyToLocks(db: Db, p: Policy, b: Budget, now: int, quotaHeld: set<string>,
                                     agents: seq<string>,
                                     session: Decision -> string, i: nat)
    requires Inv(db) && ExpiredIds(db.tasks, now) == {} && i < |agents|
    requires Plan(db.tasks, p, b, now, quotaHeld, agents, {})[i].Grant?
    requires var d := Plan(db.tasks, p, b, now, quotaHeld, agents, {})[i];
      d.task != "" && d.agent != "" && session(d) != ""
    ensures var ds := Plan(db.tasks, p, b, now, quotaHeld, agents, {});
      var mid := ClaimGrants(db, ds[..i], session, now);
      && ds[i].task in mid.tasks
      && (ClaimVerdict(mid, ds[i].task, ds[i].agent, session(ds[i]), now, CLAIMABLE).Won? <==>
          && NoDup(mid.tasks[ds[i].task].resources)
          && forall r, k :: r in mid.tasks[ds[i].task].resources ==> !Wants(mid, r, k))
  {
    var ds := Plan(db.tasks, p, b, now, quotaHeld, agents, {});
    var id := ds[i].task;
    GrantWasAllowed(db.tasks, p, b, now, quotaHeld, agents, i);
    assert db.tasks[id].lease.None? by {
      assert id !in ExpiredIds(db.tasks, now);
    }
    forall j | 0 <= j < i && ds[..i][j].Grant? ensures ds[..i][j].task != id {
      GrantsAreDistinct(db.tasks, p, b, now, quotaHeld, agents, j, i);
    }
    ClaimsTouchOnlyGranted(db, ds[..i], session, now, id);
    var mid := ClaimGrants(db, ds[..i], session, now);
    ClaimWonIff(mid, id, ds[i].agent, session(ds[i]), now, CLAIMABLE);
  }
}
