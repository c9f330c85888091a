/** Inherited risk tags and the governance hard-stop of sensitive.mjs. */
module Risk {
  import opened Common
  import opened Store

  /** ASCII lower-casing of a tag. */
  function Lower(s: string): string {
    seq(|s|, i requires 0 <= i < |s| => if 'A' <= s[i] <= 'Z' then s[i] - 'A' + 'a' else s[i])
  }

  /** Two characters that differ in the case of an ASCII letter at most. */
  predicate SameLetter(a: char, b: char) {
    || a == b
    || ('A' <= a <= 'Z' && b as int == a as int + 32)
    || ('A' <= b <= 'Z' && a as int == b as int + 32)
  }

  /** Tags that differ in case only are the same tag, and no others are. */
  lemma LowerIff(a: string, b: string)
    ensures Lower(a) == Lower(b) <==> |a| == |b| && forall i :: 0 <= i < |a| ==> SameLetter(a[i], b[i])
    ensures (forall i :: 0 <= i < |a| ==> !('A' <= a[i] <= 'Z')) ==> Lower(a) == a
  {
    if Lower(a) == Lower(b) {
      forall i | 0 <= i < |a| ensures SameLetter(a[i], b[i]) {
        assert Lower(a)[i] == Lower(b)[i];
      }
    }
  }

  /** The next row of the parent chain: a null, empty or dangling parent ends it. */
  function ParentRow(tasks: map<string, Task>, id: string): Option<string>
    requires id in tasks
  {
    var p := tasks[id].parent;
    if p.Some? && p.value != "" && p.value in tasks then p else None
  }

  /** The walk up the chain, stopping at a row already seen, so it ends on cyclic graphs too. */
  function Chain(tasks: map<string, Task>, cur: Option<string>, seen: set<string>): (chain: seq<string>)
    requires cur.Some? ==> cur.value in tasks
    ensures forall x :: x in chain ==> x in tasks
    decreases tasks.Keys - seen
  {
    if cur.None? || cur.value in seen then []
    else [cur.value] + Chain(tasks, ParentRow(tasks, cur.value), seen + {cur.value})
  }

  function AddNew(tags: seq<string>, more: seq<string>): seq<string>
    decreases |more|
  {
    if more == [] then tags
    else
      var tag := Lower(more[0]);
      AddNew(if tag in tags then tags else tags + [tag], more[1..])
  }

  function TagsOf(tasks: map<string, Task>, chain: seq<string>, tags: seq<string>): seq<string>
    requires forall x :: x in chain ==> x in tasks
  {
    if chain == [] then tags
    else TagsOf(tasks, chain[1..], AddNew(tags, tasks[chain[0]].riskTags))
  }

  /** Own tags first, then each ancestor's, lower-cased, each once. */
  function EffectiveRiskTags(tasks: map<string, Task>, id: string): seq<string>
    requires id in tasks
  {
    TagsOf(tasks, Chain(tasks, Some(id), {}), [])
  }

  // ---- The walk reaches exactly the ancestors ----

  ghost predicate ParentPath(tasks: map<string, Task>, path: seq<string>) {
    && |path| > 0
    && (forall x | x in path :: x in tasks)
    && forall i, j :: 0 <= i < j < |path| && j == i + 1 ==>
         path[i] in tasks && path[j] != "" && tasks[path[i]].parent == Some(path[j])
  }

  /** `b` is `a` itself or an ancestor of it. */
  ghost predicate Reaches(tasks: map<string, Task>, a: string, b: string) {
    exists path :: ParentPath(tasks, path) && path[0] == a && path[|path| - 1] == b
  }

  lemma PathFrom(tasks: map<string, Task>, a: string, path: seq<string>)
    requires a in tasks && ParentPath(tasks, path) && ParentRow(tasks, a) == Some(path[0])
    ensures ParentPath(tasks, [a] + path)
  {
    var all := [a] + path;
    forall i, j | 0 <= i < j < |all| && j == i + 1
      ensures all[i] in tasks && all[j] != "" && tasks[all[i]].parent == Some(all[j])
    {
      assert all[j] == path[i];
      if i > 0 {
        assert all[i] == path[i - 1];
      }
    }
  }

  lemma {:induction false} ChainSound(tasks: map<string, Task>, a: string, seen: set<string>, b: string)
    requires a in tasks && b in Chain(tasks, Some(a), seen)
    ensures Reaches(tasks, a, b)
    decreases tasks.Keys - seen
  {
    if b == a {
      assert ParentPath(tasks, [a]);
    } else {
      var p := ParentRow(tasks, a).value;
      ChainSound(tasks, p, seen + {a}, b);
      var path :| ParentPath(tasks, path) && path[0] == p && path[|path| - 1] == b;
      PathFrom(tasks, a, path);
    }
  }

  /** The walk is closed under parents, except where it ran into rows seen before. */
  lemma {:induction false} ChainClosed(tasks: map<string, Task>, a: string, seen: set<string>, b: string)
    requires a in tasks && b in Chain(tasks, Some(a), seen) && ParentRow(tasks, b).Some?
    ensures ParentRow(tasks, b).value in Chain(tasks, Some(a), seen) || ParentRow(tasks, b).value in seen
    decreases tasks.Keys - seen
  {
    var next := ParentRow(tasks, a);
    if b == a {
      assert next.value != a && next.value !in seen ==> next.value in Chain(tasks, next, seen + {a});
    } else {
      ChainClosed(tasks, next.value, seen + {a}, b);
    }
  }

  lemma {:induction false} ChainComplete(tasks: map<string, Task>, path: seq<string>)
    requires ParentPath(tasks, path)
    ensures path[|path| - 1] in Chain(tasks, Some(path[0]), {})
  {
    var n := |path| - 1;
    if n > 0 {
      assert ParentPath(tasks, path[..n]);
      ChainComplete(tasks, path[..n]);
      assert ParentRow(tasks, path[n - 1]) == Some(path[n]);
      ChainClosed(tasks, path[0], {}, path[n - 1]);
    }
  }

  /** On every parent graph, cyclic or not, the walk visits exactly the task and its ancestors. */
  lemma ChainIsReach(tasks: map<string, Task>, a: string, b: string)
    requires a in tasks
    ensures b in Chain(tasks, Some(a), {}) <==> Reaches(tasks, a, b)
  {
    if b in Chain(tasks, Some(a), {}) {
      ChainSound(tasks, a, {}, b);
    }
    if Reaches(tasks, a, b) {
      var path :| ParentPath(tasks, path) && path[0] == a && path[|path| - 1] == b;
      ChainComplete(tasks, path);
    }
  }

  lemma {:induction false} AddNewElems(tags: seq<string>, more: seq<string>, tag: string)
    requires NoDup(tags)
    ensures NoDup(AddNew(tags, more))
    ensures tag in AddNew(tags, more) <==> tag in tags || exists raw :: raw in more && Lower(raw) == tag
    decreases |more|
  {
    if more != [] {
      var low := Lower(more[0]);
      AddNewElems(if low in tags then tags else tags + [low], more[1..], tag);
      assert more == [more[0]] + more[1..];
    }
  }

  lemma {:induction false} TagsOfElems(tasks: map<string, Task>, chain: seq<string>, tags: seq<string>, tag: string)
    requires NoDup(tags) && forall x :: x in chain ==> x in tasks
    ensures NoDup(TagsOf(tasks, chain, tags))
    ensures tag in TagsOf(tasks, chain, tags) <==>
            tag in tags || exists x, raw :: x in chain && raw in tasks[x].riskTags && Lower(raw) == tag
  {
    if chain != [] {
      AddNewElems(tags, tasks[chain[0]].riskTags, tag);
      TagsOfElems(tasks, chain[1..], AddNew(tags, tasks[chain[0]].riskTags), tag);
      assert chain == [chain[0]] + chain[1..];
    }
  }

  /** The effective tags are the union of the lower-cased tags of the task and every ancestor, without repeats. */
  lemma EffectiveTagsAreInherited(tasks: map<string, Task>, id: string, tag: string)
    requires id in tasks
    ensures NoDup(EffectiveRiskTags(tasks, id))
    ensures tag in EffectiveRiskTags(tasks, id) <==>
            exists x, raw :: x in tasks && Reaches(tasks, id, x) && raw in tasks[x].riskTags && Lower(raw) == tag
  {
    var chain := Chain(tasks, Some(id), {});
    TagsOfElems(tasks, chain, [], tag);
    forall x ensures x in chain <==> Reaches(tasks, id, x) {
      ChainIsReach(tasks, id, x);
    }
  }

  /** Only parents and tags matter: rewriting anything else leaves every task's effective tags alone. */
  lemma {:induction false} ChainDependsOnParents(tasks: map<string, Task>, tasks': map<string, Task>,
                                                 cur: Option<string>, seen: set<string>)
    requires tasks.Keys == tasks'.Keys && (forall k | k in tasks :: tasks'[k].parent == tasks[k].parent)
    requires cur.Some? ==> cur.value in tasks
    ensures Chain(tasks, cur, seen) == Chain(tasks', cur, seen)
    decreases tasks.Keys - seen
  {
    if cur.Some? && cur.value !in seen {
      ChainDependsOnParents(tasks, tasks', ParentRow(tasks, cur.value), seen + {cur.value});
    }
  }

  lemma {:induction false} TagsDependOnTags(tasks: map<string, Task>, tasks': map<string, Task>, chain: seq<string>,
                                            tags: seq<string>)
    requires tasks.Keys == tasks'.Keys && (forall k | k in tasks :: tasks'[k].riskTags == tasks[k].riskTags)
    requires forall x :: x in chain ==> x in tasks
    ensures TagsOf(tasks, chain, tags) == TagsOf(tasks', chain, tags)
  {
    if chain != [] {
      TagsDependOnTags(tasks, tasks', chain[1..], AddNew(tags, tasks[chain[0]].riskTags));
    }
  }

  lemma EffectiveTagsFrame(tasks: map<string, Task>, tasks': map<string, Task>, id: string)
    requires tasks.Keys == tasks'.Keys && id in tasks
    requires forall k | k in tasks :: tasks'[k].parent == tasks[k].parent && tasks'[k].riskTags == tasks[k].riskTags
    ensures EffectiveRiskTags(tasks, id) == EffectiveRiskTags(tasks', id)
  {
    ChainDependsOnParents(tasks, tasks', Some(id), {});
    TagsDependOnTags(tasks, tasks', Chain(tasks, Some(id), {}), []);
  }

  // ---- The hard-stop ----

  const ASK := "block_and_ask"

  /** The governance part of a policy: each action's disposition, and which action a tag stands for. */
  datatype Governance = Governance(dispositions: map<string, string>, riskToAction: map<string, string>) {
    /** The action a tag stands for, when the policy says to stop and ask; an unlisted action stops too. */
    function Blocking(tag: string): Option<string> {
      if tag in riskToAction && riskToAction[tag] != "" then
        var action := riskToAction[tag];
        if action !in dispositions || dispositions[action] == ASK then Some(action) else None
      else None
    }
  }

  function SensitiveBlock(g: Governance, tags: seq<string>): Option<string> {
    if tags == [] then None
    else if g.Blocking(tags[0]).Some? then g.Blocking(tags[0])
    else SensitiveBlock(g, tags[1..])
  }

  /** All blocking actions, each once, in the order of the tags. */
  function SensitiveBlocks(g: Governance, tags: seq<string>, out: seq<string>): seq<string> {
    if tags == [] then out
    else
      var a := g.Blocking(tags[0]);
      SensitiveBlocks(g, tags[1..], if a.Some? && a.value !in out then out + [a.value] else out)
  }

  /** Which tag decides: the first one that stands for a blocked action. */
  ghost predicate Decides(g: Governance, tags: seq<string>, k: nat) {
    k < |tags| && g.Blocking(tags[k]).Some? && forall j :: 0 <= j < k ==> g.Blocking(tags[j]).None?
  }

  lemma {:induction false} FirstBlock(g: Governance, tags: seq<string>) returns (k: nat)
    requires SensitiveBlock(g, tags).Some?
    ensures Decides(g, tags, k) && g.Blocking(tags[k]) == SensitiveBlock(g, tags)
    decreases |tags|
  {
    k := 0;
    if g.Blocking(tags[0]).None? {
      var later := FirstBlock(g, tags[1..]);
      k := later + 1;
      forall j | 0 <= j < k ensures g.Blocking(tags[j]).None? {
        assert j > 0 ==> tags[j] == tags[1..][j - 1];
      }
    }
  }

  lemma {:induction false} NoBlock(g: Governance, tags: seq<string>, tag: string)
    requires SensitiveBlock(g, tags).None? && tag in tags
    ensures g.Blocking(tag).None?
    decreases |tags|
  {
    if tag != tags[0] {
      NoBlock(g, tags[1..], tag);
    }
  }

  /** An action is returned exactly when some tag's action is blocked, and then it is the first such tag's. */
  lemma BlockIff(g: Governance, tags: seq<string>)
    ensures SensitiveBlock(g, tags).Some? <==> exists tag :: tag in tags && g.Blocking(tag).Some?
    ensures SensitiveBlock(g, tags).Some? ==>
              exists k: nat :: Decides(g, tags, k) && g.Blocking(tags[k]) == SensitiveBlock(g, tags)
  {
    if SensitiveBlock(g, tags).Some? {
      var k := FirstBlock(g, tags);
      assert tags[k] in tags;
    } else {
      forall tag | tag in tags ensures g.Blocking(tag).None? {
        NoBlock(g, tags, tag);
      }
    }
  }

  lemma {:induction false} BlocksElems(g: Governance, tags: seq<string>, out: seq<string>, action: string)
    requires NoDup(out)
    ensures NoDup(SensitiveBlocks(g, tags, out))
    ensures action in SensitiveBlocks(g, tags, out) <==>
            action in out || exists tag :: tag in tags && g.Blocking(tag) == Some(action)
    ensures SensitiveBlocks(g, tags, out) != [] && out == [] ==>
            SensitiveBlock(g, tags) == Some(SensitiveBlocks(g, tags, out)[0])
    ensures out != [] ==> SensitiveBlocks(g, tags, out) != [] && SensitiveBlocks(g, tags, out)[0] == out[0]
  {
    if tags != [] {
      var a := g.Blocking(tags[0]);
      BlocksElems(g, tags[1..], if a.Some? && a.value !in out then out + [a.value] else out, action);
      assert tags == [tags[0]] + tags[1..];
    }
  }

  /** A tag blocks an action if the policy maps it there and says to stop and ask, or says nothing about that action. */
  lemma BlockingIff(g: Governance, tag: string, action: string)
    ensures g.Blocking(tag) == Some(action) <==>
            && action != "" && tag in g.riskToAction && g.riskToAction[tag] == action
            && (action in g.dispositions ==> g.dispositions[action] == "block_and_ask")
  {
  }

  /** A task is held exactly when it or an ancestor carries a tag whose action the policy blocks. */
  lemma HeldIff(g: Governance, tasks: map<string, Task>, id: string)
    requires id in tasks
    ensures SensitiveBlock(g, EffectiveRiskTags(tasks, id)).Some? <==>
            exists x, raw :: x in tasks && Reaches(tasks, id, x) && raw in tasks[x].riskTags
                             && g.Blocking(Lower(raw)).Some?
  {
    var tags := EffectiveRiskTags(tasks, id);
    BlockIff(g, tags);
    forall tag ensures tag in tags <==>
      exists x, raw :: x in tasks && Reaches(tasks, id, x) && raw in tasks[x].riskTags && Lower(raw) == tag
    {
      EffectiveTagsAreInherited(tasks, id, tag);
    }
    if exists x, raw :: x in tasks && Reaches(tasks, id, x) && raw in tasks[x].riskTags
                        && g.Blocking(Lower(raw)).Some? {
      var x, raw :| x in tasks && Reaches(tasks, id, x) && raw in tasks[x].riskTags && g.Blocking(Lower(raw)).Some?;
      assert Lower(raw) in tags;
    }
  }

  // ---- What stops a task ----

  /** The task or an ancestor of it carries a tag for which the policy says to stop and ask about `action`. */
  ghost predicate Stops(g: Governance, tasks: map<string, Task>, id: string, action: string) {
    exists x, raw ::
      x in tasks && Reaches(tasks, id, x) && raw in tasks[x].riskTags && g.Blocking(Lower(raw)) == Some(action)
  }

  ghost predicate Stopped(g: Governance, tasks: map<string, Task>, id: string) {
    exists action :: Stops(g, tasks, id, action)
  }

  /** Every action that stops the task, and no other, once. */
  ghost predicate AllStops(g: Governance, tasks: map<string, Task>, id: string, actions: seq<string>) {
    NoDup(actions) && forall a :: a in actions <==> Stops(g, tasks, id, a)
  }

  lemma TagStops(g: Governance, tasks: map<string, Task>, id: string, action: string)
    requires id in tasks
    ensures (exists tag :: tag in EffectiveRiskTags(tasks, id) && g.Blocking(tag) == Some(action)) <==>
            Stops(g, tasks, id, action)
  {
    var tags := EffectiveRiskTags(tasks, id);
    forall tag ensures tag in tags <==>
      exists x, raw :: x in tasks && Reaches(tasks, id, x) && raw in tasks[x].riskTags && Lower(raw) == tag
    {
      EffectiveTagsAreInherited(tasks, id, tag);
    }
    if Stops(g, tasks, id, action) {
      var x, raw :| x in tasks && Reaches(tasks, id, x) && raw in tasks[x].riskTags
                    && g.Blocking(Lower(raw)) == Some(action);
      assert Lower(raw) in tags;
    }
  }

  /** The action given as the reason really stops the task, and none is given only if none does. */
  lemma StopIs(g: Governance, tasks: map<string, Task>, id: string)
    requires id in tasks
    ensures var held := SensitiveBlock(g, EffectiveRiskTags(tasks, id));
      (held.Some? ==> Stops(g, tasks, id, held.value)) && (held.Some? <==> Stopped(g, tasks, id))
  {
    var tags := EffectiveRiskTags(tasks, id);
    BlockIff(g, tags);
    if SensitiveBlock(g, tags).Some? {
      var k := FirstBlock(g, tags);
      TagStops(g, tasks, id, g.Blocking(tags[k]).value);
    } else {
      forall action ensures !Stops(g, tasks, id, action) {
        TagStops(g, tasks, id, action);
      }
    }
  }

  /** The actions that a hold names are exactly those that stop the task, each once. */
  lemma BlocksAreAllStops(g: Governance, tasks: map<string, Task>, id: string)
    requires id in tasks
    ensures AllStops(g, tasks, id, SensitiveBlocks(g, EffectiveRiskTags(tasks, id), []))
  {
    var tags := EffectiveRiskTags(tasks, id);
    BlocksElems(g, tags, [], "");
    forall a ensures a in SensitiveBlocks(g, tags, []) <==> Stops(g, tasks, id, a) {
      BlocksElems(g, tags, [], a);
      TagStops(g, tasks, id, a);
    }
  }
}
