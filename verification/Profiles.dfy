/** Named configuration profiles with inheritance: deepMerge and resolveProfile of profiles.mjs. */
module Profiles {
  import opened Common

  /** A policy value; scalars and arrays are leaves, because merging replaces both wholesale. */
  datatype Value = Null | Leaf(text: string) | Obj(fields: map<string, Value>)

  type Fields = map<string, Value>

  function At(m: Fields, k: string): Option<Value> {
    if k in m then Some(m[k]) else None
  }

  /** A null override keeps the base, two objects merge key by key, anything else is replaced by the override. */
  function DeepMerge(base: Option<Value>, over: Value): Option<Value>
    decreases over
  {
    if over.Null? then base
    else if over.Obj? && base.Some? && base.value.Obj? then
      var b := base.value.fields;
      Some(Obj(map k | k in b.Keys + over.fields.Keys
                       && (k in over.fields ==> DeepMerge(At(b, k), over.fields[k]).Some?) ::
                 if k in over.fields then DeepMerge(At(b, k), over.fields[k]).value else b[k]))
    else Some(over)
  }

  datatype Profile = Profile(parent: Option<string>, fields: Fields)

  datatype Chain = Names(names: seq<string>) | Unknown(name: string) | Circular(name: string)

  /** The walk from leaf to root. */
  function Walk(profiles: map<string, Profile>, name: string, visited: set<string>): Chain
    decreases profiles.Keys - visited
  {
    if name in visited then Circular(name)
    else if name !in profiles then Unknown(name)
    else if profiles[name].parent.None? then Names([name])
    else
      match Walk(profiles, profiles[name].parent.value, visited + {name})
      case Names(rest) => Names([name] + rest)
      case e => e
  }

  function MergeDown(profiles: map<string, Profile>, names: seq<string>): Value
    requires forall n | n in names :: n in profiles
  {
    if names == [] then Obj(map[])
    else DeepMerge(Some(MergeDown(profiles, names[1..])), Obj(profiles[names[0]].fields)).Or(Null)
  }

  datatype Resolved = Ok(value: Value) | Failed(why: Chain)

  lemma {:induction false} WalkIsKnown(profiles: map<string, Profile>, name: string, visited: set<string>)
    requires Walk(profiles, name, visited).Names?
    ensures forall n | n in Walk(profiles, name, visited).names :: n in profiles
    decreases profiles.Keys - visited
  {
    if profiles[name].parent.Some? {
      WalkIsKnown(profiles, profiles[name].parent.value, visited + {name});
    }
  }

  function Resolve(profiles: map<string, Profile>, name: string): Resolved {
    var chain := Walk(profiles, name, {});
    if chain.Names? then
      WalkIsKnown(profiles, name, {});
      Ok(MergeDown(profiles, chain.names))
    else Failed(chain)
  }

  /** resolveProfile: collect the chain, then merge it root first. */
  method ResolveProfile(profiles: map<string, Profile>, name: string) returns (r: Resolved)
    ensures r == Resolve(profiles, name)
  {
    var chain := CollectChain(profiles, name);
    if !chain.Names? {
      return Failed(chain);
    }
    WalkIsKnown(profiles, name, {});
    var merged := MergeChain(profiles, chain.names);
    r := Ok(merged);
  }

  method CollectChain(profiles: map<string, Profile>, name: string) returns (r: Chain)
    ensures r == Walk(profiles, name, {})
  {
    if name !in profiles {
      return Unknown(name);
    }
    var chain, visited: set<string>, current := [], {}, name;
    ghost var whole := Walk(profiles, name, {});
    assert whole == Prefixed([], whole) by {
      assert whole.Names? ==> [] + whole.names == whole.names;
    }
    while true
      invariant current in profiles && visited <= profiles.Keys
      invariant whole == Prefixed(chain, Walk(profiles, current, visited))
      decreases profiles.Keys - visited
    {
      if current in visited {
        return Circular(current);
      }
      visited := visited + {current};
      var parent := profiles[current].parent;
      if parent.None? {
        return Names(chain + [current]);
      }
      PrefixedTwice(chain, current, Walk(profiles, parent.value, visited));
      if parent.value !in profiles {
        return Unknown(parent.value);
      }
      chain := chain + [current];
      current := parent.value;
    }
  }

  method MergeChain(profiles: map<string, Profile>, chain: seq<string>) returns (merged: Value)
    requires forall n | n in chain :: n in profiles
    ensures merged == MergeDown(profiles, chain)
  {
    merged := Obj(map[]);
    var i := |chain|;
    assert chain[|chain|..] == [];
    while i > 0
      invariant 0 <= i <= |chain|
      invariant forall n | n in chain[i..] :: n in profiles
      invariant merged == MergeDown(profiles, chain[i..])
    {
      i := i - 1;
      assert chain[i..] == [chain[i]] + chain[i + 1..];
      merged := DeepMerge(Some(merged), Obj(profiles[chain[i]].fields)).Or(Null);
    }
    assert chain[0..] == chain;
  }

  function Prefixed(names: seq<string>, rest: Chain): Chain {
    if rest.Names? then Names(names + rest.names) else rest
  }

  lemma PrefixedTwice(names: seq<string>, c: string, rest: Chain)
    ensures Prefixed(names, Prefixed([c], rest)) == Prefixed(names + [c], rest)
  {
    if rest.Names? {
      assert names + ([c] + rest.names) == (names + [c]) + rest.names;
    }
  }

  // ---- When resolution fails ----

  /** A path along `extends` from a profile; every profile on it exists. */
  ghost predicate Ancestry(profiles: map<string, Profile>, path: seq<string>) {
    && path != []
    && (forall n | n in path :: n in profiles)
    && forall i, j :: 0 <= i < j < |path| && j == i + 1 ==> profiles[path[i]].parent == Some(path[j])
  }

  function LastParent(profiles: map<string, Profile>, path: seq<string>): Option<string>
    requires path != [] && path[|path| - 1] in profiles
  {
    profiles[path[|path| - 1]].parent
  }

  /** What the walk found, told by the path it took. */
  ghost predicate Explains(profiles: map<string, Profile>, name: string, path: seq<string>, chain: Chain,
                           visited: set<string>) {
    if path == [] then
      || (chain.Circular? && chain.name == name && name in visited)
      || (chain.Unknown? && chain.name == name && name !in profiles)
    else
      && Ancestry(profiles, path) && path[0] == name
      && match chain
         case Names(names) => names == path && LastParent(profiles, path).None?
         case Unknown(n) => LastParent(profiles, path) == Some(n) && n !in profiles
         case Circular(n) => LastParent(profiles, path) == Some(n) && (n in path || n in visited)
  }

  lemma {:induction false} WalkExplained(profiles: map<string, Profile>, name: string, visited: set<string>)
    returns (path: seq<string>)
    ensures Explains(profiles, name, path, Walk(profiles, name, visited), visited)
    decreases profiles.Keys - visited
  {
    if name in visited || name !in profiles {
      path := [];
    } else if profiles[name].parent.None? {
      path := [name];
    } else {
      var p := profiles[name].parent.value;
      var rest := WalkExplained(profiles, p, visited + {name});
      path := [name] + rest;
      if rest != [] {
        assert path[|path| - 1] == rest[|rest| - 1];
      }
    }
  }

  /** Paths along `extends` are forced: two from the same profile agree as far as both go. */
  lemma {:induction false} AncestryForced(profiles: map<string, Profile>, p: seq<string>, q: seq<string>, n: nat)
    requires Ancestry(profiles, p) && Ancestry(profiles, q) && p[0] == q[0] && n < |p| && n < |q|
    ensures p[n] == q[n]
  {
    if n > 0 {
      AncestryForced(profiles, p, q, n - 1);
      assert profiles[p[n - 1]].parent == Some(p[n]);
      assert profiles[q[n - 1]].parent == Some(q[n]);
    }
  }

  lemma HasParent(profiles: map<string, Profile>, q: seq<string>, i: nat)
    requires Ancestry(profiles, q) && LastParent(profiles, q).Some? && i < |q|
    ensures profiles[q[i]].parent.Some?
  {
    if i < |q| - 1 {
      assert profiles[q[i]].parent == Some(q[i + 1]);
    }
  }

  /** A chain that reaches a root neither repeats nor leaves the known profiles. */
  lemma RootedNeverRepeats(profiles: map<string, Profile>, p: seq<string>, q: seq<string>)
    requires Ancestry(profiles, p) && LastParent(profiles, p).None?
    requires Ancestry(profiles, q) && p[0] == q[0] && LastParent(profiles, q).Some?
    ensures |q| < |p| && LastParent(profiles, q) == Some(p[|q|]) && NoDup(p)
  {
    if |q| >= |p| {
      AncestryForced(profiles, p, q, |p| - 1);
      HasParent(profiles, q, |p| - 1);
    } else {
      AncestryForced(profiles, p, q, |q| - 1);
      assert profiles[p[|q| - 1]].parent == Some(p[|q|]);
    }
    forall i, j | 0 <= i < j < |p| ensures p[i] != p[j] {
      if p[i] == p[j] {
        Looped(profiles, p, i, j);
      }
    }
  }

  /** A repeat would make the path go round for ever, so it could not end at a root. */
  lemma {:induction false} Looped(profiles: map<string, Profile>, p: seq<string>, i: nat, j: nat)
    requires Ancestry(profiles, p) && i < j < |p| && p[i] == p[j]
    ensures LastParent(profiles, p).Some?
    decreases |p| - j
  {
    assert profiles[p[i]].parent == Some(p[i + 1]);
    if j < |p| - 1 {
      assert profiles[p[j]].parent == Some(p[j + 1]);
      Looped(profiles, p, i + 1, j + 1);
    }
  }

  /**
   * Resolution succeeds exactly when the `extends` chain reaches a root. It reports an unknown
   * profile exactly when the chain meets a name that is not defined - the one it starts from included -
   * and a circle exactly when it meets one it has already passed.
   */
  lemma ResolveOutcome(profiles: map<string, Profile>, name: string)
    ensures var r := Resolve(profiles, name);
      && (r.Ok? <==> exists p :: Ancestry(profiles, p) && p[0] == name && LastParent(profiles, p).None?)
      && (r.Failed? && r.why.Unknown? <==>
          name !in profiles ||
          exists p :: Ancestry(profiles, p) && p[0] == name && LastParent(profiles, p).Some? &&
              LastParent(profiles, p).value !in profiles)
      && (r.Failed? && r.why.Circular? <==>
          exists p :: Ancestry(profiles, p) && p[0] == name && LastParent(profiles, p).Some? &&
              LastParent(profiles, p).value in p)
  {
    if name in profiles {
      var path := WalkExplained(profiles, name, {});
      assert path != [];
      var whole := Walk(profiles, name, {});
      forall q | Ancestry(profiles, q) && q[0] == name
        ensures LastParent(profiles, q).None? ==> whole.Names?
        ensures LastParent(profiles, q).Some? && LastParent(profiles, q).value !in profiles ==> whole.Unknown?
        ensures LastParent(profiles, q).Some? && LastParent(profiles, q).value in q ==> whole.Circular?
      {
        EndsAgree(profiles, path, q);
        EndsAgree(profiles, q, path);
      }
    }
  }

  /** Where one path from a profile ends decides how every other one can end. */
  lemma EndsAgree(profiles: map<string, Profile>, p: seq<string>, q: seq<string>)
    requires Ancestry(profiles, p) && Ancestry(profiles, q) && p[0] == q[0]
    ensures LastParent(profiles, p).None? ==>
            !(LastParent(profiles, q).Some? && LastParent(profiles, q).value !in profiles)
    ensures LastParent(profiles, p).None? ==> !(LastParent(profiles, q).Some? && LastParent(profiles, q).value in q)
    ensures LastParent(profiles, p).Some? && LastParent(profiles, p).value !in profiles ==>
      !(LastParent(profiles, q).Some? && LastParent(profiles, q).value in q)
  {
    if LastParent(profiles, q).Some? {
      if LastParent(profiles, p).None? {
        RootedNeverRepeats(profiles, p, q);
        assert p[|q|] in p;
        forall k | 0 <= k < |q| ensures q[k] != p[|q|] {
          AncestryForced(profiles, p, q, k);
        }
      } else if LastParent(profiles, p).value !in profiles && LastParent(profiles, q).value in q {
        var k :| 0 <= k < |q| && q[k] == LastParent(profiles, q).value;
        Goes(profiles, p, q, k, |p| - 1);
      }
    }
  }

  /** A circle keeps every path inside it: each step leads back to a defined profile. */
  lemma {:induction false} Goes(profiles: map<string, Profile>, p: seq<string>, q: seq<string>, k: nat, n: nat)
    requires Ancestry(profiles, p) && Ancestry(profiles, q) && p[0] == q[0]
    requires k < |q| && LastParent(profiles, q) == Some(q[k]) && n < |p|
    ensures p[n] in q && profiles[p[n]].parent.Some? && profiles[p[n]].parent.value in profiles
  {
    if n > 0 {
      Goes(profiles, p, q, k, n - 1);
      assert profiles[p[n - 1]].parent == Some(p[n]);
      var i :| 0 <= i < |q| && q[i] == p[n - 1];
      if i < |q| - 1 {
        assert profiles[q[i]].parent == Some(q[i + 1]);
      }
    }
    var i :| 0 <= i < |q| && q[i] == p[n];
    if i < |q| - 1 {
      assert profiles[q[i]].parent == Some(q[i + 1]);
    }
  }

  // ---- Inheritance ----

  lemma {:induction false} WalkFrame(profiles: map<string, Profile>, name: string, a: set<string>, b: set<string>)
    requires Walk(profiles, name, a).Names? && (forall n | n in Walk(profiles, name, a).names :: n !in b)
    ensures Walk(profiles, name, b) == Walk(profiles, name, a)
    decreases profiles.Keys - a
  {
    if profiles[name].parent.Some? {
      var p := profiles[name].parent.value;
      var rest := Walk(profiles, p, a + {name}).names;
      assert Walk(profiles, name, a).names == [name] + rest;
      forall n | n in rest ensures n !in b + {name} {
        NotAgain(profiles, p, a + {name}, n);
      }
      WalkFrame(profiles, p, a + {name}, b + {name});
    }
  }

  lemma {:induction false} NotAgain(profiles: map<string, Profile>, name: string, visited: set<string>, n: string)
    requires Walk(profiles, name, visited).Names? && n in Walk(profiles, name, visited).names
    ensures n !in visited
    decreases profiles.Keys - visited
  {
    if n != name {
      NotAgain(profiles, profiles[name].parent.value, visited + {name}, n);
    }
  }

  /**
   * A child is its own fields merged onto whatever its parent resolves to; it resolves exactly when the
   * parent does.
   */
  lemma ChildOverridesParent(profiles: map<string, Profile>, name: string)
    requires name in profiles && profiles[name].parent.Some?
    ensures var child, parent := Resolve(profiles, name), Resolve(profiles, profiles[name].parent.value);
      && (child.Ok? <==> parent.Ok?)
      && (child.Ok? ==> Some(child.value) == DeepMerge(Some(parent.value), Obj(profiles[name].fields)))
  {
    var p := profiles[name].parent.value;
    var none: set<string> := {};
    assert none + {name} == {name};
    var up, down := Walk(profiles, p, none), Walk(profiles, p, {name});
    if up.Names? {
      if name in up.names {
        var path := WalkExplained(profiles, p, {});
        Returns(profiles, path, name);
      }
      WalkFrame(profiles, p, {}, {name});
    } else if down.Names? {
      WalkFrame(profiles, p, {name}, {});
    }
    if up.Names? {
      assert Walk(profiles, name, none) == Prefixed([name], down);
      assert ([name] + up.names)[1..] == up.names;
    }
  }

  /** A rooted chain never contains a child of its own head. */
  lemma Returns(profiles: map<string, Profile>, path: seq<string>, child: string)
    requires Ancestry(profiles, path) && LastParent(profiles, path).None?
    requires child in profiles && profiles[child].parent == Some(path[0])
    ensures child !in path
  {
    if child in path {
      var i :| 0 <= i < |path| && path[i] == child;
      if i < |path| - 1 {
        assert profiles[path[i]].parent == Some(path[i + 1]);
        Looped(profiles, path, 0, i + 1);
      }
    }
  }

  // ---- Which profile decides a setting ----

  /** The scalar a policy value holds at a path of keys. */
  function Setting(v: Option<Value>, path: seq<string>): Option<string>
    decreases |path|
  {
    if v.None? then None
    else
      match v.value
      case Null => None
      case Leaf(text) => if path == [] then Some(text) else None
      case Obj(m) => if path == [] then None else Setting(At(m, path[0]), path[1..])
  }

  /** The value says something about the path: a leaf at it or above it, or an object right there. */
  predicate Speaks(v: Value, path: seq<string>)
    decreases |path|
  {
    match v
    case Null => false
    case Leaf(_) => true
    case Obj(m) => path == [] || (path[0] in m && Speaks(m[path[0]], path[1..]))
  }

  /** An override decides exactly the paths it speaks about, and leaves every other setting to the base. */
  lemma {:induction false} MergeDecides(base: Option<Value>, over: Value, path: seq<string>)
    ensures Setting(DeepMerge(base, over), path) ==
            if Speaks(over, path) then Setting(Some(over), path) else Setting(base, path)
    decreases |path|
  {
    if path != [] && over.Obj? && path[0] in over.fields {
      if base.Some? && base.value.Obj? {
        MergeDecides(At(base.value.fields, path[0]), over.fields[path[0]], path[1..]);
      } else if !Speaks(over, path) {
        SilentIsUnset(over, path);
      }
    }
  }

  lemma {:induction false} SilentIsUnset(v: Value, path: seq<string>)
    requires !Speaks(v, path)
    ensures Setting(Some(v), path) == None
    decreases |path|
  {
    if v.Obj? && path[0] in v.fields {
      SilentIsUnset(v.fields[path[0]], path[1..]);
    }
  }

  /** The profile nearest the leaf of the chain that speaks about a path. */
  function Nearest(profiles: map<string, Profile>, names: seq<string>, path: seq<string>): Option<string>
    requires forall n | n in names :: n in profiles
  {
    if names == [] then None
    else if Speaks(Obj(profiles[names[0]].fields), path) then Some(names[0])
    else Nearest(profiles, names[1..], path)
  }

  lemma {:induction false} NearestDecidesDown(profiles: map<string, Profile>, names: seq<string>, path: seq<string>)
    requires forall n | n in names :: n in profiles
    ensures MergeDown(profiles, names).Obj?
    ensures var near := Nearest(profiles, names, path);
      && (near.Some? ==> near.value in names && near.value in profiles)
      && Setting(Some(MergeDown(profiles, names)), path) ==
         if near.None? then None else Setting(Some(Obj(profiles[near.value].fields)), path)
  {
    if names != [] {
      NearestDecidesDown(profiles, names[1..], path);
      MergeDecides(Some(MergeDown(profiles, names[1..])), Obj(profiles[names[0]].fields), path);
    }
  }

  /** Every setting of a resolved profile is the one given by the profile nearest the leaf that speaks about it. */
  lemma NearestDecides(profiles: map<string, Profile>, name: string, path: seq<string>)
    requires Resolve(profiles, name).Ok?
    ensures var names := Walk(profiles, name, {}).names;
      && (forall n | n in names :: n in profiles)
      && var near := Nearest(profiles, names, path);
         (near.Some? ==> near.value in profiles) &&
         Setting(Some(Resolve(profiles, name).value), path) ==
         if near.None? || near.value !in profiles then None else Setting(Some(Obj(profiles[near.value].fields)), path)
  {
    WalkIsKnown(profiles, name, {});
    NearestDecidesDown(profiles, Walk(profiles, name, {}).names, path);
  }
}
