/** Well-formed policy text, and a whole batch of updates to it (writePolicy's loop over setPolicyValue). */
module PolicyBatch {
  import opened Common
  import opened PolicyText
  import opened PolicyLaws
  import PolicyScalar

  /** Two spaces a level, and no path twice. */
  ghost predicate WellFormed(lines: seq<Line>) {
    && (forall i :: 0 <= i < |lines| && lines[i].Entry? ==> |lines[i].lead| == 2 * (|PathAt(lines, i)| - 1))
    && (forall i, k :: 0 <= i < k < |lines| && lines[i].Entry? && lines[k].Entry? ==>
          PathAt(lines, i) != PathAt(lines, k))
  }

  /** The path extends no scalar, and is not an open mapping itself. */
  ghost predicate Free(lines: seq<Line>, p: Path) {
    forall k :: 0 <= k < |lines| && lines[k].Entry? ==>
      (PathAt(lines, k) < p ==> lines[k].rest == "") && (PathAt(lines, k) == p ==> lines[k].rest != "")
  }

  lemma Twice(lines: seq<Line>, i: nat, k: nat)
    requires WellFormed(lines) && i < |lines| && k < |lines| && lines[i].Entry? && lines[k].Entry?
    requires PathAt(lines, i) == PathAt(lines, k)
    ensures i == k
  {
  }

  lemma StackIndent(lines: seq<Line>, n: nat, m: nat)
    requires WellFormed(lines) && n <= |lines| && m < |StackAt(lines, n)|
    ensures StackAt(lines, n)[m].indent == 2 * m
  {
    var h := OpenedBy(lines, n, m + 1);
  }

  /** Whatever is open at depth `d` or deeper is popped by a line indented for depth `d`. */
  lemma PopToDepth(lines: seq<Line>, n: nat, d: nat)
    requires WellFormed(lines) && n <= |lines| && d <= |StackAt(lines, n)|
    ensures Popped(StackAt(lines, n), 2 * d) == StackAt(lines, n)[..d]
  {
    var s := StackAt(lines, n);
    forall i | 0 <= i < |s| ensures s[i].indent == 2 * i {
      StackIndent(lines, n, i);
    }
    PopsBelow(s, d, 2 * d);
  }

  /** An ancestor of a line is named once only: before the line. */
  lemma AncestorsBefore(lines: seq<Line>, i: nat, k: nat)
    requires WellFormed(lines) && i < k < |lines| && lines[i].Entry? && lines[k].Entry?
    ensures !(PathAt(lines, k) <= PathAt(lines, i))
  {
    if PathAt(lines, k) == PathAt(lines, i) {
      Twice(lines, i, k);
    } else if PathAt(lines, k) < PathAt(lines, i) {
      var h := ParentOpened(lines, i, PathAt(lines, k));
      Twice(lines, h, k);
    }
  }

  lemma BodyKeepsAncestorOpen(lines: seq<Line>, p: Path, d: nat)
    requires WellFormed(lines) && 0 < d < |p| && Free(lines, p) && BodyEnd(lines, p[..d], |lines|) > 0
    ensures p[..d] <= Keys(StackAt(lines, BodyEnd(lines, p[..d], |lines|)))
  {
    var j := BodyEnd(lines, p[..d], |lines|);
    var line, s := lines[j - 1], StackAt(lines, j - 1);
    assert InBody(lines, j - 1, p[..d]);
    if line.rest == "" {
      assert Keys(StackAt(lines, j)) == PathAt(lines, j - 1);
    } else {
      assert p[..d] < p;
      ParentPrefix(p[..d], s, line);
    }
  }

  lemma WellFormedNests(lines: seq<Line>, p: Path)
    requires p != [] && WellFormed(lines) && Free(lines, p)
    ensures Nested(lines, p)
  {
    var d, j := FromDepth(lines, p), InsertAt(lines, p);
    if d == 0 {
      PopToDepth(lines, j, 0);
      assert p[..0] == [];
    } else {
      HeaderEndsBody(lines, p[..d]);
      BodyKeepsAncestorOpen(lines, p, d);
      PopToDepth(lines, j, d);
      assert Keys(StackAt(lines, j)[..d]) == Keys(StackAt(lines, j))[..d] == p[..d];
    }
  }

  lemma NothingAfterBody(lines: seq<Line>, p: Path)
    requires p != [] && WellFormed(lines)
    ensures Clear(lines, p, InsertAt(lines, p), |lines|)
  {
    var d, j := FromDepth(lines, p), InsertAt(lines, p);
    forall k | j <= k < |lines| ensures !Touches(lines, k, p) {
      if Touches(lines, k, p) {
        assert !InBody(lines, k, p[..d]);
        Comparable(PathAt(lines, k), p[..d], p);
        assert InBody(lines, j - 1, p[..d]);
        AncestorsBefore(lines, j - 1, k);
      }
    }
  }

  /** In well-formed text every free path can be written. */
  lemma WellFormedSettable(lines: seq<Line>, p: Path)
    requires p != [] && WellFormed(lines) && Free(lines, p)
    ensures Settable(lines, p)
  {
    match Target(lines, p)
    case Some(i) =>
      forall k | i + 1 <= k < |lines| ensures !Touches(lines, k, p) {
        if lines[k].Entry? {
          AncestorsBefore(lines, i, k);
        }
      }
    case None =>
      WellFormedNests(lines, p);
      NothingAfterBody(lines, p);
  }

  /** A free path has nothing below it. */
  lemma FreeHasNoChildren(lines: seq<Line>, p: Path, q: Path)
    requires p != [] && Free(lines, p) && p < q
    ensures Lookup(lines, q) == None
  {
    LastTouchDecides(lines, q);
    if Reading(lines, q, |lines|).Some? {
      var k := ReadFrom(lines, q, |lines|);
      var h := ParentOpened(lines, k, p);
      assert false;
    }
  }

  lemma PrintsSomething(v: PolicyScalar.Value)
    ensures PolicyScalar.Serialize(v) != ""
  {
  }

  /**
   * From value to value: what is set at a settable path is what the reader finds there exactly when the
   * value is faithful.
   */
  lemma ValueReadsBackIff(lines: seq<Line>, p: Path, v: PolicyScalar.Value)
    requires p != [] && Settable(lines, p)
    ensures var read := Lookup(Set(lines, p, PolicyScalar.Serialize(v)), p);
            read.Some? && (PolicyScalar.ParseScalar(read.value) == PolicyScalar.Known(v) <==> PolicyScalar.Faithful(v))
  {
    PrintsSomething(v);
    SetEffect(lines, p, PolicyScalar.Serialize(v), p);
    PolicyScalar.ScalarReadsBackIff(v);
  }

  // ---- Where insertions land in well-formed text ----

  /** The first entry from line `k` on, if any, is indented by at most `n`. */
  ghost predicate Shallow(lines: seq<Line>, k: nat, n: nat)
    requires k <= |lines|
    decreases |lines| - k
  {
    k == |lines| || (if lines[k].Entry? then |lines[k].lead| <= n else Shallow(lines, k + 1, n))
  }

  lemma {:induction false} ShallowAligned(lines: seq<Line>, k: nat, s: Stack, p: Path, d: nat)
    requires k <= |lines| && d < |p| && Shallow(lines, k, 2 * d)
    ensures Aligned(lines, k, Grown(Popped(s, 2 * d), p, d, |p| - d - 1), s)
    decreases |lines| - k
  {
    if k < |lines| {
      if lines[k].Entry? {
        NewLevelsPop(Popped(s, 2 * d), p, d, |p| - d - 1, |lines[k].lead|);
        PopTwice(s, 2 * d, |lines[k].lead|);
      } else {
        ShallowAligned(lines, k + 1, s, p, d);
      }
    }
  }

  /** An insertion fits wherever the next entry is not indented deeper than the new lines. */
  lemma ShallowFits(lines: seq<Line>, p: Path)
    requires p != [] && Shallow(lines, InsertAt(lines, p), 2 * FromDepth(lines, p))
    ensures Fits(lines, p)
  {
    ShallowAligned(lines, InsertAt(lines, p), StackAt(lines, InsertAt(lines, p)), p, FromDepth(lines, p));
  }

  lemma BodyOpen(lines: seq<Line>, j: nat, q: Path)
    requires 0 < j <= |lines| && InBody(lines, j - 1, q) && |StackAt(lines, j)| > |q|
    ensures q <= Keys(StackAt(lines, j))
  {
    var s, line := StackAt(lines, j - 1), lines[j - 1];
    if line.rest == "" {
      PushedKey(Popped(s, |line.lead|), Level(|line.lead|, line.key));
    } else {
      ParentPrefix(q, s, line);
    }
  }

  lemma DeepPath(s: Stack, line: Line, q: Path)
    requires line.Entry? && q <= Keys(s) && |PathOf(s, line)| > |q|
    ensures q <= PathOf(s, line)
  {
    var kept := Popped(s, |line.lead|);
    assert Keys(kept) <= Keys(s);
    assert q == Keys(s)[..|q|] == Keys(kept)[..|q|];
  }

  lemma {:induction false} AfterBodyShallow(lines: seq<Line>, j: nat, q: Path, k: nat)
    requires WellFormed(lines) && 0 < j <= k <= |lines| && InBody(lines, j - 1, q)
    requires StackAt(lines, k) == StackAt(lines, j) && forall i :: j <= i < |lines| ==> !InBody(lines, i, q)
    ensures Shallow(lines, k, 2 * |q|)
    decreases |lines| - k
  {
    if k < |lines| {
      if lines[k].Skipped? {
        AfterBodyShallow(lines, j, q, k + 1);
      } else if |PathAt(lines, k)| > |q| + 1 {
        assert !InBody(lines, k, q);
        BodyOpen(lines, j, q);
        DeepPath(StackAt(lines, k), lines[k], q);
      }
    }
  }

  lemma {:induction false} NoEntriesShallow(lines: seq<Line>, k: nat, n: nat)
    requires k <= |lines| && forall i :: k <= i < |lines| ==> lines[i].Skipped?
    ensures Shallow(lines, k, n)
    decreases |lines| - k
  {
    if k < |lines| {
      NoEntriesShallow(lines, k + 1, n);
    }
  }

  /** In well-formed text every insertion fits, wherever it lands. */
  lemma WellFormedFits(lines: seq<Line>, p: Path)
    requires p != [] && WellFormed(lines)
    ensures Fits(lines, p)
  {
    var j, d := InsertAt(lines, p), FromDepth(lines, p);
    if d == 0 {
      NoEntriesShallow(lines, j, 0);
    } else {
      HeaderEndsBody(lines, p[..d]);
      AfterBodyShallow(lines, j, p[..d], j);
    }
    ShallowFits(lines, p);
  }

  /** A scalar is the whole of its body. */
  lemma ScalarBody(lines: seq<Line>, q: Path, h: nat)
    requires q != [] && WellFormed(lines) && h < |lines| && HeaderAt(lines, h, q) && lines[h].rest != ""
    ensures BodyEnd(lines, q, |lines|) == h + 1
  {
    assert InBody(lines, h, q);
    var k := BodyEnd(lines, q, |lines|) - 1;
    if q < PathAt(lines, k) {
      var o := ParentOpened(lines, k, q);
      Twice(lines, o, h);
      assert false;
    }
    Twice(lines, h, k);
  }

  lemma ScalarLeaves(s: Stack, line: Line)
    requires line.Entry? && line.rest != ""
    ensures |PathOf(s, line)| == |Enter(s, line)| + 1
    ensures Keys(Enter(s, line)) == PathOf(s, line)[..|PathOf(s, line)| - 1]
  {
    var below := Keys(Popped(s, |line.lead|));
    assert (below + [line.key])[..|below|] == below;
  }

  lemma PopsNothing(s: Stack, k: nat)
    requires s == [] || s[|s| - 1].indent < k
    ensures Popped(s, k) == s
  {
  }

  lemma AfterScalar(lines: seq<Line>, h: nat)
    requires WellFormed(lines) && h < |lines| && lines[h].Entry? && lines[h].rest != ""
    ensures var d := |PathAt(lines, h)|;
            Keys(StackAt(lines, h + 1)) == PathAt(lines, h)[..d - 1] && Base(lines, h + 1, d) == StackAt(lines, h + 1)
  {
    var s, d := StackAt(lines, h + 1), |PathAt(lines, h)|;
    StackStep(lines, h + 1, lines[h]);
    ScalarLeaves(StackAt(lines, h), lines[h]);
    if s != [] {
      StackIndent(lines, h + 1, d - 2);
    }
    PopsNothing(s, 2 * d);
  }

  /** Below a scalar, a new path lands beside it: `a.b` on the text `a: 5` writes the top-level `b`. */
  lemma BelowScalarLandsBeside(lines: seq<Line>, p: Path, h: nat)
    requires p != [] && WellFormed(lines) && h < |lines| && FromDepth(lines, p) > 0
    requires HeaderAt(lines, h, p[..FromDepth(lines, p)]) && lines[h].rest != ""
    ensures Lands(lines, p) == p[..FromDepth(lines, p) - 1] + p[FromDepth(lines, p)..]
  {
    var d := FromDepth(lines, p);
    ScalarBody(lines, p[..d], h);
    AfterScalar(lines, h);
    assert p[..d][..d - 1] == p[..d - 1];
  }

  // ---- Writing keeps the text well-formed ----

  /** Where a line of the text with `p` inserted comes from. */
  ghost predicate Origin(lines: seq<Line>, d: nat, p: Path, out: seq<Line>, x: nat, from: Option<nat>, t: nat)
    requires x < |out|
  {
    if from.Some? then
      && from.value < |lines| && out[x] == lines[from.value]
      && (out[x].Entry? ==> PathAt(out, x) == PathAt(lines, from.value))
    else
      && d + t < |p| && out[x].Entry? && PathAt(out, x) == p[..d + t + 1] && |out[x].lead| == 2 * (d + t)
      && (out[x].rest == "" <==> d + t + 1 < |p|)
  }

  /** Where a line from the given origin stands. */
  function Place(j: nat, m: nat, from: Option<nat>, t: nat): nat {
    match from
    case Some(k) => if k < j then k else k + m
    case None => j + t
  }

  lemma OldOrigin(lines: seq<Line>, j: nat, d: nat, p: Path, v: string, out: seq<Line>, k: nat)
    requires Spliced(lines, j, d, p, v, out) && FitsAt(lines, j, d, p) && v != "" && k < |lines|
    ensures Place(j, |p| - d, Some(k), 0) < |out|
    ensures Origin(lines, d, p, out, Place(j, |p| - d, Some(k), 0), Some(k), 0)
  {
    SplicedOld(lines, j, d, p, v, out, k);
    if k < j {
      StackBefore(lines, j, d, p, v, out, k);
    } else {
      PathsAfter(lines, j, d, p, v, out, k);
    }
  }

  lemma NewOrigin(lines: seq<Line>, j: nat, d: nat, p: Path, v: string, out: seq<Line>, t: nat)
    requires Spliced(lines, j, d, p, v, out) && Under(lines, j, d, p) && v != "" && t < |p| - d
    ensures Place(j, |p| - d, None, t) < |out|
    ensures Origin(lines, d, p, out, Place(j, |p| - d, None, t), None, t)
  {
    SplicedNew(lines, j, d, p, v, out, t);
    NewPath(lines, j, d, p, v, out, t);
    UnderLands(lines, j, d, p);
  }

  lemma FindPlace(j: nat, m: nat, n: nat, x: nat) returns (from: Option<nat>, t: nat)
    requires j <= n && x < n + m
    ensures Place(j, m, from, t) == x && (from.Some? ==> from.value < n && t == 0) && (from.None? ==> t < m)
  {
    from, t := if x < j then Some(x) else if x < j + m then None else Some(x - m), if j <= x < j + m then x - j else 0;
  }

  lemma FindOrigin(lines: seq<Line>, j: nat, d: nat, p: Path, v: string, out: seq<Line>, x: nat)
    returns (from: Option<nat>, t: nat)
    requires Spliced(lines, j, d, p, v, out) && Under(lines, j, d, p) && FitsAt(lines, j, d, p)
    requires v != "" && x < |out|
    ensures Origin(lines, d, p, out, x, from, t) && Place(j, |p| - d, from, t) == x
  {
    SplicedNew(lines, j, d, p, v, out, 0);
    from, t := FindPlace(j, |p| - d, |lines|, x);
    if from.Some? {
      OldOrigin(lines, j, d, p, v, out, from.value);
    } else {
      NewOrigin(lines, j, d, p, v, out, t);
    }
  }

  /** The levels of `p` that are inserted are not in the text yet. */
  lemma LevelsAreNew(lines: seq<Line>, p: Path, t: nat, k: nat)
    requires p != [] && Free(lines, p) && Target(lines, p).None?
    requires FromDepth(lines, p) + t < |p| && k < |lines| && lines[k].Entry?
    ensures PathAt(lines, k) != p[..FromDepth(lines, p) + t + 1]
  {
    var e := FromDepth(lines, p) + t + 1;
    if e < |p| {
      assert LastHeader(lines, p[..e], |lines|) < 0;
      assert !HeaderAt(lines, k, p[..e]);
    } else {
      assert p[..e] == p;
      assert !TargetAt(lines, k, p);
    }
  }

  lemma InsertKeepsTwoSpace(lines: seq<Line>, p: Path, v: string, x: nat)
    requires p != [] && v != "" && WellFormed(lines) && Free(lines, p) && Target(lines, p).None?
    requires x < |Set(lines, p, v)| && Set(lines, p, v)[x].Entry?
    ensures |Set(lines, p, v)[x].lead| == 2 * (|PathAt(Set(lines, p, v), x)| - 1)
  {
    InsertSplices(lines, p, v);
    WellFormedNests(lines, p);
    NestedFits(lines, p);
    var from, t := FindOrigin(lines, InsertAt(lines, p), FromDepth(lines, p), p, v, Set(lines, p, v), x);
  }

  lemma OriginsDiffer(lines: seq<Line>, p: Path, out: seq<Line>, x: nat, y: nat, a: Option<nat>, b: Option<nat>, s: nat,
                      t: nat)
    requires p != [] && WellFormed(lines) && Free(lines, p) && Target(lines, p).None?
    requires x < |out| && y < |out| && out[x].Entry? && out[y].Entry?
    requires Origin(lines, FromDepth(lines, p), p, out, x, a, s) && Origin(lines, FromDepth(lines, p), p, out, y, b, t)
    requires a != b || (a.None? && s != t)
    ensures PathAt(out, x) != PathAt(out, y)
  {
    if a.Some? && b.Some? {
      if PathAt(out, x) == PathAt(out, y) {
        Twice(lines, a.value, b.value);
      }
    } else if a.Some? {
      LevelsAreNew(lines, p, t, a.value);
    } else if b.Some? {
      LevelsAreNew(lines, p, s, b.value);
    }
  }

  lemma SplicedDistinct(lines: seq<Line>, p: Path, v: string, out: seq<Line>, x: nat, y: nat)
    requires p != [] && v != "" && WellFormed(lines) && Free(lines, p) && Target(lines, p).None?
    requires Spliced(lines, InsertAt(lines, p), FromDepth(lines, p), p, v, out)
    requires Nested(lines, p) && Fits(lines, p)
    requires x < y < |out| && out[x].Entry? && out[y].Entry?
    ensures PathAt(out, x) != PathAt(out, y)
  {
    var j, d := InsertAt(lines, p), FromDepth(lines, p);
    var a, s := FindOrigin(lines, j, d, p, v, out, x);
    var b, t := FindOrigin(lines, j, d, p, v, out, y);
    OriginsDiffer(lines, p, out, x, y, a, b, s, t);
  }

  lemma InsertKeepsDistinct(lines: seq<Line>, p: Path, v: string, x: nat, y: nat)
    requires p != [] && v != "" && WellFormed(lines) && Free(lines, p) && Target(lines, p).None?
    requires x < y < |Set(lines, p, v)| && Set(lines, p, v)[x].Entry? && Set(lines, p, v)[y].Entry?
    ensures PathAt(Set(lines, p, v), x) != PathAt(Set(lines, p, v), y)
  {
    InsertSplices(lines, p, v);
    WellFormedNests(lines, p);
    NestedFits(lines, p);
    SplicedDistinct(lines, p, v, Set(lines, p, v), x, y);
  }

  lemma SetKeepsWellFormed(lines: seq<Line>, p: Path, v: string)
    requires p != [] && v != "" && WellFormed(lines) && Free(lines, p)
    ensures WellFormed(Set(lines, p, v))
  {
    var out := Set(lines, p, v);
    if Target(lines, p).Some? {
      UpdateChanges(lines, p, v, v);
      forall k | 0 <= k < |lines|
        ensures lines[k].Entry? <==> out[k].Entry?
        ensures lines[k].Entry? ==> PathAt(lines, k) == PathAt(out, k) && lines[k].lead == out[k].lead {
        SamePath(lines, out, Target(lines, p).value, k);
      }
    } else {
      forall x | 0 <= x < |out| && out[x].Entry? ensures |out[x].lead| == 2 * (|PathAt(out, x)| - 1) {
        InsertKeepsTwoSpace(lines, p, v, x);
      }
      forall x, y | 0 <= x < y < |out| && out[x].Entry? && out[y].Entry? ensures PathAt(out, x) != PathAt(out, y) {
        InsertKeepsDistinct(lines, p, v, x, y);
      }
    }
  }

  /** Neither path is the other's ancestor. */
  predicate Unrelated(p: Path, q: Path) {
    !(p < q) && !(q < p)
  }

  lemma OriginKeepsFree(lines: seq<Line>, d: nat, p: Path, out: seq<Line>, x: nat, from: Option<nat>, t: nat, q: Path)
    requires Free(lines, q) && Unrelated(p, q)
    requires x < |out| && out[x].Entry? && Origin(lines, d, p, out, x, from, t)
    ensures (PathAt(out, x) < q ==> out[x].rest == "") && (PathAt(out, x) == q ==> out[x].rest != "")
  {
    if from.None? {
      assert p[..|p|] == p;
    }
  }

  lemma SetKeepsFree(lines: seq<Line>, p: Path, v: string, q: Path)
    requires p != [] && v != "" && WellFormed(lines) && Free(lines, p) && Free(lines, q) && Unrelated(p, q)
    ensures Free(Set(lines, p, v), q)
  {
    var out, j, d := Set(lines, p, v), InsertAt(lines, p), FromDepth(lines, p);
    if Target(lines, p).Some? {
      UpdateChanges(lines, p, v, v);
      forall k | 0 <= k < |out| && out[k].Entry? ensures
        (PathAt(out, k) < q ==> out[k].rest == "") && (PathAt(out, k) == q ==> out[k].rest != "") {
        SamePath(lines, out, Target(lines, p).value, k);
      }
    } else {
      InsertSplices(lines, p, v);
      WellFormedNests(lines, p);
      NestedFits(lines, p);
      forall k | 0 <= k < |out| && out[k].Entry? ensures
        (PathAt(out, k) < q ==> out[k].rest == "") && (PathAt(out, k) == q ==> out[k].rest != "") {
        var from, t := FindOrigin(lines, j, d, p, v, out, k);
        OriginKeepsFree(lines, d, p, out, k, from, t, q);
      }
    }
  }

  // ---- A batch of updates ----

  datatype Update = Update(path: Path, value: string)

  /** The text after all updates, one after another. */
  function SetAll(lines: seq<Line>, updates: seq<Update>): seq<Line>
    requires forall u | u in updates :: u.path != []
  {
    if updates == [] then lines
    else Set(SetAll(lines, updates[..|updates| - 1]), updates[|updates| - 1].path, updates[|updates| - 1].value)
  }

  method ApplyUpdates(lines: seq<Line>, updates: seq<Update>) returns (text: seq<Line>)
    requires forall u | u in updates :: u.path != []
    ensures text == SetAll(lines, updates)
  {
    text := lines;
    for i := 0 to |updates|
      invariant text == SetAll(lines, updates[..i])
    {
      text := SetPolicyValue(text, updates[i].path, updates[i].value);
      assert updates[..i + 1][..i] == updates[..i];
    }
    assert updates[..|updates|] == updates;
  }

  function LastValue(updates: seq<Update>, q: Path): Option<string> {
    if updates == [] then None
    else if updates[|updates| - 1].path == q then Some(updates[|updates| - 1].value)
    else LastValue(updates[..|updates| - 1], q)
  }

  /** Updates a batch may hold: no value is empty text, and no path is an ancestor of another or of a mapping. */
  ghost predicate Compatible(lines: seq<Line>, updates: seq<Update>) {
    && (forall u | u in updates :: u.path != [] && u.value != "" && Free(lines, u.path))
    && (forall u, w | u in updates && w in updates :: Unrelated(u.path, w.path))
  }

  /** After a batch the text is well-formed, every written path reads its last value, and all others read as before. */
  lemma {:induction false} BatchEffect(lines: seq<Line>, updates: seq<Update>, q: Path)
    requires WellFormed(lines) && Compatible(lines, updates)
    ensures WellFormed(SetAll(lines, updates))
    ensures Lookup(SetAll(lines, updates), q) == LastValue(updates, q).OrElse(Lookup(lines, q))
  {
    if updates != [] {
      var init, last := updates[..|updates| - 1], updates[|updates| - 1];
      var text := SetAll(lines, init);
      BatchEffect(lines, init, q);
      BatchKeepsFree(lines, init, last.path);
      SetKeepsWellFormed(text, last.path, last.value);
      WellFormedSettable(text, last.path);
      SetEffect(text, last.path, last.value, q);
      if last.path < q {
        FreeHasNoChildren(text, last.path, q);
      }
    }
  }

  lemma {:induction false} BatchKeepsFree(lines: seq<Line>, updates: seq<Update>, q: Path)
    requires WellFormed(lines) && Compatible(lines, updates) && Free(lines, q)
    requires forall u | u in updates :: Unrelated(u.path, q)
    ensures WellFormed(SetAll(lines, updates)) && Free(SetAll(lines, updates), q)
  {
    if updates != [] {
      var init, last := updates[..|updates| - 1], updates[|updates| - 1];
      BatchKeepsFree(lines, init, q);
      BatchKeepsFree(lines, init, last.path);
      SetKeepsWellFormed(SetAll(lines, init), last.path, last.value);
      SetKeepsFree(SetAll(lines, init), last.path, last.value, q);
    }
  }
}
