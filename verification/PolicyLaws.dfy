/** What setPolicyValue promises about reading back, other paths, other lines and writing twice. */
module PolicyLaws {
  import opened Common
  import opened PolicyText

  // ---- Reading without the document: the last line that touches a path decides it ----

  predicate Touches(lines: seq<Line>, k: nat, q: Path)
    requires k < |lines|
  {
    lines[k].Entry? && PathAt(lines, k) <= q
  }

  function Reading(lines: seq<Line>, q: Path, n: nat): Option<string>
    requires n <= |lines|
  {
    if n == 0 then None
    else if Touches(lines, n - 1, q) then
      if PathAt(lines, n - 1) == q && lines[n - 1].rest != "" then Some(lines[n - 1].rest) else None
    else Reading(lines, q, n - 1)
  }

  function ScalarAt(doc: Doc, q: Path): Option<string> {
    if q in doc && doc[q].Scalar? then Some(doc[q].text) else None
  }

  lemma AssignedScalar(doc: Doc, p: Path, node: Node, q: Path)
    ensures ScalarAt(Assigned(doc, p, node), q) ==
            if p <= q then (if p == q && node.Scalar? then Some(node.text) else None) else ScalarAt(doc, q)
  {
  }

  /** What the last of `n` lines does to the nested objects, seen from one path. */
  lemma DocStep(lines: seq<Line>, q: Path, n: nat)
    requires 0 < n <= |lines|
    ensures ScalarAt(DocAt(lines, n), q) ==
            if !Touches(lines, n - 1, q) then ScalarAt(DocAt(lines, n - 1), q)
            else if PathAt(lines, n - 1) == q && lines[n - 1].rest != "" then Some(lines[n - 1].rest) else None
  {
    var line := lines[n - 1];
    if line.Entry? {
      var path, node := PathAt(lines, n - 1), if line.rest == "" then Mapping else Scalar(line.rest);
      assert DocAt(lines, n) == Assigned(DocAt(lines, n - 1), path, node);
      AssignedScalar(DocAt(lines, n - 1), path, node, q);
    }
  }

  lemma ReadingStep(lines: seq<Line>, q: Path, n: nat)
    requires 0 < n <= |lines|
    ensures Reading(lines, q, n) ==
            if !Touches(lines, n - 1, q) then Reading(lines, q, n - 1)
            else if PathAt(lines, n - 1) == q && lines[n - 1].rest != "" then Some(lines[n - 1].rest) else None
  {
  }

  /** The nested objects the reader builds hold, at every path, what the last line touching the path says. */
  lemma {:induction false} ReadingIsScalar(lines: seq<Line>, q: Path, n: nat)
    requires n <= |lines|
    ensures Reading(lines, q, n) == ScalarAt(DocAt(lines, n), q)
    decreases n
  {
    if n > 0 {
      ReadingIsScalar(lines, q, n - 1);
      ReadingStep(lines, q, n);
      DocStep(lines, q, n);
    }
  }

  lemma LastTouchDecides(lines: seq<Line>, q: Path)
    ensures Lookup(lines, q) == Reading(lines, q, |lines|)
  {
    ReadingIsScalar(lines, q, |lines|);
  }

  // ---- The stack ----

  lemma {:induction false} PoppedTop(s: Stack, k: nat)
    ensures Popped(s, k) != [] ==> Popped(s, k)[|Popped(s, k)| - 1].indent < k
  {
    if s != [] && k <= s[|s| - 1].indent {
      PoppedTop(s[..|s| - 1], k);
    }
  }

  /** Levels that are all popped do not matter. */
  lemma {:induction false} PopsBelow(s: Stack, m: nat, k: nat)
    requires m <= |s| && forall i :: m <= i < |s| ==> k <= s[i].indent
    ensures Popped(s, k) == Popped(s[..m], k)
  {
    if m == |s| {
      assert s[..m] == s;
    } else {
      PopsBelow(s[..|s| - 1], m, k);
      assert s[..|s| - 1][..m] == s[..m];
    }
  }

  lemma {:induction false} PopKeeps(s: Stack, m: nat, k: nat)
    requires m <= |s| && (m > 0 ==> s[m - 1].indent < k)
    ensures |Popped(s, k)| >= m
  {
    if s != [] && k <= s[|s| - 1].indent && m < |s| {
      PopKeeps(s[..|s| - 1], m, k);
    }
  }

  lemma {:induction false} StackLocal(a: seq<Line>, b: seq<Line>, n: nat)
    requires n <= |a| && n <= |b| && a[..n] == b[..n]
    ensures StackAt(a, n) == StackAt(b, n)
  {
    if n > 0 {
      assert a[n - 1] == a[..n][n - 1] == b[..n][n - 1];
      assert a[..n - 1] == a[..n][..n - 1] == b[..n][..n - 1] == b[..n - 1];
      StackLocal(a, b, n - 1);
    }
  }

  lemma {:induction false} ReadingLocal(a: seq<Line>, b: seq<Line>, q: Path, n: nat)
    requires n <= |a| && n <= |b| && a[..n] == b[..n]
    ensures Reading(a, q, n) == Reading(b, q, n)
  {
    if n > 0 {
      assert a[n - 1] == a[..n][n - 1] == b[..n][n - 1];
      assert a[..n - 1] == a[..n][..n - 1] == b[..n][..n - 1] == b[..n - 1];
      StackLocal(a, b, n - 1);
      ReadingLocal(a, b, q, n - 1);
    }
  }

  lemma KeysTake(s: Stack, m: nat)
    requires m <= |s|
    ensures Keys(s[..m]) == Keys(s)[..m]
  {
  }

  lemma EnterKeeps(s: Stack, line: Line, m: nat)
    requires line.Entry? && m <= |Popped(s, |line.lead|)|
    ensures m <= |s| && m <= |Enter(s, line)| && Enter(s, line)[..m] == s[..m]
  {
  }

  /** Every open mapping was opened by a line of its path, and every line's parents are open mappings. */
  lemma {:induction false} OpenedBy(lines: seq<Line>, n: nat, m: nat) returns (h: nat)
    requires n <= |lines| && 0 < m <= |StackAt(lines, n)|
    ensures h < n && lines[h].Entry? && lines[h].rest == "" && PathAt(lines, h) == Keys(StackAt(lines, n)[..m])
    ensures |lines[h].lead| == StackAt(lines, n)[m - 1].indent
  {
    var s, line := StackAt(lines, n - 1), lines[n - 1];
    if line.Skipped? {
      h := OpenedBy(lines, n - 1, m);
    } else if m > |Popped(s, |line.lead|)| {
      h := n - 1;
      PushedKey(Popped(s, |line.lead|), Level(|line.lead|, line.key));
      assert StackAt(lines, n)[..m] == StackAt(lines, n);
    } else {
      EnterKeeps(s, line, m);
      h := OpenedBy(lines, n - 1, m);
      assert StackAt(lines, n)[m - 1] == StackAt(lines, n)[..m][m - 1];
    }
  }

  lemma PushedKey(s: Stack, level: Level)
    ensures Keys(s + [level]) == Keys(s) + [level.key]
  {
    assert (s + [level])[..|s|] == s;
  }

  lemma ParentKeys(s: Stack, line: Line, q: Path)
    requires line.Entry? && q < PathOf(s, line)
    ensures |q| <= |s| && Keys(s[..|q|]) == q
  {
    KeysTake(s, |q|);
    assert q == PathOf(s, line)[..|q|];
  }

  lemma ParentOpened(lines: seq<Line>, k: nat, q: Path) returns (h: nat)
    requires k < |lines| && lines[k].Entry? && q != [] && q < PathAt(lines, k)
    ensures h < k && lines[h].Entry? && lines[h].rest == "" && PathAt(lines, h) == q
  {
    ParentKeys(StackAt(lines, k), lines[k], q);
    h := OpenedBy(lines, k, |q|);
  }

  // ---- Two texts that agree from some line on ----

  /** The lines from `from` up to `to` leave `q` alone. */
  ghost predicate Clear(lines: seq<Line>, q: Path, from: nat, to: nat)
    requires to <= |lines|
  {
    forall k :: from <= k < to ==> !Touches(lines, k, q)
  }

  /** Line `k` of `b` is in `a` too, `m` lines further down and with the same path. */
  ghost predicate Shifted(a: seq<Line>, b: seq<Line>, m: nat, k: nat) {
    k < |b| && k + m < |a| && a[k + m] == b[k] && (b[k].Entry? ==> PathAt(a, k + m) == PathAt(b, k))
  }

  /** Past `j`, the texts read the same unless the lines since then leave the path alone. */
  ghost predicate ReadsAlike(a: seq<Line>, b: seq<Line>, m: nat, q: Path, j: nat, n: nat)
    requires j <= n <= |b| && n + m <= |a|
  {
    Reading(a, q, n + m) == if Clear(b, q, j, n) then Reading(a, q, j + m) else Reading(b, q, n)
  }

  lemma ReadsAlikeStep(a: seq<Line>, b: seq<Line>, m: nat, q: Path, j: nat, n: nat)
    requires j < n && Shifted(a, b, m, n - 1) && ReadsAlike(a, b, m, q, j, n - 1)
    ensures ReadsAlike(a, b, m, q, j, n)
  {
    assert Touches(a, n - 1 + m, q) <==> Touches(b, n - 1, q);
    assert Clear(b, q, j, n) <==> Clear(b, q, j, n - 1) && !Touches(b, n - 1, q);
  }

  ghost predicate AllShifted(a: seq<Line>, b: seq<Line>, m: nat, j: nat) {
    |a| == |b| + m && forall k :: j <= k < |b| ==> Shifted(a, b, m, k)
  }

  lemma ReadsAlikeStart(a: seq<Line>, b: seq<Line>, m: nat, q: Path, j: nat)
    requires j <= |b| && j + m <= |a|
    ensures ReadsAlike(a, b, m, q, j, j)
  {
  }

  lemma {:induction false} ReadsAlikeTo(a: seq<Line>, b: seq<Line>, m: nat, q: Path, j: nat, n: nat)
    requires AllShifted(a, b, m, j) && j <= n <= |b|
    ensures ReadsAlike(a, b, m, q, j, n)
    decreases n
  {
    if n == j {
      ReadsAlikeStart(a, b, m, q, j);
    } else {
      ReadsAlikeTo(a, b, m, q, j, n - 1);
      ReadsAlikeStep(a, b, m, q, j, n);
    }
  }

  lemma ShiftedReadsAlike(a: seq<Line>, b: seq<Line>, m: nat, q: Path, j: nat)
    requires j <= |b| && AllShifted(a, b, m, j)
    ensures ReadsAlike(a, b, m, q, j, |b|)
  {
    ReadsAlikeTo(a, b, m, q, j, |b|);
  }

  // ---- Changing one scalar ----

  /** `b` is `a` with another scalar, comment or spacing on the scalar line `i`. */
  ghost predicate OneScalarChanged(a: seq<Line>, b: seq<Line>, i: nat) {
    && i < |a| == |b| && a[i].Entry? && b[i].Entry?
    && a[i].lead == b[i].lead && a[i].key == b[i].key && a[i].rest != "" && b[i].rest != ""
    && forall k :: 0 <= k < |a| && k != i ==> a[k] == b[k]
  }

  lemma {:induction false} SameStacks(a: seq<Line>, b: seq<Line>, i: nat, n: nat)
    requires OneScalarChanged(a, b, i) && n <= |a|
    ensures StackAt(a, n) == StackAt(b, n)
  {
    if n > 0 {
      SameStacks(a, b, i, n - 1);
    }
  }

  lemma SamePath(a: seq<Line>, b: seq<Line>, i: nat, k: nat)
    requires OneScalarChanged(a, b, i) && k < |a|
    ensures a[k].Entry? <==> b[k].Entry?
    ensures a[k].Entry? ==> PathAt(a, k) == PathAt(b, k)
  {
    SameStacks(a, b, i, k);
  }

  lemma ChangedAlike(a: seq<Line>, b: seq<Line>, i: nat, q: Path)
    requires OneScalarChanged(a, b, i)
    ensures ReadsAlike(b, a, 0, q, i + 1, |a|)
  {
    forall k | i + 1 <= k < |a| ensures Shifted(b, a, 0, k) {
      SamePath(a, b, i, k);
    }
    ShiftedReadsAlike(b, a, 0, q, i + 1);
  }

  /** Only the path of the changed line reads differently, and only if nothing later touches it. */
  lemma ChangedReading(a: seq<Line>, b: seq<Line>, i: nat, q: Path)
    requires OneScalarChanged(a, b, i)
    ensures Reading(b, q, |b|) ==
            if PathAt(a, i) == q && Clear(a, q, i + 1, |a|) then Some(b[i].rest) else Reading(a, q, |a|)
  {
    ChangedAlike(a, b, i, q);
    ChangedAlike(a, a, i, q);
    SamePath(a, b, i, i);
    assert a[..i] == b[..i];
    ReadingLocal(a, b, q, i);
  }

  // ---- Inserting a path ----

  /** `out` is `lines` with the levels of `p` below depth `d`, and its value, inserted before line `j`. */
  ghost predicate Spliced(lines: seq<Line>, j: nat, d: nat, p: Path, v: string, out: seq<Line>) {
    j <= |lines| && d < |p| && out == lines[..j] + NewLines(p, d, v) + lines[j..]
  }

  lemma {:induction false} NewLine(p: Path, d: nat, v: string, t: nat)
    requires d + t < |p|
    ensures NewLines(p, d, v)[t] == if d + t < |p| - 1 then Opening(d + t, p[d + t]) else Closing(p, v)
    decreases t
  {
    if t > 0 {
      NewLine(p, d + 1, v, t - 1);
    }
  }

  lemma SplicedNew(lines: seq<Line>, j: nat, d: nat, p: Path, v: string, out: seq<Line>, t: nat)
    requires Spliced(lines, j, d, p, v, out) && t < |p| - d
    ensures |out| == |lines| + |p| - d
    ensures out[j + t] == if d + t < |p| - 1 then Opening(d + t, p[d + t]) else Closing(p, v)
  {
    NewLine(p, d, v, t);
  }

  lemma SplicedOld(lines: seq<Line>, j: nat, d: nat, p: Path, v: string, out: seq<Line>, k: nat)
    requires Spliced(lines, j, d, p, v, out) && k < |lines|
    ensures |out| == |lines| + |p| - d && out[..j] == lines[..j]
    ensures if k < j then out[k] == lines[k] else out[k + |p| - d] == lines[k]
  {
  }

  lemma InsertSplices(lines: seq<Line>, p: Path, v: string)
    requires p != [] && Target(lines, p).None?
    ensures Spliced(lines, InsertAt(lines, p), FromDepth(lines, p), p, v, Set(lines, p, v))
  {
  }

  function Grown(base: Stack, p: Path, d: nat, t: nat): Stack
    requires d + t <= |p|
  {
    if t == 0 then base else Grown(base, p, d, t - 1) + [Level(2 * (d + t - 1), p[d + t - 1])]
  }

  /** Where the new lines lead: `p` below depth `d`, under whatever is open before line `j` once they have popped. */
  function Base(lines: seq<Line>, j: nat, d: nat): Stack
    requires j <= |lines|
  {
    Popped(StackAt(lines, j), 2 * d)
  }

  function LandsAt(lines: seq<Line>, j: nat, d: nat, p: Path): Path
    requires j <= |lines| && d <= |p|
  {
    Keys(Base(lines, j, d)) + p[d..]
  }

  /** The first `t` keys of `p` below depth `d`, added one at a time. */
  function PathGrown(base: Path, p: Path, d: nat, t: nat): Path
    requires d + t <= |p|
  {
    if t == 0 then base else PathGrown(base, p, d, t - 1) + [p[d + t - 1]]
  }

  lemma {:induction false} GrownKeys(base: Stack, p: Path, d: nat, t: nat)
    requires d + t <= |p|
    ensures Keys(Grown(base, p, d, t)) == PathGrown(Keys(base), p, d, t)
    decreases t
  {
    if t > 0 {
      GrownKeys(base, p, d, t - 1);
      PushedKey(Grown(base, p, d, t - 1), Level(2 * (d + t - 1), p[d + t - 1]));
    }
  }

  lemma {:induction false} PathGrownIs(base: Path, p: Path, d: nat, t: nat)
    requires d + t <= |p|
    ensures PathGrown(base, p, d, t) == (base + p[d..])[..|base| + t]
    decreases t
  {
    if t > 0 {
      PathGrownIs(base, p, d, t - 1);
    }
  }

  lemma {:induction false} GrownLevel(base: Stack, p: Path, d: nat, t: nat, i: nat)
    requires d + t <= |p| && |base| <= i < |base| + t
    ensures |Grown(base, p, d, t)| == |base| + t
    ensures Grown(base, p, d, t)[i].indent == 2 * (d + i - |base|)
    decreases t
  {
    if i < |base| + t - 1 {
      GrownLevel(base, p, d, t - 1, i);
    } else {
      GrownExtends(base, p, d, t - 1);
    }
  }

  lemma {:induction false} GrownExtends(base: Stack, p: Path, d: nat, t: nat)
    requires d + t <= |p|
    ensures |Grown(base, p, d, t)| == |base| + t && base <= Grown(base, p, d, t)
    decreases t
  {
    if t > 0 {
      GrownExtends(base, p, d, t - 1);
    }
  }

  /** After an opening line, nothing deeper is popped. */
  lemma AfterOpening(s: Stack, line: Line, k: nat)
    requires line.Entry? && line.rest == "" && |line.lead| < k
    ensures Popped(Enter(s, line), k) == Popped(s, |line.lead|) + [Level(|line.lead|, line.key)]
  {
  }

  lemma GrowStep(s: Stack, base: Stack, p: Path, d: nat, t: nat)
    requires 0 < t && d + t <= |p| && Popped(s, 2 * (d + t - 1)) == Grown(base, p, d, t - 1)
    ensures Popped(Enter(s, Opening(d + t - 1, p[d + t - 1])), 2 * (d + t)) == Grown(base, p, d, t)
  {
    AfterOpening(s, Opening(d + t - 1, p[d + t - 1]), 2 * (d + t));
  }

  lemma StackBefore(lines: seq<Line>, j: nat, d: nat, p: Path, v: string, out: seq<Line>, n: nat)
    requires Spliced(lines, j, d, p, v, out) && n <= j
    ensures n <= |out| && StackAt(out, n) == StackAt(lines, n)
  {
    assert out[..n] == lines[..n];
    StackLocal(out, lines, n);
  }

  lemma StackStep(lines: seq<Line>, n: nat, line: Line)
    requires 0 < n <= |lines| && lines[n - 1] == line
    ensures StackAt(lines, n) == Enter(StackAt(lines, n - 1), line)
  {
  }

  lemma OpeningEntered(lines: seq<Line>, j: nat, d: nat, p: Path, v: string, out: seq<Line>, t: nat)
    requires Spliced(lines, j, d, p, v, out) && 0 < t < |p| - d
    ensures |out| == |lines| + |p| - d
    ensures StackAt(out, j + t) == Enter(StackAt(out, j + t - 1), Opening(d + t - 1, p[d + t - 1]))
  {
    SplicedNew(lines, j, d, p, v, out, t - 1);
    StackStep(out, j + t, Opening(d + t - 1, p[d + t - 1]));
  }

  ghost predicate GrownAt(lines: seq<Line>, j: nat, d: nat, p: Path, out: seq<Line>, t: nat) {
    && j <= |lines| && d + t < |p| && j + t <= |out|
    && Popped(StackAt(out, j + t), 2 * (d + t)) == Grown(Base(lines, j, d), p, d, t)
  }

  lemma GrownAtNext(lines: seq<Line>, j: nat, d: nat, p: Path, v: string, out: seq<Line>, t: nat)
    requires Spliced(lines, j, d, p, v, out) && 0 < t < |p| - d && GrownAt(lines, j, d, p, out, t - 1)
    ensures GrownAt(lines, j, d, p, out, t)
  {
    OpeningEntered(lines, j, d, p, v, out, t);
    GrowStep(StackAt(out, j + t - 1), Base(lines, j, d), p, d, t);
  }

  /** What the `t`-th new line leaves on the stack once it has popped what is not above it. */
  lemma {:induction false} GrownStack(lines: seq<Line>, j: nat, d: nat, p: Path, v: string, out: seq<Line>, t: nat)
    requires Spliced(lines, j, d, p, v, out) && t < |p| - d
    ensures GrownAt(lines, j, d, p, out, t)
    decreases t
  {
    if t == 0 {
      StackBefore(lines, j, d, p, v, out, j);
      SplicedNew(lines, j, d, p, v, out, 0);
    } else {
      GrownStack(lines, j, d, p, v, out, t - 1);
      GrownAtNext(lines, j, d, p, v, out, t);
    }
  }

  lemma PathFrom(s: Stack, line: Line, base: Stack, p: Path, d: nat, t: nat)
    requires d + t < |p| && line.Entry? && line.key == p[d + t] && Popped(s, |line.lead|) == Grown(base, p, d, t)
    ensures PathOf(s, line) == PathGrown(Keys(base), p, d, t + 1)
  {
    GrownKeys(base, p, d, t);
  }

  lemma NewKey(lines: seq<Line>, j: nat, d: nat, p: Path, v: string, out: seq<Line>, t: nat)
    requires Spliced(lines, j, d, p, v, out) && t < |p| - d
    ensures |out| == |lines| + |p| - d && out[j + t].Entry?
    ensures out[j + t].key == p[d + t] && |out[j + t].lead| == 2 * (d + t)
  {
    SplicedNew(lines, j, d, p, v, out, t);
  }

  lemma NewPath(lines: seq<Line>, j: nat, d: nat, p: Path, v: string, out: seq<Line>, t: nat)
    requires Spliced(lines, j, d, p, v, out) && t < |p| - d
    ensures |out| == |lines| + |p| - d
    ensures out[j + t].Entry? && PathAt(out, j + t) == LandsAt(lines, j, d, p)[..|Base(lines, j, d)| + t + 1]
  {
    GrownStack(lines, j, d, p, v, out, t);
    NewKey(lines, j, d, p, v, out, t);
    PathFrom(StackAt(out, j + t), out[j + t], Base(lines, j, d), p, d, t);
    PathGrownIs(Keys(Base(lines, j, d)), p, d, t + 1);
  }

  lemma LeafPath(lines: seq<Line>, j: nat, d: nat, p: Path, v: string, out: seq<Line>)
    requires Spliced(lines, j, d, p, v, out)
    ensures |out| == |lines| + |p| - d
    ensures out[j + |p| - d - 1] == Closing(p, v)
    ensures PathAt(out, j + |p| - d - 1) == LandsAt(lines, j, d, p)
  {
    var path := LandsAt(lines, j, d, p);
    SplicedNew(lines, j, d, p, v, out, |p| - d - 1);
    NewPath(lines, j, d, p, v, out, |p| - d - 1);
    assert path[..|path|] == path;
  }

  /** A new line indented for depth `d` falls right under the ancestor at depth `d`. */
  ghost predicate Under(lines: seq<Line>, j: nat, d: nat, p: Path)
    requires j <= |lines| && d <= |p|
  {
    Keys(Base(lines, j, d)) == p[..d]
  }

  lemma UnderLands(lines: seq<Line>, j: nat, d: nat, p: Path)
    requires j <= |lines| && d <= |p|
    ensures Under(lines, j, d, p) <==> LandsAt(lines, j, d, p) == p
    ensures Under(lines, j, d, p) ==> |Base(lines, j, d)| == d
  {
    assert p == p[..d] + p[d..];
    if LandsAt(lines, j, d, p) == p {
      assert Keys(Base(lines, j, d)) == p[..d];
    }
  }

  // ---- The lines after the insertion ----

  lemma KeptLevels(s: Stack, line: Line, d: nat)
    requires 0 < d <= |s| && line.Entry? && s[d - 1].indent < |line.lead|
    ensures Keys(s[..d]) <= PathOf(s, line)
  {
    PopKeeps(s, d, |line.lead|);
    var kept := Popped(s, |line.lead|);
    assert kept[..d] == s[..d];
    assert Keys(kept)[..d] == Keys(s[..d]);
  }

  lemma PoppedPrefix(s: Stack, k: nat)
    ensures |Popped(s, k)| <= |s| && Popped(s, k) == s[..|Popped(s, k)|]
    ensures Popped(s, k) != [] ==> s[|Popped(s, k)| - 1].indent < k
  {
    PoppedTop(s, k);
  }

  /** The first entry after the body of an ancestor is indented no deeper than the ancestor. */
  lemma FirstAfter(s: Stack, line: Line, d: nat, up: Path)
    requires |up| == d > 0 && line.Entry? && Keys(Popped(s, 2 * d)) == up && !(up <= PathOf(s, line))
    ensures |Popped(s, 2 * d)| == d <= |s| && |line.lead| <= s[d - 1].indent < 2 * d
  {
    PoppedPrefix(s, 2 * d);
    if s[d - 1].indent < |line.lead| {
      KeptLevels(s, line, d);
    }
  }

  lemma {:induction false} PopTwice(s: Stack, k: nat, n: nat)
    requires n <= k
    ensures Popped(Popped(s, k), n) == Popped(s, n)
  {
    if s != [] && k <= s[|s| - 1].indent {
      PopTwice(s[..|s| - 1], k, n);
    }
  }

  lemma NewLevelsPop(base: Stack, p: Path, d: nat, t: nat, k: nat)
    requires d + t <= |p| && k <= 2 * d
    ensures Popped(Grown(base, p, d, t), k) == Popped(base, k)
  {
    GrownExtends(base, p, d, t);
    var grown := Grown(base, p, d, t);
    forall i | |base| <= i < |grown| ensures k <= grown[i].indent {
      GrownLevel(base, p, d, t, i);
    }
    PopsBelow(grown, |base|, k);
  }

  /** It pops the new levels along with the ancestor. */
  lemma SamePops(s: Stack, line: Line, d: nat, p: Path, t: nat)
    requires 0 < d <= d + t <= |p| && line.Entry?
    requires Keys(Popped(s, 2 * d)) == p[..d] && !(p[..d] <= PathOf(s, line))
    ensures Popped(Grown(Popped(s, 2 * d), p, d, t), |line.lead|) == Popped(s, |line.lead|)
  {
    FirstAfter(s, line, d, p[..d]);
    NewLevelsPop(Popped(s, 2 * d), p, d, t, |line.lead|);
    PopTwice(s, 2 * d, |line.lead|);
  }

  /** The rest of the text is not nested in the ancestor: without an ancestor it has no entries at all. */
  ghost predicate Apart(lines: seq<Line>, j: nat, d: nat, p: Path)
    requires j <= |lines| && d <= |p|
  {
    && Under(lines, j, d, p)
    && forall k :: j <= k < |lines| ==> lines[k].Entry? ==> d > 0 && !(p[..d] <= PathAt(lines, k))
  }

  /** The open mappings the new lines leave behind. */
  function Behind(lines: seq<Line>, j: nat, d: nat, p: Path): Stack
    requires j <= |lines| && d < |p|
  {
    Grown(Base(lines, j, d), p, d, |p| - d - 1)
  }

  /** The first entry from line `k` on pops to the same open mappings from either stack. */
  ghost predicate Aligned(lines: seq<Line>, k: nat, a: Stack, b: Stack)
    requires k <= |lines|
    decreases |lines| - k
  {
    || k == |lines|
    || (if lines[k].Entry? then Popped(a, |lines[k].lead|) == Popped(b, |lines[k].lead|)
        else Aligned(lines, k + 1, a, b))
  }

  /** The new lines leave the paths of the lines after them alone. */
  ghost predicate FitsAt(lines: seq<Line>, j: nat, d: nat, p: Path)
    requires j <= |lines| && d < |p|
  {
    Aligned(lines, j, Behind(lines, j, d, p), StackAt(lines, j))
  }

  /** After the insertion the scanner either has the same stack, or has met no entry since. */
  ghost predicate InStep(lines: seq<Line>, j: nat, d: nat, p: Path, out: seq<Line>, n: nat)
    requires d < |p| && j <= n <= |lines| && n + |p| - d <= |out|
  {
    || StackAt(out, n + |p| - d) == StackAt(lines, n)
    || (&& StackAt(lines, n) == StackAt(lines, j) && StackAt(out, n + |p| - d) == Behind(lines, j, d, p)
        && Aligned(lines, n, Behind(lines, j, d, p), StackAt(lines, j)))
  }

  lemma StepTogether(a: Stack, b: Stack, line: Line)
    requires line.Entry? && Popped(a, |line.lead|) == Popped(b, |line.lead|)
    ensures Enter(a, line) == Enter(b, line) && PathOf(a, line) == PathOf(b, line)
  {
  }

  lemma InStepNext(lines: seq<Line>, j: nat, d: nat, p: Path, out: seq<Line>, n: nat)
    requires d < |p| && j <= n < |lines| && |out| == |lines| + |p| - d && out[n + |p| - d] == lines[n]
    requires InStep(lines, j, d, p, out, n)
    ensures InStep(lines, j, d, p, out, n + 1)
    ensures lines[n].Entry? ==> PathAt(out, n + |p| - d) == PathAt(lines, n)
  {
    var m := |p| - d;
    assert StackAt(out, n + 1 + m) == Enter(StackAt(out, n + m), lines[n]);
    assert StackAt(lines, n + 1) == Enter(StackAt(lines, n), lines[n]);
    if lines[n].Entry? {
      StepTogether(StackAt(out, n + m), StackAt(lines, n), lines[n]);
    }
  }

  lemma InStepOver(lines: seq<Line>, j: nat, d: nat, p: Path, v: string, out: seq<Line>, k: nat)
    requires Spliced(lines, j, d, p, v, out) && j <= k < |lines| && |out| == |lines| + |p| - d
    requires InStep(lines, j, d, p, out, k)
    ensures InStep(lines, j, d, p, out, k + 1)
  {
    SplicedOld(lines, j, d, p, v, out, k);
    InStepNext(lines, j, d, p, out, k);
  }

  lemma AfterClosing(s: Stack, p: Path, v: string)
    requires p != [] && v != ""
    ensures Enter(s, Closing(p, v)) == Popped(s, 2 * (|p| - 1))
  {
  }

  lemma InStepFirst(lines: seq<Line>, j: nat, d: nat, p: Path, v: string, out: seq<Line>)
    requires Spliced(lines, j, d, p, v, out) && v != "" && FitsAt(lines, j, d, p)
    ensures |out| == |lines| + |p| - d
    ensures InStep(lines, j, d, p, out, j)
  {
    var last := j + |p| - d - 1;
    GrownStack(lines, j, d, p, v, out, |p| - d - 1);
    SplicedNew(lines, j, d, p, v, out, |p| - d - 1);
    AfterClosing(StackAt(out, last), p, v);
    assert StackAt(out, last + 1) == Enter(StackAt(out, last), out[last]);
  }

  lemma {:induction false} InStepAfter(lines: seq<Line>, j: nat, d: nat, p: Path, v: string, out: seq<Line>, n: nat)
    requires Spliced(lines, j, d, p, v, out) && v != "" && FitsAt(lines, j, d, p) && j <= n <= |lines|
    ensures |out| == |lines| + |p| - d
    ensures InStep(lines, j, d, p, out, n)
    decreases n
  {
    if n == j {
      InStepFirst(lines, j, d, p, v, out);
    } else {
      InStepAfter(lines, j, d, p, v, out, n - 1);
      InStepOver(lines, j, d, p, v, out, n - 1);
    }
  }

  lemma PathsAfter(lines: seq<Line>, j: nat, d: nat, p: Path, v: string, out: seq<Line>, k: nat)
    requires Spliced(lines, j, d, p, v, out) && v != "" && FitsAt(lines, j, d, p) && j <= k < |lines|
    ensures |out| == |lines| + |p| - d && out[k + |p| - d] == lines[k]
    ensures lines[k].Entry? ==> PathAt(out, k + |p| - d) == PathAt(lines, k)
  {
    InStepAfter(lines, j, d, p, v, out, k);
    SplicedOld(lines, j, d, p, v, out, k);
    InStepNext(lines, j, d, p, out, k);
  }

  lemma ReadingAfter(lines: seq<Line>, j: nat, d: nat, p: Path, v: string, out: seq<Line>, q: Path)
    requires Spliced(lines, j, d, p, v, out) && v != "" && FitsAt(lines, j, d, p)
    ensures |out| == |lines| + |p| - d
    ensures ReadsAlike(out, lines, |p| - d, q, j, |lines|)
  {
    var m := |p| - d;
    forall k | j <= k < |lines| ensures Shifted(out, lines, m, k) {
      PathsAfter(lines, j, d, p, v, out, k);
    }
    ShiftedReadsAlike(out, lines, m, q, j);
  }

  lemma PrefixOfPrefix(path: Path, q: Path, n: nat, t: nat)
    requires n <= t <= |path|
    ensures path[..t] <= q ==> path[..n] <= q
  {
    assert path[..t][..n] == path[..n];
  }

  ghost predicate OpensAt(out: seq<Line>, j: nat, path: Path, b: nat, t: nat) {
    && j + t < |out| && b + t + 1 <= |path|
    && out[j + t].Entry? && out[j + t].rest == "" && PathAt(out, j + t) == path[..b + t + 1]
  }

  lemma ReadOpening(out: seq<Line>, j: nat, path: Path, b: nat, q: Path, t: nat, r: Option<string>)
    requires OpensAt(out, j, path, b, t)
    requires Reading(out, q, j + t) == if t > 0 && path[..b + 1] <= q then None else r
    ensures Reading(out, q, j + t + 1) == if path[..b + 1] <= q then None else r
  {
    PrefixOfPrefix(path, q, b + 1, b + t + 1);
  }

  lemma {:induction false} ReadOpenings(out: seq<Line>, j: nat, path: Path, b: nat, q: Path, t: nat, r: Option<string>)
    requires b < |path| && j + t <= |out| && (forall i :: 0 <= i < t ==> OpensAt(out, j, path, b, i))
    requires Reading(out, q, j) == r
    ensures Reading(out, q, j + t) == if t > 0 && path[..b + 1] <= q then None else r
    decreases t
  {
    if t > 0 {
      ReadOpenings(out, j, path, b, q, t - 1, r);
      ReadOpening(out, j, path, b, q, t - 1, r);
    }
  }

  lemma OpeningPath(lines: seq<Line>, j: nat, d: nat, p: Path, v: string, out: seq<Line>, t: nat)
    requires Spliced(lines, j, d, p, v, out) && t < |p| - d - 1
    ensures |out| == |lines| + |p| - d
    ensures OpensAt(out, j, LandsAt(lines, j, d, p), |Base(lines, j, d)|, t)
  {
    NewPath(lines, j, d, p, v, out, t);
    SplicedNew(lines, j, d, p, v, out, t);
  }

  lemma ReadClosing(out: seq<Line>, x: nat, q: Path, path: Path, b: nat, v: string, r: Option<string>)
    requires x < |out| && b < |path| && v != "" && out[x].Entry? && out[x].rest == v && PathAt(out, x) == path
    requires Reading(out, q, x) == if b + 1 < |path| && path[..b + 1] <= q then None else r
    ensures Reading(out, q, x + 1) == if q == path then Some(v) else if path[..b + 1] <= q then None else r
  {
    PrefixOfPrefix(path, q, b + 1, |path|);
    assert path[..|path|] == path;
  }

  lemma ReadingInside(lines: seq<Line>, j: nat, d: nat, p: Path, v: string, out: seq<Line>, q: Path)
    requires Spliced(lines, j, d, p, v, out)
    ensures |out| == |lines| + |p| - d
    ensures var path, b := LandsAt(lines, j, d, p), |Base(lines, j, d)|;
            Reading(out, q, j + |p| - d - 1) ==
            if b + 1 < |path| && path[..b + 1] <= q then None else Reading(lines, q, j)
  {
    var t := |p| - d - 1;
    var path, b := LandsAt(lines, j, d, p), |Base(lines, j, d)|;
    SplicedNew(lines, j, d, p, v, out, 0);
    forall i | 0 <= i < t ensures OpensAt(out, j, path, b, i) {
      OpeningPath(lines, j, d, p, v, out, i);
    }
    assert out[..j] == lines[..j];
    ReadingLocal(out, lines, q, j);
    ReadOpenings(out, j, path, b, q, t, Reading(lines, q, j));
  }

  /** Past the new lines: the landing path reads as the value, the mapping opened first has dropped what was in it. */
  lemma ReadingPast(lines: seq<Line>, j: nat, d: nat, p: Path, v: string, out: seq<Line>, q: Path)
    requires Spliced(lines, j, d, p, v, out) && v != ""
    ensures |out| == |lines| + |p| - d
    ensures var path, b := LandsAt(lines, j, d, p), |Base(lines, j, d)|;
            Reading(out, q, j + |p| - d) ==
            if q == path then Some(v) else if path[..b + 1] <= q then None else Reading(lines, q, j)
  {
    LeafPath(lines, j, d, p, v, out);
    ReadingInside(lines, j, d, p, v, out, q);
    ReadClosing(out, j + |p| - d - 1, q, LandsAt(lines, j, d, p), |Base(lines, j, d)|, v, Reading(lines, q, j));
  }

  /** The first entry from line `k` on is not nested in the ancestor at depth `d`. */
  ghost predicate Strays(lines: seq<Line>, k: nat, s: Stack, d: nat, p: Path)
    requires k <= |lines| && d <= |p|
    decreases |lines| - k
  {
    || k == |lines|
    || (if lines[k].Entry? then d > 0 && !(p[..d] <= PathOf(s, lines[k])) else Strays(lines, k + 1, s, d, p))
  }

  lemma {:induction false} StraysAligned(lines: seq<Line>, k: nat, s: Stack, d: nat, p: Path)
    requires k <= |lines| && d < |p| && Keys(Popped(s, 2 * d)) == p[..d] && Strays(lines, k, s, d, p)
    ensures Aligned(lines, k, Grown(Popped(s, 2 * d), p, d, |p| - d - 1), s)
    decreases |lines| - k
  {
    if k < |lines| {
      if lines[k].Entry? {
        SamePops(s, lines[k], d, p, |p| - d - 1);
      } else {
        StraysAligned(lines, k + 1, s, d, p);
      }
    }
  }

  lemma {:induction false} ApartStrays(lines: seq<Line>, j: nat, d: nat, p: Path, k: nat)
    requires j <= k <= |lines| && d < |p| && Apart(lines, j, d, p) && StackAt(lines, k) == StackAt(lines, j)
    ensures Strays(lines, k, StackAt(lines, j), d, p)
    decreases |lines| - k
  {
    if k < |lines| && !lines[k].Entry? {
      ApartStrays(lines, j, d, p, k + 1);
    }
  }

  lemma ApartFits(lines: seq<Line>, j: nat, d: nat, p: Path)
    requires j <= |lines| && d < |p| && Apart(lines, j, d, p)
    ensures FitsAt(lines, j, d, p)
  {
    ApartStrays(lines, j, d, p, j);
    StraysAligned(lines, j, StackAt(lines, j), d, p);
  }

  // ---- The laws ----

  /** Where the value of an insertion lands, and the topmost path it opens or writes. */
  function Lands(lines: seq<Line>, p: Path): (path: Path)
    requires p != []
    ensures path != []
  {
    LandsAt(lines, InsertAt(lines, p), FromDepth(lines, p), p)
  }

  function Opened(lines: seq<Line>, p: Path): (path: Path)
    requires p != []
    ensures path <= Lands(lines, p)
  {
    Lands(lines, p)[..|Base(lines, InsertAt(lines, p), FromDepth(lines, p))| + 1]
  }

  ghost predicate Nested(lines: seq<Line>, p: Path)
    requires p != []
  {
    Under(lines, InsertAt(lines, p), FromDepth(lines, p), p)
  }

  /**
   * A caller can read off the text whether the write will take: no line below the place that is written
   * names the path or one of its ancestors again, and a new line would fall under the right ancestor.
   */
  ghost predicate Settable(lines: seq<Line>, p: Path)
    requires p != []
  {
    match Target(lines, p)
    case Some(i) => Clear(lines, p, i + 1, |lines|)
    case None => Nested(lines, p) && Clear(lines, p, InsertAt(lines, p), |lines|)
  }

  lemma UpdateChanges(lines: seq<Line>, p: Path, v: string, w: string)
    requires p != [] && v != "" && w != "" && Target(lines, p).Some?
    ensures OneScalarChanged(lines, Set(lines, p, v), Target(lines, p).value)
    ensures OneScalarChanged(Set(lines, p, v), Set(lines, p, w), Target(lines, p).value)
  {
  }

  /** The insertion leaves the paths of the lines after it alone. */
  ghost predicate Fits(lines: seq<Line>, p: Path)
    requires p != []
  {
    FitsAt(lines, InsertAt(lines, p), FromDepth(lines, p), p)
  }

  lemma NestedFits(lines: seq<Line>, p: Path)
    requires p != [] && Nested(lines, p)
    ensures Apart(lines, InsertAt(lines, p), FromDepth(lines, p), p) && Fits(lines, p)
    ensures Lands(lines, p) == p && Opened(lines, p) == p[..FromDepth(lines, p) + 1]
  {
    UnderLands(lines, InsertAt(lines, p), FromDepth(lines, p), p);
    NestedApart(lines, p);
    ApartFits(lines, InsertAt(lines, p), FromDepth(lines, p), p);
  }

  lemma NestedApart(lines: seq<Line>, p: Path)
    requires p != [] && Nested(lines, p)
    ensures Apart(lines, InsertAt(lines, p), FromDepth(lines, p), p)
  {
    var d, j := FromDepth(lines, p), InsertAt(lines, p);
    forall k | j <= k < |lines| && lines[k].Entry? ensures d > 0 && !(p[..d] <= PathAt(lines, k)) {
      assert !InBody(lines, k, p[..d]);
    }
  }

  lemma {:induction false} ClearReading(lines: seq<Line>, q: Path, j: nat, n: nat)
    requires j <= n <= |lines| && Clear(lines, q, j, n)
    ensures Reading(lines, q, n) == Reading(lines, q, j)
    decreases n
  {
    if n > j {
      ClearReading(lines, q, j, n - 1);
    }
  }

  lemma {:induction false} ReadFrom(lines: seq<Line>, q: Path, n: nat) returns (k: nat)
    requires n <= |lines| && Reading(lines, q, n).Some?
    ensures k < n && lines[k].Entry? && PathAt(lines, k) == q
  {
    k := n - 1;
    if !Touches(lines, n - 1, q) {
      k := ReadFrom(lines, q, n - 1);
    }
  }

  lemma {:induction false} ReadsNowhere(lines: seq<Line>, q: Path, n: nat)
    requires n <= |lines| && forall k :: 0 <= k < n && lines[k].Entry? && lines[k].rest != "" ==> PathAt(lines, k) != q
    ensures Reading(lines, q, n) == None
    decreases n
  {
    if n > 0 {
      ReadsNowhere(lines, q, n - 1);
    }
  }

  /** A level nobody has named has nothing below it. */
  lemma NothingBelow(lines: seq<Line>, q: Path, above: Path, n: nat)
    requires n <= |lines| && above != [] && above <= q && LastHeader(lines, above, |lines|) < 0
    ensures Reading(lines, q, n) == None
  {
    if Reading(lines, q, n).Some? {
      var k := ReadFrom(lines, q, n);
      assert !HeaderAt(lines, k, above);
      var h := ParentOpened(lines, k, above);
      assert HeaderAt(lines, h, above);
      assert false;
    }
  }

  lemma Comparable(r: Path, p: Path, q: Path)
    ensures r <= q && p <= q ==> r <= p || p <= r
  {
    if r <= q && p <= q {
      if |r| <= |p| {
        assert r == q[..|r|] == q[..|p|][..|r|];
      } else {
        assert p == q[..|p|] == q[..|r|][..|p|];
      }
    }
  }

  lemma TouchBelow(r: Path, p: Path, q: Path, d: nat)
    requires r <= q && p <= q && !(r <= p) && d <= |p|
    ensures p[..d] <= r
  {
    Comparable(r, p, q);
  }

  /** Past the insertion, nothing is below the inserted path either. */
  lemma NothingBelowLater(lines: seq<Line>, j: nat, d: nat, p: Path, q: Path)
    requires j <= |lines| && d <= |p| && Apart(lines, j, d, p) && Clear(lines, p, j, |lines|) && p <= q
    ensures Clear(lines, q, j, |lines|)
  {
    forall k | j <= k < |lines| ensures !Touches(lines, k, q) {
      assert !Touches(lines, k, p);
      if Touches(lines, k, q) {
        TouchBelow(PathAt(lines, k), p, q, d);
      }
    }
  }

  lemma SplicedEffect(lines: seq<Line>, j: nat, d: nat, p: Path, v: string, out: seq<Line>, q: Path)
    requires Spliced(lines, j, d, p, v, out) && v != "" && FitsAt(lines, j, d, p)
    ensures var path, b := LandsAt(lines, j, d, p), |Base(lines, j, d)|;
            Reading(out, q, |out|) ==
            if !Clear(lines, q, j, |lines|) then Reading(lines, q, |lines|)
            else if q == path then Some(v) else if path[..b + 1] <= q then None else Reading(lines, q, |lines|)
  {
    ReadingAfter(lines, j, d, p, v, out, q);
    ReadingPast(lines, j, d, p, v, out, q);
    if Clear(lines, q, j, |lines|) {
      ClearReading(lines, q, j, |lines|);
    }
  }

  /** What an insertion does to every path, wherever it lands: only paths nothing later names can change. */
  lemma InsertEffect(lines: seq<Line>, p: Path, v: string, q: Path)
    requires p != [] && v != "" && Target(lines, p).None? && Fits(lines, p)
    ensures Lookup(Set(lines, p, v), q) ==
            if !Clear(lines, q, InsertAt(lines, p), |lines|) then Lookup(lines, q)
            else if q == Lands(lines, p) then Some(v)
            else if Opened(lines, p) <= q then None
            else Lookup(lines, q)
  {
    InsertSplices(lines, p, v);
    LastTouchDecides(Set(lines, p, v), q);
    LastTouchDecides(lines, q);
    SplicedEffect(lines, InsertAt(lines, p), FromDepth(lines, p), p, v, Set(lines, p, v), q);
  }

  /** A level the writer had to add has nothing below it, short of the path itself. */
  lemma NothingBelowAdded(lines: seq<Line>, p: Path, q: Path)
    requires p != [] && p[..FromDepth(lines, p) + 1] <= q && !(p <= q)
    ensures Lookup(lines, q) == None
  {
    assert p[..|p|] == p;
    LastTouchDecides(lines, q);
    NothingBelow(lines, q, p[..FromDepth(lines, p) + 1], |lines|);
  }

  lemma InsertTakes(lines: seq<Line>, p: Path, v: string, q: Path)
    requires p != [] && v != "" && Target(lines, p).None? && Settable(lines, p)
    ensures Lookup(Set(lines, p, v), q) == if q == p then Some(v) else if p <= q then None else Lookup(lines, q)
  {
    NestedFits(lines, p);
    InsertEffect(lines, p, v, q);
    if p <= q {
      NothingBelowLater(lines, InsertAt(lines, p), FromDepth(lines, p), p, q);
      PrefixOfPrefix(p, q, FromDepth(lines, p) + 1, |p|);
      assert p[..|p|] == p;
    } else if p[..FromDepth(lines, p) + 1] <= q {
      NothingBelowAdded(lines, p, q);
    }
  }

  /** A path whose last word is a scalar has nothing below it. */
  lemma {:induction false} NotOpened(lines: seq<Line>, i: nat, n: nat)
    requires i < n <= |lines| && lines[i].Entry? && lines[i].rest != ""
    requires Clear(lines, PathAt(lines, i), i + 1, |lines|)
    ensures !(PathAt(lines, i) <= Keys(StackAt(lines, n)))
    decreases n
  {
    var p := PathAt(lines, i);
    if n == i + 1 {
      assert |StackAt(lines, n)| < |p|;
    } else {
      NotOpened(lines, i, n - 1);
      var line, s := lines[n - 1], StackAt(lines, n - 1);
      assert !Touches(lines, n - 1, p);
      if line.Entry? {
        NotAbove(p, s, line);
      }
    }
  }

  lemma KeptPrefix(p: Path, s: Stack, k: nat)
    requires p <= Keys(Popped(s, k))
    ensures p <= Keys(s)
  {
    assert Keys(Popped(s, k)) <= Keys(s);
  }

  lemma ParentPrefix(p: Path, s: Stack, line: Line)
    requires line.Entry? && p <= PathOf(s, line) && p != PathOf(s, line)
    ensures p <= Keys(Popped(s, |line.lead|))
  {
    assert p == PathOf(s, line)[..|p|] == Keys(Popped(s, |line.lead|))[..|p|];
  }

  lemma NotAbove(p: Path, s: Stack, line: Line)
    requires line.Entry? && !(p <= Keys(s)) && !(PathOf(s, line) <= p)
    ensures !(p <= PathOf(s, line)) && !(p <= Keys(Enter(s, line)))
  {
    var k := |line.lead|;
    if p <= Keys(Popped(s, k)) {
      KeptPrefix(p, s, k);
    } else if p <= PathOf(s, line) {
      ParentPrefix(p, s, line);
    }
    assert line.rest == "" ==> Keys(Enter(s, line)) == PathOf(s, line);
  }

  lemma NotTouchedBelow(lines: seq<Line>, i: nat, k: nat, q: Path)
    requires i < k < |lines| && lines[i].Entry? && lines[i].rest != ""
    requires Clear(lines, PathAt(lines, i), i + 1, |lines|)
    requires PathAt(lines, i) < q
    ensures !Touches(lines, k, q)
  {
    var p := PathAt(lines, i);
    assert !Touches(lines, k, p);
    if lines[k].Entry? {
      NotOpened(lines, i, k);
      NotAbove(p, StackAt(lines, k), lines[k]);
      Comparable(PathAt(lines, k), p, q);
    }
  }

  lemma {:induction false} ScalarHasNoChildren(lines: seq<Line>, i: nat, q: Path, n: nat)
    requires i < n <= |lines| && lines[i].Entry? && lines[i].rest != ""
    requires Clear(lines, PathAt(lines, i), i + 1, |lines|)
    requires PathAt(lines, i) < q
    ensures Reading(lines, q, n) == None
    decreases n
  {
    ReadingStep(lines, q, n);
    if n > i + 1 {
      ScalarHasNoChildren(lines, i, q, n - 1);
      NotTouchedBelow(lines, i, n - 1, q);
    }
  }

  lemma UpdateEffect(lines: seq<Line>, p: Path, v: string, q: Path)
    requires p != [] && v != "" && Target(lines, p).Some? && Settable(lines, p)
    ensures Lookup(Set(lines, p, v), q) == if q == p then Some(v) else if p <= q then None else Lookup(lines, q)
  {
    var i := Target(lines, p).value;
    UpdateChanges(lines, p, v, v);
    LastTouchDecides(Set(lines, p, v), q);
    LastTouchDecides(lines, q);
    ChangedReading(lines, Set(lines, p, v), i, q);
    if p <= q && q != p {
      ScalarHasNoChildren(lines, i, q, |lines|);
    }
  }

  /**
   * What a successful write does to every path: its own reads as the value, those below it are gone,
   * the rest read as before.
   */
  lemma SetEffect(lines: seq<Line>, p: Path, v: string, q: Path)
    requires p != [] && v != "" && Settable(lines, p)
    ensures Lookup(Set(lines, p, v), q) == if q == p then Some(v) else if p <= q then None else Lookup(lines, q)
  {
    if Target(lines, p).Some? {
      UpdateEffect(lines, p, v, q);
    } else {
      InsertTakes(lines, p, v, q);
    }
  }

  /** Where the value stands after `Set`. */
  function Leaf(lines: seq<Line>, p: Path): nat
    requires p != []
  {
    match Target(lines, p)
    case Some(i) => i
    case None => InsertAt(lines, p) + |p| - FromDepth(lines, p) - 1
  }

  lemma SameNewLine(p: Path, d: nat, v: string, w: string, t: nat)
    requires d + t < |p|
    ensures t < |p| - d - 1 ==> NewLines(p, d, v)[t] == NewLines(p, d, w)[t]
    ensures NewLines(p, d, v)[|p| - d - 1] == Closing(p, v)
  {
    NewLine(p, d, v, t);
    NewLine(p, d, w, t);
    NewLine(p, d, v, |p| - d - 1);
  }

  lemma TwoSplices(lines: seq<Line>, j: nat, d: nat, p: Path, v: string, w: string, a: seq<Line>, b: seq<Line>)
    requires Spliced(lines, j, d, p, v, a) && Spliced(lines, j, d, p, w, b) && v != "" && w != ""
    ensures OneScalarChanged(a, b, j + |p| - d - 1) && a[j + |p| - d - 1].rest == v
  {
    forall t | 0 <= t < |p| - d ensures t < |p| - d - 1 ==> NewLines(p, d, v)[t] == NewLines(p, d, w)[t] {
      SameNewLine(p, d, v, w, t);
    }
    SameNewLine(p, d, v, w, 0);
    SameNewLine(p, d, w, v, 0);
  }

  lemma TwoInserts(lines: seq<Line>, p: Path, v: string, w: string)
    requires p != [] && v != "" && w != "" && Target(lines, p).None?
    ensures OneScalarChanged(Set(lines, p, v), Set(lines, p, w), Leaf(lines, p))
    ensures Set(lines, p, v)[Leaf(lines, p)].rest == v
  {
    InsertSplices(lines, p, v);
    InsertSplices(lines, p, w);
    TwoSplices(lines, InsertAt(lines, p), FromDepth(lines, p), p, v, w, Set(lines, p, v), Set(lines, p, w));
  }

  lemma SplicedLeaf(lines: seq<Line>, j: nat, d: nat, p: Path, v: string, out: seq<Line>)
    requires Spliced(lines, j, d, p, v, out)
    ensures |out| == |lines| + |p| - d && out[j + |p| - d - 1] == Closing(p, v)
    ensures PathAt(out, j + |p| - d - 1) == p <==> Under(lines, j, d, p)
  {
    LeafPath(lines, j, d, p, v, out);
    UnderLands(lines, j, d, p);
  }

  lemma LeafLands(lines: seq<Line>, p: Path, v: string)
    requires p != [] && Target(lines, p).None?
    ensures Leaf(lines, p) < |Set(lines, p, v)| && Set(lines, p, v)[Leaf(lines, p)] == Closing(p, v)
    ensures PathAt(Set(lines, p, v), Leaf(lines, p)) == p <==> Nested(lines, p)
  {
    InsertSplices(lines, p, v);
    SplicedLeaf(lines, InsertAt(lines, p), FromDepth(lines, p), p, v, Set(lines, p, v));
  }

  lemma InsertShadowed(lines: seq<Line>, p: Path, v: string)
    requires p != [] && v != "" && Target(lines, p).None? && Nested(lines, p)
    requires !Clear(lines, p, InsertAt(lines, p), |lines|)
    ensures Lookup(Set(lines, p, v), p) == Lookup(lines, p)
  {
    NestedFits(lines, p);
    InsertEffect(lines, p, v, p);
  }

  /** Otherwise the path reads the same whatever was written. */
  lemma UnsettableIgnores(lines: seq<Line>, p: Path, v: string, w: string)
    requires p != [] && v != "" && w != "" && !Settable(lines, p)
    ensures Lookup(Set(lines, p, v), p) == Lookup(Set(lines, p, w), p)
  {
    LastTouchDecides(Set(lines, p, v), p);
    LastTouchDecides(Set(lines, p, w), p);
    LastTouchDecides(lines, p);
    if Target(lines, p).Some? {
      UpdateChanges(lines, p, v, w);
      UpdateChanges(lines, p, w, w);
      ChangedReading(lines, Set(lines, p, v), Target(lines, p).value, p);
      ChangedReading(lines, Set(lines, p, w), Target(lines, p).value, p);
    } else if Nested(lines, p) {
      InsertShadowed(lines, p, v);
      InsertShadowed(lines, p, w);
    } else {
      TwoInserts(lines, p, v, w);
      LeafLands(lines, p, v);
      ChangedReading(Set(lines, p, v), Set(lines, p, w), Leaf(lines, p), p);
    }
  }

  /** The first lens law: what is written is what is read, exactly when the path is settable. */
  lemma SetReadsBackIff(lines: seq<Line>, p: Path)
    requires p != []
    ensures (forall v :: v != "" ==> Lookup(Set(lines, p, v), p) == Some(v)) <==> Settable(lines, p)
  {
    if Settable(lines, p) {
      forall v | v != "" ensures Lookup(Set(lines, p, v), p) == Some(v) {
        SetEffect(lines, p, v, p);
      }
    } else {
      UnsettableIgnores(lines, p, "a", "b");
      var a, b := Set(lines, p, "a"), Set(lines, p, "b");
      assert !(Lookup(a, p) == Some("a") && Lookup(b, p) == Some("b"));
    }
  }

  lemma UpdateKeepsOthers(lines: seq<Line>, p: Path, v: string, q: Path)
    requires p != [] && v != "" && Target(lines, p).Some? && q != p
    ensures Lookup(Set(lines, p, v), q) == Lookup(lines, q)
  {
    UpdateChanges(lines, p, v, v);
    LastTouchDecides(Set(lines, p, v), q);
    LastTouchDecides(lines, q);
    ChangedReading(lines, Set(lines, p, v), Target(lines, p).value, q);
  }

  ghost predicate OthersKept(lines: seq<Line>, p: Path, v: string)
    requires p != []
  {
    forall q :: q != p ==> Lookup(Set(lines, p, v), q) == Lookup(lines, q)
  }

  /**
   * Every other path the insertion opens or writes, and nothing below it names again, already reads as it will:
   * as the value where that lands, and as no scalar elsewhere.
   */
  ghost predicate Harmless(lines: seq<Line>, p: Path, v: string)
    requires p != []
  {
    forall q :: q != p && Opened(lines, p) <= q && Clear(lines, q, InsertAt(lines, p), |lines|) ==>
      Lookup(lines, q) == if q == Lands(lines, p) then Some(v) else None
  }

  /**
   * The second: every other path reads as before - on an update always, on an insertion exactly when it
   * is harmless.
   */
  lemma OthersReadAsBeforeIff(lines: seq<Line>, p: Path, v: string)
    requires p != [] && v != "" && (Target(lines, p).None? ==> Fits(lines, p))
    ensures OthersKept(lines, p, v) <==> Target(lines, p).Some? || Harmless(lines, p, v)
  {
    if Target(lines, p).Some? {
      forall q | q != p ensures Lookup(Set(lines, p, v), q) == Lookup(lines, q) {
        UpdateKeepsOthers(lines, p, v, q);
      }
    } else {
      forall q ensures Lookup(Set(lines, p, v), q) ==
          if !Clear(lines, q, InsertAt(lines, p), |lines|) then Lookup(lines, q)
          else if q == Lands(lines, p) then Some(v)
          else if Opened(lines, p) <= q then None
          else Lookup(lines, q) {
        InsertEffect(lines, p, v, q);
      }
    }
  }

  /** Under the right ancestor: harmless exactly when no scalar is below the path that nothing later names. */
  lemma NestedOthersIff(lines: seq<Line>, p: Path, v: string)
    requires p != [] && v != "" && Target(lines, p).None? && Nested(lines, p)
    ensures OthersKept(lines, p, v) <==>
            forall q :: p < q && Clear(lines, q, InsertAt(lines, p), |lines|) ==> Lookup(lines, q) == None
  {
    NestedFits(lines, p);
    OthersReadAsBeforeIff(lines, p, v);
    forall q | p < q && Clear(lines, q, InsertAt(lines, p), |lines|) ensures Opened(lines, p) <= q {
      PrefixOfPrefix(p, q, FromDepth(lines, p) + 1, |p|);
      assert p[..|p|] == p;
    }
    forall q | q != p && Opened(lines, p) <= q && !(p < q) ensures Lookup(lines, q) == None {
      NothingBelowAdded(lines, p, q);
    }
  }

  /** Anywhere else the value lands on another path and, unless something later names that, overwrites it. */
  lemma MisplacedOverwrites(lines: seq<Line>, p: Path, v: string)
    requires p != [] && v != "" && Target(lines, p).None? && Fits(lines, p)
    requires !Nested(lines, p) && Clear(lines, Lands(lines, p), InsertAt(lines, p), |lines|)
    ensures Lands(lines, p) != p && Lookup(Set(lines, p, v), Lands(lines, p)) == Some(v)
    ensures Lookup(lines, Lands(lines, p)) != Some(v) ==> !OthersKept(lines, p, v)
  {
    UnderLands(lines, InsertAt(lines, p), FromDepth(lines, p), p);
    InsertEffect(lines, p, v, Lands(lines, p));
  }

  /** Two top-level scalars, of which the second ends at depth one what the first path names. */
  ghost predicate TwoScalars(lines: seq<Line>, p: Path) {
    && |lines| == 2 && |p| == 2 && p[0] != p[1] && lines[0].Entry? && lines[1].Entry?
    && lines[0].lead == lines[1].lead == "" && lines[0].rest != "" && lines[1].rest != ""
    && lines[0].key == p[1] && lines[1].key == p[0]
  }

  lemma TwoScalarsPlace(lines: seq<Line>, p: Path)
    requires TwoScalars(lines, p)
    ensures Target(lines, p) == None && FromDepth(lines, p) == 1 && InsertAt(lines, p) == 2
    ensures StackAt(lines, 2) == [] && PathAt(lines, 0) == [p[1]] && PathAt(lines, 1) == [p[0]]
  {
    assert StackAt(lines, 1) == [];
    assert p[..1] == [p[0]];
    assert FirstTarget(lines, p, 1) == None;
    assert LastHeader(lines, p[..1], 2) == 1 && BodyEnd(lines, p[..1], 2) == 2;
  }

  /** Writing `a.b` below the scalar `a` overwrites the `b` beside it, though nothing is below `a.b`. */
  lemma MisplacedExample(lines: seq<Line>, p: Path, v: string)
    requires TwoScalars(lines, p) && v != "" && v != lines[0].rest
    ensures Lookup(lines, [p[1]]) == Some(lines[0].rest) && Lookup(Set(lines, p, v), [p[1]]) == Some(v)
    ensures !OthersKept(lines, p, v) && forall q :: p < q ==> Lookup(lines, q) == None
  {
    TwoScalarsPlace(lines, p);
    assert Lands(lines, p) == [p[1]] == [] + p[1..];
    LastTouchDecides(lines, [p[1]]);
    assert Reading(lines, [p[1]], 1) == Some(lines[0].rest);
    MisplacedOverwrites(lines, p, v);
    forall q | p < q ensures Lookup(lines, q) == None {
      LastTouchDecides(lines, q);
      assert Reading(lines, q, 1) == None;
    }
  }

  /** A scalar `a` and, outside it, an entry indented deeper than the new lines of `a.b.c` will be. */
  ghost predicate DeepEntry(lines: seq<Line>, p: Path) {
    && |lines| == 2 && |p| == 3 && lines[0].Entry? && lines[1].Entry?
    && lines[0].lead == "" && |lines[1].lead| > 4 && lines[0].rest != "" && lines[1].rest != ""
    && lines[0].key == p[0] && lines[1].key != p[0]
  }

  lemma DeepEntryPlace(lines: seq<Line>, p: Path)
    requires DeepEntry(lines, p)
    ensures Target(lines, p) == None && FromDepth(lines, p) == 1 && InsertAt(lines, p) == 1
    ensures StackAt(lines, 1) == [] && PathAt(lines, 0) == [p[0]] && PathAt(lines, 1) == [lines[1].key]
  {
    assert StackAt(lines, 1) == [];
    assert FirstTarget(lines, p, 1) == None;
    assert LastHeader(lines, p[..2], 1) == -1 && LastHeader(lines, p[..2], 2) == -1;
    assert !(p[..1] <= PathAt(lines, 1));
    assert LastHeader(lines, p[..1], 1) == 0 && BodyEnd(lines, p[..1], 1) == 1 && BodyEnd(lines, p[..1], 2) == 1;
  }

  lemma TopPath(line: Line)
    requires line.Entry?
    ensures PathOf([], line) == [line.key] && (line.rest != "" ==> Enter([], line) == [])
    ensures line.rest == "" ==> Enter([], line) == [Level(|line.lead|, line.key)]
  {
  }

  lemma SecondPath(level: Level, line: Line)
    requires line.Entry? && level.indent < |line.lead|
    ensures PathOf([level], line) == [level.key, line.key] && (line.rest != "" ==> Enter([level], line) == [level])
  {
    PushedKey([], level);
  }

  lemma AdoptedLines(lines: seq<Line>, p: Path, v: string, out: seq<Line>)
    requires DeepEntry(lines, p) && v != "" && Spliced(lines, 1, 1, p, v, out)
    ensures |out| == 4 && out[0] == lines[0] && out[3] == lines[1]
    ensures out[1] == Opening(1, p[1]) && out[2] == Closing(p, v)
  {
    SplicedNew(lines, 1, 1, p, v, out, 0);
    SplicedNew(lines, 1, 1, p, v, out, 1);
    SplicedOld(lines, 1, 1, p, v, out, 0);
    SplicedOld(lines, 1, 1, p, v, out, 1);
  }

  lemma AdoptedPaths(lines: seq<Line>, p: Path, v: string, out: seq<Line>)
    requires DeepEntry(lines, p) && v != "" && |out| == 4
    requires out[0] == lines[0] && out[1] == Opening(1, p[1]) && out[2] == Closing(p, v) && out[3] == lines[1]
    ensures PathAt(out, 0) == [p[0]] && PathAt(out, 1) == [p[1]] && PathAt(out, 2) == [p[1], p[2]]
    ensures PathAt(out, 3) == [p[1], lines[1].key]
  {
    var level := Level(2, p[1]);
    TopPath(out[0]);
    StackStep(out, 1, out[0]);
    TopPath(out[1]);
    StackStep(out, 2, out[1]);
    SecondPath(level, out[2]);
    StackStep(out, 3, out[2]);
    SecondPath(level, out[3]);
  }

  lemma LostWhenAdopted(lines: seq<Line>, p: Path, v: string, out: seq<Line>, q: Path)
    requires DeepEntry(lines, p) && v != "" && Spliced(lines, 1, 1, p, v, out) && q == [lines[1].key]
    ensures Lookup(out, q) == None
  {
    AdoptedLines(lines, p, v, out);
    AdoptedPaths(lines, p, v, out);
    forall k | 0 <= k < 4 && out[k].rest != "" ensures PathAt(out, k) != q {
      assert PathAt(out, k)[0] == p[0] || |PathAt(out, k)| == 2;
    }
    ReadsNowhere(out, q, 4);
    LastTouchDecides(out, q);
  }

  /** Such an entry is adopted by the new lines: it no longer reads under its own name. */
  lemma AdoptedExample(lines: seq<Line>, p: Path, v: string)
    requires DeepEntry(lines, p) && v != ""
    ensures Lookup(lines, [lines[1].key]) == Some(lines[1].rest) && Lookup(Set(lines, p, v), [lines[1].key]) == None
  {
    DeepEntryPlace(lines, p);
    LastTouchDecides(lines, [lines[1].key]);
    InsertSplices(lines, p, v);
    LostWhenAdopted(lines, p, v, Set(lines, p, v), [lines[1].key]);
  }

  lemma {:induction false} FirstIs(lines: seq<Line>, p: Path, i: nat, n: nat)
    requires i < n <= |lines| && TargetAt(lines, i, p) && forall k :: 0 <= k < i ==> !TargetAt(lines, k, p)
    ensures FirstTarget(lines, p, n) == Some(i)
    decreases n
  {
    if n > i + 1 {
      FirstIs(lines, p, i, n - 1);
    }
  }

  lemma UpdatedTarget(a: seq<Line>, b: seq<Line>, i: nat, p: Path)
    requires OneScalarChanged(a, b, i) && Target(a, p) == Some(i)
    ensures Target(b, p) == Some(i)
  {
    forall k | 0 <= k < |a| ensures TargetAt(a, k, p) <==> TargetAt(b, k, p) {
      SamePath(a, b, i, k);
    }
    FirstIs(b, p, i, |b|);
  }

  lemma NoTargetBefore(lines: seq<Line>, j: nat, d: nat, p: Path, v: string, out: seq<Line>, k: nat)
    requires Spliced(lines, j, d, p, v, out) && Target(lines, p).None? && k < j + |p| - d - 1
    ensures |out| == |lines| + |p| - d
    ensures !TargetAt(out, k, p)
  {
    SplicedNew(lines, j, d, p, v, out, 0);
    if k < j {
      SplicedOld(lines, j, d, p, v, out, k);
      assert out[..k] == lines[..k];
      StackLocal(out, lines, k);
      assert !TargetAt(lines, k, p);
    } else {
      SplicedNew(lines, j, d, p, v, out, k - j);
    }
  }

  lemma SplicedTarget(lines: seq<Line>, j: nat, d: nat, p: Path, v: string, out: seq<Line>, leaf: nat)
    requires Spliced(lines, j, d, p, v, out) && Under(lines, j, d, p) && v != "" && Target(lines, p).None?
    requires leaf == j + |p| - d - 1
    ensures Target(out, p) == Some(leaf)
  {
    LeafPath(lines, j, d, p, v, out);
    forall k | 0 <= k < leaf ensures !TargetAt(out, k, p) {
      NoTargetBefore(lines, j, d, p, v, out, k);
    }
    FirstIs(out, p, leaf, |out|);
  }

  lemma InsertedTarget(lines: seq<Line>, p: Path, v: string)
    requires p != [] && v != "" && Target(lines, p).None? && Nested(lines, p)
    ensures Target(Set(lines, p, v), p) == Some(Leaf(lines, p))
  {
    InsertSplices(lines, p, v);
    SplicedTarget(lines, InsertAt(lines, p), FromDepth(lines, p), p, v, Set(lines, p, v), Leaf(lines, p));
  }

  /** The third: the second of two writes to a path leaves the text as if it were the only one. */
  lemma SetTwice(lines: seq<Line>, p: Path, v: string, w: string)
    requires p != [] && v != "" && w != "" && (Target(lines, p).None? ==> Nested(lines, p))
    ensures Set(Set(lines, p, v), p, w) == Set(lines, p, w)
  {
    var once := Set(lines, p, v);
    if Target(lines, p).Some? {
      UpdateChanges(lines, p, v, w);
      UpdatedTarget(lines, once, Target(lines, p).value, p);
    } else {
      InsertedTarget(lines, p, v);
      TwoInserts(lines, p, v, w);
      LeafLands(lines, p, v);
      LeafLands(lines, p, w);
      assert Set(once, p, w) == Set(lines, p, w);
    }
  }

  lemma WrongPlaceTwice(lines: seq<Line>, p: Path, v: string, w: string)
    requires p != [] && v != "" && w != "" && v != w && Target(lines, p).None? && !Nested(lines, p)
    ensures Set(Set(lines, p, v), p, w) != Set(lines, p, w)
  {
    var once, leaf := Set(lines, p, v), Leaf(lines, p);
    TwoInserts(lines, p, v, w);
    LeafLands(lines, p, v);
    LeafLands(lines, p, w);
    if Target(once, p).Some? {
      assert Set(once, p, w)[leaf].rest == v;
    } else {
      assert |Set(once, p, w)| > |once| == |Set(lines, p, w)|;
    }
  }

  lemma SetTwiceIff(lines: seq<Line>, p: Path)
    requires p != []
    ensures (forall v, w :: v != "" && w != "" ==> Set(Set(lines, p, v), p, w) == Set(lines, p, w)) <==>
            Target(lines, p).Some? || Nested(lines, p)
  {
    if Target(lines, p).Some? || Nested(lines, p) {
      forall v, w | v != "" && w != "" ensures Set(Set(lines, p, v), p, w) == Set(lines, p, w) {
        SetTwice(lines, p, v, w);
      }
    } else {
      WrongPlaceTwice(lines, p, "a", "b");
    }
  }

  /**
   * The fourth: every original line survives, in order - all but the value of the target, or all with
   * new lines between.
   */
  lemma LinesSurvive(lines: seq<Line>, p: Path, v: string)
    requires p != []
    ensures match Target(lines, p)
            case Some(i) =>
              && |Set(lines, p, v)| == |lines|
              && Set(lines, p, v)[..i] == lines[..i] && Set(lines, p, v)[i + 1..] == lines[i + 1..]
              && Set(lines, p, v)[i] == Entry(lines[i].lead, lines[i].key, v, lines[i].comment, "")
            case None =>
              var j, m := InsertAt(lines, p), |p| - FromDepth(lines, p);
              && 0 < m && |Set(lines, p, v)| == |lines| + m
              && Set(lines, p, v)[..j] == lines[..j] && Set(lines, p, v)[j + m..] == lines[j..]
  {
    if Target(lines, p).None? {
      InsertSplices(lines, p, v);
    }
  }

  /** A text that ends with a newline still does: no write ever lands behind it. */
  lemma NewlineStaysLast(lines: seq<Line>, p: Path, v: string)
    requires p != [] && lines != [] && lines[|lines| - 1] == Skipped("")
    ensures Set(lines, p, v) != [] && Set(lines, p, v)[|Set(lines, p, v)| - 1] == Skipped("")
  {
    if Target(lines, p).None? {
      var j := InsertAt(lines, p);
      assert j < |lines|;
      assert Set(lines, p, v)[|Set(lines, p, v)| - 1] == lines[|lines| - 1];
    }
  }
}
