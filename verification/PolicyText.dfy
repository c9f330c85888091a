/** The surgical writer of policy files (policy-write.mjs) and the reader it must agree with (yaml-lite.mjs). */
module PolicyText {
  import opened Common

  type Path = seq<string>

  /**
   * A line as the shared scanners take it apart. `Skipped` is a line neither of them looks at: blank, only
   * a comment, or without a colon. An entry has an empty `rest` exactly when it opens a mapping; `spacing`
   * stands for everything else about its text, and is "" for a line the writer has formatted.
   */
  datatype Line =
    | Skipped(text: string)
    | Entry(lead: string, key: string, rest: string, comment: string, spacing: string)

  /** An open mapping on the scanner's stack. */
  datatype Level = Level(indent: nat, key: string)

  type Stack = seq<Level>

  function Keys(s: Stack): (p: Path)
    ensures |p| == |s|
    ensures forall i :: 0 <= i < |s| ==> p[i] == s[i].key
  {
    if s == [] then [] else Keys(s[..|s| - 1]) + [s[|s| - 1].key]
  }

  function Popped(s: Stack, indent: nat): (r: Stack)
    ensures r <= s
  {
    if s != [] && indent <= s[|s| - 1].indent then Popped(s[..|s| - 1], indent) else s
  }

  function PathOf(s: Stack, line: Line): (p: Path)
    requires line.Entry?
    ensures p != []
  {
    Keys(Popped(s, |line.lead|)) + [line.key]
  }

  function Enter(s: Stack, line: Line): Stack {
    if line.Skipped? then s
    else if line.rest == "" then Popped(s, |line.lead|) + [Level(|line.lead|, line.key)]
    else Popped(s, |line.lead|)
  }

  /** The open mappings after the first `i` lines. */
  function StackAt(lines: seq<Line>, i: nat): Stack
    requires i <= |lines|
  {
    if i == 0 then [] else Enter(StackAt(lines, i - 1), lines[i - 1])
  }

  /** The full path of the entry on line `i`. */
  function PathAt(lines: seq<Line>, i: nat): Path
    requires i < |lines| && lines[i].Entry?
  {
    PathOf(StackAt(lines, i), lines[i])
  }

  // ---- The reader ----

  datatype Node = Scalar(text: string) | Mapping

  /** The nested objects of the reader, flattened: every path that leads to something, and to what. */
  type Doc = map<Path, Node>

  /** `parent[key] = node` drops whatever was there before, with everything below it. */
  function Assigned(doc: Doc, p: Path, node: Node): Doc {
    (map q | q in doc && !(p <= q) :: doc[q])[p := node]
  }

  function DocAt(lines: seq<Line>, i: nat): Doc
    requires i <= |lines|
  {
    if i == 0 then map[]
    else
      var doc := DocAt(lines, i - 1);
      if lines[i - 1].Skipped? then doc
      else Assigned(doc, PathAt(lines, i - 1), if lines[i - 1].rest == "" then Mapping else Scalar(lines[i - 1].rest))
  }

  function Parse(lines: seq<Line>): Doc {
    DocAt(lines, |lines|)
  }

  /** The scalar a path reads as, if it leads to one. */
  function Lookup(lines: seq<Line>, p: Path): Option<string> {
    var doc := Parse(lines);
    if p in doc && doc[p].Scalar? then Some(doc[p].text) else None
  }

  method ParseYaml(lines: seq<Line>) returns (doc: Doc)
    ensures doc == Parse(lines)
  {
    doc := map[];
    var stack: Stack := [];
    for i := 0 to |lines|
      invariant stack == StackAt(lines, i) && doc == DocAt(lines, i)
    {
      var line := lines[i];
      assert StackAt(lines, i + 1) == Enter(stack, line);
      if line.Entry? {
        stack := PopTo(stack, |line.lead|);
        var path := Keys(stack) + [line.key];
        if line.rest == "" {
          doc := Assigned(doc, path, Mapping);
          stack := stack + [Level(|line.lead|, line.key)];
        } else {
          doc := Assigned(doc, path, Scalar(line.rest));
        }
      }
    }
  }

  method PopTo(s: Stack, indent: nat) returns (r: Stack)
    ensures r == Popped(s, indent)
  {
    r := s;
    while r != [] && indent <= r[|r| - 1].indent
      invariant Popped(r, indent) == Popped(s, indent)
      decreases |r|
    {
      r := r[..|r| - 1];
    }
  }

  // ---- The writer ----

  predicate TargetAt(lines: seq<Line>, i: nat, p: Path)
    requires i < |lines|
  {
    lines[i].Entry? && lines[i].rest != "" && PathAt(lines, i) == p
  }

  /** The first scalar line of path `p` among the first `n` lines. */
  function FirstTarget(lines: seq<Line>, p: Path, n: nat): (r: Option<nat>)
    requires n <= |lines|
    ensures r.Some? ==> r.value < n && TargetAt(lines, r.value, p)
    ensures forall i :: 0 <= i < n && (r.Some? ==> i < r.value) ==> !TargetAt(lines, i, p)
  {
    if n == 0 then None
    else
      var r := FirstTarget(lines, p, n - 1);
      if r.None? && TargetAt(lines, n - 1, p) then Some(n - 1) else r
  }

  function Target(lines: seq<Line>, p: Path): (r: Option<nat>)
    ensures r.Some? ==> r.value < |lines| && TargetAt(lines, r.value, p)
  {
    FirstTarget(lines, p, |lines|)
  }

  predicate InBody(lines: seq<Line>, i: nat, p: Path)
    requires i < |lines|
  {
    lines[i].Entry? && p <= PathAt(lines, i)
  }

  predicate HeaderAt(lines: seq<Line>, i: nat, p: Path)
    requires i < |lines|
  {
    lines[i].Entry? && PathAt(lines, i) == p
  }

  /** One past the last line at or below `p`, or -1. */
  function BodyEnd(lines: seq<Line>, p: Path, n: nat): (r: int)
    requires n <= |lines|
    ensures -1 <= r <= n && r != 0
    ensures r > 0 ==> InBody(lines, r - 1, p)
    ensures forall i :: 0 <= i < n && r <= i ==> !InBody(lines, i, p)
  {
    if n == 0 then -1 else if InBody(lines, n - 1, p) then n else BodyEnd(lines, p, n - 1)
  }

  /** The last line with path `p` - open mapping or scalar - or -1. */
  function LastHeader(lines: seq<Line>, p: Path, n: nat): (r: int)
    requires n <= |lines|
    ensures -1 <= r < n
    ensures r >= 0 ==> HeaderAt(lines, r, p)
    ensures forall i :: 0 <= i < n && r < i ==> !HeaderAt(lines, i, p)
  {
    if n == 0 then -1 else if HeaderAt(lines, n - 1, p) then n - 1 else LastHeader(lines, p, n - 1)
  }

  /** The deepest ancestor of `p`, of depth at most `d`, that some line names. */
  function Deepest(lines: seq<Line>, p: Path, d: nat): (r: nat)
    requires d <= |p|
    ensures r <= d
    ensures r > 0 ==> LastHeader(lines, p[..r], |lines|) >= 0
    ensures forall e :: r < e <= d ==> LastHeader(lines, p[..e], |lines|) < 0
  {
    if d == 0 then 0 else if LastHeader(lines, p[..d], |lines|) >= 0 then d else Deepest(lines, p, d - 1)
  }

  function FromDepth(lines: seq<Line>, p: Path): (r: nat)
    requires p != []
    ensures r < |p|
  {
    Deepest(lines, p, |p| - 1)
  }

  lemma HeaderEndsBody(lines: seq<Line>, p: Path)
    requires LastHeader(lines, p, |lines|) >= 0
    ensures BodyEnd(lines, p, |lines|) > LastHeader(lines, p, |lines|)
  {
    assert InBody(lines, LastHeader(lines, p, |lines|), p);
  }

  /** After the ancestor's body; without an ancestor at the end, but before an empty last line. */
  function InsertAt(lines: seq<Line>, p: Path): (j: nat)
    requires p != []
    ensures j <= |lines|
  {
    var d := FromDepth(lines, p);
    if d > 0 then HeaderEndsBody(lines, p[..d]); BodyEnd(lines, p[..d], |lines|)
    else if lines != [] && lines[|lines| - 1] == Skipped("") then |lines| - 1 else |lines|
  }

  function Spaces(n: nat): (s: string)
    ensures |s| == n
  {
    if n == 0 then "" else Spaces(n - 1) + " "
  }

  function Opening(depth: nat, key: string): Line {
    Entry(Spaces(2 * depth), key, "", "", "")
  }

  /** The scalar line the writer adds at the end of `p`. */
  function Closing(p: Path, value: string): Line
    requires p != []
  {
    Entry(Spaces(2 * (|p| - 1)), p[|p| - 1], value, "", "")
  }

  /** The missing levels of `p` below depth `d`, then its scalar. */
  function NewLines(p: Path, d: nat, value: string): (r: seq<Line>)
    requires d < |p|
    ensures |r| == |p| - d
    decreases |p| - d
  {
    if d == |p| - 1 then [Closing(p, value)] else [Opening(d, p[d])] + NewLines(p, d + 1, value)
  }

  /** The line with a new scalar: indentation, key and comment stay, the spacing becomes the writer's. */
  function Rewritten(line: Line, value: string): Line
    requires line.Entry?
  {
    line.(rest := value, spacing := "")
  }

  function Set(lines: seq<Line>, p: Path, value: string): seq<Line>
    requires p != []
  {
    var target := Target(lines, p);
    if target.Some? then lines[target.value := Rewritten(lines[target.value], value)]
    else lines[..InsertAt(lines, p)] + NewLines(p, FromDepth(lines, p), value) + lines[InsertAt(lines, p)..]
  }

  lemma PrefixesOfPath(cur: Path, p: Path, depth: nat)
    requires depth <= |p|
    ensures |cur| >= depth && cur[..depth] == p[..depth] <==> p[..depth] <= cur
    ensures |cur| == depth && cur[..depth] == p[..depth] <==> p[..depth] == cur
  {
  }

  lemma {:induction false} TargetStays(lines: seq<Line>, p: Path, i: nat, n: nat)
    requires i < n <= |lines| && FirstTarget(lines, p, i + 1) == Some(i)
    ensures FirstTarget(lines, p, n) == Some(i)
  {
    if n > i + 1 {
      TargetStays(lines, p, i, n - 1);
    }
  }

  ghost predicate Knows(lines: seq<Line>, p: Path, n: nat, header: int, bodyEnd: int, k: nat)
    requires n <= |lines| && k < |p|
  {
    header == LastHeader(lines, p[..k + 1], n) && bodyEnd == BodyEnd(lines, p[..k + 1], n)
  }

  /** What the scan has learnt about every proper ancestor of `p` from the first `n` lines. */
  ghost predicate Learnt(lines: seq<Line>, p: Path, n: nat, header: seq<int>, bodyEnd: seq<int>)
    requires n <= |lines| && |header| == |bodyEnd| == |p|
  {
    forall k :: 0 <= k < |p| - 1 ==> Knows(lines, p, n, header[k], bodyEnd[k], k)
  }

  lemma KnowsNext(lines: seq<Line>, p: Path, i: nat, header: int, bodyEnd: int, k: nat)
    requires i < |lines| && k < |p| && Knows(lines, p, i, header, bodyEnd, k)
    ensures Knows(lines, p, i + 1,
                  if HeaderAt(lines, i, p[..k + 1]) then i else header,
                  if InBody(lines, i, p[..k + 1]) then i + 1 else bodyEnd, k)
  {
  }

  lemma SkippedTeachesNothing(lines: seq<Line>, p: Path, i: nat, header: seq<int>, bodyEnd: seq<int>)
    requires i < |lines| && lines[i].Skipped? && |header| == |bodyEnd| == |p| && Learnt(lines, p, i, header, bodyEnd)
    ensures Learnt(lines, p, i + 1, header, bodyEnd)
  {
    forall k | 0 <= k < |p| - 1 ensures Knows(lines, p, i + 1, header[k], bodyEnd[k], k) {
      assert Knows(lines, p, i, header[k], bodyEnd[k], k);
      KnowsNext(lines, p, i, header[k], bodyEnd[k], k);
    }
  }

  /** The depth loop: line `i` extends the body of every ancestor above it, and may be a header itself. */
  method NoteAncestors(lines: seq<Line>, i: nat, curPath: Path, parts: Path, header0: seq<int>, bodyEnd0: seq<int>)
    returns (header: seq<int>, bodyEnd: seq<int>)
    requires i < |lines| && lines[i].Entry? && curPath == PathAt(lines, i) && parts != []
    requires |header0| == |bodyEnd0| == |parts| && Learnt(lines, parts, i, header0, bodyEnd0)
    ensures |header| == |bodyEnd| == |parts| && Learnt(lines, parts, i + 1, header, bodyEnd)
  {
    header, bodyEnd := header0, bodyEnd0;
    for depth := 1 to |parts|
      invariant |header| == |bodyEnd| == |parts|
      invariant forall k :: depth - 1 <= k < |parts| ==> header[k] == header0[k] && bodyEnd[k] == bodyEnd0[k]
      invariant forall k :: 0 <= k < depth - 1 ==> Knows(lines, parts, i + 1, header[k], bodyEnd[k], k)
    {
      var k := depth - 1;
      PrefixesOfPath(curPath, parts, depth);
      assert Knows(lines, parts, i, header0[k], bodyEnd0[k], k);
      KnowsNext(lines, parts, i, header[k], bodyEnd[k], k);
      if |curPath| >= depth && curPath[..depth] == parts[..depth] {
        bodyEnd := bodyEnd[k := i + 1];
        if |curPath| == depth {
          header := header[k := i];
        }
      }
    }
  }

  /** The scan: the first target line, or -1 and what it learnt about the ancestors. */
  method Scan(lines: seq<Line>, parts: Path) returns (target: int, header: seq<int>, bodyEnd: seq<int>)
    requires parts != []
    ensures target == match Target(lines, parts) case Some(t) => t case None => -1
    ensures target < 0 ==> |header| == |bodyEnd| == |parts| && Learnt(lines, parts, |lines|, header, bodyEnd)
  {
    var stack: Stack := [];
    target, header, bodyEnd := -1, seq(|parts|, _ => -1), seq(|parts|, _ => -1);
    for i := 0 to |lines|
      invariant stack == StackAt(lines, i)
      invariant target == -1 && FirstTarget(lines, parts, i) == None
      invariant |header| == |bodyEnd| == |parts| && Learnt(lines, parts, i, header, bodyEnd)
    {
      var line := lines[i];
      if line.Entry? {
        stack := PopTo(stack, |line.lead|);
        var curPath := Keys(stack) + [line.key];
        header, bodyEnd := NoteAncestors(lines, i, curPath, parts, header, bodyEnd);
        if line.rest == "" {
          stack := stack + [Level(|line.lead|, line.key)];
        } else if curPath == parts {
          target := i;
          TargetStays(lines, parts, i, |lines|);
          break;
        }
      } else {
        SkippedTeachesNothing(lines, parts, i, header, bodyEnd);
      }
    }
  }

  /** The deepest ancestor with a header, and where its body ends. */
  method FindAncestor(lines: seq<Line>, parts: Path, header: seq<int>, bodyEnd: seq<int>)
    returns (insertAt: int, fromDepth: nat)
    requires parts != [] && |header| == |bodyEnd| == |parts|
    requires Learnt(lines, parts, |lines|, header, bodyEnd)
    ensures fromDepth == FromDepth(lines, parts)
    ensures insertAt == if fromDepth > 0 then InsertAt(lines, parts) else -1
  {
    insertAt, fromDepth := -1, 0;
    var depth := |parts| - 1;
    while depth >= 1
      invariant 0 <= depth < |parts|
      invariant insertAt == -1 && fromDepth == 0 && Deepest(lines, parts, depth) == FromDepth(lines, parts)
    {
      assert Knows(lines, parts, |lines|, header[depth - 1], bodyEnd[depth - 1], depth - 1);
      if header[depth - 1] >= 0 {
        insertAt, fromDepth := bodyEnd[depth - 1], depth;
        break;
      }
      depth := depth - 1;
    }
  }

  method MissingLevels(parts: Path, fromDepth: nat, value: string) returns (newLines: seq<Line>)
    requires fromDepth < |parts|
    ensures newLines == NewLines(parts, fromDepth, value)
  {
    newLines := [];
    for depth := fromDepth to |parts| - 1
      invariant newLines + NewLines(parts, depth, value) == NewLines(parts, fromDepth, value)
    {
      newLines := newLines + [Opening(depth, parts[depth])];
    }
    newLines := newLines + [Closing(parts, value)];
  }

  method SetPolicyValue(lines: seq<Line>, parts: Path, value: string) returns (out: seq<Line>)
    requires parts != []
    ensures out == Set(lines, parts, value)
  {
    var target, ancestorHeaderIdx, ancestorBodyEnd := Scan(lines, parts);
    if target >= 0 {
      return lines[target := Rewritten(lines[target], value)];
    }
    var insertAt, fromDepth := FindAncestor(lines, parts, ancestorHeaderIdx, ancestorBodyEnd);
    if insertAt == -1 {
      insertAt := |lines|;
      if insertAt > 0 && lines[insertAt - 1] == Skipped("") {
        insertAt := insertAt - 1;
      }
    }
    var newLines := MissingLevels(parts, fromDepth, value);
    out := lines[..insertAt] + newLines + lines[insertAt..];
  }
}
