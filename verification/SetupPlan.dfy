/**
 * writeSetupPlan: create a set of files exclusively, or roll all of them back - while any system
 * call may fail and other processes may create, replace or remove paths between any two calls.
 */
module SetupPlan {
  import opened Common

  /**
   * The file system as this writer can affect it. `names` binds paths to inodes: the files the
   * writer creates are numbered 0, 1, 2, ... in `data`, everybody else's are negative. `calls`
   * counts system calls and `lost` lists the paths of other people's files that the writer unlinked.
   */
  datatype Disk = Disk(names: map<string, int>, data: seq<string>, calls: nat, lost: seq<string>)

  /** The world: which call fails, and what other processes have done to the paths by then. */
  datatype World = World(fail: nat -> bool, act: (nat, map<string, int>) -> map<string, int>)

  /** Others may remove any path and bind any path to a file of theirs, but do not move the writer's files about. */
  ghost predicate Fair(w: World) {
    forall k, names, p :: p in w.act(k, names) ==>
      w.act(k, names)[p] < 0 || (p in names && names[p] == w.act(k, names)[p])
  }

  /** Whatever else they do, others keep their hands off the paths that lead to the writer's files. */
  ghost predicate LeavesAlone(w: World) {
    forall k, names, p :: p in names && names[p] >= 0 ==> p in w.act(k, names) && w.act(k, names)[p] == names[p]
  }

  ghost predicate Quiet(w: World) {
    forall k, names :: w.act(k, names) == names
  }

  /** The others get their turn, then a call is made. */
  function Turn(d: Disk, w: World): Disk {
    d.(names := w.act(d.calls, d.names), calls := d.calls + 1)
  }

  /** A file to clean up, by path and identity. */
  datatype Rec = Rec(path: string, ino: int)

  /**
   * What writing one file came to. `leaked`: after a failed fstat the close or the fallback stat
   * failed too, so the file was never registered. `misread`: the fallback stat saw another file.
   */
  datatype Made = Made(disk: Disk, ok: bool, rec: Option<Rec>, leaked: bool, misread: bool)

  function Bind(d: Disk, path: string): Disk {
    d.(names := d.names[path := |d.data|], data := d.data + [""])
  }

  /** fstat has failed: close, stat the path, register what is there. */
  function Fallback(d: Disk, w: World, path: string, ino: int): Made {
    var closed := Turn(d, w);
    if w.fail(d.calls) then Made(Turn(closed, w), false, None, true, false)  // the finally block closes again
    else
      var stat := Turn(closed, w);
      if w.fail(closed.calls) then Made(stat, false, None, true, false)
      else if path !in stat.names then Made(stat, false, None, false, false)
      else Made(stat, false, Some(Rec(path, stat.names[path])), false, stat.names[path] != ino)
  }

  function Fill(d: Disk, w: World, path: string, ino: nat, content: string): Made
    requires ino < |d.data|
  {
    var wrote := Turn(d, w);
    var written := if w.fail(d.calls) then wrote else wrote.(data := wrote.data[ino := content]);
    var closed := Turn(written, w);
    Made(closed, !w.fail(d.calls) && !w.fail(written.calls), Some(Rec(path, ino)), false, false)
  }

  /** mkdir, open with 'wx', fstat, write, close. */
  function WriteFile(d: Disk, w: World, path: string, content: string): Made {
    var dir := Turn(d, w);
    if w.fail(d.calls) then Made(dir, false, None, false, false)
    else
      var free := Turn(dir, w);
      if w.fail(dir.calls) || path in free.names then Made(free, false, None, false, false)
      else
        var bound := Bind(free, path);
        var stat := Turn(bound, w);
        if w.fail(bound.calls) then Fallback(stat, w, path, |free.data|)
        else Fill(stat, w, path, |free.data|, content)
  }

  datatype File = File(path: string, content: string)

  datatype Batch = Batch(disk: Disk, ok: bool, created: seq<Rec>, leaked: bool, misread: bool)

  function WriteAll(d: Disk, w: World, plan: seq<File>): Batch {
    if plan == [] then Batch(d, true, [], false, false)
    else
      var b := WriteAll(d, w, plan[..|plan| - 1]);
      if !b.ok then b
      else
        var m := WriteFile(b.disk, w, plan[|plan| - 1].path, plan[|plan| - 1].content);
        Batch(m.disk, m.ok, b.created + if m.rec.Some? then [m.rec.value] else [], m.leaked, m.misread)
  }

  /**
   * `failed`: a stat or unlink call of the clean-up failed. `raced`: a path changed hands between its
   * stat and its unlink.
   */
  datatype Swept = Swept(disk: Disk, failed: bool, raced: bool)

  function Unlink(d: Disk, path: string): Disk
    requires path in d.names
  {
    d.(names := d.names - {path}, lost := d.lost + if d.names[path] < 0 then [path] else [])
  }

  function CleanOne(d: Disk, w: World, r: Rec): Swept {
    var stat := Turn(d, w);
    if w.fail(d.calls) then Swept(stat, true, false)
    else if r.path !in stat.names || stat.names[r.path] != r.ino then Swept(stat, false, false)
    else
      var gone := Turn(stat, w);
      if w.fail(stat.calls) then Swept(gone, true, false)
      else if r.path !in gone.names then Swept(gone, false, false)
      else Swept(Unlink(gone, r.path), false, gone.names[r.path] != r.ino)
  }

  /** Last created, first cleaned. */
  function Clean(d: Disk, w: World, created: seq<Rec>): Swept
    decreases |created|
  {
    if created == [] then Swept(d, false, false)
    else
      var one := CleanOne(d, w, created[|created| - 1]);
      var rest := Clean(one.disk, w, created[..|created| - 1]);
      Swept(rest.disk, one.failed || rest.failed, one.raced || rest.raced)
  }

  datatype Outcome = Refused | Written | RolledBack

  /** `targets` are the setup files whose mere existence refuses the whole plan. */
  function WriteSetupPlan(d: Disk, w: World, targets: set<string>, plan: seq<File>): (Disk, Outcome) {
    if exists t | t in targets :: t in d.names then (d, Refused)
    else
      var b := WriteAll(d, w, plan);
      if b.ok then (b.disk, Written) else (Clean(b.disk, w, b.created).disk, RolledBack)
  }

  // ---- The writer itself ----

  class FileSystem {
    var disk: Disk
    const world: World

    constructor (d: Disk, w: World)
      ensures disk == d && world == w
    {
      disk, world := d, w;
    }

    /** The others act, then the call is made and may fail. */
    method Call() returns (failed: bool)
      modifies this
      ensures disk == Turn(old(disk), world) && failed == world.fail(old(disk).calls)
    {
      failed := world.fail(disk.calls);
      disk := disk.(names := world.act(disk.calls, disk.names), calls := disk.calls + 1);
    }

    method OpenExclusive(path: string) returns (ino: Option<nat>)
      modifies this
      ensures var free := Turn(old(disk), world);
        if world.fail(old(disk).calls) || path in free.names then ino == None && disk == free
        else ino == Some(|free.data|) && disk == Bind(free, path)
    {
      var failed := Call();
      if failed || path in disk.names {
        return None;
      }
      ino := Some(|disk.data|);
      disk := Bind(disk, path);
    }

    method CreateFile(path: string, content: string) returns (ok: bool, rec: Option<Rec>)
      modifies this
      ensures var m := WriteFile(old(disk), world, path, content); disk == m.disk && ok == m.ok && rec == m.rec
    {
      rec := None;
      var failed := Call();
      if failed {
        return false, None;
      }
      var ino := OpenExclusive(path);
      if ino.None? {
        return false, None;
      }
      failed := Call();
      if failed {
        rec := RegisterByPath(path, ino.value);
        return false, rec;
      }
      rec := Some(Rec(path, ino.value));
      var writeFailed := Call();
      if !writeFailed {
        disk := disk.(data := disk.data[ino.value := content]);
      }
      var closeFailed := Call();
      ok := !writeFailed && !closeFailed;
    }

    method RegisterByPath(path: string, ghost ino: int) returns (rec: Option<Rec>)
      modifies this
      ensures var m := Fallback(old(disk), world, path, ino); disk == m.disk && rec == m.rec
    {
      var failed := Call();
      if failed {
        var _ := Call();
        return None;
      }
      failed := Call();
      rec := if failed || path !in disk.names then None else Some(Rec(path, disk.names[path]));
    }

    method Remove(r: Rec)
      modifies this
      ensures disk == CleanOne(old(disk), world, r).disk
    {
      var failed := Call();
      if failed || r.path !in disk.names || disk.names[r.path] != r.ino {
        return;
      }
      failed := Call();
      if !failed && r.path in disk.names {
        disk := Unlink(disk, r.path);
      }
    }

    method WriteFiles(plan: seq<File>) returns (ok: bool, created: seq<Rec>)
      modifies this
      ensures var b := WriteAll(old(disk), world, plan); disk == b.disk && ok == b.ok && created == b.created
    {
      var i := 0;
      created, ok := [], true;
      assert plan[..0] == [];
      while i < |plan| && ok
        invariant 0 <= i <= |plan|
        invariant var b := WriteAll(old(disk), world, plan[..i]); disk == b.disk && ok == b.ok && created == b.created
      {
        assert plan[..i + 1][..i] == plan[..i];
        var rec;
        ok, rec := CreateFile(plan[i].path, plan[i].content);
        created := created + if rec.Some? then [rec.value] else [];
        i := i + 1;
      }
      FailureIsFinal(old(disk), world, plan, i);
    }

    method CleanUp(created: seq<Rec>)
      modifies this
      ensures disk == Clean(old(disk), world, created).disk
    {
      var k := |created|;
      assert created[..k] == created;
      while k > 0
        invariant 0 <= k <= |created|
        invariant Clean(disk, world, created[..k]).disk == Clean(old(disk), world, created).disk
      {
        k := k - 1;
        assert created[..k + 1][..k] == created[..k];
        Remove(created[k]);
      }
    }

    method Write(targets: set<string>, plan: seq<File>) returns (outcome: Outcome)
      modifies this
      ensures (disk, outcome) == WriteSetupPlan(old(disk), world, targets, plan)
    {
      if exists t | t in targets :: t in disk.names {
        return Refused;
      }
      var ok, created := WriteFiles(plan);
      if ok {
        return Written;
      }
      CleanUp(created);
      outcome := RolledBack;
    }
  }

  lemma {:induction false} FailureIsFinal(d: Disk, w: World, plan: seq<File>, i: nat)
    requires i <= |plan| && (i == |plan| || !WriteAll(d, w, plan[..i]).ok)
    ensures WriteAll(d, w, plan) == WriteAll(d, w, plan[..i])
    decreases |plan|
  {
    if i == |plan| {
      assert plan[..i] == plan;
    } else {
      assert plan[..|plan| - 1][..i] == plan[..i];
      FailureIsFinal(d, w, plan[..|plan| - 1], i);
    }
  }

  // ---- What holds whatever the others do ----

  /** Every path still bound to one of the writer's files is one the writer has registered. */
  ghost predicate Registered(d: Disk, recs: seq<Rec>) {
    forall p :: p in d.names && d.names[p] >= 0 ==> d.names[p] < |d.data| && Rec(p, d.names[p]) in recs
  }

  /** The registered files, in order: file number k was created for the k-th path. */
  ghost predicate Numbered(recs: seq<Rec>, plan: seq<File>) {
    |recs| == |plan| && forall k :: 0 <= k < |recs| ==> recs[k] == Rec(plan[k].path, k)
  }

  lemma TurnRegistered(d: Disk, w: World, recs: seq<Rec>)
    requires Fair(w) && Registered(d, recs)
    ensures Registered(Turn(d, w), recs) && Turn(d, w).data == d.data && Turn(d, w).lost == d.lost
  {
    var d' := Turn(d, w);
    forall p | p in d'.names && d'.names[p] >= 0 ensures p in d.names && d.names[p] == d'.names[p] {
      assert p in w.act(d.calls, d.names);
    }
  }

  lemma FallbackKeeps(d: Disk, w: World, path: string, ino: int, recs: seq<Rec>)
    requires Fair(w) && Registered(d, recs + [Rec(path, ino)]) && ino >= 0
    ensures var m := Fallback(d, w, path, ino);
      && m.disk.data == d.data && m.disk.lost == d.lost && !m.ok
      && (!m.leaked ==> Registered(m.disk, recs + if m.rec.Some? then [m.rec.value] else []))
      && (m.rec.Some? && !m.misread ==> m.rec.value == Rec(path, ino))
  {
    var all := recs + [Rec(path, ino)];
    var closed := Turn(d, w);
    TurnRegistered(d, w, all);
    TurnRegistered(closed, w, all);
  }

  lemma FillKeeps(d: Disk, w: World, path: string, ino: nat, content: string, recs: seq<Rec>)
    requires Fair(w) && Registered(d, recs + [Rec(path, ino)]) && ino < |d.data|
    ensures var m := Fill(d, w, path, ino, content);
      && Registered(m.disk, recs + [Rec(path, ino)]) && m.disk.lost == d.lost
      && |m.disk.data| == |d.data| && (m.ok ==> m.disk.data == d.data[ino := content])
  {
    var all := recs + [Rec(path, ino)];
    TurnRegistered(d, w, all);
    var wrote := Turn(d, w);
    var written := if w.fail(d.calls) then wrote else wrote.(data := wrote.data[ino := content]);
    TurnRegistered(written, w, all);
  }

  lemma BindKeeps(d: Disk, path: string, recs: seq<Rec>)
    requires Registered(d, recs) && path !in d.names
    ensures Registered(Bind(d, path), recs + [Rec(path, |d.data|)])
  {
  }

  lemma WriteFileKeeps(d: Disk, w: World, path: string, content: string, recs: seq<Rec>)
    requires Fair(w) && Registered(d, recs)
    ensures var m := WriteFile(d, w, path, content);
      && m.disk.lost == d.lost
      && (!m.leaked ==> Registered(m.disk, recs + if m.rec.Some? then [m.rec.value] else []))
      && (m.rec.Some? && !m.misread ==> m.rec.value == Rec(path, |d.data|))
      && (m.ok ==> m.rec.Some? && !m.misread && !m.leaked && m.disk.data == d.data + [content])
  {
    TurnRegistered(d, w, recs);
    var dir := Turn(d, w);
    assert recs + [] == recs;
    if !w.fail(d.calls) {
      TurnRegistered(dir, w, recs);
      var free := Turn(dir, w);
      if !w.fail(dir.calls) && path !in free.names {
        BindKeeps(free, path, recs);
        var bound := Bind(free, path);
        TurnRegistered(bound, w, recs + [Rec(path, |free.data|)]);
        var stat := Turn(bound, w);
        FallbackKeeps(stat, w, path, |free.data|, recs);
        FillKeeps(stat, w, path, |free.data|, content, recs);
        assert (d.data + [""])[|d.data| := content] == d.data + [content];
      }
    }
  }

  function Contents(plan: seq<File>): seq<string> {
    seq(|plan|, k requires 0 <= k < |plan| => plan[k].content)
  }

  lemma ContentsNext(plan: seq<File>)
    requires plan != []
    ensures Contents(plan) == Contents(plan[..|plan| - 1]) + [plan[|plan| - 1].content]
  {
  }

  lemma {:induction false} WriteAllKeeps(d: Disk, w: World, plan: seq<File>)
    requires Fair(w) && Registered(d, []) && d.data == []
    ensures var b := WriteAll(d, w, plan);
      && b.disk.lost == d.lost
      && (!b.leaked ==> Registered(b.disk, b.created))
      && (!b.misread ==> forall r | r in b.created :: r.ino >= 0)
      && (b.ok ==> !b.leaked && !b.misread && Numbered(b.created, plan) && b.disk.data == Contents(plan))
  {
    if plan != [] {
      var n := |plan| - 1;
      WriteAllKeeps(d, w, plan[..n]);
      var b := WriteAll(d, w, plan[..n]);
      if b.ok {
        WriteFileKeeps(b.disk, w, plan[n].path, plan[n].content, b.created);
        ContentsNext(plan);
      }
    }
  }

  /**
   * If the plan was written, each of its files was created by the writer and holds exactly its
   * content; unless another process has since removed or replaced it, its path leads to such a file.
   */
  lemma WrittenFilesAreExact(d: Disk, w: World, targets: set<string>, plan: seq<File>, i: nat)
    requires Fair(w) && d.data == [] && (forall p :: p in d.names ==> d.names[p] < 0)
    requires WriteSetupPlan(d, w, targets, plan).1 == Written && i < |plan|
    ensures var after, p := WriteSetupPlan(d, w, targets, plan).0, plan[i].path;
      && |after.data| == |plan| && after.data[i] == plan[i].content && after.lost == d.lost
      && (p in after.names && after.names[p] >= 0 ==> after.names[p] < |plan| && plan[after.names[p]].path == p)
  {
    WriteAllKeeps(d, w, plan);
    var b := WriteAll(d, w, plan);
    var p := plan[i].path;
    if p in b.disk.names && b.disk.names[p] >= 0 {
      var k :| 0 <= k < |b.created| && b.created[k] == Rec(p, b.disk.names[p]);
    }
  }

  lemma CleanOneKeeps(d: Disk, w: World, recs: seq<Rec>, r: Rec)
    requires Fair(w) && Registered(d, recs + [r])
    ensures var s := CleanOne(d, w, r); Registered(s.disk, if s.failed then recs + [r] else recs)
  {
    var all := recs + [r];
    TurnRegistered(d, w, all);
    TurnRegistered(Turn(d, w), w, all);
  }

  lemma {:induction false} CleanKeeps(d: Disk, w: World, created: seq<Rec>)
    requires Fair(w) && Registered(d, created)
    ensures !Clean(d, w, created).failed ==> Registered(Clean(d, w, created).disk, [])
    decreases |created|
  {
    if created != [] {
      var n := |created| - 1;
      assert created == created[..n] + [created[n]];
      CleanOneKeeps(d, w, created[..n], created[n]);
      var one := CleanOne(d, w, created[n]);
      if !one.failed {
        CleanKeeps(one.disk, w, created[..n]);
      }
    }
  }

  /** How the clean-up of a failed run went. */
  function Rollback(d: Disk, w: World, plan: seq<File>): Swept {
    var b := WriteAll(d, w, plan);
    Clean(b.disk, w, b.created)
  }

  /**
   * After a failure no path leads to a file the writer created, provided the clean-up calls (and,
   * after a failed fstat, the close and the fallback stat) did not fail as well.
   */
  lemma RollbackRemovesEverything(d: Disk, w: World, targets: set<string>, plan: seq<File>, p: string)
    requires Fair(w) && d.data == [] && (forall p :: p in d.names ==> d.names[p] < 0)
    requires WriteSetupPlan(d, w, targets, plan).1 == RolledBack
    requires !WriteAll(d, w, plan).leaked && !Rollback(d, w, plan).failed
    ensures var after := WriteSetupPlan(d, w, targets, plan).0; p in after.names ==> after.names[p] < 0
  {
    WriteAllKeeps(d, w, plan);
    CleanKeeps(WriteAll(d, w, plan).disk, w, WriteAll(d, w, plan).created);
  }

  // ---- Whose files are unlinked ----

  /** `path` leads to file `ino`, or to somebody else's, or nowhere. */
  ghost predicate Ours(names: map<string, int>, path: string, ino: int) {
    path in names ==> names[path] < 0 || names[path] == ino
  }

  lemma TurnOurs(d: Disk, w: World, path: string, ino: int)
    requires Fair(w) && Ours(d.names, path, ino)
    ensures Ours(Turn(d, w).names, path, ino)
  {
    assert path in Turn(d, w).names ==> path in w.act(d.calls, d.names);
  }

  /** The fallback stat misreads a file exactly when it registers somebody else's. */
  lemma WriteFileMisread(d: Disk, w: World, path: string, content: string)
    requires Fair(w)
    ensures var m := WriteFile(d, w, path, content);
      m.disk.lost == d.lost && (m.misread ==> !m.ok) && (m.misread <==> m.rec.Some? && m.rec.value.ino < 0)
  {
    var free := Turn(Turn(d, w), w);
    var bound := Bind(free, path);
    TurnOurs(bound, w, path, |free.data|);
    var stat := Turn(bound, w);
    TurnOurs(stat, w, path, |free.data|);
    TurnOurs(Turn(stat, w), w, path, |free.data|);
  }

  /** All records but perhaps the last are of files the writer created. */
  lemma {:induction false} WriteAllMisread(d: Disk, w: World, plan: seq<File>)
    requires Fair(w)
    ensures var b := WriteAll(d, w, plan);
      && b.disk.lost == d.lost && (b.misread ==> !b.ok && b.created != [])
      && forall k :: 0 <= k < |b.created| ==> (b.created[k].ino < 0 <==> b.misread && k == |b.created| - 1)
  {
    if plan != [] {
      var n := |plan| - 1;
      WriteAllMisread(d, w, plan[..n]);
      WriteFileMisread(WriteAll(d, w, plan[..n]).disk, w, plan[n].path, plan[n].content);
    }
  }

  /** The clean-up of this record finds what was registered and gets as far as unlinking the path. */
  predicate Reached(d: Disk, w: World, r: Rec) {
    var stat := Turn(d, w);
    var gone := Turn(stat, w);
    && !w.fail(d.calls) && r.path in stat.names && stat.names[r.path] == r.ino
    && !w.fail(stat.calls) && r.path in gone.names
  }

  lemma CleanOneLost(d: Disk, w: World, r: Rec)
    requires Fair(w)
    ensures CleanOne(d, w, r).disk.lost == d.lost <==> if r.ino < 0 then !Reached(d, w, r) else !CleanOne(d, w, r).raced
    ensures d.lost <= CleanOne(d, w, r).disk.lost && (CleanOne(d, w, r).raced ==> Reached(d, w, r))
  {
    var stat := Turn(d, w);
    if r.path in stat.names && stat.names[r.path] == r.ino {
      TurnOurs(stat, w, r.path, r.ino);
    }
  }

  lemma {:induction false} CleanLost(d: Disk, w: World, created: seq<Rec>)
    requires Fair(w) && forall k :: 0 <= k < |created| ==> created[k].ino >= 0
    ensures Clean(d, w, created).disk.lost == d.lost <==> !Clean(d, w, created).raced
    ensures d.lost <= Clean(d, w, created).disk.lost
    decreases |created|
  {
    if created != [] {
      var n := |created| - 1;
      CleanOneLost(d, w, created[n]);
      CleanLost(CleanOne(d, w, created[n]).disk, w, created[..n]);
    }
  }

  /** A clean-up whose last record is of somebody else's file. */
  lemma MisledLost(d: Disk, w: World, created: seq<Rec>)
    requires Fair(w) && created != [] && created[|created| - 1].ino < 0
    requires forall k :: 0 <= k < |created| - 1 ==> created[k].ino >= 0
    ensures Clean(d, w, created).disk.lost == d.lost <==>
            !Clean(d, w, created).raced && !Reached(d, w, created[|created| - 1])
  {
    var n := |created| - 1;
    CleanOneLost(d, w, created[n]);
    CleanLost(CleanOne(d, w, created[n]).disk, w, created[..n]);
  }

  /**
   * The writer unlinks somebody else's file exactly when it rolls back and a path changed hands between
   * the stat and the unlink that was to remove it, or a file that had changed hands before the fallback
   * stat was registered and its unlink is reached.
   */
  lemma OthersKeepTheirFilesIff(d: Disk, w: World, targets: set<string>, plan: seq<File>)
    requires Fair(w)
    ensures var b, r := WriteAll(d, w, plan), WriteSetupPlan(d, w, targets, plan);
      (b.misread ==> b.created != []) &&
      (r.0.lost == d.lost <==>
       (r.1 == RolledBack ==>
        !Rollback(d, w, plan).raced && !(b.misread && Reached(b.disk, w, b.created[|b.created| - 1]))))
  {
    WriteAllMisread(d, w, plan);
    var b := WriteAll(d, w, plan);
    if b.misread {
      MisledLost(b.disk, w, b.created);
    } else {
      CleanLost(b.disk, w, b.created);
    }
  }

  // ---- Runs in which others leave the writer's paths alone ----

  /** Every record's path leads to the file it was registered for. */
  ghost predicate Stand(names: map<string, int>, recs: seq<Rec>) {
    forall k :: 0 <= k < |recs| ==> Leads(names, recs[k].path, recs[k].ino)
  }

  predicate Leads(names: map<string, int>, path: string, ino: int) {
    ino >= 0 && path in names && names[path] == ino
  }

  lemma TurnLeads(d: Disk, w: World, path: string, ino: int)
    requires LeavesAlone(w) && Leads(d.names, path, ino)
    ensures Leads(Turn(d, w).names, path, ino)
  {
    assert path in w.act(d.calls, d.names);
  }

  lemma TurnStand(d: Disk, w: World, recs: seq<Rec>)
    requires LeavesAlone(w) && Stand(d.names, recs)
    ensures Stand(Turn(d, w).names, recs)
  {
    forall k | 0 <= k < |recs| ensures Leads(Turn(d, w).names, recs[k].path, recs[k].ino) {
      TurnLeads(d, w, recs[k].path, recs[k].ino);
    }
  }

  lemma StandMore(names: map<string, int>, recs: seq<Rec>, r: Rec)
    requires Stand(names, recs) && Leads(names, r.path, r.ino)
    ensures Stand(names, recs + [r])
  {
  }

  lemma StandAll(names: map<string, int>, recs: seq<Rec>, r: Rec)
    requires Stand(names, recs + [r])
    ensures Stand(names, recs) && Leads(names, r.path, r.ino)
  {
    var all := recs + [r];
    assert all[|recs|] == r;
    forall k | 0 <= k < |recs| ensures Leads(names, recs[k].path, recs[k].ino) {
      assert all[k] == recs[k];
    }
  }

  lemma AloneFallback(d: Disk, w: World, path: string, ino: int, recs: seq<Rec>)
    requires LeavesAlone(w) && Stand(d.names, recs + [Rec(path, ino)])
    ensures var m := Fallback(d, w, path, ino);
      && Stand(m.disk.names, recs + [Rec(path, ino)]) && m.disk.data == d.data && m.disk.lost == d.lost
      && !m.misread && !m.ok && if m.leaked then m.rec.None? else m.rec == Some(Rec(path, ino))
  {
    var all := recs + [Rec(path, ino)];
    TurnStand(d, w, all);
    TurnStand(Turn(d, w), w, all);
    StandAll(Turn(Turn(d, w), w).names, recs, Rec(path, ino));
  }

  lemma AloneFill(d: Disk, w: World, path: string, ino: nat, content: string, recs: seq<Rec>)
    requires LeavesAlone(w) && Stand(d.names, recs + [Rec(path, ino)]) && ino < |d.data|
    ensures var m := Fill(d, w, path, ino, content);
      && Stand(m.disk.names, recs + [Rec(path, ino)]) && m.disk.lost == d.lost
      && (m.ok ==> m.disk.data == d.data[ino := content])
  {
    var all := recs + [Rec(path, ino)];
    TurnStand(d, w, all);
    var written := if w.fail(d.calls) then Turn(d, w) else Turn(d, w).(data := d.data[ino := content]);
    TurnStand(written, w, all);
  }

  /** One file: its record and those before it stand, and after a leak the new file stands unregistered. */
  lemma AloneWriteFile(d: Disk, w: World, path: string, content: string, recs: seq<Rec>)
    requires LeavesAlone(w) && Stand(d.names, recs)
    ensures var m, made := WriteFile(d, w, path, content), Rec(path, |d.data|);
      && !m.misread && m.disk.lost == d.lost && (m.leaked ==> m.rec.None?)
      && (if m.rec.Some? || m.leaked then Stand(m.disk.names, recs + [made]) else Stand(m.disk.names, recs))
      && (m.rec.Some? ==> m.rec.value == made)
      && (m.ok ==> m.rec.Some? && m.disk.data == d.data + [content])
  {
    TurnStand(d, w, recs);
    var dir := Turn(d, w);
    if !w.fail(d.calls) {
      TurnStand(dir, w, recs);
      var free := Turn(dir, w);
      if !w.fail(dir.calls) && path !in free.names {
        var bound := Bind(free, path);
        StandMore(bound.names, recs, Rec(path, |free.data|));
        TurnStand(bound, w, recs + [Rec(path, |free.data|)]);
        AloneFallback(Turn(bound, w), w, path, |free.data|, recs);
        AloneFill(Turn(bound, w), w, path, |free.data|, content, recs);
        assert (d.data + [""])[|d.data| := content] == d.data + [content];
      }
    }
  }

  /** Record number k is of the k-th file of the plan, which was the k-th to be created. */
  ghost predicate InOrder(recs: seq<Rec>, plan: seq<File>) {
    |recs| <= |plan| && forall k :: 0 <= k < |recs| ==> recs[k] == Rec(plan[k].path, k)
  }

  lemma InOrderNext(recs: seq<Rec>, plan: seq<File>)
    requires |recs| == |plan| - 1 && InOrder(recs, plan[..|plan| - 1])
    ensures InOrder(recs, plan) && InOrder(recs + [Rec(plan[|plan| - 1].path, |plan| - 1)], plan)
  {
  }

  ghost predicate AllStand(b: Batch, plan: seq<File>) {
    && !b.misread && InOrder(b.created, plan) && Stand(b.disk.names, b.created)
    && (b.ok ==> |b.created| == |plan| && b.disk.data == Contents(plan))
    && (b.leaked ==> !b.ok && |b.created| < |plan| && Leads(b.disk.names, plan[|b.created|].path, |b.created|))
  }

  lemma AloneNext(b: Batch, w: World, plan: seq<File>, m: Made)
    requires LeavesAlone(w) && plan != [] && b.ok && AllStand(b, plan[..|plan| - 1])
    requires m == WriteFile(b.disk, w, plan[|plan| - 1].path, plan[|plan| - 1].content)
    ensures var created := b.created + if m.rec.Some? then [m.rec.value] else [];
      AllStand(Batch(m.disk, m.ok, created, m.leaked, m.misread), plan)
    ensures m.disk.lost == b.disk.lost
  {
    var n := |plan| - 1;
    AloneWriteFile(b.disk, w, plan[n].path, plan[n].content, b.created);
    ContentsNext(plan);
    InOrderNext(b.created, plan);
    if m.rec.None? {
      assert b.created + [] == b.created;
      if m.leaked {
        StandAll(m.disk.names, b.created, Rec(plan[n].path, n));
      }
    }
  }

  lemma {:induction false} AloneWriteAll(d: Disk, w: World, plan: seq<File>)
    requires LeavesAlone(w) && d.data == []
    ensures AllStand(WriteAll(d, w, plan), plan) && WriteAll(d, w, plan).disk.lost == d.lost
    decreases |plan|
  {
    if plan != [] {
      var init, last := plan[..|plan| - 1], plan[|plan| - 1];
      AloneWriteAll(d, w, init);
      var b := WriteAll(d, w, init);
      if b.ok {
        AloneNext(b, w, plan, WriteFile(b.disk, w, last.path, last.content));
      }
    }
  }

  /** Left alone, a written plan stands: every path leads to its own new file, which holds exactly its content. */
  lemma WrittenFilesStand(d: Disk, w: World, targets: set<string>, plan: seq<File>, i: nat)
    requires LeavesAlone(w) && d.data == []
    requires WriteSetupPlan(d, w, targets, plan).1 == Written && i < |plan|
    ensures var after := WriteSetupPlan(d, w, targets, plan).0;
      && Leads(after.names, plan[i].path, i)
      && |after.data| == |plan| && after.data[i] == plan[i].content
  {
    AloneWriteAll(d, w, plan);
    assert WriteAll(d, w, plan).created[i] == Rec(plan[i].path, i);
  }

  lemma AloneCleanOne(d: Disk, w: World, r: Rec, path: string, ino: int)
    requires LeavesAlone(w) && Leads(d.names, path, ino) && r != Rec(path, ino)
    ensures Leads(CleanOne(d, w, r).disk.names, path, ino)
  {
    TurnLeads(d, w, path, ino);
    TurnLeads(Turn(d, w), w, path, ino);
  }

  lemma AloneCleanSelf(d: Disk, w: World, r: Rec)
    requires LeavesAlone(w) && Leads(d.names, r.path, r.ino)
    ensures var s := CleanOne(d, w, r);
      !s.raced && s.disk.lost == d.lost && (s.failed ==> Leads(s.disk.names, r.path, r.ino))
  {
    TurnLeads(d, w, r.path, r.ino);
    TurnLeads(Turn(d, w), w, r.path, r.ino);
  }

  lemma {:induction false} AloneSpares(d: Disk, w: World, created: seq<Rec>, path: string, ino: int)
    requires LeavesAlone(w) && Leads(d.names, path, ino) && Rec(path, ino) !in created
    ensures Leads(Clean(d, w, created).disk.names, path, ino)
    decreases |created|
  {
    if created != [] {
      var n := |created| - 1;
      AloneCleanOne(d, w, created[n], path, ino);
      AloneSpares(CleanOne(d, w, created[n]).disk, w, created[..n], path, ino);
    }
  }

  /** The clean-up of standing files unlinks nobody else's, and a call that fails leaves one of them behind. */
  lemma {:induction false} AloneClean(d: Disk, w: World, created: seq<Rec>, plan: seq<File>)
    requires LeavesAlone(w) && InOrder(created, plan) && Stand(d.names, created)
    ensures var s := Clean(d, w, created);
      && !s.raced && s.disk.lost == d.lost
      && (s.failed ==> exists k :: 0 <= k < |created| && Leads(s.disk.names, created[k].path, k))
    decreases |created|
  {
    if created != [] {
      var n := |created| - 1;
      var one := CleanOne(d, w, created[n]);
      AloneCleanSelf(d, w, created[n]);
      forall k | 0 <= k < n ensures Leads(one.disk.names, created[..n][k].path, created[..n][k].ino) {
        AloneCleanOne(d, w, created[n], created[k].path, created[k].ino);
      }
      AloneClean(one.disk, w, created[..n], plan);
      if one.failed {
        AloneSpares(one.disk, w, created[..n], created[n].path, n);
      }
    }
  }

  /** Left alone, the writer unlinks nobody else's file, whatever fails. */
  lemma LeftAloneNothingIsLost(d: Disk, w: World, targets: set<string>, plan: seq<File>)
    requires LeavesAlone(w) && d.data == []
    ensures WriteSetupPlan(d, w, targets, plan).0.lost == d.lost
    ensures !WriteAll(d, w, plan).misread && !Rollback(d, w, plan).raced
  {
    AloneWriteAll(d, w, plan);
    AloneClean(WriteAll(d, w, plan).disk, w, WriteAll(d, w, plan).created, plan);
  }

  /**
   * Left alone, a failed run leaves none of its files behind if and only if none went unregistered and
   * no clean-up call failed.
   */
  lemma RollbackIff(d: Disk, w: World, targets: set<string>, plan: seq<File>)
    requires Fair(w) && LeavesAlone(w) && d.data == [] && (forall p :: p in d.names ==> d.names[p] < 0)
    requires WriteSetupPlan(d, w, targets, plan).1 == RolledBack
    ensures var after := WriteSetupPlan(d, w, targets, plan).0;
      (forall p :: p in after.names ==> after.names[p] < 0) <==>
      !WriteAll(d, w, plan).leaked && !Rollback(d, w, plan).failed
  {
    var b := WriteAll(d, w, plan);
    AloneWriteAll(d, w, plan);
    AloneClean(b.disk, w, b.created, plan);
    if b.leaked {
      var n := |b.created|;
      AloneSpares(b.disk, w, b.created, plan[n].path, n);
    } else if !Rollback(d, w, plan).failed {
      forall p | p in Rollback(d, w, plan).disk.names ensures Rollback(d, w, plan).disk.names[p] < 0 {
        RollbackRemovesEverything(d, w, targets, plan, p);
      }
    }
  }

  // ---- Undisturbed runs, exactly ----

  function Extend(names: map<string, int>, recs: seq<Rec>): map<string, int> {
    if recs == [] then names else Extend(names, recs[..|recs| - 1])[recs[|recs| - 1].path := recs[|recs| - 1].ino]
  }

  /** Each file went to a path that was free when its turn came. */
  ghost predicate FreshIn(names: map<string, int>, recs: seq<Rec>) {
    forall k :: 0 <= k < |recs| ==> recs[k].path !in Extend(names, recs[..k])
  }

  lemma QuietWriteFile(d: Disk, w: World, path: string, content: string)
    requires Quiet(w)
    ensures var m := WriteFile(d, w, path, content);
      && (m.rec.Some? ==>
            && path !in d.names && m.rec.value == Rec(path, |d.data|)
            && m.disk.names == d.names[path := |d.data|] && !m.leaked)
      && (m.rec.None? && !m.leaked ==> m.disk.names == d.names)
      && (m.leaked ==> m.rec.None? && path !in d.names && m.disk.names == d.names[path := |d.data|])
  {
  }

  ghost predicate OneMore(names: map<string, int>, more: map<string, int>, p: string, ino: int) {
    p !in names && more == names[p := ino]
  }

  /** The registered files are all there is on top of the old paths, but for a leaked one. */
  ghost predicate OnTop(names: map<string, int>, b: Batch) {
    && FreshIn(names, b.created)
    && if b.leaked then exists p, ino :: OneMore(Extend(names, b.created), b.disk.names, p, ino)
       else b.disk.names == Extend(names, b.created)
  }

  lemma {:induction false} QuietWriteAll(d: Disk, w: World, plan: seq<File>)
    requires Quiet(w)
    ensures OnTop(d.names, WriteAll(d, w, plan))
    ensures WriteAll(d, w, plan).ok ==> !WriteAll(d, w, plan).leaked
  {
    if plan != [] {
      var n := |plan| - 1;
      QuietWriteAll(d, w, plan[..n]);
      var b := WriteAll(d, w, plan[..n]);
      if b.ok {
        QuietWriteFile(b.disk, w, plan[n].path, plan[n].content);
        var m := WriteFile(b.disk, w, plan[n].path, plan[n].content);
        if m.rec.Some? {
          FreshNext(d.names, b.created, m.rec.value);
        } else {
          assert b.created + [] == b.created;
          assert m.leaked ==> OneMore(Extend(d.names, b.created), m.disk.names, plan[n].path, |b.disk.data|);
        }
      }
    }
  }

  lemma FreshNext(names: map<string, int>, recs: seq<Rec>, r: Rec)
    requires FreshIn(names, recs) && r.path !in Extend(names, recs)
    ensures FreshIn(names, recs + [r]) && Extend(names, recs + [r]) == Extend(names, recs)[r.path := r.ino]
  {
    var all := recs + [r];
    assert all[..|recs|] == recs;
    forall k | 0 <= k < |all| ensures all[k].path !in Extend(names, all[..k]) {
      if k < |recs| {
        assert all[..k] == recs[..k];
      }
    }
  }

  lemma {:induction false} ExtendKeys(names: map<string, int>, recs: seq<Rec>)
    ensures names.Keys <= Extend(names, recs).Keys
    ensures forall r | r in recs :: r.path in Extend(names, recs)
  {
    if recs != [] {
      ExtendKeys(names, recs[..|recs| - 1]);
      assert recs == recs[..|recs| - 1] + [recs[|recs| - 1]];
    }
  }

  /** A path none of the records name survives the clean-up. */
  lemma {:induction false} CleanSpares(d: Disk, w: World, created: seq<Rec>, p: string)
    requires Quiet(w) && p in d.names && forall r | r in created :: r.path != p
    ensures p in Clean(d, w, created).disk.names
    decreases |created|
  {
    if created != [] {
      var n := |created| - 1;
      assert created[n] in created;
      CleanSpares(CleanOne(d, w, created[n]).disk, w, created[..n], p);
    }
  }

  lemma QuietCleanOne(d: Disk, w: World, names: map<string, int>, r: Rec)
    requires Quiet(w) && OneMore(names, d.names, r.path, r.ino)
    ensures CleanOne(d, w, r).disk.names == if CleanOne(d, w, r).failed then d.names else names
  {
    assert names[r.path := r.ino] - {r.path} == names;
  }

  lemma FreshInit(names: map<string, int>, recs: seq<Rec>)
    requires FreshIn(names, recs) && recs != []
    ensures FreshIn(names, recs[..|recs| - 1]) && recs[|recs| - 1].path !in Extend(names, recs[..|recs| - 1])
  {
    assert forall k :: 0 <= k < |recs| - 1 ==> recs[..|recs| - 1][..k] == recs[..k];
  }

  lemma {:induction false} QuietClean(d: Disk, w: World, names: map<string, int>, created: seq<Rec>)
    requires Quiet(w) && FreshIn(names, created) && d.names == Extend(names, created)
    ensures Clean(d, w, created).disk.names == names <==> !Clean(d, w, created).failed
    decreases |created|
  {
    if created != [] {
      var init, r := created[..|created| - 1], created[|created| - 1];
      FreshInit(names, created);
      QuietCleanOne(d, w, Extend(names, init), r);
      var one := CleanOne(d, w, r);
      if one.failed {
        ExtendKeys(names, init);
        CleanSpares(one.disk, w, init, r.path);
      } else {
        QuietClean(one.disk, w, names, init);
      }
    }
  }

  /**
   * With nobody else about, a failed run leaves every path exactly as it found it if and only if no
   * created file went unregistered and no clean-up call failed.
   */
  lemma QuietRollbackIff(d: Disk, w: World, targets: set<string>, plan: seq<File>)
    requires Quiet(w) && WriteSetupPlan(d, w, targets, plan).1 == RolledBack
    ensures WriteSetupPlan(d, w, targets, plan).0.names == d.names <==>
            !WriteAll(d, w, plan).leaked && !Rollback(d, w, plan).failed
  {
    QuietWriteAll(d, w, plan);
    var b := WriteAll(d, w, plan);
    if b.leaked {
      var p, ino :| OneMore(Extend(d.names, b.created), b.disk.names, p, ino);
      ExtendKeys(d.names, b.created);
      CleanSpares(b.disk, w, b.created, p);
    } else {
      QuietClean(b.disk, w, d.names, b.created);
    }
  }

  /** With nobody else about, a written plan adds its files and changes no other path. */
  lemma QuietWriteAdds(d: Disk, w: World, targets: set<string>, plan: seq<File>, p: string)
    requires Quiet(w) && WriteSetupPlan(d, w, targets, plan).1 == Written && p in d.names
    ensures var after := WriteSetupPlan(d, w, targets, plan).0; p in after.names && after.names[p] == d.names[p]
  {
    QuietWriteAll(d, w, plan);
    ExtendSpares(d.names, WriteAll(d, w, plan).created, p);
  }

  lemma {:induction false} ExtendSpares(names: map<string, int>, recs: seq<Rec>, p: string)
    requires FreshIn(names, recs) && p in names
    ensures p in Extend(names, recs) && Extend(names, recs)[p] == names[p]
  {
    if recs != [] {
      var n := |recs| - 1;
      FreshInit(names, recs);
      ExtendKeys(names, recs[..n]);
      ExtendSpares(names, recs[..n], p);
    }
  }

  // ---- When it succeeds, and when it is refused ----

  /** Every file of the plan has a path of its own, and nothing is there yet. */
  ghost predicate Room(names: map<string, int>, plan: seq<File>) {
    forall i :: 0 <= i < |plan| ==>
      plan[i].path !in names && forall j :: 0 <= j < i ==> plan[j].path != plan[i].path
  }

  function Paths(plan: seq<File>): set<string> {
    set i | 0 <= i < |plan| :: plan[i].path
  }

  /** None of the `n` calls from here on fails. */
  ghost predicate Smooth(d: Disk, w: World, n: nat) {
    forall k :: d.calls <= k < d.calls + n ==> !w.fail(k)
  }

  lemma SmoothWriteFile(d: Disk, w: World, path: string, content: string)
    requires Quiet(w)
    ensures var m := WriteFile(d, w, path, content);
      && (m.ok <==> path !in d.names && Smooth(d, w, 5))
      && (m.ok ==> m.disk.names.Keys == d.names.Keys + {path} && m.disk.calls == d.calls + 5)
  {
  }

  lemma RoomNext(names: map<string, int>, now: map<string, int>, plan: seq<File>)
    requires plan != [] && Room(names, plan[..|plan| - 1])
    requires now.Keys == names.Keys + Paths(plan[..|plan| - 1])
    ensures Room(names, plan) <==> plan[|plan| - 1].path !in now
    ensures Paths(plan) == Paths(plan[..|plan| - 1]) + {plan[|plan| - 1].path}
  {
    var n := |plan| - 1;
    assert forall i :: 0 <= i < n ==> plan[..n][i] == plan[i];
    if plan[n].path in Paths(plan[..n]) {
      var i :| 0 <= i < n && plan[..n][i].path == plan[n].path;
    }
  }

  lemma RoomLess(names: map<string, int>, plan: seq<File>)
    requires plan != [] && Room(names, plan)
    ensures Room(names, plan[..|plan| - 1])
  {
    assert forall i :: 0 <= i < |plan| - 1 ==> plan[..|plan| - 1][i] == plan[i];
  }

  lemma {:induction false} SmoothWriteAll(d: Disk, w: World, plan: seq<File>)
    requires Quiet(w)
    ensures var b := WriteAll(d, w, plan);
      && (b.ok <==> Room(d.names, plan) && Smooth(d, w, 5 * |plan|))
      && (b.ok ==> b.disk.names.Keys == d.names.Keys + Paths(plan) && b.disk.calls == d.calls + 5 * |plan|)
    decreases |plan|
  {
    if plan != [] {
      var n := |plan| - 1;
      SmoothWriteAll(d, w, plan[..n]);
      var b := WriteAll(d, w, plan[..n]);
      if b.ok {
        SmoothWriteFile(b.disk, w, plan[n].path, plan[n].content);
        RoomNext(d.names, b.disk.names, plan);
      } else if Room(d.names, plan) {
        RoomLess(d.names, plan);
      }
    }
  }

  /**
   * Any target that exists refuses the plan before a single call is made, whatever else the plan holds and
   * whatever the others do, and nothing else refuses it. With nobody else about, a plan that is not refused is
   * written exactly when every file has a path of its own that is free and none of the five calls a file takes
   * fails.
   */
  lemma OutcomeIff(d: Disk, w: World, targets: set<string>, plan: seq<File>)
    ensures var (after, outcome) := WriteSetupPlan(d, w, targets, plan);
      && (outcome == Refused <==> exists t :: t in targets && t in d.names)
      && (outcome == Refused ==> after == d)
      && (Quiet(w) ==>
            (outcome == Written <==>
             (forall t :: t in targets ==> t !in d.names) && Room(d.names, plan) && Smooth(d, w, 5 * |plan|)))
  {
    if Quiet(w) {
      SmoothWriteAll(d, w, plan);
    }
  }

  // ---- The promise does fail ----

  const EMPTY_DISK := Disk(map[], [], 0, [])
  const ONE_FILE := [File("f", "x")]

  lemma OneFile(d: Disk, w: World)
    ensures WriteAll(d, w, ONE_FILE) ==
      var m := WriteFile(d, w, "f", "x");
      Batch(m.disk, m.ok, if m.rec.Some? then [m.rec.value] else [], m.leaked, m.misread)
  {
    assert ONE_FILE[..0] == [];
  }

  lemma CleanSingle(d: Disk, w: World, r: Rec)
    ensures Clean(d, w, [r]).disk == CleanOne(d, w, r).disk
  {
    assert [r][..0] == [];
  }

  /** fstat and then close fail: the new file is never registered, and no clean-up call is even made. */
  lemma LeakAfterFstatAndClose()
    ensures var w := World(k => k == 2 || k == 3, (k, names) => names);
      var r := WriteSetupPlan(EMPTY_DISK, w, {}, ONE_FILE);
      r.1 == RolledBack && "f" in r.0.names && r.0.names["f"] == 0 && r.0.calls == 5
  {
    OneFile(EMPTY_DISK, World(k => k == 2 || k == 3, (k, names) => names));
  }

  /** Another process replaces the file between the clean-up's stat and its unlink, and loses its own. */
  lemma RaceAtUnlink()
    ensures var w := World(k => k == 3, (k: nat, names: map<string, int>) => if k == 6 then map["f" := -1] else names);
      Fair(w) && WriteSetupPlan(EMPTY_DISK, w, {}, ONE_FILE).0.lost == ["f"]
  {
    var w := World(k => k == 3, (k: nat, names: map<string, int>) => if k == 6 then map["f" := -1] else names);
    OneFile(EMPTY_DISK, w);
    var m := WriteFile(EMPTY_DISK, w, "f", "x");
    assert m.rec == Some(Rec("f", 0)) && m.disk.calls == 5 && m.disk.names == map["f" := 0];
    CleanSingle(m.disk, w, Rec("f", 0));
  }

  /** Another process replaces the file between the open and the fallback stat: it is registered, then unlinked. */
  lemma RaceAtFallback()
    ensures var w := World(k => k == 2, (k: nat, names: map<string, int>) => if k == 4 then map["f" := -1] else names);
      Fair(w) && WriteSetupPlan(EMPTY_DISK, w, {}, ONE_FILE).0.lost == ["f"]
  {
    var w := World(k => k == 2, (k: nat, names: map<string, int>) => if k == 4 then map["f" := -1] else names);
    OneFile(EMPTY_DISK, w);
    var m := WriteFile(EMPTY_DISK, w, "f", "x");
    assert m.rec == Some(Rec("f", -1)) && m.disk.calls == 5 && m.disk.names == map["f" := -1];
    CleanSingle(m.disk, w, Rec("f", -1));
  }
}
