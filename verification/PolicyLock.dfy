/** Any number of writePolicy calls on one file, serialised by a lock file (policy-write.mjs). */
module PolicyLock {
  import opened Common
  import opened PolicyText
  import opened PolicyLaws
  import opened PolicyBatch

  type Id = nat

  type Text = seq<Line>

  type Job = u: seq<Update> | forall i :: 0 <= i < |u| ==> u[i].path != []
    witness []

  /**
   * Where a call stands: polling for the lock; inside the try block - after the backup, after the
   * read; in the finally block; back with the caller; thrown before the try block; dead.
   */
  datatype Phase =
    | Waiting(deadline: int)
    | Holding
    | BackedUp
    | HasRead(text: Text)
    | Leaving
    | Finished
    | TimedOut
    | Dead

  /** `order`, `wrote` and `backups` record who took the lock, who has written, and what each saved first. */
  datatype State = State(file: Text, locked: bool, phases: map<Id, Phase>, jobs: map<Id, Job>,
                         order: seq<Id>, wrote: set<Id>, backups: map<Id, Text>)

  datatype Step =
    | Begin(w: Id, job: Job, now: int)
    | TryLock(w: Id, now: int)
    | Backup(w: Id)
    | Read(w: Id)
    | Write(w: Id)
    | Fail(w: Id)
    | Unlink(w: Id)
    | UnlinkFails(w: Id)
    | Crash(w: Id)

  const TIMEOUT_MS := 2000

  predicate InTry(p: Phase) {
    p.Holding? || p.BackedUp? || p.HasRead?
  }

  function Moved(s: State, w: Id, p: Phase): State {
    s.(phases := s.phases[w := p])
  }

  /** One file operation of one call; an operation the call is not up to changes nothing. */
  function Apply(s: State, step: Step): State {
    var w := step.w;
    match step
    case Begin(_, job, now) =>
      if w in s.phases then s else Moved(s, w, Waiting(now + TIMEOUT_MS)).(jobs := s.jobs[w := job])
    case TryLock(_, now) =>
      if w !in s.phases || !s.phases[w].Waiting? then s
      else if !s.locked then Moved(s, w, Holding).(locked := true, order := s.order + [w])
      else if now >= s.phases[w].deadline then Moved(s, w, TimedOut)
      else s
    case Backup(_) =>
      if w in s.phases && s.phases[w].Holding? then Moved(s, w, BackedUp).(backups := s.backups[w := s.file]) else s
    case Read(_) =>
      if w in s.phases && s.phases[w].BackedUp? then Moved(s, w, HasRead(s.file)) else s
    case Write(_) =>
      if w in s.phases && s.phases[w].HasRead? && w in s.jobs
      then Moved(s, w, Leaving).(file := SetAll(s.phases[w].text, s.jobs[w]), wrote := s.wrote + {w}) else s
    case Fail(_) =>
      if w in s.phases && InTry(s.phases[w]) then Moved(s, w, Leaving) else s
    case Unlink(_) =>
      if w in s.phases && s.phases[w].Leaving? then Moved(s, w, Finished).(locked := false) else s
    case UnlinkFails(_) =>
      if w in s.phases && s.phases[w].Leaving? then Moved(s, w, Finished) else s
    case Crash(_) =>
      if w in s.phases && !s.phases[w].Finished? && !s.phases[w].TimedOut? then Moved(s, w, Dead) else s
  }

  function Run(s: State, steps: seq<Step>): State {
    if steps == [] then s else Apply(Run(s, steps[..|steps| - 1]), steps[|steps| - 1])
  }

  function Fresh(file: Text): State {
    State(file, false, map[], map[], [], {}, map[])
  }

  /** The jobs of those who have written, among the first `n` to take the lock, applied in that order. */
  function Folded(file: Text, order: seq<Id>, n: nat, jobs: map<Id, Job>, wrote: set<Id>): Text
    requires n <= |order|
    decreases n
  {
    if n == 0 then file
    else
      var before, w := Folded(file, order, n - 1, jobs, wrote), order[n - 1];
      if w in wrote && w in jobs then SetAll(before, jobs[w]) else before
  }

  lemma {:induction false} FoldedFrame(file: Text, order: seq<Id>, n: nat, jobs: map<Id, Job>, wrote: set<Id>,
                                       jobs': map<Id, Job>, wrote': set<Id>)
    requires n <= |order|
    requires forall i :: 0 <= i < n ==> (order[i] in wrote <==> order[i] in wrote')
    requires forall i :: 0 <= i < n ==> (order[i] in jobs <==> order[i] in jobs')
    requires forall i :: 0 <= i < n && order[i] in jobs ==> jobs[order[i]] == jobs'[order[i]]
    ensures Folded(file, order, n, jobs, wrote) == Folded(file, order, n, jobs', wrote')
    decreases n
  {
    if n > 0 {
      FoldedFrame(file, order, n - 1, jobs, wrote, jobs', wrote');
    }
  }

  // ---- The invariant ----

  predicate BeforeLock(p: Phase) {
    p.Waiting? || p.TimedOut? || p.Dead?
  }

  /**
   * Those who took the lock are known and distinct; all but the last are done, and so is the last once
   * the lock is free.
   */
  ghost predicate Serial(s: State) {
    && NoDup(s.order)
    && (forall w :: w in s.phases <==> w in s.jobs)
    && (forall i :: 0 <= i < |s.order| ==>
          s.order[i] in s.phases && !s.phases[s.order[i]].Waiting? && !s.phases[s.order[i]].TimedOut?)
    && (forall i :: 0 <= i < |s.order| && (i < |s.order| - 1 || !s.locked) ==> s.phases[s.order[i]].Finished?)
    && (forall w :: w in s.phases && w !in s.order ==> BeforeLock(s.phases[w]))
    && (s.locked ==> s.order != [])
  }

  /** The file is the fold, the holder's copy is the file, and nobody counts as a writer before writing. */
  ghost predicate Exact(file: Text, s: State) {
    && s.file == Folded(file, s.order, |s.order|, s.jobs, s.wrote)
    && (forall w :: w in s.phases && s.phases[w].HasRead? ==> s.phases[w].text == s.file)
    && (forall w :: w in s.wrote ==> w in s.order && w in s.phases && !InTry(s.phases[w]))
  }

  /** Every backup is the file as it was before its writer changed it; nobody writes without one. */
  ghost predicate Saved(file: Text, s: State) {
    && (forall i :: 0 <= i < |s.order| && s.order[i] in s.backups ==>
          s.backups[s.order[i]] == Folded(file, s.order, i, s.jobs, s.wrote))
    && (forall w :: w in s.phases && (s.phases[w].BackedUp? || s.phases[w].HasRead?) ==> w in s.backups)
    && (forall w :: w in s.wrote ==> w in s.backups)
    && (forall w :: w in s.backups ==> w in s.order)
  }

  ghost predicate Inv(file: Text, s: State) {
    Serial(s) && Exact(file, s) && Saved(file, s)
  }

  /** Whoever is between taking the lock and giving it back is the last who took it, and the lock is held. */
  lemma OnlyTheHolderActs(s: State, w: Id)
    requires Serial(s) && w in s.phases && (InTry(s.phases[w]) || s.phases[w].Leaving?)
    ensures s.locked && s.order != [] && s.order[|s.order| - 1] == w
  {
    assert w in s.order;
    var i :| 0 <= i < |s.order| && s.order[i] == w;
  }

  function Begun(s: State, w: Id, job: Job, now: int): State {
    Moved(s, w, Waiting(now + TIMEOUT_MS)).(jobs := s.jobs[w := job])
  }

  lemma BeginFolds(file: Text, s: State, w: Id, job: Job, i: nat)
    requires w !in s.order && i <= |s.order|
    ensures Folded(file, s.order, i, s.jobs, s.wrote) == Folded(file, s.order, i, s.jobs[w := job], s.wrote)
  {
    FoldedFrame(file, s.order, i, s.jobs, s.wrote, s.jobs[w := job], s.wrote);
  }

  lemma BeginKeepsExact(file: Text, s: State, w: Id, job: Job, now: int)
    requires Exact(file, s) && w !in s.phases && w !in s.order
    ensures Exact(file, Begun(s, w, job, now))
  {
    BeginFolds(file, s, w, job, |s.order|);
  }

  lemma BeginKeepsSaved(file: Text, s: State, w: Id, job: Job, now: int)
    requires Saved(file, s) && w !in s.phases && w !in s.order
    ensures Saved(file, Begun(s, w, job, now))
  {
    forall i | 0 <= i < |s.order|
      ensures Folded(file, s.order, i, s.jobs, s.wrote) == Folded(file, s.order, i, s.jobs[w := job], s.wrote)
    {
      BeginFolds(file, s, w, job, i);
    }
  }

  lemma BeginKeepsSerial(s: State, w: Id, job: Job, now: int)
    requires Serial(s) && w !in s.phases
    ensures w !in s.order && Serial(Begun(s, w, job, now))
  {
  }

  lemma BegunKeepsInv(file: Text, s: State, w: Id, job: Job, now: int)
    requires Inv(file, s) && w !in s.phases
    ensures Inv(file, Begun(s, w, job, now))
  {
    BeginKeepsSerial(s, w, job, now);
    BeginKeepsExact(file, s, w, job, now);
    BeginKeepsSaved(file, s, w, job, now);
  }

  lemma BeginKeepsInv(file: Text, s: State, w: Id, job: Job, now: int)
    requires Inv(file, s)
    ensures Inv(file, Apply(s, Begin(w, job, now)))
  {
    if w !in s.phases {
      BegunKeepsInv(file, s, w, job, now);
      assert Apply(s, Begin(w, job, now)) == Begun(s, w, job, now);
    }
  }

  function Taken(s: State, w: Id): State {
    Moved(s, w, Holding).(locked := true, order := s.order + [w])
  }

  lemma OrderGrows(order: seq<Id>, w: Id, v: Id)
    ensures v in order + [w] <==> v in order || v == w
  {
    assert (order + [w])[|order|] == w;
  }

  lemma TakeLockKeepsSerial(s: State, w: Id)
    requires Serial(s) && w in s.phases && s.phases[w].Waiting? && !s.locked
    ensures Serial(Taken(s, w))
  {
    assert w !in s.order;
    forall v ensures v in Taken(s, w).order <==> v in s.order || v == w {
      OrderGrows(s.order, w, v);
    }
  }

  lemma {:induction false} FoldedAppend(file: Text, s: State, w: Id, n: nat)
    requires n <= |s.order|
    ensures Folded(file, s.order + [w], n, s.jobs, s.wrote) == Folded(file, s.order, n, s.jobs, s.wrote)
    decreases n
  {
    if n > 0 {
      FoldedAppend(file, s, w, n - 1);
    }
  }

  lemma TakeLockKeepsExact(file: Text, s: State, w: Id)
    requires Exact(file, s) && w in s.phases && s.phases[w].Waiting? && w !in s.order
    ensures Exact(file, Taken(s, w))
  {
    assert w !in s.wrote;
    FoldedAppend(file, s, w, |s.order|);
    forall v ensures v in Taken(s, w).order <==> v in s.order || v == w {
      OrderGrows(s.order, w, v);
    }
  }

  lemma TakeLockKeepsSaved(file: Text, s: State, w: Id)
    requires Saved(file, s) && w !in s.order
    ensures Saved(file, Taken(s, w))
  {
    var s' := Taken(s, w);
    forall i | 0 <= i < |s'.order| && s'.order[i] in s'.backups
      ensures s'.backups[s'.order[i]] == Folded(file, s'.order, i, s'.jobs, s'.wrote)
    {
      FoldedAppend(file, s, w, i);
    }
    forall v ensures v in s'.order <==> v in s.order || v == w {
      OrderGrows(s.order, w, v);
    }
  }

  lemma TryLockKeepsInv(file: Text, s: State, w: Id, now: int)
    requires Inv(file, s)
    ensures Inv(file, Apply(s, TryLock(w, now)))
  {
    if w in s.phases && s.phases[w].Waiting? {
      assert w !in s.order;
      if !s.locked {
        TakeLockKeepsSerial(s, w);
        TakeLockKeepsExact(file, s, w);
        TakeLockKeepsSaved(file, s, w);
      } else if now >= s.phases[w].deadline {
        WaiterMoves(file, s, w, TimedOut);
      }
    }
  }

  /** The records behind a phase: a copy read is the file, and nobody reads or backs up twice. */
  predicate Backed(s: State, w: Id, p: Phase) {
    && (p.HasRead? ==> p.text == s.file)
    && (p.HasRead? || p.BackedUp? ==> w in s.backups)
    && (w in s.wrote ==> !InTry(p))
  }

  lemma PhaseKeepsExact(file: Text, s: State, w: Id, p: Phase, locked: bool)
    requires Exact(file, s) && Backed(s, w, p)
    ensures Exact(file, Moved(s, w, p).(locked := locked))
  {
  }

  lemma PhaseKeepsSaved(file: Text, s: State, w: Id, p: Phase, locked: bool)
    requires Saved(file, s) && Backed(s, w, p)
    ensures Saved(file, Moved(s, w, p).(locked := locked))
  {
  }

  lemma HolderKeepsSerial(s: State, w: Id, p: Phase)
    requires Serial(s) && w in s.phases && (InTry(s.phases[w]) || s.phases[w].Leaving?)
    requires !p.Waiting? && !p.TimedOut?
    ensures Serial(Moved(s, w, p))
  {
    OnlyTheHolderActs(s, w);
  }

  /** A step of the holder that leaves file and lock alone. */
  lemma HolderMoves(file: Text, s: State, w: Id, p: Phase)
    requires Inv(file, s) && w in s.phases && (InTry(s.phases[w]) || s.phases[w].Leaving?)
    requires !p.Waiting? && !p.TimedOut? && Backed(s, w, p)
    ensures Inv(file, Moved(s, w, p))
  {
    HolderKeepsSerial(s, w, p);
    PhaseKeepsExact(file, s, w, p, s.locked);
    PhaseKeepsSaved(file, s, w, p, s.locked);
    assert Moved(s, w, p).(locked := s.locked) == Moved(s, w, p);
  }

  lemma HoldingWasNotSaved(file: Text, s: State, w: Id)
    requires Serial(s) && Exact(file, s) && w in s.phases && s.phases[w].Holding?
    ensures w !in s.wrote && s.order != [] && s.order[|s.order| - 1] == w
  {
    OnlyTheHolderActs(s, w);
  }

  lemma FoldBeforeHolder(file: Text, s: State, w: Id)
    requires Exact(file, s) && w !in s.wrote && s.order != [] && s.order[|s.order| - 1] == w
    ensures s.file == Folded(file, s.order, |s.order| - 1, s.jobs, s.wrote)
  {
  }

  lemma BackupKeepsSaved(file: Text, s: State, w: Id)
    requires Inv(file, s) && w in s.phases && s.phases[w].Holding?
    ensures Inv(file, s.(backups := s.backups[w := s.file])) && w !in s.wrote
  {
    HoldingWasNotSaved(file, s, w);
    FoldBeforeHolder(file, s, w);
    var s' := s.(backups := s.backups[w := s.file]);
    forall i | 0 <= i < |s.order| && s.order[i] in s'.backups
      ensures s'.backups[s.order[i]] == Folded(file, s.order, i, s.jobs, s.wrote)
    {
      assert s.order[i] == w ==> i == |s.order| - 1;
    }
  }

  lemma BackupKeepsInv(file: Text, s: State, w: Id)
    requires Inv(file, s)
    ensures Inv(file, Apply(s, Backup(w)))
  {
    if w in s.phases && s.phases[w].Holding? {
      var saved := s.(backups := s.backups[w := s.file]);
      BackupKeepsSaved(file, s, w);
      HolderMoves(file, saved, w, BackedUp);
    }
  }

  function Put(s: State, w: Id, text: Text): State {
    Moved(s, w, Leaving).(file := text, wrote := s.wrote + {w})
  }

  /** Only the last in lock order has become a writer, so all earlier folds are what they were. */
  lemma EarlierFolds(file: Text, s: State, w: Id, i: nat)
    requires NoDup(s.order) && s.order != [] && s.order[|s.order| - 1] == w && i < |s.order|
    ensures Folded(file, s.order, i, s.jobs, s.wrote) == Folded(file, s.order, i, s.jobs, s.wrote + {w})
  {
    FoldedFrame(file, s.order, i, s.jobs, s.wrote, s.jobs, s.wrote + {w});
  }

  /** A write changes the fold by the holder's job. */
  lemma WriteFolds(file: Text, s: State, w: Id)
    requires NoDup(s.order) && s.order != [] && s.order[|s.order| - 1] == w && w !in s.wrote && w in s.jobs
    ensures Folded(file, s.order, |s.order|, s.jobs, s.wrote + {w}) ==
            SetAll(Folded(file, s.order, |s.order|, s.jobs, s.wrote), s.jobs[w])
  {
    EarlierFolds(file, s, w, |s.order| - 1);
  }

  lemma NobodyElseHasRead(s: State, w: Id, v: Id)
    requires Serial(s) && w in s.phases && s.phases[w].HasRead? && v in s.phases && v != w
    ensures !s.phases[v].HasRead?
  {
    OnlyTheHolderActs(s, w);
    if s.phases[v].HasRead? {
      OnlyTheHolderActs(s, v);
    }
  }

  lemma WriteKeepsExact(file: Text, s: State, w: Id)
    requires Serial(s) && Exact(file, s) && w in s.phases && s.phases[w].HasRead? && w in s.jobs
    ensures Exact(file, Put(s, w, SetAll(s.phases[w].text, s.jobs[w])))
  {
    OnlyTheHolderActs(s, w);
    assert w !in s.wrote;
    WriteFolds(file, s, w);
    forall v | v in s.phases && v != w ensures !s.phases[v].HasRead? {
      NobodyElseHasRead(s, w, v);
    }
  }

  lemma WriteKeepsSaved(file: Text, s: State, w: Id, text: Text)
    requires Serial(s) && Saved(file, s) && w in s.phases && s.phases[w].HasRead?
    ensures Saved(file, Put(s, w, text))
  {
    OnlyTheHolderActs(s, w);
    forall i | 0 <= i < |s.order|
      ensures Folded(file, s.order, i, s.jobs, s.wrote) == Folded(file, s.order, i, s.jobs, s.wrote + {w})
    {
      EarlierFolds(file, s, w, i);
    }
  }

  lemma WriteKeepsSerial(s: State, w: Id, text: Text)
    requires Serial(s) && w in s.phases && s.phases[w].HasRead?
    ensures Serial(Put(s, w, text))
  {
    OnlyTheHolderActs(s, w);
  }

  lemma WriteKeepsInv(file: Text, s: State, w: Id)
    requires Inv(file, s)
    ensures Inv(file, Apply(s, Write(w)))
  {
    if w in s.phases && s.phases[w].HasRead? {
      var text := SetAll(s.phases[w].text, s.jobs[w]);
      WriteKeepsSerial(s, w, text);
      WriteKeepsExact(file, s, w);
      WriteKeepsSaved(file, s, w, text);
      assert Apply(s, Write(w)) == Put(s, w, text);
    }
  }

  lemma UnlinkKeepsSerial(s: State, w: Id, locked: bool)
    requires Serial(s) && w in s.phases && s.phases[w].Leaving? && (locked ==> s.locked)
    ensures Serial(Moved(s, w, Finished).(locked := locked))
  {
    OnlyTheHolderActs(s, w);
  }

  lemma UnlinkKeepsInv(file: Text, s: State, w: Id, locked: bool)
    requires Inv(file, s) && w in s.phases && s.phases[w].Leaving? && (locked ==> s.locked)
    ensures Inv(file, Moved(s, w, Finished).(locked := locked))
  {
    UnlinkKeepsSerial(s, w, locked);
    PhaseKeepsExact(file, s, w, Finished, locked);
    PhaseKeepsSaved(file, s, w, Finished, locked);
  }

  lemma WaiterKeepsSerial(s: State, w: Id, p: Phase)
    requires Serial(s) && w in s.phases && w !in s.order && BeforeLock(p)
    ensures Serial(Moved(s, w, p))
  {
  }

  lemma WaiterMoves(file: Text, s: State, w: Id, p: Phase)
    requires Inv(file, s) && w in s.phases && w !in s.order && BeforeLock(p)
    ensures Inv(file, Moved(s, w, p))
  {
    WaiterKeepsSerial(s, w, p);
    PhaseKeepsExact(file, s, w, p, s.locked);
    PhaseKeepsSaved(file, s, w, p, s.locked);
    assert Moved(s, w, p).(locked := s.locked) == Moved(s, w, p);
  }

  lemma CrashKeepsInv(file: Text, s: State, w: Id)
    requires Inv(file, s)
    ensures Inv(file, Apply(s, Crash(w)))
  {
    if w in s.phases {
      var p := s.phases[w];
      if InTry(p) {
        HolderMoves(file, s, w, Dead);
      } else if p.Leaving? {
        HolderMoves(file, s, w, Dead);
      } else if p.Waiting? {
        WaiterMoves(file, s, w, Dead);
      } else if p.Dead? {
        assert Moved(s, w, Dead) == s;
      }
    }
  }

  lemma StepKeepsInv(file: Text, s: State, step: Step)
    requires Inv(file, s)
    ensures Inv(file, Apply(s, step))
  {
    match step
    case Begin(w, job, now) => BeginKeepsInv(file, s, w, job, now);
    case TryLock(w, now) => TryLockKeepsInv(file, s, w, now);
    case Backup(w) => BackupKeepsInv(file, s, w);
    case Read(w) =>
      if w in s.phases && s.phases[w].BackedUp? {
        HolderMoves(file, s, w, HasRead(s.file));
      }
    case Write(w) => WriteKeepsInv(file, s, w);
    case Fail(w) =>
      if w in s.phases && InTry(s.phases[w]) {
        HolderMoves(file, s, w, Leaving);
      }
    case Unlink(w) =>
      if w in s.phases && s.phases[w].Leaving? {
        UnlinkKeepsInv(file, s, w, false);
      }
    case UnlinkFails(w) =>
      if w in s.phases && s.phases[w].Leaving? {
        UnlinkKeepsInv(file, s, w, s.locked);
      }
    case Crash(w) => CrashKeepsInv(file, s, w);
  }

  /**
   * In every interleaving the file is the fold of the jobs of those who have written, in the order
   * they took the lock, and every backup is what its writer found.
   */
  lemma {:induction false} RunKeepsInv(file: Text, steps: seq<Step>)
    ensures Inv(file, Run(Fresh(file), steps))
  {
    if steps != [] {
      RunKeepsInv(file, steps[..|steps| - 1]);
      StepKeepsInv(file, Run(Fresh(file), steps[..|steps| - 1]), steps[|steps| - 1]);
    }
  }

  /** Nobody but its holder ever removes the lock or changes the file - least of all a writer that timed out. */
  lemma OthersLeaveTheLock(file: Text, s: State, step: Step)
    requires Inv(file, s) && s.locked && step.w != s.order[|s.order| - 1]
    ensures Apply(s, step).locked && Apply(s, step).order == s.order && Apply(s, step).file == s.file
  {
    if step.w in s.phases && (InTry(s.phases[step.w]) || s.phases[step.w].Leaving?) {
      OnlyTheHolderActs(s, step.w);
    }
  }

  /** A holder that died, or could not unlink, keeps the lock for good. */
  ghost predicate Orphaned(s: State) {
    s.locked && s.order != [] && s.order[|s.order| - 1] in s.phases
    && (s.phases[s.order[|s.order| - 1]].Dead? || s.phases[s.order[|s.order| - 1]].Finished?)
  }

  lemma OthersKeepPhase(s: State, step: Step, v: Id)
    requires v in s.phases && step.w != v
    ensures v in Apply(s, step).phases && Apply(s, step).phases[v] == s.phases[v]
  {
  }

  lemma OrphanStays(file: Text, s: State, step: Step)
    requires Inv(file, s) && Orphaned(s)
    ensures Orphaned(Apply(s, step)) && Apply(s, step).file == s.file && Apply(s, step).order == s.order
  {
    var holder := s.order[|s.order| - 1];
    if step.w != holder {
      OthersLeaveTheLock(file, s, step);
      OthersKeepPhase(s, step, holder);
    }
  }

  /** After that no run changes the file, and every call that is polling at its deadline times out. */
  lemma {:induction false} OrphanedLockStopsEveryone(file: Text, s: State, steps: seq<Step>, w: Id, now: int)
    requires Inv(file, s) && Orphaned(s)
    ensures Inv(file, Run(s, steps)) && Orphaned(Run(s, steps)) && Run(s, steps).file == s.file
    ensures w in Run(s, steps).phases && Run(s, steps).phases[w].Waiting? && now >= Run(s, steps).phases[w].deadline ==>
            Apply(Run(s, steps), TryLock(w, now)).phases[w].TimedOut?
    decreases |steps|
  {
    if steps != [] {
      var init, last := steps[..|steps| - 1], steps[|steps| - 1];
      OrphanedLockStopsEveryone(file, s, init, w, now);
      OrphanStays(file, Run(s, init), last);
      StepKeepsInv(file, Run(s, init), last);
    }
  }

  // ---- No update is lost ----

  /** All updates of those who have written, among the first `n` to take the lock, in that order. */
  function Landed(order: seq<Id>, n: nat, jobs: map<Id, Job>, wrote: set<Id>): Job
    requires n <= |order|
    decreases n
  {
    if n == 0 then []
    else
      var before, w := Landed(order, n - 1, jobs, wrote), order[n - 1];
      if w in wrote && w in jobs then before + jobs[w] else before
  }

  function AllLanded(s: State): Job {
    Landed(s.order, |s.order|, s.jobs, s.wrote)
  }

  lemma {:induction false} SetAllAppends(text: Text, a: Job, b: Job)
    ensures SetAll(SetAll(text, a), b) == SetAll(text, a + b)
    decreases |b|
  {
    if b == [] {
      assert a + b == a;
    } else {
      var init: Job, last := b[..|b| - 1], b[|b| - 1];
      SetAllAppends(text, a, init);
      assert (a + b)[..|a + b| - 1] == a + init && (a + b)[|a + b| - 1] == last;
      assert SetAll(text, a + b) == Set(SetAll(text, a + init), last.path, last.value);
    }
  }

  /** One more who took the lock: its job lands at the end, or not at all. */
  lemma LandsNext(file: Text, order: seq<Id>, n: nat, jobs: map<Id, Job>, wrote: set<Id>, before: Text, landed: Job)
    requires 0 < n <= |order| && before == SetAll(file, landed)
    requires before == Folded(file, order, n - 1, jobs, wrote) && landed == Landed(order, n - 1, jobs, wrote)
    ensures Folded(file, order, n, jobs, wrote) == SetAll(file, Landed(order, n, jobs, wrote))
  {
    var w := order[n - 1];
    if w in wrote && w in jobs {
      SetAllAppends(file, landed, jobs[w]);
      assert Landed(order, n, jobs, wrote) == landed + jobs[w];
      assert Folded(file, order, n, jobs, wrote) == SetAll(before, jobs[w]);
    }
  }

  lemma {:induction false} FoldedIsLanded(file: Text, order: seq<Id>, n: nat, jobs: map<Id, Job>, wrote: set<Id>)
    requires n <= |order|
    ensures Folded(file, order, n, jobs, wrote) == SetAll(file, Landed(order, n, jobs, wrote))
    decreases n
  {
    if n > 0 {
      FoldedIsLanded(file, order, n - 1, jobs, wrote);
      LandsNext(file, order, n, jobs, wrote,
                Folded(file, order, n - 1, jobs, wrote), Landed(order, n - 1, jobs, wrote));
    }
  }

  /**
   * If the file was well-formed and all updates that landed are compatible, then whatever the interleaving
   * the file is well-formed and every path reads the last landed value for it, or else as it did at first.
   */
  lemma NoUpdateIsLost(file: Text, steps: seq<Step>, q: Path)
    requires WellFormed(file)
    requires Compatible(file, AllLanded(Run(Fresh(file), steps)))
    ensures var s := Run(Fresh(file), steps);
            && WellFormed(s.file)
            && Lookup(s.file, q) == LastValue(AllLanded(s), q).OrElse(Lookup(file, q))
  {
    var s := Run(Fresh(file), steps);
    RunKeepsInv(file, steps);
    FoldedIsLanded(file, s.order, |s.order|, s.jobs, s.wrote);
    BatchEffect(file, AllLanded(s), q);
  }

  // ---- The lock comes free again ----

  /**
   * A call that began at `begun` takes a free lock whenever it looks, late or not; on a held lock it gives up
   * at the first look two seconds after it began, and before that it waits. Neither touches file or lock.
   */
  lemma PollIff(s: State, w: Id, job: Job, begun: int, now: int)
    requires w !in s.phases
    ensures var b := Apply(s, Begin(w, job, begun));
      var s' := Apply(b, TryLock(w, now));
      && w in s'.phases && w in s'.jobs && s'.jobs[w] == job && s'.file == s.file
      && (if !s.locked then s'.phases[w].Holding? && s'.locked && s'.order == s.order + [w]
          else s'.locked && s'.order == s.order
               && (s'.phases[w].TimedOut? <==> now - begun >= 2000) && (s'.phases[w].Waiting? <==> now - begun < 2000))
  {
  }

  /** Once the holder has unlinked the lock, whoever looks first has it. */
  lemma UnlinkHandsOver(file: Text, s: State, w: Id, v: Id, now: int)
    requires Inv(file, s) && w in s.phases && s.phases[w].Leaving? && v in s.phases && s.phases[v].Waiting?
    ensures var s' := Apply(Apply(s, Unlink(w)), TryLock(v, now));
      s'.locked && s'.order == s.order + [v] && s'.phases[v].Holding? && s'.phases[w].Finished? && s'.file == s.file
  {
  }

  /** A call that fails inside its try block leaves the file as it is and the lock free. */
  lemma FailureFrees(file: Text, s: State, w: Id)
    requires Inv(file, s) && w in s.phases && InTry(s.phases[w])
    ensures var s' := Apply(Apply(s, Fail(w)), Unlink(w));
      !s'.locked && s'.file == s.file && w in s'.phases && s'.phases[w].Finished? && w !in s'.wrote
  {
    assert w !in s.wrote;
    assert Apply(s, Fail(w)) == Moved(s, w, Leaving);
    UnlinkFrees(Moved(s, w, Leaving), w);
  }

  lemma UnlinkFrees(s: State, w: Id)
    requires w in s.phases && s.phases[w].Leaving?
    ensures Apply(s, Unlink(w)) == Moved(s, w, Finished).(locked := false)
  {
  }

  /** A whole call, from taking the lock to having a copy of the file, and from there to giving the lock back. */
  function Entered(s: State, w: Id, now: int): State {
    Apply(Apply(Apply(s, TryLock(w, now)), Backup(w)), Read(w))
  }

  function Pass(s: State, w: Id, now: int): State {
    Apply(Apply(Entered(s, w, now), Write(w)), Unlink(w))
  }

  predicate Ready(s: State, w: Id) {
    w in s.phases && s.phases[w].Waiting? && w in s.jobs
  }

  lemma EnteredIs(s: State, w: Id, now: int)
    requires !s.locked && Ready(s, w)
    ensures Entered(s, w, now) == s.(phases := s.phases[w := HasRead(s.file)], locked := true,
                                     order := s.order + [w], backups := s.backups[w := s.file])
  {
    var taken := Apply(s, TryLock(w, now));
    assert taken == Taken(s, w);
    var saved := Apply(taken, Backup(w));
    assert saved == Moved(taken, w, BackedUp).(backups := s.backups[w := s.file]);
    assert s.phases[w := Holding][w := BackedUp][w := HasRead(s.file)] == s.phases[w := HasRead(s.file)];
  }

  /** The call has landed: its job is done on the file, the file before it is saved, and the lock is free. */
  ghost predicate HasLanded(s: State, s': State, w: Id)
    requires w in s.jobs
  {
    && !s'.locked && s'.file == SetAll(s.file, s.jobs[w]) && s'.jobs == s.jobs
    && w in s'.backups && s'.backups[w] == s.file && w in s'.wrote && s'.order == s.order + [w]
    && s'.phases == s.phases[w := Finished]
  }

  lemma PassLands(s: State, w: Id, now: int)
    requires !s.locked && Ready(s, w)
    ensures HasLanded(s, Pass(s, w, now), w)
  {
    EnteredIs(s, w, now);
    var mid := Apply(Entered(s, w, now), Write(w));
    assert mid.phases == s.phases[w := Leaving];
    UnlinkFrees(mid, w);
    assert s.phases[w := Leaving][w := Finished] == s.phases[w := Finished];
  }

  function Passes(s: State, ws: seq<Id>, now: Id -> int): State {
    if ws == [] then s else Pass(Passes(s, ws[..|ws| - 1], now), ws[|ws| - 1], now(ws[|ws| - 1]))
  }

  /** The jobs of these calls, one after another. */
  function JobsOf(jobs: map<Id, Job>, ws: seq<Id>): Job {
    if ws == [] then []
    else JobsOf(jobs, ws[..|ws| - 1]) + if ws[|ws| - 1] in jobs then jobs[ws[|ws| - 1]] else []
  }

  /** `s'` is `s` after these calls have landed one after another, and nothing else has happened. */
  ghost predicate AllHaveLanded(s: State, s': State, ws: seq<Id>) {
    && !s'.locked && s'.jobs == s.jobs && s'.file == SetAll(s.file, JobsOf(s.jobs, ws))
    && forall v :: v !in ws && v in s.phases ==> v in s'.phases && s'.phases[v] == s.phases[v]
  }

  lemma OneMoreLands(s: State, mid: State, s': State, ws: seq<Id>)
    requires ws != [] && AllHaveLanded(s, mid, ws[..|ws| - 1]) && ws[|ws| - 1] in mid.jobs
    requires HasLanded(mid, s', ws[|ws| - 1])
    ensures AllHaveLanded(s, s', ws)
  {
    var init, w := ws[..|ws| - 1], ws[|ws| - 1];
    SetAllAppends(s.file, JobsOf(s.jobs, init), s.jobs[w]);
    assert ws == init + [w];
  }

  /** Waiting calls that get their turn one after another all land, in that order, however late they are. */
  lemma {:induction false} SerialCallsLand(s: State, ws: seq<Id>, now: Id -> int)
    requires !s.locked && NoDup(ws) && forall w :: w in ws ==> Ready(s, w)
    ensures AllHaveLanded(s, Passes(s, ws, now), ws)
    decreases |ws|
  {
    if ws != [] {
      var init, w := ws[..|ws| - 1], ws[|ws| - 1];
      assert w !in init && Ready(s, w);
      SerialCallsLand(s, init, now);
      var mid := Passes(s, init, now);
      PassLands(mid, w, now(w));
      OneMoreLands(s, mid, Passes(s, ws, now), ws);
    }
  }

  // ---- The calls themselves ----

  /** The policy file and its lock, as one process sees them between the steps of others. */
  class Disk {
    var file: Text
    var locked: bool
    var backups: seq<Text>

    constructor (text: Text)
      ensures file == text && !locked && backups == []
    {
      file, locked, backups := text, false, [];
    }

    /** `openSync(lockPath, 'wx')`. */
    method CreateExclusive() returns (created: bool)
      modifies this`locked
      ensures created == !old(locked) && locked
    {
      created := !locked;
      locked := true;
    }

    /** Poll until the lock is free or the deadline has passed; `clock` gives the time of each poll. */
    method AcquireLock(clock: seq<int>) returns (acquired: bool)
      requires exists i :: 0 < i < |clock| && clock[i] >= clock[0] + TIMEOUT_MS
      modifies this`locked
      ensures acquired == !old(locked) && locked
    {
      var deadline := clock[0] + TIMEOUT_MS;
      var i := 1;
      while true
        invariant 1 <= i < |clock| && locked == old(locked)
        invariant exists j :: i <= j < |clock| && clock[j] >= deadline
        decreases |clock| - i
      {
        var created := CreateExclusive();
        if created {
          return true;
        }
        if clock[i] >= deadline {
          return false;
        }
        i := i + 1;
      }
    }

    /** A call nobody interferes with: on a held lock it throws and leaves everything alone, lock included. */
    method WritePolicy(updates: Job, clock: seq<int>) returns (text: Option<Text>)
      requires exists i :: 0 < i < |clock| && clock[i] >= clock[0] + TIMEOUT_MS
      modifies this
      ensures old(locked) ==> text == None && locked && file == old(file) && backups == old(backups)
      ensures !old(locked) ==>
              && text == Some(SetAll(old(file), updates)) && !locked
              && file == text.value && backups == old(backups) + [old(file)]
    {
      var acquired := AcquireLock(clock);
      if !acquired {
        return None;
      }
      backups := backups + [file];
      var written := ApplyUpdates(file, updates);
      file := written;
      locked := false;
      text := Some(written);
    }
  }
}
