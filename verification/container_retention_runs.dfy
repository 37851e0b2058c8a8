/** Write-ahead retention, over every run. */
module ContainerRetentionRuns {
  import opened ContainerMemory
  import opened MemoryManagement
  import opened ContainerRetention
  import opened ContainerRetentionSteps

  lemma StartKept(comp: string -> int, file: nat)
    requires file < NO_OFFSET.file
    ensures Kept(comp, Start(file))
  {
  }

  lemma KeptRetains(comp: string -> int, s: Wal)
    requires Kept(comp, s)
    ensures Retained(s)
  {
  }

  lemma QuietIsNotAhead(comp: string -> int, s: Wal, offset: Offset)
    requires Quiet(s)
    ensures NotAhead(comp, s, offset)
  {
  }

  lemma {:induction false} RunKeeps(comp: string -> int, s: Wal, steps: seq<Step>)
    requires Kept(comp, s) && Runs(comp, s, steps) && Careful(comp, s, steps)
    ensures Kept(comp, Run(comp, s, steps))
    decreases |steps|
  {
    hide Kept, Next, Enabled, CarefulStep;
    if steps != [] {
      StepKeeps(comp, s, steps[0]);
      RunKeeps(comp, Next(comp, s, steps[0]), steps[1..]);
    }
  }

  // The invariant holds before and after each step.
  ghost predicate AlwaysKept(comp: string -> int, s: Wal, steps: seq<Step>)
    requires Runs(comp, s, steps)
    decreases |steps|
  {
    Kept(comp, s) && (steps != [] ==> AlwaysKept(comp, Next(comp, s, steps[0]), steps[1..]))
  }

  /** A run keeps the invariant throughout exactly when all its steps are careful. */
  lemma {:induction false} RunKeepsIff(comp: string -> int, s: Wal, steps: seq<Step>)
    requires Kept(comp, s) && Runs(comp, s, steps)
    ensures AlwaysKept(comp, s, steps) <==> Careful(comp, s, steps)
    decreases |steps|
  {
    hide Kept, Next, Enabled, CarefulStep;
    if steps != [] {
      StepKeepsIff(comp, s, steps[0]);
      if Kept(comp, Next(comp, s, steps[0])) {
        RunKeepsIff(comp, Next(comp, s, steps[0]), steps[1..]);
      }
    }
  }

  /** In every careful run no removed file holds a synced record that is not in its info file, and recovery from
      the recorded commit offset starts before every such record that has been added to memory. */
  lemma Retention(comp: string -> int, file: nat, steps: seq<Step>)
    requires file < NO_OFFSET.file && Runs(comp, Start(file), steps) && Careful(comp, Start(file), steps)
    ensures var s := Run(comp, Start(file), steps); Retained(s) && Covered(s, s.recorded)
  {
    hide Kept, Run, Runs, Careful, Retained;
    StartKept(comp, file);
    RunKeeps(comp, Start(file), steps);
    KeptCovers(comp, Run(comp, Start(file), steps));
  }

  lemma KeptCovers(comp: string -> int, s: Wal)
    requires Kept(comp, s)
    ensures Retained(s) && Covered(s, s.recorded)
  {
    KeptRetains(comp, s);
  }

  /** Every release of memory is followed at once by the renaming of the info file. */
  predicate Atomic(steps: seq<Step>)
    decreases |steps|
  {
    if steps == [] then true
    else if steps[0].ReleaseMemory? then |steps| > 1 && steps[1] == RenameFile(steps[0].thread) && Atomic(steps[2..])
    else Atomic(steps[1..])
  }

  /** Only containers with an info file are released, and no creation claims or drops a record. */
  ghost predicate Founded(comp: string -> int, s: Wal, steps: seq<Step>)
    requires Runs(comp, s, steps)
    decreases |steps|
  {
    steps != [] ==>
      && (!steps[0].ReadMinimum? ==> CarefulStep(comp, s, steps[0]))
      && Founded(comp, Next(comp, s, steps[0]), steps[1..])
  }

  lemma StaysQuiet(comp: string -> int, s: Wal, step: Step)
    requires Quiet(s) && Enabled(comp, s, step) && !step.ReleaseMemory?
    ensures Quiet(Next(comp, s, step))
  {
  }

  lemma QuietAgain(comp: string -> int, s: Wal, t: int)
    requires Quiet(s) && Enabled(comp, s, ReleaseMemory(t))
    requires Enabled(comp, Next(comp, s, ReleaseMemory(t)), RenameFile(t))
    ensures Quiet(Next(comp, Next(comp, s, ReleaseMemory(t)), RenameFile(t)))
  {
  }

  /** With release and renaming in one step no offset is read too early. */
  lemma {:induction false} AtomicIsCareful(comp: string -> int, s: Wal, steps: seq<Step>)
    requires Quiet(s) && Runs(comp, s, steps) && Atomic(steps) && Founded(comp, s, steps)
    ensures Careful(comp, s, steps)
    decreases |steps|
  {
    hide Next, Quiet, NotAhead;
    if steps != [] {
      var step, rest := steps[0], steps[1..];
      if step.ReadMinimum? {
        QuietIsNotAhead(comp, s, OffsetRead(s, step.thread, step.minimum));
      }
      if step.ReleaseMemory? {
        assert steps[2..] == rest[1..];
        QuietAgain(comp, s, step.thread);
        AtomicIsCareful(comp, Next(comp, Next(comp, s, step), rest[0]), rest[1..]);
      } else {
        StaysQuiet(comp, s, step);
        AtomicIsCareful(comp, Next(comp, s, step), rest);
      }
    }
  }

  lemma AtomicRetention(comp: string -> int, file: nat, steps: seq<Step>)
    requires file < NO_OFFSET.file && Runs(comp, Start(file), steps) && Atomic(steps) && Founded(comp, Start(file), steps)
    ensures var s := Run(comp, Start(file), steps); Retained(s) && Covered(s, s.recorded)
  {
    assert Quiet(Start(file));
    AtomicIsCareful(comp, Start(file), steps);
    Retention(comp, file, steps);
  }

  // ----- The header that recovery starts from

  ghost predicate SinceHeld(h: Held, file: nat) {
    && file <= h.commit.file
    && (forall i :: 0 <= i < |h.records| ==> file <= h.records[i].offset.file)
    && (forall i :: 0 <= i < |h.flushing| ==> file <= h.flushing[i].offset.file)
  }

  ghost predicate SinceAt(m: Memory, c: int, path: string, file: nat) {
    c in m && path in m[c].containers ==> SinceHeld(m[c].containers[path], file)
  }

  ghost predicate Since(m: Memory, file: nat) {
    forall c, path :: SinceAt(m, c, path, file)
  }

  ghost predicate SincePhase(phase: Phase, file: nat) {
    match phase
    case Setting(offset) => file <= offset.file
    case Creating(_, _) => true
    case Dropping(_) => true
    case _ => file <= phase.sync.file
  }

  /** No offset is before the file `first`, and the removed files are those from `first` up to `high`. */
  ghost predicate RemovedUpTo(s: Wal, first: nat, high: nat) {
    && Since(s.mem, first) && first <= s.lastAdded.file && first <= s.lastSync.file
    && (forall t :: t in s.threads ==> SincePhase(s.threads[t], first))
    && first <= s.commit.file && first <= s.recorded.file && first <= s.oldest <= high
    && forall f :: f in s.removed <==> first <= f < high
  }

  lemma PutSince(comp: string -> int, m: Memory, path: string, h: Held, owned: bool, file: nat)
    requires Since(m, file) && SinceHeld(h, file)
    ensures Since(Put(comp, m, path, h, owned), file)
  {
    hide SinceHeld;
    var m' := Put(comp, m, path, h, owned);
    forall c, p ensures SinceAt(m', c, p, file) {
      assert SinceAt(m, c, p, file);
    }
  }

  lemma HeldSince(comp: string -> int, m: Memory, path: string, file: nat)
    requires Since(m, file) && Has(comp, m, path)
    ensures SinceHeld(HeldFor(comp, m, path), file)
  {
    assert SinceAt(m, comp(path), path, file);
  }

  lemma ErasedSince(comp: string -> int, m: Memory, path: string, file: nat)
    requires Since(m, file) && Has(comp, m, path)
    ensures Since(EraseOrDrop(comp, m, path), file)
  {
    hide SinceHeld;
    var m' := EraseOrDrop(comp, m, path);
    forall c, p ensures SinceAt(m', c, p, file) {
      assert SinceAt(m, c, p, file);
    }
  }

  lemma AddOneSince(comp: string -> int, m: Memory, r: FinalRecord, prev: Offset, sync: Offset, owned: bool, file: nat)
    requires Since(m, file) && file <= prev.file && file <= sync.file
    ensures Since(AddOne(comp, m, r, prev, sync, owned), file)
  {
    hide Since, Put;
    var p := Pending(sync, r.record);
    if Has(comp, m, r.path) {
      HeldSince(comp, m, r.path, file);
      PutSince(comp, m, r.path, Added(HeldFor(comp, m, r.path), p), owned, file);
    } else {
      PutSince(comp, m, r.path, NewHeld(p, prev), owned, file);
    }
  }

  lemma {:induction false} EntriesSince(comp: string -> int, m: Memory, es: seq<Entry>, prev: Offset, sync: Offset, file: nat)
    requires Since(m, file) && file <= prev.file && file <= sync.file
    ensures Since(AddEntries(comp, m, es, prev, sync), file)
    decreases |es|
  {
    hide Since;
    if es != [] {
      var e := es[0];
      AddOneSince(comp, m, FinalRecord(e.path, e.record), prev, sync, e.owned, file);
      EntriesSince(comp, AddOne(comp, m, FinalRecord(e.path, e.record), prev, sync, e.owned), es[1..], prev, sync, file);
    }
  }

  lemma MinimumSince(m: Memory, offset: Offset, file: nat)
    requires Since(m, file) && IsLastCommit(m, offset)
    ensures offset.file == NO_OFFSET.file || file <= offset.file
  {
    if offset != NO_OFFSET {
      var c, path :| c in m && path in m[c].containers && m[c].containers[path].commit == offset;
      assert SinceAt(m, c, path, file);
    }
  }

  // How far the removed files reach after the step.
  ghost function Reached(s: Wal, step: Step, high: nat): nat {
    if step == Rotate && high < s.commit.file then s.commit.file else high
  }

  lemma MemorySince(comp: string -> int, s: Wal, step: Step, first: nat)
    requires Since(s.mem, first) && first <= s.lastAdded.file && first <= s.lastSync.file && Enabled(comp, s, step)
    ensures Since(Next(comp, s, step).mem, first)
  {
    hide Since, Put, EraseOrDrop, AddEntries;
    match step
    case AddBatch => EntriesSince(comp, s.mem, s.batch, s.lastAdded, s.lastSync, first);
    case StartFlushOf(t, path) =>
      HeldSince(comp, s.mem, path, first);
      PutSince(comp, s.mem, path, Swapped(HeldFor(comp, s.mem, path)), true, first);
    case ReleaseMemory(t) =>
      var path := s.threads[t].path;
      if path in s.trailers {
        FreedSince(comp, s.mem, path, s.trailers[path], first);
      } else {
        ReleaseSince(comp, s.mem, path, first);
      }
    case DropMemory(t) => if Has(comp, s.mem, s.threads[t].path) { ErasedSince(comp, s.mem, s.threads[t].path, first); }
    case _ =>
  }

  lemma ReleaseSince(comp: string -> int, m: Memory, path: string, file: nat)
    requires Since(m, file) && Has(comp, m, path) && HeldFor(comp, m, path).flushing != []
    ensures Since(Release(comp, m, path), file)
  {
    hide Since, Put, EraseOrDrop;
    HeldSince(comp, m, path, file);
    ErasedSince(comp, m, path, file);
    PutSince(comp, m, path, Released(HeldFor(comp, m, path)), true, file);
  }

  lemma FreedSince(comp: string -> int, m: Memory, path: string, trailer: Offset, file: nat)
    requires Since(m, file) && Has(comp, m, path)
    ensures Since(Freed(comp, m, path, trailer), file)
  {
    hide Since, Put, Has, HeldFor, Release, EraseOrDrop;
    var h := Skipped(HeldFor(comp, m, path), trailer);
    var left := Put(comp, m, path, h, true);
    HeldSince(comp, m, path, file);
    PutSince(comp, m, path, h, true, file);
    PutAt(comp, m, path, h, true, path);
    if h.flushing != [] {
      ReleaseSince(comp, left, path, file);
    } else {
      ErasedSince(comp, left, path, file);
    }
  }

  lemma ThreadsSince(comp: string -> int, s: Wal, step: Step, first: nat)
    requires Since(s.mem, first) && Enabled(comp, s, step)
    requires forall t :: t in s.threads ==> SincePhase(s.threads[t], first)
    ensures var s' := Next(comp, s, step); forall t :: t in s'.threads ==> SincePhase(s'.threads[t], first)
  {
    hide Since, StartFlush, Release, Freed, AddEntries, LogEntries, WithoutContainer, IsLastCommit, InBatch;
    match step
    case StartFlushOf(t, path) => HeldSince(comp, s.mem, path, first);
    case ReadMinimum(t, minimum) => MinimumSince(s.mem, minimum, first);
    case _ =>
  }

  lemma StepRemoves(comp: string -> int, s: Wal, step: Step, first: nat, high: nat)
    requires RemovedUpTo(s, first, high) && Enabled(comp, s, step)
    ensures RemovedUpTo(Next(comp, s, step), first, Reached(s, step, high))
  {
    hide Since, StartFlush, Release, Freed, AddEntries, LogEntries, WithoutContainer, IsLastCommit, InBatch;
    MemorySince(comp, s, step, first);
    ThreadsSince(comp, s, step, first);
    if step == Rotate {
      var s' := Next(comp, s, step);
      assert forall f :: f in s'.removed <==> f in s.removed || s.oldest <= f < s.commit.file;
    }
  }

  /** The greatest file of a commit offset that a rotation of the run has used. */
  ghost function Highest(comp: string -> int, s: Wal, steps: seq<Step>, high: nat): nat
    requires Runs(comp, s, steps)
    decreases |steps|
  {
    if steps == [] then high else Highest(comp, Next(comp, s, steps[0]), steps[1..], Reached(s, steps[0], high))
  }

  lemma {:induction false} RunRemoves(comp: string -> int, s: Wal, steps: seq<Step>, first: nat, high: nat)
    requires RemovedUpTo(s, first, high) && Runs(comp, s, steps)
    ensures RemovedUpTo(Run(comp, s, steps), first, Highest(comp, s, steps, high))
    decreases |steps|
  {
    hide RemovedUpTo, Next, Enabled, Reached;
    if steps != [] {
      StepRemoves(comp, s, steps[0], first, high);
      RunRemoves(comp, Next(comp, s, steps[0]), steps[1..], first, Reached(s, steps[0], high));
    }
  }

  /** Over every run, careful or not: the removed files are those from the first one up to the greatest file of
      a commit offset that a rotation has used, and the file that recovery opens first exists exactly when the
      recorded offset is not before that. */
  lemma RecoveryFileExistsIff(comp: string -> int, first: nat, steps: seq<Step>)
    requires Runs(comp, Start(first), steps)
    ensures var s, high := Run(comp, Start(first), steps), Highest(comp, Start(first), steps, first);
            && (forall f :: f in s.removed <==> first <= f < high)
            && (s.recorded.file !in s.removed <==> high <= s.recorded.file)
  {
    hide Run, Runs, Highest;
    RunRemoves(comp, Start(first), steps, first, first);
  }

  /** No flush thread sets a commit offset in a file before that of the one already set. */
  ghost predicate Forward(comp: string -> int, s: Wal, steps: seq<Step>)
    requires Runs(comp, s, steps)
    decreases |steps|
  {
    steps != [] ==>
      && (steps[0].SetCommit? ==> s.commit.file <= s.threads[steps[0].thread].offset.file)
      && Forward(comp, Next(comp, s, steps[0]), steps[1..])
  }

  lemma {:induction false} HighestBehind(comp: string -> int, s: Wal, steps: seq<Step>, high: nat)
    requires Runs(comp, s, steps) && Forward(comp, s, steps) && high <= s.recorded.file <= s.commit.file
    ensures Highest(comp, s, steps, high) <= Run(comp, s, steps).recorded.file
    decreases |steps|
  {
    if steps != [] {
      hide Next, Reached;
      ReachedBehind(comp, s, steps[0], high);
      HighestBehind(comp, Next(comp, s, steps[0]), steps[1..], Reached(s, steps[0], high));
    }
  }

  lemma ReachedBehind(comp: string -> int, s: Wal, step: Step, high: nat)
    requires Enabled(comp, s, step) && high <= s.recorded.file <= s.commit.file
    requires step.SetCommit? ==> s.commit.file <= s.threads[step.thread].offset.file
    ensures var s' := Next(comp, s, step); Reached(s, step, high) <= s'.recorded.file <= s'.commit.file
  {
    hide AddEntries, LogEntries, StartFlush, Release, Freed, IsLastCommit, InBatch, WithoutContainer;
  }

  /** It does as long as no commit offset is set that is in an earlier file than the one before. */
  lemma RecoveryFileExists(comp: string -> int, first: nat, steps: seq<Step>)
    requires Runs(comp, Start(first), steps) && Forward(comp, Start(first), steps)
    ensures var s := Run(comp, Start(first), steps); s.recorded.file !in s.removed
  {
    hide Run, Runs, Highest, Forward;
    HighestBehind(comp, Start(first), steps, first);
    RecoveryFileExistsIff(comp, first, steps);
  }
}
