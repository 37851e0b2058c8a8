/** Runs of the write-ahead path in which a journal file that is still needed is removed or missed.

    Each run is a sequence of steps that the code allows, from a journal whose first file is number 1; what
    the steps do to the state is followed one after the other, and the runs are put together from their parts.

    - A flush releases its memory before its info file is renamed, and another one sets the commit offset.
    - A flush sets an offset that it has read before another one's rotation.
    - A container without an info file is flushed.
    - A container is created while its record is flushed, or between the sync and the way to memory. */
module ContainerRetentionLosses {
  import opened ContainerMemory
  import opened MemoryManagement
  import opened ContainerRetention
  import opened ContainerRetentionSteps

  // ----- Runs in which a file is missed

  lemma Chain(comp: string -> int, s: Wal, step: Step, rest: seq<Step>)
    requires Enabled(comp, s, step) && Runs(comp, Next(comp, s, step), rest)
    ensures Runs(comp, s, [step] + rest) && Run(comp, s, [step] + rest) == Run(comp, Next(comp, s, step), rest)
  {
    assert ([step] + rest)[1..] == rest;
  }

  function Creation(t: int, path: string, rest: seq<Step>): seq<Step> {
    [ReadSync(t, path)] + ([WriteInfo(t)] + ([DropMemory(t)] + rest))
  }

  lemma CreationRuns(comp: string -> int, s: Wal, t: int, path: string, rest: seq<Step>)
    requires t !in s.threads && path !in s.trailers && Runs(comp, Created(comp, s, path), rest)
    ensures Runs(comp, s, Creation(t, path, rest))
    ensures Run(comp, s, Creation(t, path, rest)) == Run(comp, Created(comp, s, path), rest)
  {
    hide Next, Enabled, Created, Runs, Run;
    CreatedInSteps(comp, s, t, path);
    CreationStarts(comp, s, t, path);
    var s1 := Next(comp, s, ReadSync(t, path));
    var s2 := Next(comp, s1, WriteInfo(t));
    Chain(comp, s2, DropMemory(t), rest);
    Chain(comp, s1, WriteInfo(t), [DropMemory(t)] + rest);
    Chain(comp, s, ReadSync(t, path), [WriteInfo(t)] + ([DropMemory(t)] + rest));
  }

  lemma CreationStarts(comp: string -> int, s: Wal, t: int, path: string)
    requires t !in s.threads
    ensures Enabled(comp, s, ReadSync(t, path))
  {
  }

  function OneComponent(path: string): int {
    0
  }

  // Only "a" and "b" may be in memory.
  ghost predicate OnlyTwo(m: Memory) {
    forall c :: c in m ==> c == 0 && forall path :: path in m[c].containers ==> path == "a" || path == "b"
  }

  // Two containers got a record each from one batch that went into files 1 and 2, and are being flushed.
  ghost predicate TwoFlushes(s: Wal, r: ObjectRecord) {
    && OnlyTwo(s.mem) && FlushesOne(s.mem, "a", r) && FlushesOne(s.mem, "b", r)
    && LogOf(s.log, "a") == [Logged(Offset(1, 10), Offset(2, 5), r)]
    && LogOf(s.log, "b") == [Logged(Offset(1, 20), Offset(2, 5), r)]
    && s.published == map[] && s.oldest == 1 && s.active == 2 && s.trailers == map["a" := Offset(1, 0), "b" := Offset(1, 0)]
    && s.threads == map[1 := Flushing("a", Offset(2, 5)), 2 := Flushing("b", Offset(2, 5))]
  }

  ghost predicate FlushesOne(m: Memory, path: string, r: ObjectRecord) {
    && Has(OneComponent, m, path)
    && HeldFor(OneComponent, m, path).flushing == [Pending(Offset(2, 5), r)] && HeldFor(OneComponent, m, path).records == []
    && HeldFor(OneComponent, m, path).commit == Offset(1, 0)
  }

  function Opening(r: ObjectRecord): seq<Step> {
    Creation(3, "a", Creation(3, "b", [Rotate]
      + ([Sync([Entry("a", r, true, Offset(1, 10)), Entry("b", r, true, Offset(1, 20))], Offset(2, 5))]
         + ([AddBatch] + ([StartFlushOf(1, "a")] + ([StartFlushOf(2, "b")] + []))))))
  }

  ghost predicate TwoPending(s: Wal, r: ObjectRecord) {
    && OnlyTwo(s.mem) && Has(OneComponent, s.mem, "a") && Has(OneComponent, s.mem, "b")
    && HeldFor(OneComponent, s.mem, "a") == NewHeld(Pending(Offset(2, 5), r), Offset(1, 0))
    && HeldFor(OneComponent, s.mem, "b") == NewHeld(Pending(Offset(2, 5), r), Offset(1, 0))
    && LogOf(s.log, "a") == [Logged(Offset(1, 10), Offset(2, 5), r)]
    && LogOf(s.log, "b") == [Logged(Offset(1, 20), Offset(2, 5), r)]
    && s.published == map[] && s.oldest == 1 && s.active == 2 && s.threads == map[]
    && s.trailers == map["a" := Offset(1, 0), "b" := Offset(1, 0)]
  }

  lemma OpeningRuns(r: ObjectRecord)
    ensures Runs(OneComponent, Start(1), Opening(r))
    ensures TwoFlushes(Run(OneComponent, Start(1), Opening(r)), r)
  {
    hide AddEntries, LogEntries, TwoPending, TwoFlushes, StartFlush, Runs, Run, Creation;
    var es := [Entry("a", r, true, Offset(1, 10)), Entry("b", r, true, Offset(1, 20))];
    var a := Created(OneComponent, Start(1), "a");
    var b := Created(OneComponent, a, "b");
    var s1 := Next(OneComponent, b, Rotate);
    var s2 := Next(OneComponent, s1, Sync(es, Offset(2, 5)));
    var s3 := Next(OneComponent, s2, AddBatch);
    assert s3.removed == {};
    FirstBatch(s3, r);
    var rest := [StartFlushOf(1, "a")] + ([StartFlushOf(2, "b")] + []);
    BothStart(s3, r);
    Chain(OneComponent, s2, AddBatch, rest);
    Chain(OneComponent, s1, Sync(es, Offset(2, 5)), [AddBatch] + rest);
    Chain(OneComponent, b, Rotate, [Sync(es, Offset(2, 5))] + ([AddBatch] + rest));
    CreationRuns(OneComponent, a, 3, "b", [Rotate] + ([Sync(es, Offset(2, 5))] + ([AddBatch] + rest)));
    CreationRuns(OneComponent, Start(1), 3, "a", Creation(3, "b", [Rotate] + ([Sync(es, Offset(2, 5))] + ([AddBatch] + rest))));
  }

  lemma FirstBatch(s: Wal, r: ObjectRecord)
    requires var es := [Entry("a", r, true, Offset(1, 10)), Entry("b", r, true, Offset(1, 20))];
             && s.mem == AddEntries(OneComponent, map[], es, Offset(1, 0), Offset(2, 5))
             && s.log == LogEntries(map[], es, Offset(2, 5))
    requires s.published == map[] && s.oldest == 1 && s.active == 2 && s.threads == map[]
    requires s.trailers == map["a" := Offset(1, 0), "b" := Offset(1, 0)]
    ensures TwoPending(s, r)
  {
    hide AddEntries, LogEntries;
    TwoAdded(r);
  }

  lemma BothStart(s: Wal, r: ObjectRecord)
    requires TwoPending(s, r)
    ensures var rest := [StartFlushOf(1, "a")] + ([StartFlushOf(2, "b")] + []);
            Runs(OneComponent, s, rest) && TwoFlushes(Run(OneComponent, s, rest), r)
  {
    hide AddEntries, LogEntries, Put, Runs, Run;
    var s1 := Next(OneComponent, s, StartFlushOf(1, "a"));
    var h := Swapped(HeldFor(OneComponent, s.mem, "a"));
    PutAt(OneComponent, s.mem, "a", h, true, "b");
    StillTwo(s.mem, "a", h);
    var s2 := Next(OneComponent, s1, StartFlushOf(2, "b"));
    PutAt(OneComponent, s1.mem, "b", Swapped(HeldFor(OneComponent, s1.mem, "b")), true, "a");
    StillTwo(s1.mem, "b", Swapped(HeldFor(OneComponent, s1.mem, "b")));
    RunOfNone(OneComponent, s2);
    Chain(OneComponent, s1, StartFlushOf(2, "b"), []);
    Chain(OneComponent, s, StartFlushOf(1, "a"), [StartFlushOf(2, "b")] + []);
  }

  lemma StillTwo(m: Memory, path: string, h: Held)
    requires OnlyTwo(m) && (path == "a" || path == "b")
    ensures OnlyTwo(Put(OneComponent, m, path, h, true))
  {
  }

  lemma TwoAdded(r: ObjectRecord)
    ensures var es := [Entry("a", r, true, Offset(1, 10)), Entry("b", r, true, Offset(1, 20))];
            var m, log := AddEntries(OneComponent, map[], es, Offset(1, 0), Offset(2, 5)), LogEntries(map[], es, Offset(2, 5));
            && OnlyTwo(m) && Has(OneComponent, m, "a") && Has(OneComponent, m, "b")
            && HeldFor(OneComponent, m, "a") == NewHeld(Pending(Offset(2, 5), r), Offset(1, 0))
            && HeldFor(OneComponent, m, "b") == NewHeld(Pending(Offset(2, 5), r), Offset(1, 0))
            && LogOf(log, "a") == [Logged(Offset(1, 10), Offset(2, 5), r)]
            && LogOf(log, "b") == [Logged(Offset(1, 20), Offset(2, 5), r)]
  {
    var a, b := Entry("a", r, true, Offset(1, 10)), Entry("b", r, true, Offset(1, 20));
    assert [a, b][1..] == [b] && [b][1..] == [];
    var m1 := AddOne(OneComponent, map[], FinalRecord("a", r), Offset(1, 0), Offset(2, 5), true);
    var m2 := AddOne(OneComponent, m1, FinalRecord("b", r), Offset(1, 0), Offset(2, 5), true);
    assert AddEntries(OneComponent, m1, [b], Offset(1, 0), Offset(2, 5)) == m2;
    assert LogEntries(LogOne(map[], a, Offset(2, 5)), [b], Offset(2, 5)) == LogOne(LogOne(map[], a, Offset(2, 5)), b, Offset(2, 5));
  }

  // The flush of "b" ends, and a rotation follows, before the file of "a" is renamed into place.
  function Closing(): seq<Step> {
    [ReleaseMemory(1)] + ([ReleaseMemory(2)] + ([RenameFile(2)] + ([ReadMinimum(2, NO_OFFSET)]
                                                                   + ([SetCommit(2)] + ([Rotate] + [])))))
  }

  // The trailer is from before the record: the flush writes it.
  lemma OneWritten(s: Wal, path: string, r: ObjectRecord)
    requires OnlyTwo(s.mem) && FlushesOne(s.mem, path, r) && |LogOf(s.log, path)| == 1
    requires path in s.trailers && s.trailers[path] == Offset(1, 0)
    ensures AfterRelease(OneComponent, s, path, Offset(2, 5)) == Renaming(path, Offset(2, 5), 0, 1, Offset(2, 5))
    ensures var m' := Freed(OneComponent, s.mem, path, Offset(1, 0));
            && OnlyTwo(m') && !Has(OneComponent, m', path)
            && forall other :: other != path ==>
                 && Has(OneComponent, m', other) == Has(OneComponent, s.mem, other)
                 && (Has(OneComponent, s.mem, other) ==> HeldFor(OneComponent, m', other) == HeldFor(OneComponent, s.mem, other))
  {
    hide Freed;
    var h := HeldFor(OneComponent, s.mem, path);
    assert CountUpTo(h.flushing, Offset(1, 0)) == 0;
    forall other | other != path
      ensures Has(OneComponent, Freed(OneComponent, s.mem, path, Offset(1, 0)), other) == Has(OneComponent, s.mem, other)
      ensures Has(OneComponent, s.mem, other) ==>
                HeldFor(OneComponent, Freed(OneComponent, s.mem, path, Offset(1, 0)), other) == HeldFor(OneComponent, s.mem, other)
    {
      FreedAt(OneComponent, s.mem, path, Offset(1, 0), other);
    }
    FreedAt(OneComponent, s.mem, path, Offset(1, 0), path);
    FreedOnly(s.mem, path, Offset(1, 0));
  }

  lemma FreedOnly(m: Memory, path: string, trailer: Offset)
    requires OnlyTwo(m) && Has(OneComponent, m, path)
    ensures OnlyTwo(Freed(OneComponent, m, path, trailer))
  {
    hide Skipped;
  }

  lemma BothReleased(s: Wal, r: ObjectRecord)
    requires TwoFlushes(s, r)
    ensures Enabled(OneComponent, s, ReleaseMemory(1))
    ensures var s1 := Next(OneComponent, s, ReleaseMemory(1));
            && Enabled(OneComponent, s1, ReleaseMemory(2))
            && var s2 := Next(OneComponent, s1, ReleaseMemory(2));
               && IsLastCommit(s2.mem, NO_OFFSET) && !Has(OneComponent, s2.mem, "b")
               && s2 == s.(mem := s2.mem, threads := map[1 := Renaming("a", Offset(2, 5), 0, 1, Offset(2, 5)),
                                                         2 := Renaming("b", Offset(2, 5), 0, 1, Offset(2, 5))])
  {
    hide Freed, AfterRelease;
    assert s.threads[1].path == "a" && s.threads[2].path == "b";
    var s1 := Next(OneComponent, s, ReleaseMemory(1));
    OneWritten(s, "a", r);
    assert !BeingRenamed(s1, "b");
    var s2 := Next(OneComponent, s1, ReleaseMemory(2));
    OneWritten(s1, "b", r);
    NothingLeft(s2.mem);
    assert s2.threads == map[1 := Renaming("a", Offset(2, 5), 0, 1, Offset(2, 5)), 2 := Renaming("b", Offset(2, 5), 0, 1, Offset(2, 5))];
  }

  lemma NothingLeft(m: Memory)
    requires OnlyTwo(m) && !Has(OneComponent, m, "a") && !Has(OneComponent, m, "b")
    ensures IsLastCommit(m, NO_OFFSET)
  {
    forall c | c in m ensures NoneBelow(m[c], NO_OFFSET) {
      forall path ensures path !in m[c].containers {
        assert path in m[c].containers ==> Has(OneComponent, m, path);
      }
    }
  }

  lemma ReleaseOnly(m: Memory, path: string)
    requires OnlyTwo(m) && Has(OneComponent, m, path) && HeldFor(OneComponent, m, path).flushing != []
    ensures OnlyTwo(Release(OneComponent, m, path))
  {
  }

  // A flush thread reads an offset and sets it.
  lemma CommitRuns(comp: string -> int, s: Wal, t: int, minimum: Offset, rest: seq<Step>)
    requires t in s.threads && s.threads[t].Ended? && IsLastCommit(s.mem, minimum)
    ensures var s' := s.(commit := OffsetRead(s, t, minimum), threads := s.threads - {t});
            Runs(comp, s', rest) ==>
              && Runs(comp, s, [ReadMinimum(t, minimum)] + ([SetCommit(t)] + rest))
              && Run(comp, s, [ReadMinimum(t, minimum)] + ([SetCommit(t)] + rest)) == Run(comp, s', rest)
  {
    hide IsLastCommit, Runs, Run;
    var s1 := Next(comp, s, ReadMinimum(t, minimum));
    var s2 := Next(comp, s1, SetCommit(t));
    assert s2.threads == s.threads - {t};
    if Runs(comp, s2, rest) {
      Chain(comp, s1, SetCommit(t), rest);
      Chain(comp, s, ReadMinimum(t, minimum), [SetCommit(t)] + rest);
    }
  }

  // The record of "a" is unpublished, and the commit offset is in file 2 already.
  lemma RotationLoses(s: Wal, r: ObjectRecord)
    requires LogOf(s.log, "a") == [Logged(Offset(1, 10), Offset(2, 5), r)] && PublishedOf(s, "a") == {}
    requires s.commit == Offset(2, 5) && s.oldest == 1 && s.active == 2
    ensures Runs(OneComponent, s, [Rotate] + []) && !Retained(Run(OneComponent, s, [Rotate] + []))
  {
    hide Runs, Run;
    var s1 := Next(OneComponent, s, Rotate);
    assert 1 in Range(1, 2);
    assert Unpublished(s1, "a", 0) && 1 in s1.removed;
    RunOfNone(OneComponent, s1);
    Chain(OneComponent, s, Rotate, []);
  }

  lemma RunOfNone(comp: string -> int, s: Wal)
    ensures Runs(comp, s, []) && Run(comp, s, []) == s
  {
  }

  lemma LastStepsLose(s: Wal, r: ObjectRecord)
    requires IsLastCommit(s.mem, NO_OFFSET)
    requires LogOf(s.log, "a") == [Logged(Offset(1, 10), Offset(2, 5), r)]
    requires s.published == map[] && s.oldest == 1 && s.active == 2
    requires s.threads == map[1 := Renaming("a", Offset(2, 5), 0, 1, Offset(2, 5)), 2 := Renaming("b", Offset(2, 5), 0, 1, Offset(2, 5))]
    ensures var rest := [RenameFile(2)] + ([ReadMinimum(2, NO_OFFSET)] + ([SetCommit(2)] + ([Rotate] + [])));
            Runs(OneComponent, s, rest) && !Retained(Run(OneComponent, s, rest))
  {
    hide IsLastCommit, Runs, Run, Retained;
    var s1 := Next(OneComponent, s, RenameFile(2));
    CommitRuns(OneComponent, s1, 2, NO_OFFSET, [Rotate] + []);
    RotationLoses(s1.(commit := Offset(2, 5), threads := s1.threads - {2}), r);
    Chain(OneComponent, s, RenameFile(2), [ReadMinimum(2, NO_OFFSET)] + ([SetCommit(2)] + ([Rotate] + [])));
  }

  lemma ClosingLoses(s: Wal, r: ObjectRecord)
    requires TwoFlushes(s, r)
    ensures Runs(OneComponent, s, Closing()) && !Retained(Run(OneComponent, s, Closing()))
  {
    hide Runs, Run, Next, Enabled, Retained, FlushesOne, IsLastCommit, OnlyTwo;
    BothReleased(s, r);
    var s1 := Next(OneComponent, s, ReleaseMemory(1));
    var s2 := Next(OneComponent, s1, ReleaseMemory(2));
    var rest := [RenameFile(2)] + ([ReadMinimum(2, NO_OFFSET)] + ([SetCommit(2)] + ([Rotate] + [])));
    LastStepsLose(s2, r);
    Chain(OneComponent, s1, ReleaseMemory(2), rest);
    Chain(OneComponent, s, ReleaseMemory(1), [ReleaseMemory(2)] + rest);
  }

  lemma {:induction false} RunAppend(comp: string -> int, s: Wal, a: seq<Step>, b: seq<Step>)
    requires Runs(comp, s, a) && Runs(comp, Run(comp, s, a), b)
    ensures Runs(comp, s, a + b) && Run(comp, s, a + b) == Run(comp, Run(comp, s, a), b)
    decreases |a|
  {
    hide Next, Enabled;
    if a == [] {
      assert a + b == b;
    } else {
      RunAppend(comp, Next(comp, s, a[0]), a[1..], b);
      assert a + b == [a[0]] + (a[1..] + b);
      Chain(comp, s, a[0], a[1..] + b);
    }
  }

  /** The code also allows a run in which the only journal file of an acknowledged record is removed: the
      record is out of memory, and its info file is not renamed into place yet. */
  lemma EarlyReleaseLoses(r: ObjectRecord)
    ensures Runs(OneComponent, Start(1), Opening(r) + Closing())
    ensures !Retained(Run(OneComponent, Start(1), Opening(r) + Closing()))
  {
    hide Runs, Run, Retained, TwoFlushes, Opening, Closing;
    OpeningRuns(r);
    ClosingLoses(Run(OneComponent, Start(1), Opening(r)), r);
    RunAppend(OneComponent, Start(1), Opening(r), Closing());
  }

  // The flush of "a" reads the minimum while "b" is in memory, and sets it after "b" has moved on.
  lemma FirstReads(s: Wal, r: ObjectRecord)
    requires TwoFlushes(s, r)
    ensures Enabled(OneComponent, s, ReleaseMemory(1))
    ensures var s1 := Next(OneComponent, s, ReleaseMemory(1));
            && Enabled(OneComponent, s1, RenameFile(1))
            && var s2 := Next(OneComponent, s1, RenameFile(1));
               && Quiet(s2) && Enabled(OneComponent, s2, ReadMinimum(1, Offset(1, 0)))
               && OneLeft(Next(OneComponent, s2, ReadMinimum(1, Offset(1, 0))), r)
  {
    hide Freed, AfterRelease;
    assert s.threads[1].path == "a";
    var s1 := Next(OneComponent, s, ReleaseMemory(1));
    OneWritten(s, "a", r);
    assert s1.threads == map[1 := Renaming("a", Offset(2, 5), 0, 1, Offset(2, 5)), 2 := Flushing("b", Offset(2, 5))];
    FirstRenames(s1, r);
  }

  lemma FirstRenames(s: Wal, r: ObjectRecord)
    requires OnlyTwo(s.mem) && !Has(OneComponent, s.mem, "a") && FlushesOne(s.mem, "b", r)
    requires LogOf(s.log, "b") == [Logged(Offset(1, 20), Offset(2, 5), r)] && s.oldest == 1 && s.active == 2
    requires s.threads == map[1 := Renaming("a", Offset(2, 5), 0, 1, Offset(2, 5)), 2 := Flushing("b", Offset(2, 5))]
    requires "b" in s.trailers && s.trailers["b"] == Offset(1, 0)
    ensures Enabled(OneComponent, s, RenameFile(1))
    ensures var s2 := Next(OneComponent, s, RenameFile(1));
            && Quiet(s2) && Enabled(OneComponent, s2, ReadMinimum(1, Offset(1, 0)))
            && OneLeft(Next(OneComponent, s2, ReadMinimum(1, Offset(1, 0))), r)
  {
    hide OnlyTwo, FlushesOne, Has, IsLastCommit, OneLeft;
    var s2 := Next(OneComponent, s, RenameFile(1));
    assert s2.threads == map[1 := Ended(Offset(2, 5)), 2 := Flushing("b", Offset(2, 5))];
    OnlyB(s2.mem, r);
    FirstReadsMinimum(s2, r);
  }

  lemma FirstReadsMinimum(s: Wal, r: ObjectRecord)
    requires OnlyTwo(s.mem) && !Has(OneComponent, s.mem, "a") && FlushesOne(s.mem, "b", r) && IsLastCommit(s.mem, Offset(1, 0))
    requires LogOf(s.log, "b") == [Logged(Offset(1, 20), Offset(2, 5), r)] && s.oldest == 1 && s.active == 2
    requires s.threads == map[1 := Ended(Offset(2, 5)), 2 := Flushing("b", Offset(2, 5))]
    requires "b" in s.trailers && s.trailers["b"] == Offset(1, 0)
    ensures OneLeft(Next(OneComponent, s, ReadMinimum(1, Offset(1, 0))), r)
  {
    hide OnlyTwo, FlushesOne, Has, IsLastCommit;
    var s3 := Next(OneComponent, s, ReadMinimum(1, Offset(1, 0)));
    assert s3.threads == map[1 := Setting(Offset(1, 0)), 2 := Flushing("b", Offset(2, 5))];
  }

  ghost predicate OneLeft(s: Wal, r: ObjectRecord) {
    && OnlyTwo(s.mem) && !Has(OneComponent, s.mem, "a") && FlushesOne(s.mem, "b", r)
    && LogOf(s.log, "b") == [Logged(Offset(1, 20), Offset(2, 5), r)] && s.oldest == 1 && s.active == 2
    && s.threads == map[1 := Setting(Offset(1, 0)), 2 := Flushing("b", Offset(2, 5))] 
    && "b" in s.trailers && s.trailers["b"] == Offset(1, 0)
  }

  lemma OnlyB(m: Memory, r: ObjectRecord)
    requires OnlyTwo(m) && !Has(OneComponent, m, "a") && FlushesOne(m, "b", r)
    ensures IsLastCommit(m, Offset(1, 0))
  {
    forall c | c in m ensures NoneBelow(m[c], Offset(1, 0)) {
      forall path | path in m[c].containers ensures AtMost(Offset(1, 0), m[c].containers[path].commit) {
        assert Has(OneComponent, m, path);
      }
    }
    assert m[0].containers["b"].commit == Offset(1, 0);
  }

  lemma SecondEnds(s: Wal, r: ObjectRecord)
    requires OneLeft(s, r)
    ensures Enabled(OneComponent, s, ReleaseMemory(2))
    ensures var s1 := Next(OneComponent, s, ReleaseMemory(2));
            && Enabled(OneComponent, s1, RenameFile(2))
            && var s2 := Next(OneComponent, s1, RenameFile(2));
               && Quiet(s2) && Enabled(OneComponent, s2, ReadMinimum(2, NO_OFFSET)) && s2.oldest == 1 && s2.active == 2
               && s2.threads == map[1 := Setting(Offset(1, 0)), 2 := Ended(Offset(2, 5))]
  {
    hide Freed, AfterRelease;
    assert s.threads[2].path == "b";
    var s1 := Next(OneComponent, s, ReleaseMemory(2));
    OneWritten(s, "b", r);
    assert s1.threads == map[1 := Setting(Offset(1, 0)), 2 := Renaming("b", Offset(2, 5), 0, 1, Offset(2, 5))];
    NothingLeft(s1.mem);
    var s2 := Next(OneComponent, s1, RenameFile(2));
    assert s2.threads == map[1 := Setting(Offset(1, 0)), 2 := Ended(Offset(2, 5))];
  }

  lemma SetsLate(s: Wal)
    requires Enabled(OneComponent, s, ReadMinimum(2, NO_OFFSET)) && s.oldest == 1 && s.active == 2
    requires s.threads == map[1 := Setting(Offset(1, 0)), 2 := Ended(Offset(2, 5))]
    ensures var rest := [ReadMinimum(2, NO_OFFSET)] + ([SetCommit(2)] + ([Rotate] + ([SetCommit(1)] + ([WriteCheckpoint] + []))));
            Runs(OneComponent, s, rest)
            && Run(OneComponent, s, rest).recorded.file in Run(OneComponent, s, rest).removed
  {
    hide IsLastCommit, Runs, Run;
    CommitRuns(OneComponent, s, 2, NO_OFFSET, [Rotate] + ([SetCommit(1)] + ([WriteCheckpoint] + [])));
    var s1 := s.(commit := Offset(2, 5), threads := s.threads - {2});
    assert s1.threads == map[1 := Setting(Offset(1, 0))];
    RotatesAndSets(s1);
  }

  lemma RotatesAndSets(s: Wal)
    requires s.commit == Offset(2, 5) && s.oldest == 1 && s.active == 2 && s.threads == map[1 := Setting(Offset(1, 0))]
    ensures var rest := [Rotate] + ([SetCommit(1)] + ([WriteCheckpoint] + []));
            Runs(OneComponent, s, rest) && Run(OneComponent, s, rest).recorded.file in Run(OneComponent, s, rest).removed
  {
    hide Runs, Run;
    var s1 := Next(OneComponent, s, Rotate);
    assert 1 in Range(1, 2);
    var s2 := Next(OneComponent, s1, SetCommit(1));
    var s3 := Next(OneComponent, s2, WriteCheckpoint);
    RunOfNone(OneComponent, s3);
    Chain(OneComponent, s2, WriteCheckpoint, []);
    Chain(OneComponent, s1, SetCommit(1), [WriteCheckpoint] + []);
    Chain(OneComponent, s, Rotate, [SetCommit(1)] + ([WriteCheckpoint] + []));
  }

  function Overtaking(): seq<Step> {
    [ReleaseMemory(1)] + ([RenameFile(1)] + ([ReadMinimum(1, Offset(1, 0))] + ([ReleaseMemory(2)] + ([RenameFile(2)]
      + ([ReadMinimum(2, NO_OFFSET)] + ([SetCommit(2)] + ([Rotate] + ([SetCommit(1)] + ([WriteCheckpoint] + [])))))))))
  }

  lemma OvertakingMisses(s: Wal, r: ObjectRecord)
    requires TwoFlushes(s, r)
    ensures Runs(OneComponent, s, Overtaking())
    ensures var s' := Run(OneComponent, s, Overtaking()); s'.recorded.file in s'.removed
  {
    hide Runs, Run, Next, Enabled, TwoFlushes, OneLeft, Quiet;
    FirstReads(s, r);
    var s1 := Next(OneComponent, s, ReleaseMemory(1));
    var s2 := Next(OneComponent, s1, RenameFile(1));
    var s3 := Next(OneComponent, s2, ReadMinimum(1, Offset(1, 0)));
    SecondEnds(s3, r);
    var s4 := Next(OneComponent, s3, ReleaseMemory(2));
    var s5 := Next(OneComponent, s4, RenameFile(2));
    SetsLate(s5);
    var rest := [ReadMinimum(2, NO_OFFSET)] + ([SetCommit(2)] + ([Rotate] + ([SetCommit(1)] + ([WriteCheckpoint] + []))));
    Chain(OneComponent, s4, RenameFile(2), rest);
    Chain(OneComponent, s3, ReleaseMemory(2), [RenameFile(2)] + rest);
    Chain(OneComponent, s2, ReadMinimum(1, Offset(1, 0)), [ReleaseMemory(2)] + ([RenameFile(2)] + rest));
    Chain(OneComponent, s1, RenameFile(1), [ReadMinimum(1, Offset(1, 0))] + ([ReleaseMemory(2)] + ([RenameFile(2)] + rest)));
    Chain(OneComponent, s, ReleaseMemory(1),
          [RenameFile(1)] + ([ReadMinimum(1, Offset(1, 0))] + ([ReleaseMemory(2)] + ([RenameFile(2)] + rest))));
  }

  /** A flush thread that sets what it read before another thread's rotation makes the next checkpoint
      point into a removed file, although no read was ahead of a rename. */
  lemma LateSetMissesFile(r: ObjectRecord)
    ensures Runs(OneComponent, Start(1), Opening(r) + Overtaking())
    ensures var s := Run(OneComponent, Start(1), Opening(r) + Overtaking()); s.recorded.file in s.removed
  {
    hide Runs, Run, TwoFlushes, Opening, Overtaking;
    OpeningRuns(r);
    OvertakingMisses(Run(OneComponent, Start(1), Opening(r)), r);
    RunAppend(OneComponent, Start(1), Opening(r), Overtaking());
  }

  // ----- One record in file 1, and its flush

  function FirstEntry(r: ObjectRecord): seq<Entry> {
    [Entry("a", r, true, Offset(1, 10))]
  }

  function FirstFlush(r: ObjectRecord, rest: seq<Step>): seq<Step> {
    [Rotate] + ([Sync(FirstEntry(r), Offset(2, 5))] + ([AddBatch] + ([StartFlushOf(1, "a")] + rest)))
  }

  // The flush sets the commit offset to the key of its last record, and a rotation follows.
  function FlushEnd(): seq<Step> {
    [ReadMinimum(1, NO_OFFSET)] + ([SetCommit(1)] + ([Rotate] + []))
  }

  lemma OneAdded(r: ObjectRecord)
    ensures var es := FirstEntry(r);
            var m, log := AddEntries(OneComponent, map[], es, Offset(1, 0), Offset(2, 5)), LogEntries(map[], es, Offset(2, 5));
            && OnlyTwo(m) && Has(OneComponent, m, "a") && !Has(OneComponent, m, "b")
            && HeldFor(OneComponent, m, "a") == NewHeld(Pending(Offset(2, 5), r), Offset(1, 0))
            && LogOf(log, "a") == [Logged(Offset(1, 10), Offset(2, 5), r)]
  {
    var a := Entry("a", r, true, Offset(1, 10));
    var m := AddOne(OneComponent, map[], FinalRecord("a", r), Offset(1, 0), Offset(2, 5), true);
    assert [a][1..] == [];
    assert AddEntries(OneComponent, m, [], Offset(1, 0), Offset(2, 5)) == m;
    assert LogEntries(LogOne(map[], a, Offset(2, 5)), [], Offset(2, 5)) == LogOne(map[], a, Offset(2, 5));
  }

  // The record of "a" is being flushed; none of it is in an info file.
  ghost predicate OneFlush(s: Wal, r: ObjectRecord, trailers: map<string, Offset>) {
    && OnlyTwo(s.mem) && FlushesOne(s.mem, "a", r) && !Has(OneComponent, s.mem, "b")
    && LogOf(s.log, "a") == [Logged(Offset(1, 10), Offset(2, 5), r)]
    && s.published == map[] && s.oldest == 1 && s.active == 2 && s.trailers == trailers
    && s.lastSync == Offset(2, 5) && s.threads == map[1 := Flushing("a", Offset(2, 5))]
  }

  ghost predicate OnePending(s: Wal, r: ObjectRecord) {
    && OnlyTwo(s.mem) && Has(OneComponent, s.mem, "a") && !Has(OneComponent, s.mem, "b")
    && HeldFor(OneComponent, s.mem, "a") == NewHeld(Pending(Offset(2, 5), r), Offset(1, 0))
    && LogOf(s.log, "a") == [Logged(Offset(1, 10), Offset(2, 5), r)]
    && s.published == map[] && s.oldest == 1 && s.active == 2 && s.lastSync == Offset(2, 5) && s.threads == map[]
  }

  // The record is synced, and its batch is still on the way to memory.
  ghost predicate OneSynced(s: Wal, r: ObjectRecord) {
    && s.adding && s.batch == FirstEntry(r) && s.mem == map[] && s.log == map[]
    && s.lastAdded == Offset(1, 0) && s.lastSync == Offset(2, 5)
    && s.published == map[] && s.oldest == 1 && s.active == 2 && s.threads == map[]
  }

  lemma FlushStarts(s: Wal, r: ObjectRecord)
    requires OnePending(s, r)
    ensures Enabled(OneComponent, s, StartFlushOf(1, "a"))
    ensures OneFlush(Next(OneComponent, s, StartFlushOf(1, "a")), r, s.trailers)
  {
    hide Put;
    var h := Swapped(HeldFor(OneComponent, s.mem, "a"));
    PutAt(OneComponent, s.mem, "a", h, true, "b");
    StillTwo(s.mem, "a", h);
  }

  lemma SyncedIsFlushed(s: Wal, r: ObjectRecord, rest: seq<Step>)
    requires OneSynced(s, r)
    ensures Enabled(OneComponent, s, AddBatch)
    ensures var s1 := Next(OneComponent, s, AddBatch);
            && Enabled(OneComponent, s1, StartFlushOf(1, "a"))
            && var s2 := Next(OneComponent, s1, StartFlushOf(1, "a"));
               && OneFlush(s2, r, s.trailers)
               && (Runs(OneComponent, s2, rest) ==>
                     && Runs(OneComponent, s, [AddBatch] + ([StartFlushOf(1, "a")] + rest))
                     && Run(OneComponent, s, [AddBatch] + ([StartFlushOf(1, "a")] + rest)) == Run(OneComponent, s2, rest))
  {
    hide AddEntries, LogEntries, StartFlush, Runs, Run, OneFlush;
    var s1 := Next(OneComponent, s, AddBatch);
    OneAdded(r);
    FlushStarts(s1, r);
    var s2 := Next(OneComponent, s1, StartFlushOf(1, "a"));
    if Runs(OneComponent, s2, rest) {
      Chain(OneComponent, s1, StartFlushOf(1, "a"), rest);
      Chain(OneComponent, s, AddBatch, [StartFlushOf(1, "a")] + rest);
    }
  }

  lemma FirstSynced(r: ObjectRecord, rest: seq<Step>) returns (s: Wal)
    ensures OneSynced(s, r) && s.trailers == map[]
    ensures Runs(OneComponent, s, rest) ==>
              && Runs(OneComponent, Start(1), [Rotate] + ([Sync(FirstEntry(r), Offset(2, 5))] + rest))
              && Run(OneComponent, Start(1), [Rotate] + ([Sync(FirstEntry(r), Offset(2, 5))] + rest)) == Run(OneComponent, s, rest)
  {
    hide Runs, Run;
    var s1 := Next(OneComponent, Start(1), Rotate);
    s := Next(OneComponent, s1, Sync(FirstEntry(r), Offset(2, 5)));
    if Runs(OneComponent, s, rest) {
      Chain(OneComponent, s1, Sync(FirstEntry(r), Offset(2, 5)), rest);
      Chain(OneComponent, Start(1), Rotate, [Sync(FirstEntry(r), Offset(2, 5))] + rest);
    }
  }

  lemma FlushEndLoses(s: Wal, r: ObjectRecord)
    requires IsLastCommit(s.mem, NO_OFFSET) && LogOf(s.log, "a") == [Logged(Offset(1, 10), Offset(2, 5), r)]
    requires PublishedOf(s, "a") == {} && s.oldest == 1 && s.active == 2 && s.threads == map[1 := Ended(Offset(2, 5))]
    ensures Runs(OneComponent, s, FlushEnd()) && !Retained(Run(OneComponent, s, FlushEnd()))
  {
    hide Runs, Run, Retained, IsLastCommit;
    CommitRuns(OneComponent, s, 1, NO_OFFSET, [Rotate] + []);
    RotationLoses(s.(commit := Offset(2, 5), threads := s.threads - {1}), r);
  }

  // ----- A container without an info file

  lemma EndsWithoutFile(s: Wal, r: ObjectRecord)
    requires OneFlush(s, r, map[])
    ensures Runs(OneComponent, s, [ReleaseMemory(1)] + FlushEnd())
    ensures !Retained(Run(OneComponent, s, [ReleaseMemory(1)] + FlushEnd()))
  {
    hide Release, FlushEnd, Runs, Run, Retained;
    assert s.threads[1].path == "a";
    var s1 := Next(OneComponent, s, ReleaseMemory(1));
    ReleaseAt(OneComponent, s.mem, "a", "b");
    ReleaseOnly(s.mem, "a");
    assert s1.threads == map[1 := Ended(Offset(2, 5))];
    NothingLeft(s1.mem);
    FlushEndLoses(s1, r);
    Chain(OneComponent, s, ReleaseMemory(1), FlushEnd());
  }

  /** A flush of a container that has no info file releases its records and writes nothing; then the journal
      file is removed too. */
  lemma MissingInfoFileLoses(r: ObjectRecord)
    ensures var steps := FirstFlush(r, [ReleaseMemory(1)] + FlushEnd());
            Runs(OneComponent, Start(1), steps) && !Retained(Run(OneComponent, Start(1), steps))
  {
    hide Next, Enabled, Runs, Run, Retained, OneSynced, OneFlush, FlushEnd;
    var rest := [ReleaseMemory(1)] + FlushEnd();
    var s := FirstSynced(r, [AddBatch] + ([StartFlushOf(1, "a")] + rest));
    SyncedIsFlushed(s, r, rest);
    EndsWithoutFile(Next(OneComponent, Next(OneComponent, s, AddBatch), StartFlushOf(1, "a")), r);
  }

  // ----- A new info file that claims what is still to be flushed

  // The trailer is the key of the record: the flush drops it and renames the unchanged copy.
  lemma ClaimedIsDropped(s: Wal, r: ObjectRecord)
    requires OneFlush(s, r, map["a" := Offset(2, 5)])
    ensures Runs(OneComponent, s, [ReleaseMemory(1)] + ([RenameFile(1)] + FlushEnd()))
    ensures !Retained(Run(OneComponent, s, [ReleaseMemory(1)] + ([RenameFile(1)] + FlushEnd())))
  {
    hide FlushEnd, Runs, Run, Retained;
    assert s.threads[1].path == "a";
    NothingToWrite(s, r);
    hide Freed, AfterRelease;
    var s1 := Next(OneComponent, s, ReleaseMemory(1));
    FreedAt(OneComponent, s.mem, "a", Offset(2, 5), "b");
    FreedOnly(s.mem, "a", Offset(2, 5));
    NothingLeft(s1.mem);
    var s2 := Next(OneComponent, s1, RenameFile(1));
    assert s2.threads == map[1 := Ended(Offset(2, 5))];
    FlushEndLoses(s2, r);
    Chain(OneComponent, s1, RenameFile(1), FlushEnd());
    Chain(OneComponent, s, ReleaseMemory(1), [RenameFile(1)] + FlushEnd());
  }

  lemma NothingToWrite(s: Wal, r: ObjectRecord)
    requires OneFlush(s, r, map["a" := Offset(2, 5)])
    ensures AfterRelease(OneComponent, s, "a", Offset(2, 5)) == Renaming("a", Offset(2, 5), 1, 1, Offset(2, 5))
  {
    var h := HeldFor(OneComponent, s.mem, "a");
    assert CountUpTo(h.flushing, Offset(2, 5)) == 1;
  }

  lemma CreatedWhileFlushed(s: Wal, r: ObjectRecord)
    requires OneFlush(s, r, map[])
    ensures OneFlush(Created(OneComponent, s, "a"), r, map["a" := Offset(2, 5)])
  {
  }

  /** A container is created while a flush of its records goes on: the trailer of the new file claims them, so
      the flush drops them from its list, and they are in no file and no memory when the journal file is removed. */
  lemma CreationDuringFlushLoses(r: ObjectRecord)
    ensures var steps := FirstFlush(r, Creation(2, "a", [ReleaseMemory(1)] + ([RenameFile(1)] + FlushEnd())));
            Runs(OneComponent, Start(1), steps) && !Retained(Run(OneComponent, Start(1), steps))
  {
    hide Next, Enabled, Runs, Run, Retained, OneSynced, FlushEnd, Creation, Created;
    var last := [ReleaseMemory(1)] + ([RenameFile(1)] + FlushEnd());
    var rest := Creation(2, "a", last);
    var s := FirstSynced(r, [AddBatch] + ([StartFlushOf(1, "a")] + rest));
    SyncedIsFlushed(s, r, rest);
    var s1 := Next(OneComponent, Next(OneComponent, s, AddBatch), StartFlushOf(1, "a"));
    CreatedWhileFlushed(s1, r);
    hide OneFlush;
    ClaimedIsDropped(Created(OneComponent, s1, "a"), r);
    CreationRuns(OneComponent, s1, 2, "a", last);
  }

  lemma CreatedBeforeAdded(s: Wal, r: ObjectRecord)
    requires OneSynced(s, r) && s.trailers == map[]
    ensures OneSynced(Created(OneComponent, s, "a"), r)
    ensures Created(OneComponent, s, "a").trailers == map["a" := Offset(2, 5)]
  {
  }

  /** The same happens when the container is created between the sync of its record and its way into memory,
      when no record of it is in memory. */
  lemma CreationBeforeAddLoses(r: ObjectRecord)
    ensures var flush := [AddBatch] + ([StartFlushOf(1, "a")] + ([ReleaseMemory(1)] + ([RenameFile(1)] + FlushEnd())));
            var steps := [Rotate] + ([Sync(FirstEntry(r), Offset(2, 5))] + Creation(2, "a", flush));
            Runs(OneComponent, Start(1), steps) && !Retained(Run(OneComponent, Start(1), steps))
  {
    hide Next, Enabled, Runs, Run, Retained, FlushEnd, Creation, Created;
    var last := [ReleaseMemory(1)] + ([RenameFile(1)] + FlushEnd());
    var flush := [AddBatch] + ([StartFlushOf(1, "a")] + last);
    var s := FirstSynced(r, Creation(2, "a", flush));
    CreatedBeforeAdded(s, r);
    var s1 := Created(OneComponent, s, "a");
    SyncedIsFlushed(s1, r, last);
    hide OneFlush;
    ClaimedIsDropped(Next(OneComponent, Next(OneComponent, s1, AddBatch), StartFlushOf(1, "a")), r);
    CreationRuns(OneComponent, s, 2, "a", flush);
  }
}
