/** Exactly-once recovery, over every run of a node. */
module ContainerRecoveryRuns {
  import opened ContainerMemory
  import opened MemoryManagement
  import opened ContainerRecovery
  import opened ContainerRecoverySteps

  // ----- Runs

  /** A node whose journal holds nothing but the header of its first file. */
  function Start(file: nat, end: nat): Node
    requires 0 < end
  {
    var start := Offset(file, 0);
    Node([Item(start, Offset(file, end), Header(start))], 1, 1, Offset(file, end), file, start, start, false, map[], map[],
         map[], map[], start, true, false)
  }

  lemma StartKept(comp: string -> int, file: nat, end: nat)
    requires 0 < end && file < NO_OFFSET.file
    ensures Kept(comp, Start(file, end))
  {
    var s := Start(file, end);
    forall path ensures Objects(s.journal, path) == [] {
      assert s.journal[..0] == [];
    }
    assert s.journal[..1] == s.journal;
    forall path ensures PathKept(comp, s, path) && Covers(s.journal, path, InfoOf(s, path), s.commit) {
      assert Objects(s.journal, path) == [];
    }
  }

  lemma {:induction false} RunKeeps(comp: string -> int, s: Node, steps: seq<Step>)
    requires Kept(comp, s) && Runs(comp, s, steps) && Careful(comp, s, steps)
    ensures Kept(comp, Run(comp, s, steps))
    decreases |steps|
  {
    hide Kept, Next, Enabled, CarefulStep;
    if steps != [] {
      StepKeeps(comp, s, steps[0]);
      RunKeeps(comp, Next(comp, s, steps[0]), steps[1..]);
    }
  }

  // The invariant holds before and after each step.
  ghost predicate AlwaysKept(comp: string -> int, s: Node, steps: seq<Step>)
    requires Runs(comp, s, steps)
    decreases |steps|
  {
    Kept(comp, s) && (steps != [] ==> AlwaysKept(comp, Next(comp, s, steps[0]), steps[1..]))
  }

  /** A run keeps the invariant throughout exactly when all its steps are careful. */
  lemma {:induction false} RunKeepsIff(comp: string -> int, s: Node, steps: seq<Step>)
    requires Kept(comp, s) && Runs(comp, s, steps)
    ensures AlwaysKept(comp, s, steps) <==> Careful(comp, s, steps)
    decreases |steps|
  {
    hide Kept, Next, Enabled, CarefulStep;
    if steps != [] {
      StepKeepsIff(comp, s, steps[0]);
      if Kept(comp, Next(comp, s, steps[0])) {
        RunKeepsIff(comp, Next(comp, s, steps[0]), steps[1..]);
      }
    }
  }

  // The info file has been given exactly these records, in their order.
  ghost predicate HoldsAll(info: Info, items: seq<Item>) {
    && |info.applied| == |items|
    && forall i :: 0 <= i < |items| ==> items[i].content.Object? && info.applied[i] == items[i].content.record
  }

  /** After every careful run with any crashes, each info file holds exactly the journaled records of its
      container that end at or before its trailer, each once and in journal order; and it, or the copy that
      will be renamed to it, holds every record added to memory that is not in memory any more. */
  lemma ExactlyOnce(comp: string -> int, file: nat, end: nat, steps: seq<Step>, path: string)
    requires 0 < end && file < NO_OFFSET.file
    requires Runs(comp, Start(file, end), steps) && Careful(comp, Start(file, end), steps)
    ensures var s := Run(comp, Start(file, end), steps);
            && s.added <= |s.journal|
            && var all, added, info := Objects(s.journal, path), Objects(s.journal[..s.added], path), InfoOf(s, path);
               && |info.applied| <= |all| && HoldsAll(info, all[..|info.applied|])
               && (forall i :: 0 <= i < |all| ==> (i < |info.applied| <==> AtMost(all[i].end, info.trailer)))
               && (!Has(comp, s.mem, path) ==> HoldsAll(Upcoming(s, path), added))
  {
    hide Kept, Run, Runs, Careful;
    StartKept(comp, file, end);
    RunKeeps(comp, Start(file, end), steps);
    KeptApplied(comp, Run(comp, Start(file, end), steps), path);
  }

  lemma KeptApplied(comp: string -> int, s: Node, path: string)
    requires Kept(comp, s)
    ensures s.added <= |s.journal|
    ensures var all, added, info := Objects(s.journal, path), Objects(s.journal[..s.added], path), InfoOf(s, path);
            && |info.applied| <= |all| && HoldsAll(info, all[..|info.applied|])
            && (forall i :: 0 <= i < |all| ==> (i < |info.applied| <==> AtMost(all[i].end, info.trailer)))
            && (!Has(comp, s.mem, path) ==> HoldsAll(Upcoming(s, path), added))
  {
    hide JournalKept, Placed, ThreadKept, Covered, Objects;
    assert PathKept(comp, s, path);
    ObjectsPrefix(s.journal, s.added, path);
  }

  /** A crash at any point keeps every added record in the journal, and the flush after recovery completes
      the info file of each container that has one, and of no other, whose records are dropped: nothing else is
      lost, repeated or reordered. */
  lemma RecoveryCompletes(comp: string -> int, s: Node, n: nat, path: string)
    requires Kept(comp, s) && Enabled(comp, s, Crash(n))
    ensures var s1 := Next(comp, s, Crash(n));
            && s.added <= n && Objects(s.journal[..s.added], path) <= Objects(s1.journal, path)
            && (!Has(comp, s1.mem, path) ==> HoldsAll(InfoOf(s1, path), Objects(s1.journal, path)))
            && (Has(comp, s1.mem, path) ==>
                  && Enabled(comp, s1, StartFlushOf(0, path))
                  && var s2 := Next(comp, s1, StartFlushOf(0, path));
                     && Enabled(comp, s2, ReleaseMemory(0))
                     && var s3 := Next(comp, s2, ReleaseMemory(0));
                        && (path in s.infos <==> Enabled(comp, s3, RenameFile(0)))
                        && (path in s.infos ==>
                              HoldsAll(InfoOf(Next(comp, s3, RenameFile(0)), path), Objects(s1.journal, path)))
                        && (path !in s.infos ==> !Has(comp, s3.mem, path)))
  {
    hide Kept, Put, Has, HeldFor, HeldReplayed, Replay, Recorded, Freed, Flushed, HoldsAll;
    CrashAdded(comp, s, n, path);
    var s1 := Next(comp, s, Crash(n));
    CrashKeeps(comp, s, n);
    CrashReplayed(comp, s, n, path);
    KeptApplied(comp, s1, path);
    assert s1.journal[..n] == s1.journal;
    if Has(comp, s1.mem, path) {
      var h := HeldFor(comp, s1.mem, path);
      ReplayedRecords(h, Objects(s1.journal, path), InfoOf(s, path));
      FlushCompletes(comp, s1, path);
    }
  }

  lemma CrashAdded(comp: string -> int, s: Node, n: nat, path: string)
    requires Kept(comp, s) && Enabled(comp, s, Crash(n))
    ensures s.added <= n && Objects(s.journal[..s.added], path) <= Objects(s.journal[..n], path)
  {
    hide PathKept, ThreadKept, Covered, Objects;
    ObjectsPrefix(s.journal[..n], s.added, path);
    assert s.journal[..n][..s.added] == s.journal[..s.added];
  }

  lemma ReplayedRecords(h: Held, objects: seq<Item>, info: Info)
    requires HeldReplayed(h, objects, info)
    ensures h.flushing == [] && h.records != []
  {
  }

  lemma AddedFirst(journal: seq<Item>, n: nat, path: string)
    requires n <= |journal|
    ensures Objects(journal[..n], path) <= Objects(journal, path)
  {
    ObjectsPrefix(journal, n, path);
  }

  // A flush that takes all the records of a container completes its info file, if there is one.
  lemma FlushCompletes(comp: string -> int, s: Node, path: string)
    requires Kept(comp, s) && Enabled(comp, s, StartFlushOf(0, path)) && s.added == |s.journal| && path !in s.temps
    ensures var s2 := Next(comp, s, StartFlushOf(0, path));
            && Enabled(comp, s2, ReleaseMemory(0))
            && var s3 := Next(comp, s2, ReleaseMemory(0));
               && (path in s.infos <==> Enabled(comp, s3, RenameFile(0)))
               && (path in s.infos ==> HoldsAll(InfoOf(Next(comp, s3, RenameFile(0)), path), Objects(s.journal, path)))
               && (path !in s.infos ==> !Has(comp, s3.mem, path))
  {
    hide Kept, Put, Has, HeldFor, Freed, HoldsAll, Objects, Release, InfoOf;
    var h := HeldFor(comp, s.mem, path);
    PutAt(comp, s.mem, path, Swapped(h), true, path);
    var s2 := Next(comp, s, StartFlushOf(0, path));
    StartFlushKeeps(comp, s, 0, path);
    assert s2.threads[0].path == path && HeldFor(comp, s2.mem, path).records == [];
    if path in s.infos {
      ReleaseCompletes(comp, s2, path);
    } else {
      ReleaseAt(comp, s2.mem, path, path);
    }
  }

  lemma ReleaseCompletes(comp: string -> int, s: Node, path: string)
    requires Kept(comp, s) && Enabled(comp, s, ReleaseMemory(0)) && s.added == |s.journal| && s.threads[0].path == path
    requires path in s.infos && HeldFor(comp, s.mem, path).records == [] && HeldFor(comp, s.mem, path).flushing != []
    ensures var s3 := Next(comp, s, ReleaseMemory(0));
            Enabled(comp, s3, RenameFile(0)) && HoldsAll(InfoOf(Next(comp, s3, RenameFile(0)), path), Objects(s.journal, path))
  {
    hide Kept, Has, HeldFor, Freed, Flushed, HoldsAll, Objects, InfoOf;
    var s3 := Next(comp, s, ReleaseMemory(0));
    ReleaseKeeps(comp, s, 0);
    FreedAt(comp, s.mem, path, InfoOf(s, path).trailer, path);
    RenameKeeps(comp, s3, 0);
    RenameCompletes(comp, s3, path);
  }

  lemma RenameCompletes(comp: string -> int, s: Node, path: string)
    requires Enabled(comp, s, RenameFile(0)) && Kept(comp, Next(comp, s, RenameFile(0)))
    requires s.threads[0].path == path && !Has(comp, s.mem, path) && s.added == |s.journal|
    ensures HoldsAll(InfoOf(Next(comp, s, RenameFile(0)), path), Objects(s.journal, path))
  {
    hide Kept, Has, HoldsAll, Objects;
    var s' := Next(comp, s, RenameFile(0));
    KeptApplied(comp, s', path);
    assert s'.journal[..s'.added] == s.journal;
  }

  // ----- A header, a crash, and what comes back

  // Replay brings back no more than the records that it does not pass over.
  lemma {:induction false} ReplayedAreFew(comp: string -> int, journal: seq<Item>, from: Offset, n: nat, path: string, k: nat)
    requires Ordered(journal) && n <= |journal| && k < |Objects(journal[..n], path)|
    requires Less(Objects(journal[..n], path)[k].start, from)
    ensures InMemory(comp, Replay(comp, journal, from, n), path) < |Objects(journal[..n], path)| - k
    decreases n
  {
    hide Has, HeldFor, AddOne, WithoutBelow, InMemory;
    if n > 0 {
      var m, item := Replay(comp, journal, from, n - 1), journal[n - 1];
      ObjectsStep(journal, n - 1, path);
      if Less(item.start, from) {
        ReplayNothing(comp, journal, from, n);
        NothingInMemory(comp, path);
      } else {
        ReplayedAreFew(comp, journal, from, n - 1, path, k);
        RecoveredAreFew(comp, m, item, path);
      }
    }
  }

  lemma NothingInMemory(comp: string -> int, path: string)
    ensures InMemory(comp, map[], path) == 0
  {
  }

  lemma RecoveredAreFew(comp: string -> int, m: Memory, item: Item, path: string)
    ensures InMemory(comp, RecoverItem(comp, m, item), path) <= InMemory(comp, m, path) + |ObjectIn(item, path)|
  {
    hide Has, HeldFor, WithoutBelow, Put;
    match item.content
    case Object(p, r) =>
      var x := Pending(item.end, r);
      PutAt(comp, m, p, if Has(comp, m, p) then Added(HeldFor(comp, m, p), x) else NewHeld(x, item.start), true, path);
    case EndFlush(p, sync) => WithoutBelowAt(comp, m, p, sync, path);
    case _ =>
  }

  /** A header is written and the node crashes: every record that its info file does not hold comes back to
      memory exactly when no such record is in a file before that of the commit offset in the header. */
  lemma HeaderRecoversIff(comp: string -> int, s: Node, start: Offset, end: Offset)
    requires Kept(comp, s) && Enabled(comp, s, WriteHeader(start, end))
    ensures var s1 := Next(comp, s, WriteHeader(start, end));
            && Enabled(comp, s1, Crash(|s1.journal|))
            && var s2 := Next(comp, s1, Crash(|s1.journal|));
               (forall path :: Replayed(comp, s2.mem, path, Objects(s2.journal, path), InfoOf(s2, path))) <==> NothingBefore(s)
  {
    hide Kept, Replay, NothingBefore, Replayed, Objects, Recorded;
    KeptNode(comp, s);
    var s1 := Next(comp, s, WriteHeader(start, end));
    var s2 := Next(comp, s1, Crash(|s1.journal|));
    assert s1.journal[..|s1.journal|] == s1.journal;
    if NothingBefore(s) {
      HeaderKeeps(comp, s, start, end);
      forall path ensures Replayed(comp, s2.mem, path, Objects(s2.journal, path), InfoOf(s2, path)) {
        CrashReplayed(comp, s1, |s1.journal|, path);
      }
    } else {
      var path := PassedOver(comp, s, start, end);
    }
  }

  lemma KeptNode(comp: string -> int, s: Node)
    requires Kept(comp, s)
    ensures 0 < s.synced <= |s.journal| && s.added <= s.synced && Ordered(s.journal)
  {
    hide PathKept, ThreadKept, Covered;
    KeptJournal(s);
  }

  lemma PassedOver(comp: string -> int, s: Node, start: Offset, end: Offset) returns (path: string)
    requires Kept(comp, s) && Enabled(comp, s, WriteHeader(start, end)) && !NothingBefore(s)
    ensures var journal := Next(comp, s, WriteHeader(start, end)).journal;
            !Replayed(comp, Replay(comp, journal, Recorded(journal), |journal|), path, Objects(journal, path), InfoOf(s, path))
  {
    hide Kept, Replay, Objects;
    KeptNode(comp, s);
    var p, i :| |InfoOf(s, p).applied| <= i < |Objects(s.journal, p)|
                && Objects(s.journal, p)[i].start.file < s.commit.file;
    path := p;
    var s1, item := Next(comp, s, WriteHeader(start, end)), Item(start, end, Header(s.commit));
    var journal := s1.journal;
    HeaderIsOrdered(comp, s, start, end);
    ObjectsOneMore(s.journal, item, path);
    NoObject(item, path);
    assert journal[..|journal|] == journal && Objects(journal, path) == Objects(s.journal, path);
    assert Recorded(journal) == s.commit;
    ReplayedAreFew(comp, journal, s.commit, |journal|, path, i);
    FewAreNotAll(comp, Replay(comp, journal, s.commit, |journal|), path, Objects(journal, path), InfoOf(s, path), i);
  }

  lemma HeaderIsOrdered(comp: string -> int, s: Node, start: Offset, end: Offset)
    requires Kept(comp, s) && Appends(s, start, end)
    ensures Ordered(Written(s, start, end, Header(s.commit)).journal)
  {
    hide PathKept, ThreadKept, Covered;
    WrittenOrdered(s, start, end, Header(s.commit));
  }

  lemma FewAreNotAll(comp: string -> int, m: Memory, path: string, objects: seq<Item>, info: Info, i: nat)
    requires |info.applied| <= i < |objects| && InMemory(comp, m, path) < |objects| - i
    ensures !Replayed(comp, m, path, objects, info)
  {
  }

  // ----- A header that is ahead

  lemma Chain(comp: string -> int, s: Node, step: Step, rest: seq<Step>)
    requires Enabled(comp, s, step) && Runs(comp, Next(comp, s, step), rest)
    ensures Runs(comp, s, [step] + rest) && Run(comp, s, [step] + rest) == Run(comp, Next(comp, s, step), rest)
  {
    assert ([step] + rest)[1..] == rest;
  }

  function Creation(t: int, path: string, rest: seq<Step>): seq<Step> {
    [ReadSync(t, path)] + ([WriteInfo(t)] + ([DropMemory(t)] + rest))
  }

  lemma CreationRuns(comp: string -> int, s: Node, t: int, path: string, rest: seq<Step>)
    requires t !in s.threads && path !in s.infos && Runs(comp, Created(comp, s, path), rest)
    ensures Runs(comp, s, Creation(t, path, rest))
    ensures Run(comp, s, Creation(t, path, rest)) == Run(comp, Created(comp, s, path), rest)
  {
    hide Next, Enabled, Created, Runs, Run;
    CreatedInSteps(comp, s, t, path);
    var s1 := Next(comp, s, ReadSync(t, path));
    var s2 := Next(comp, s1, WriteInfo(t));
    Chain(comp, s2, DropMemory(t), rest);
    Chain(comp, s1, WriteInfo(t), [DropMemory(t)] + rest);
    Chain(comp, s, ReadSync(t, path), [WriteInfo(t)] + ([DropMemory(t)] + rest));
  }

  // A record goes into file 1 and is added to memory, and a header into file 2.
  function FirstFiles(r: ObjectRecord, rest: seq<Step>): seq<Step> {
    [WriteObject("a", r, Offset(1, 10), Offset(1, 20))] + ([Sync] + ([AddBatch] + ([WriteHeader(Offset(2, 0), Offset(2, 10))] + rest)))
  }

  // After a restart another header is written, and the node restarts again.
  function SecondRestart(): seq<Step> {
    [Crash(3)] + ([WriteHeader(Offset(2, 10), Offset(2, 20))] + ([Crash(4)] + []))
  }

  function TwoRestarts(r: ObjectRecord): seq<Step> {
    Creation(1, "a", FirstFiles(r, SecondRestart()))
  }

  // The journal before the first restart.
  function FirstItems(r: ObjectRecord): seq<Item> {
    [Item(Offset(1, 0), Offset(1, 10), Header(Offset(1, 0))), Item(Offset(1, 10), Offset(1, 20), Object("a", r)),
     Item(Offset(2, 0), Offset(2, 10), Header(Offset(1, 0)))]
  }

  lemma FirstFilesRun(comp: string -> int, s: Node, r: ObjectRecord, rest: seq<Step>) returns (s': Node)
    requires s == Start(1, 10).(infos := map["a" := Info([], Offset(1, 0))])
    ensures s'.journal == FirstItems(r) && s'.synced == 2 && s'.tail == Offset(2, 10) && s'.infos == s.infos
    ensures Runs(comp, s', rest) ==>
              && Runs(comp, s, FirstFiles(r, rest))
              && Run(comp, s, FirstFiles(r, rest)) == Run(comp, s', rest)
  {
    hide AddItems, Runs, Run;
    var s1 := Next(comp, s, WriteObject("a", r, Offset(1, 10), Offset(1, 20)));
    var s2 := Next(comp, s1, Sync);
    var s3 := Next(comp, s2, AddBatch);
    s' := Next(comp, s3, WriteHeader(Offset(2, 0), Offset(2, 10)));
    if Runs(comp, s', rest) {
      var more := [WriteHeader(Offset(2, 0), Offset(2, 10))] + rest;
      Chain(comp, s3, WriteHeader(Offset(2, 0), Offset(2, 10)), rest);
      Chain(comp, s2, AddBatch, more);
      Chain(comp, s1, Sync, [AddBatch] + more);
      Chain(comp, s, WriteObject("a", r, Offset(1, 10), Offset(1, 20)), [Sync] + ([AddBatch] + more));
    }
  }

  lemma AfterSecondRestart(comp: string -> int, s: Node, r: ObjectRecord)
    requires s.journal == FirstItems(r) && s.synced == 2 && s.tail == Offset(2, 10)
    ensures Runs(comp, s, SecondRestart())
    ensures var s' := Run(comp, s, SecondRestart());
               s'.mem == map[] && s'.infos == s.infos && |s'.journal| == 4 && s'.journal[..3] == FirstItems(r)
  {
    hide Replay, Recorded, Runs, Run;
    assert s.journal[..3] == FirstItems(r);
    var s1 := Next(comp, s, Crash(3));
    AfterFirstRestart(comp, s1, r);
    Chain(comp, s, Crash(3), [WriteHeader(Offset(2, 10), Offset(2, 20))] + ([Crash(4)] + []));
  }

  lemma AfterFirstRestart(comp: string -> int, s: Node, r: ObjectRecord)
    requires s.journal == FirstItems(r) && s.synced == 3 && s.tail == Offset(2, 10) && s.commit == Offset(2, 0)
    ensures var rest := [WriteHeader(Offset(2, 10), Offset(2, 20))] + ([Crash(4)] + []);
            && Runs(comp, s, rest)
            && var s' := Run(comp, s, rest);
               s'.mem == map[] && s'.infos == s.infos && |s'.journal| == 4 && s'.journal[..3] == FirstItems(r)
  {
    hide Replay, Recorded, Runs, Run;
    var s2 := Next(comp, s, WriteHeader(Offset(2, 10), Offset(2, 20)));
    var s3 := Next(comp, s2, Crash(4));
    assert s2.journal[..4] == s2.journal && s3.journal[..3] == FirstItems(r);
    LostByReplay(comp, s3.journal, r);
    RunOfNone(comp, s3);
    Chain(comp, s2, Crash(4), []);
    Chain(comp, s, WriteHeader(Offset(2, 10), Offset(2, 20)), [Crash(4)] + []);
  }

  lemma LostByReplay(comp: string -> int, journal: seq<Item>, r: ObjectRecord)
    requires |journal| == 4 && journal[..3] == FirstItems(r)
    requires journal[3] == Item(Offset(2, 10), Offset(2, 20), Header(Offset(2, 0)))
    ensures Recorded(journal) == Offset(2, 0) && Replay(comp, journal, Offset(2, 0), 4) == map[]
  {
    assert journal[0] == journal[..3][0] && journal[1] == journal[..3][1] && journal[2] == journal[..3][2];
    assert Replay(comp, journal, Offset(2, 0), 0) == map[];
    assert Replay(comp, journal, Offset(2, 0), 1) == map[];
    assert Replay(comp, journal, Offset(2, 0), 2) == map[];
    assert Replay(comp, journal, Offset(2, 0), 3) == map[];
  }

  /** The code also allows a header right after a restart, when the commit offset stands at the start of the
      newest file: the next recovery then passes over a record of an older file for good. */
  lemma HeaderAfterRestartLoses(comp: string -> int, r: ObjectRecord)
    ensures Runs(comp, Start(1, 10), TwoRestarts(r))
    ensures var s := Run(comp, Start(1, 10), TwoRestarts(r));
            && "a" in s.infos && !Has(comp, s.mem, "a") && InfoOf(s, "a").applied == [] && 3 <= |s.journal|
            && s.journal[1].content == Object("a", r)
  {
    hide Runs, Run, FirstFiles, SecondRestart, Creation;
    var s := Created(comp, Start(1, 10), "a");
    var s1 := FirstFilesRun(comp, s, r, SecondRestart());
    AfterSecondRestart(comp, s1, r);
    CreationRuns(comp, Start(1, 10), 1, "a", FirstFiles(r, SecondRestart()));
    var s2 := Run(comp, s1, SecondRestart());
    assert s2.journal[1] == s2.journal[..3][1];
  }

  // ----- A creation between the sync of a record and its way into memory

  function FlushOfA(): seq<Step> {
    [AddBatch] + ([StartFlushOf(1, "a")] + ([ReleaseMemory(1)] + ([RenameFile(1)] + [])))
  }

  lemma OneAdded(comp: string -> int, r: ObjectRecord, journal: seq<Item>)
    requires |journal| == 2 && journal[1] == Item(Offset(1, 10), Offset(1, 20), Object("a", r))
    ensures var m := AddItems(comp, map[], journal, 1, 2, Offset(1, 0), Offset(1, 20));
            Has(comp, m, "a") && HeldFor(comp, m, "a") == NewHeld(Pending(Offset(1, 20), r), Offset(1, 0))
  {
    assert AddItems(comp, map[], journal, 1, 1, Offset(1, 0), Offset(1, 20)) == map[];
  }

  // The trailer of the file is the key of the record: the flush skips it.
  lemma SkippedFlush(comp: string -> int, s: Node, r: ObjectRecord)
    requires Has(comp, s.mem, "a") && HeldFor(comp, s.mem, "a") == NewHeld(Pending(Offset(1, 20), r), Offset(1, 0))
    requires "a" in s.infos && s.infos["a"] == Info([], Offset(1, 20)) && s.threads == map[] && s.temps == map[]
    ensures Enabled(comp, s, StartFlushOf(1, "a"))
    ensures var s1 := Next(comp, s, StartFlushOf(1, "a"));
            && Enabled(comp, s1, ReleaseMemory(1))
            && var s2 := Next(comp, s1, ReleaseMemory(1));
               && Enabled(comp, s2, RenameFile(1))
               && var s3 := Next(comp, s2, RenameFile(1));
                  && s3.journal == s.journal && s3.added == s.added && s3.temps == map[]
                  && "a" in s3.infos && InfoOf(s3, "a").applied == [] && !Has(comp, s3.mem, "a")
  {
    hide Put, Has, HeldFor, Freed;
    var h := Swapped(HeldFor(comp, s.mem, "a"));
    PutAt(comp, s.mem, "a", h, true, "a");
    var s1 := Next(comp, s, StartFlushOf(1, "a"));
    assert s1.threads[1].path == "a" && h.flushing == [Pending(Offset(1, 20), r)] && h.records == [];
    SkippedRelease(comp, s1, r);
  }

  lemma SkippedRelease(comp: string -> int, s: Node, r: ObjectRecord)
    requires 1 in s.threads && s.threads[1] == Flushing("a", Offset(1, 20)) && s.temps == map[] && Has(comp, s.mem, "a")
    requires HeldFor(comp, s.mem, "a").flushing == [Pending(Offset(1, 20), r)] && HeldFor(comp, s.mem, "a").records == []
    requires "a" in s.infos && s.infos["a"] == Info([], Offset(1, 20))
    ensures Enabled(comp, s, ReleaseMemory(1))
    ensures var s2 := Next(comp, s, ReleaseMemory(1));
            && Enabled(comp, s2, RenameFile(1))
            && var s3 := Next(comp, s2, RenameFile(1));
               && s3.journal == s.journal && s3.added == s.added && s3.temps == map[]
               && "a" in s3.infos && InfoOf(s3, "a").applied == [] && !Has(comp, s3.mem, "a")
  {
    hide Has, HeldFor, Freed, Flushed;
    var h := HeldFor(comp, s.mem, "a");
    assert CountUpTo(h.flushing, Offset(1, 20)) == 1;
    assert Skipped(h, Offset(1, 20)).flushing == [];
    FreedAt(comp, s.mem, "a", Offset(1, 20), "a");
    NothingFlushed(Info([], Offset(1, 20)), h);
    assert Next(comp, s, ReleaseMemory(1)).temps - {"a"} == map[];
  }

  lemma NothingFlushed(info: Info, h: Held)
    requires Skipped(h, info.trailer).flushing == []
    ensures Flushed(info, h) == info
  {
  }

  /** A container is created between the sync of its record and its way into memory: no record of it is in
      memory, but the trailer of the new file claims the record, and its flush skips it. */
  lemma CreationBeforeAddLoses(comp: string -> int, r: ObjectRecord)
    ensures var steps := [WriteObject("a", r, Offset(1, 10), Offset(1, 20))] + ([Sync] + Creation(2, "a", FlushOfA()));
            && Runs(comp, Start(1, 10), steps)
            && var s := Run(comp, Start(1, 10), steps);
               && s.added == |s.journal| == 2 && s.journal[1].content == Object("a", r)
               && "a" in s.infos && InfoOf(s, "a").applied == [] && !Has(comp, s.mem, "a") && s.temps == map[]
  {
    hide AddItems, Runs, Run, Creation, StartFlush, Freed, Flushed, Has, HeldFor;
    var s1 := Next(comp, Start(1, 10), WriteObject("a", r, Offset(1, 10), Offset(1, 20)));
    var s2 := Next(comp, s1, Sync);
    NothingYet(comp);
    var s3 := Created(comp, s2, "a");
    var s4 := Next(comp, s3, AddBatch);
    OneAdded(comp, r, s4.journal);
    SkippedFlush(comp, s4, r);
    var s5 := Next(comp, s4, StartFlushOf(1, "a"));
    var s6 := Next(comp, s5, ReleaseMemory(1));
    Chain(comp, s6, RenameFile(1), []);
    Chain(comp, s5, ReleaseMemory(1), [RenameFile(1)] + []);
    Chain(comp, s4, StartFlushOf(1, "a"), [ReleaseMemory(1)] + ([RenameFile(1)] + []));
    Chain(comp, s3, AddBatch, [StartFlushOf(1, "a")] + ([ReleaseMemory(1)] + ([RenameFile(1)] + [])));
    CreationRuns(comp, s2, 2, "a", FlushOfA());
    Chain(comp, s1, Sync, Creation(2, "a", FlushOfA()));
    Chain(comp, Start(1, 10), WriteObject("a", r, Offset(1, 10), Offset(1, 20)), [Sync] + Creation(2, "a", FlushOfA()));
    RunOfNone(comp, Next(comp, s6, RenameFile(1)));
  }

  lemma NothingYet(comp: string -> int)
    ensures WithoutContainer(comp, map[], "a") == map[]
  {
  }

  lemma RunOfNone(comp: string -> int, s: Node)
    ensures Runs(comp, s, []) && Run(comp, s, []) == s
  {
  }
}
