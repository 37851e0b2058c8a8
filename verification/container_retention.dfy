/** Write-ahead retention: which journal files may be removed while containers are being created, filled and
    flushed.  The steps are those of one batch thread and any number of threads that flush and create.  What
    such a thread does to the memory, to an info file and to the commit offset are separate steps, and so are
    the sync of a batch and its way into memory, so that the steps of other threads may come in between. */
module ContainerRetention {
  import opened ContainerMemory
  import opened MemoryManagement

  // A record of a batch and the journal offset at which it starts.
  datatype Entry = Entry(path: string, record: ObjectRecord, owned: bool, start: Offset)

  datatype Logged = Logged(start: Offset, key: Offset, record: ObjectRecord)

  type Log = map<string, seq<Logged>>

  /** Where a thread is; `sync` is the key of the last record that it flushes.  The renaming puts records
      `from` up to `to` of the log into the info file, under a new trailer. */
  datatype Phase =
    | Flushing(path: string, sync: Offset)
    | Renaming(path: string, sync: Offset, from: nat, to: nat, trailer: Offset)
    | Ended(sync: Offset)
    | Setting(offset: Offset)
    | Creating(path: string, offset: Offset)
    | Dropping(path: string)

  /** `log` holds every record that has been added to memory, in its order, and `published` the places in the
      log of those that are in the info file; `trailers` holds the trailer of each info file, `recorded` the
      commit offset in the last header of the journal.  Between its sync and its way into memory a batch is
      in `batch`, with `adding` set; `lastAdded` is the sync offset of the batch that was added last. */
  datatype Wal = Wal(mem: Memory, log: Log, published: map<string, set<nat>>, trailers: map<string, Offset>,
                     batch: seq<Entry>, adding: bool, lastAdded: Offset, lastSync: Offset, threads: map<int, Phase>,
                     commit: Offset, recorded: Offset, oldest: nat, active: nat, removed: set<nat>)

  datatype Step =
    | Sync(entries: seq<Entry>, sync: Offset)
    | AddBatch
    | StartFlushOf(thread: int, path: string)
    | ReleaseMemory(thread: int)
    | RenameFile(thread: int)
    | ReadMinimum(thread: int, minimum: Offset)
    | SetCommit(thread: int)
    | ReadSync(thread: int, path: string)
    | WriteInfo(thread: int)
    | DropMemory(thread: int)
    | WriteCheckpoint
    | Rotate

  function LogOf(log: Log, path: string): seq<Logged> {
    if path in log then log[path] else []
  }

  function PublishedOf(s: Wal, path: string): set<nat> {
    if path in s.published then s.published[path] else {}
  }

  function AddEntries(comp: string -> int, m: Memory, es: seq<Entry>, prev: Offset, sync: Offset): Memory
    decreases |es|
  {
    if es == [] then m else
      AddEntries(comp, AddOne(comp, m, FinalRecord(es[0].path, es[0].record), prev, sync, es[0].owned), es[1..], prev, sync)
  }

  function LogOne(log: Log, e: Entry, sync: Offset): Log {
    log[e.path := LogOf(log, e.path) + [Logged(e.start, sync, e.record)]]
  }

  function LogEntries(log: Log, es: seq<Entry>, sync: Offset): Log
    decreases |es|
  {
    if es == [] then log else LogEntries(LogOne(log, es[0], sync), es[1..], sync)
  }

  // The first place in the log of a record that is still in memory.
  function FirstHeld(comp: string -> int, s: Wal, path: string): int {
    |LogOf(s.log, path)| - InMemory(comp, s.mem, path)
  }

  predicate BeingRenamed(s: Wal, path: string) {
    exists t :: t in s.threads && s.threads[t].Renaming? && s.threads[t].path == path
  }

  predicate Quiet(s: Wal) {
    forall t :: t in s.threads ==> !s.threads[t].Renaming?
  }

  // Every record of a batch starts between the last sync and the new one.
  predicate InBatch(es: seq<Entry>, prev: Offset, sync: Offset) {
    forall i :: 0 <= i < |es| ==> AtMost(prev, es[i].start) && Less(es[i].start, sync)
  }

  function Range(lo: nat, hi: nat): (r: set<nat>)
    ensures forall k :: k in r <==> lo <= k < hi
  {
    if hi <= lo then {} else Range(lo, hi - 1) + {hi - 1}
  }

  // What the flush finds in its list after it has dropped the records that the info file already holds.
  function LeftToWrite(comp: string -> int, s: Wal, path: string): seq<Pending>
    requires Has(comp, s.mem, path) && path in s.trailers
  {
    Skipped(HeldFor(comp, s.mem, path), s.trailers[path]).flushing
  }

  ghost predicate Enabled(comp: string -> int, s: Wal, step: Step) {
    match step
    case Sync(es, sync) =>
      !s.adding && AtMost(s.lastSync, sync) && sync.file <= s.active < NO_OFFSET.file && InBatch(es, s.lastSync, sync)
    case AddBatch => s.adding
    case StartFlushOf(t, path) =>
      t !in s.threads && Has(comp, s.mem, path)
      && HeldFor(comp, s.mem, path).flushing == [] && HeldFor(comp, s.mem, path).records != []
    case ReleaseMemory(t) =>
      t in s.threads && s.threads[t].Flushing? && !BeingRenamed(s, s.threads[t].path)
      && Has(comp, s.mem, s.threads[t].path) && HeldFor(comp, s.mem, s.threads[t].path).flushing != []
      && 0 <= FirstHeld(comp, s, s.threads[t].path)
      // With nothing left to release but records still waiting the code reads an element of an empty list.
      && (s.threads[t].path in s.trailers && HeldFor(comp, s.mem, s.threads[t].path).records != [] ==>
            LeftToWrite(comp, s, s.threads[t].path) != [])
    case RenameFile(t) => t in s.threads && s.threads[t].Renaming?
    case ReadMinimum(t, minimum) => t in s.threads && s.threads[t].Ended? && IsLastCommit(s.mem, minimum)
    case SetCommit(t) => t in s.threads && s.threads[t].Setting?
    case ReadSync(t, path) => t !in s.threads
    case WriteInfo(t) => t in s.threads && s.threads[t].Creating?
    case DropMemory(t) => t in s.threads && s.threads[t].Dropping?
    case WriteCheckpoint => true
    case Rotate => s.active < NO_OFFSET.file
  }

  // What becomes of a flush when it releases the memory: it has nothing to rename without an info file.
  function AfterRelease(comp: string -> int, s: Wal, path: string, sync: Offset): (phase: Phase)
    requires Has(comp, s.mem, path) && 0 <= FirstHeld(comp, s, path)
  {
    if path !in s.trailers then Ended(sync) else
      var left, to := LeftToWrite(comp, s, path), |LogOf(s.log, path)| - |HeldFor(comp, s.mem, path).records|;
      Renaming(path, sync, to - |left|, to, if left == [] then s.trailers[path] else left[|left| - 1].offset)
  }

  ghost function Next(comp: string -> int, s: Wal, step: Step): Wal
    requires Enabled(comp, s, step)
  {
    match step
    case Sync(es, sync) => s.(batch := es, adding := true, lastSync := sync)
    case AddBatch =>
      s.(mem := AddEntries(comp, s.mem, s.batch, s.lastAdded, s.lastSync), log := LogEntries(s.log, s.batch, s.lastSync),
         batch := [], adding := false, lastAdded := s.lastSync)
    case StartFlushOf(t, path) =>
      var h := HeldFor(comp, s.mem, path);
      s.(mem := StartFlush(comp, s.mem, path), threads := s.threads[t := Flushing(path, h.records[|h.records| - 1].offset)])
    case ReleaseMemory(t) =>
      var path := s.threads[t].path;
      s.(mem := if path in s.trailers then Freed(comp, s.mem, path, s.trailers[path]) else Release(comp, s.mem, path),
         threads := s.threads[t := AfterRelease(comp, s, path, s.threads[t].sync)])
    case RenameFile(t) =>
      var phase := s.threads[t];
      s.(published := s.published[phase.path := PublishedOf(s, phase.path) + Range(phase.from, phase.to)],
         trailers := s.trailers[phase.path := phase.trailer], threads := s.threads[t := Ended(phase.sync)])
    case ReadMinimum(t, minimum) =>
      s.(threads := s.threads[t := Setting(OffsetRead(s, t, minimum))])
    case SetCommit(t) => s.(commit := s.threads[t].offset, threads := s.threads - {t})
    case ReadSync(t, path) => s.(threads := s.threads[t := Creating(path, s.lastSync)])
    case WriteInfo(t) =>
      var path := s.threads[t].path;
      // An info file that exists stays as it is, and so does the memory.
      if path in s.trailers then s.(threads := s.threads - {t})
      else s.(trailers := s.trailers[path := s.threads[t].offset], threads := s.threads[t := Dropping(path)])
    case DropMemory(t) => s.(mem := WithoutContainer(comp, s.mem, s.threads[t].path), threads := s.threads - {t})
    case WriteCheckpoint => s.(recorded := s.commit)
    case Rotate =>
      s.(active := s.active + 1, recorded := s.commit, removed := s.removed + Range(s.oldest, s.commit.file),
         oldest := s.commit.file)
  }

  function Start(file: nat): Wal {
    var start := Offset(file, 0);
    Wal(map[], map[], map[], map[], [], false, start, start, map[], start, start, file, file, {})
  }

  /** The runs that the code allows. */
  ghost predicate Runs(comp: string -> int, s: Wal, steps: seq<Step>)
    decreases |steps|
  {
    steps != [] ==> Enabled(comp, s, steps[0]) && Runs(comp, Next(comp, s, steps[0]), steps[1..])
  }

  ghost function Run(comp: string -> int, s: Wal, steps: seq<Step>): Wal
    requires Runs(comp, s, steps)
    decreases |steps|
  {
    if steps == [] then s else Run(comp, Next(comp, s, steps[0]), steps[1..])
  }

  // The offset that a flush thread reads.
  function OffsetRead(s: Wal, t: int, minimum: Offset): Offset
    requires t in s.threads && s.threads[t].Ended?
  {
    if minimum.file == NO_OFFSET.file then s.threads[t].sync else minimum
  }

  // Record `i` of the container has been added to memory and is not in its info file.
  ghost predicate Unpublished(s: Wal, path: string, i: int) {
    0 <= i < |LogOf(s.log, path)| && i !in PublishedOf(s, path)
  }

  // Record `i` is out of memory but its info file is not yet renamed into place.
  ghost predicate InWindow(comp: string -> int, s: Wal, path: string, i: int) {
    BeingRenamed(s, path) && Unpublished(s, path, i) && i < FirstHeld(comp, s, path)
  }

  ghost predicate NotAhead(comp: string -> int, s: Wal, offset: Offset) {
    forall path, i :: InWindow(comp, s, path, i) ==> AtMost(offset, LogOf(s.log, path)[i].start)
  }

  /** A flush under this trailer skips no record of the container that is in memory or on its way there. */
  ghost predicate Unclaimed(comp: string -> int, s: Wal, path: string, trailer: Offset) {
    && (forall i :: 0 <= i < |LogOf(s.log, path)| && FirstHeld(comp, s, path) <= i ==> Less(trailer, LogOf(s.log, path)[i].key))
    && (forall i :: 0 <= i < |s.batch| && s.batch[i].path == path ==> Less(trailer, s.lastSync))
  }

  // Deleting the container takes no record out of memory.
  predicate NothingDropped(comp: string -> int, m: Memory, path: string) {
    Has(comp, m, path) ==> HeldFor(comp, m, path).flushing != [] || HeldFor(comp, m, path).records == []
  }

  /** The steps that do no harm: no flush thread reads an offset that is ahead of a record which another one
      has released from memory but not yet renamed into place, only containers that have an info file are
      released, a new info file claims no record that is still to be flushed, and none is pending when the
      memory of the new container is dropped. */
  ghost predicate CarefulStep(comp: string -> int, s: Wal, step: Step)
    requires Enabled(comp, s, step)
  {
    match step
    case ReadMinimum(t, minimum) => NotAhead(comp, s, OffsetRead(s, t, minimum))
    case ReleaseMemory(t) => s.threads[t].path in s.trailers
    case WriteInfo(t) => s.threads[t].path in s.trailers || Unclaimed(comp, s, s.threads[t].path, s.threads[t].offset)
    case DropMemory(t) => NothingDropped(comp, s.mem, s.threads[t].path)
    case _ => true
  }

  ghost predicate Careful(comp: string -> int, s: Wal, steps: seq<Step>)
    requires Runs(comp, s, steps)
    decreases |steps|
  {
    steps != [] ==> CarefulStep(comp, s, steps[0]) && Careful(comp, Next(comp, s, steps[0]), steps[1..])
  }

  // ----- The invariant

  /** No record that was added to memory and is outside its info file starts before `offset`. */
  ghost predicate Covered(s: Wal, offset: Offset) {
    && AtMost(offset, s.lastAdded)
    && forall path, i :: Unpublished(s, path, i) ==> AtMost(offset, LogOf(s.log, path)[i].start)
  }

  /** No removed file holds a synced record outside its info file, be it in memory already or not. */
  ghost predicate Retained(s: Wal) {
    && (forall path, i :: Unpublished(s, path, i) ==> LogOf(s.log, path)[i].start.file !in s.removed)
    && (forall i :: 0 <= i < |s.batch| ==> s.batch[i].start.file !in s.removed)
  }

  // What is in memory is the end of the log, and its commit offset is not after it.
  ghost predicate HeldMatches(h: Held, log: seq<Logged>, lo: Offset) {
    var mem := h.flushing + h.records;
    && |mem| <= |log|
    && (forall j :: 0 <= j < |mem| ==> mem[j] == Pending(log[|log| - |mem| + j].key, log[|log| - |mem| + j].record))
    && AtMost(h.commit, lo)
    && (forall i :: |log| - |mem| <= i < |log| ==> AtMost(h.commit, log[i].start))
    && (forall j :: 0 <= j < |h.flushing| ==> AtMost(h.flushing[j].offset, lo))
    && (forall i, j :: |log| - |h.records| <= i < |log| && 0 <= j < |h.flushing| ==>
          AtMost(h.flushing[j].offset, log[i].start))
  }

  ghost predicate PathMatches(comp: string -> int, m: Memory, log: seq<Logged>, path: string, lo: Offset, hi: Offset) {
    && (forall i :: 0 <= i < |log| ==> Less(log[i].start, log[i].key) && AtMost(log[i].key, hi))
    && (Has(comp, m, path) ==> HeldMatches(HeldFor(comp, m, path), log, lo))
  }

  ghost predicate MemoryMatches(comp: string -> int, m: Memory, log: Log, lo: Offset, hi: Offset) {
    forall path :: PathMatches(comp, m, LogOf(log, path), path, lo, hi)
  }

  // ----- The threads

  ghost predicate ThreadMatches(comp: string -> int, s: Wal, t: int)
    requires t in s.threads
  {
    match s.threads[t]
    case Flushing(path, sync) =>
      Has(comp, s.mem, path) && HeldFor(comp, s.mem, path).flushing != [] && AtMost(sync, s.lastAdded)
    case Renaming(path, sync, _, to, trailer) =>
      && path in s.trailers && AtMost(sync, s.lastAdded) && to <= FirstHeld(comp, s, path)
      && AtMost(trailer, s.lastSync) && Unclaimed(comp, s, path, trailer)
    case Ended(sync) => AtMost(sync, s.lastAdded)
    case Setting(offset) => Covered(s, offset)
    case Creating(_, offset) => AtMost(offset, s.lastSync)
    case Dropping(_) => true
  }

  predicate SameFlush(a: Phase, b: Phase) {
    || (a.Flushing? && b.Flushing? && a.path == b.path)
    || (a.Renaming? && b.Renaming? && a.path == b.path)
  }

  ghost predicate ThreadsMatch(comp: string -> int, s: Wal) {
    && (forall t :: t in s.threads ==> ThreadMatches(comp, s, t))
    && (forall t, u :: t in s.threads && u in s.threads && t != u ==> !SameFlush(s.threads[t], s.threads[u]))
  }

  // A renaming is about to put record `i` into the info file.
  ghost predicate OnItsWay(s: Wal, path: string, i: int) {
    exists t :: t in s.threads && s.threads[t].Renaming? && s.threads[t].path == path && s.threads[t].from <= i < s.threads[t].to
  }

  // Whatever is out of memory is in the info file or on its way there.
  ghost predicate PublishedMatches(comp: string -> int, s: Wal, path: string) {
    && (forall i :: i in PublishedOf(s, path) ==> i < FirstHeld(comp, s, path))
    && (forall i :: Unpublished(s, path, i) && i < FirstHeld(comp, s, path) ==> OnItsWay(s, path, i))
  }

  ghost predicate TrailerMatches(comp: string -> int, s: Wal, path: string) {
    path in s.trailers ==> AtMost(s.trailers[path], s.lastSync) && Unclaimed(comp, s, path, s.trailers[path])
  }

  ghost predicate BatchMatches(s: Wal) {
    && AtMost(s.lastAdded, s.lastSync) && InBatch(s.batch, s.lastAdded, s.lastSync)
    && (!s.adding ==> s.batch == [] && s.lastAdded == s.lastSync)
  }

  ghost predicate RemovedBehind(s: Wal) {
    && (forall f :: f in s.removed ==> f < s.lastAdded.file)
    && (forall f, path, i :: f in s.removed && Unpublished(s, path, i) ==> f < LogOf(s.log, path)[i].start.file)
  }

  /** The invariant of the write-ahead path. */
  ghost predicate Kept(comp: string -> int, s: Wal) {
    && s.lastSync.file <= s.active <= NO_OFFSET.file && s.lastSync.file < NO_OFFSET.file
    && Placed(comp, s.mem) && BatchMatches(s)
    && MemoryMatches(comp, s.mem, s.log, s.lastAdded, s.lastAdded)
    && (forall path :: PublishedMatches(comp, s, path) && TrailerMatches(comp, s, path))
    && ThreadsMatch(comp, s)
    && Covered(s, s.commit) && Covered(s, s.recorded)
    && RemovedBehind(s)
  }
}
