/** The containers of one node with their journal and info files, over crashes at any point: records are
    journaled, synced, added to memory under the offset of their batch's sync, and applied to info files by
    flushes; info files are created meanwhile.  After a crash the journal is replayed from its last header, now
    under the end offset of each record, and what an info file already holds is skipped by comparing with its
    trailer. */
module ContainerRecovery {
  import opened ContainerMemory
  import opened MemoryManagement

  // `Header` stands for the snapshot of a new file and for a checkpoint alike.
  datatype Content =
    | Object(path: string, record: ObjectRecord)
    | EndFlush(path: string, sync: Offset)
    | Header(commit: Offset)
    | Other

  datatype Item = Item(start: Offset, end: Offset, content: Content)

  // What an info file has been given, and the journal offset in its trailer.
  datatype Info = Info(applied: seq<ObjectRecord>, trailer: Offset)

  datatype Phase =
    | Flushing(path: string, sync: Offset)
    | Renaming(path: string, sync: Offset)
    | Published(path: string, sync: Offset)
    | Marked(sync: Offset)
    | Setting(offset: Offset)
    | Creating(path: string, offset: Offset)
    | Dropping(path: string)

  /** `journal` up to `synced` and `infos` survive a crash; `added` items of the journal have been added to
      memory, and `pending` says that a batch is synced and not yet added; `addedSync` is the sync offset of
      the batch that was added last; `temps` are the copies that will be renamed to info files; `newest` is the
      newest journal file, which may still be empty; `settled` is false from a restart to the first commit
      offset that is computed after it. */
  datatype Node = Node(journal: seq<Item>, synced: nat, added: nat, tail: Offset, newest: nat, lastSync: Offset,
                       addedSync: Offset, pending: bool, mem: Memory, infos: map<string, Info>,
                       temps: map<string, Info>, threads: map<int, Phase>, commit: Offset, settled: bool, recovering: bool)

  datatype Step =
    | WriteObject(path: string, record: ObjectRecord, start: Offset, end: Offset)
    | Sync
    | AddBatch
    | ReadSync(thread: int, path: string)
    | WriteInfo(thread: int)
    | DropMemory(thread: int)
    | StartFlushOf(thread: int, path: string)
    | ReleaseMemory(thread: int)
    | RenameFile(thread: int)
    | MarkEnd(thread: int, start: Offset, end: Offset)
    | ReadMinimum(thread: int, minimum: Offset)
    | SetCommit(thread: int)
    | WriteHeader(start: Offset, end: Offset)
    | WriteOther(start: Offset, end: Offset)
    | Crash(length: nat)
    | FinishRecovery(file: nat)

  const NO_INFO := Info([], Offset(0, 0))

  function InfoOf(s: Node, path: string): Info {
    if path in s.infos then s.infos[path] else NO_INFO
  }

  // What the info file will hold when the renaming that is going on has ended.
  function Upcoming(s: Node, path: string): Info {
    if path in s.temps then s.temps[path] else InfoOf(s, path)
  }

  // The records of one container in the journal, in journal order.
  function Objects(journal: seq<Item>, path: string): seq<Item> {
    if journal == [] then [] else
      var last := journal[|journal| - 1];
      Objects(journal[..|journal| - 1], path) + (if last.content.Object? && last.content.path == path then [last] else [])
  }

  // Adds items `from`..`n` of the journal to memory, all under the same key.
  function AddItems(comp: string -> int, m: Memory, journal: seq<Item>, from: nat, n: nat, prev: Offset, sync: Offset): Memory
    requires from <= n <= |journal|
    decreases n
  {
    if n == from then m else
      var before := AddItems(comp, m, journal, from, n - 1, prev, sync);
      match journal[n - 1].content
      case Object(path, r) => AddOne(comp, before, FinalRecord(path, r), prev, sync, true)
      case _ => before
  }

  /** What replaying one item does to the memory. */
  function RecoverItem(comp: string -> int, m: Memory, item: Item): Memory {
    match item.content
    case Object(path, r) => AddOne(comp, m, FinalRecord(path, r), item.start, item.end, true)
    case EndFlush(path, sync) => WithoutBelow(comp, m, path, sync)
    case _ => m
  }

  // Replays the first `n` items, from offset `from` on.
  function Replay(comp: string -> int, journal: seq<Item>, from: Offset, n: nat): Memory
    requires n <= |journal|
  {
    if n == 0 then map[]
    else if Less(journal[n - 1].start, from) then Replay(comp, journal, from, n - 1)
    else RecoverItem(comp, Replay(comp, journal, from, n - 1), journal[n - 1])
  }

  // The commit offset in the last header.
  function Recorded(journal: seq<Item>): Offset {
    if journal == [] then Offset(0, 0)
    else if journal[|journal| - 1].content.Header? then journal[|journal| - 1].content.commit
    else Recorded(journal[..|journal| - 1])
  }

  function Records(q: seq<Pending>): seq<ObjectRecord> {
    seq(|q|, i requires 0 <= i < |q| => q[i].record)
  }

  /** A flush gives the info file the records that it does not hold yet. */
  function Flushed(info: Info, h: Held): Info {
    var q := Skipped(h, info.trailer).flushing;
    if q == [] then info else Info(info.applied + Records(q), q[|q| - 1].offset)
  }

  function Written(s: Node, start: Offset, end: Offset, content: Content): Node {
    s.(journal := s.journal + [Item(start, end, content)], tail := end,
       newest := if s.newest < end.file then end.file else s.newest)
  }

  predicate Appends(s: Node, start: Offset, end: Offset) {
    AtMost(s.tail, start) && Less(start, end) && end.file < NO_OFFSET.file
  }

  ghost predicate Enabled(comp: string -> int, s: Node, step: Step) {
    match step
    case WriteObject(_, _, start, end) => !s.recovering && Appends(s, start, end)
    case Sync => !s.recovering && !s.pending
    case AddBatch => s.pending && s.added <= s.synced <= |s.journal|
    case ReadSync(t, path) => t !in s.threads
    case WriteInfo(t) => t in s.threads && s.threads[t].Creating?
    case DropMemory(t) => t in s.threads && s.threads[t].Dropping?
    case StartFlushOf(t, path) =>
      t !in s.threads && Has(comp, s.mem, path)
      && HeldFor(comp, s.mem, path).flushing == [] && HeldFor(comp, s.mem, path).records != []
    case ReleaseMemory(t) =>
      t in s.threads && s.threads[t].Flushing? && Has(comp, s.mem, s.threads[t].path) && s.threads[t].path !in s.temps
      // With nothing left to release but records still waiting the code reads an element of an empty list.
      && var h := HeldFor(comp, s.mem, s.threads[t].path);
         if s.threads[t].path in s.infos then
           h.records == [] || Skipped(h, InfoOf(s, s.threads[t].path).trailer).flushing != []
         else h.flushing != []
    case RenameFile(t) => t in s.threads && s.threads[t].Renaming? && s.threads[t].path in s.temps
    case MarkEnd(t, start, end) => t in s.threads && s.threads[t].Published? && Appends(s, start, end)
    case ReadMinimum(t, minimum) => t in s.threads && s.threads[t].Marked? && IsLastCommit(s.mem, minimum)
    case SetCommit(t) => t in s.threads && s.threads[t].Setting?
    case WriteHeader(start, end) => Appends(s, start, end)
    case WriteOther(start, end) => Appends(s, start, end)
    case Crash(n) => 0 < s.synced <= n <= |s.journal|
    case FinishRecovery(file) =>
      s.recovering && s.threads == map[] && (forall path :: !Has(comp, s.mem, path))
      && s.tail.file < file && s.newest <= file < NO_OFFSET.file
  }

  ghost function Next(comp: string -> int, s: Node, step: Step): Node
    requires Enabled(comp, s, step)
  {
    match step
    case WriteObject(path, r, start, end) => Written(s, start, end, Object(path, r))
    case Sync => s.(synced := |s.journal|, lastSync := s.tail, pending := true)
    case AddBatch =>
      s.(added := s.synced, addedSync := s.lastSync, pending := false,
         mem := AddItems(comp, s.mem, s.journal, s.added, s.synced, s.addedSync, s.lastSync))
    case ReadSync(t, path) => s.(threads := s.threads[t := Creating(path, s.lastSync)])
    case WriteInfo(t) =>
      var path := s.threads[t].path;
      // An info file that exists stays as it is, and so does the memory.
      if path in s.infos then s.(threads := s.threads - {t})
      else s.(infos := s.infos[path := Info([], s.threads[t].offset)], threads := s.threads[t := Dropping(path)])
    case DropMemory(t) => s.(mem := WithoutContainer(comp, s.mem, s.threads[t].path), threads := s.threads - {t})
    case StartFlushOf(t, path) =>
      var h := HeldFor(comp, s.mem, path);
      s.(mem := StartFlush(comp, s.mem, path), threads := s.threads[t := Flushing(path, h.records[|h.records| - 1].offset)])
    case ReleaseMemory(t) =>
      var path, info := s.threads[t].path, InfoOf(s, s.threads[t].path);
      if path in s.infos then
        s.(temps := s.temps[path := Flushed(info, HeldFor(comp, s.mem, path))], mem := Freed(comp, s.mem, path, info.trailer),
           threads := s.threads[t := Renaming(path, s.threads[t].sync)])
      else // Without an info file the memory is released and nothing is written.
        s.(mem := Release(comp, s.mem, path), threads := s.threads[t := Published(path, s.threads[t].sync)])
    case RenameFile(t) =>
      var path := s.threads[t].path;
      s.(infos := s.infos[path := s.temps[path]], temps := s.temps - {path},
         threads := s.threads[t := Published(path, s.threads[t].sync)])
    case MarkEnd(t, start, end) =>
      var phase := s.threads[t];
      Written(s, start, end, EndFlush(phase.path, phase.sync)).(threads := s.threads[t := Marked(phase.sync)])
    case ReadMinimum(t, minimum) => s.(threads := s.threads[t := Setting(OffsetRead(s, t, minimum))])
    case SetCommit(t) => s.(commit := s.threads[t].offset, settled := true, threads := s.threads - {t})
    case WriteHeader(start, end) => Written(s, start, end, Header(s.commit))
    case WriteOther(start, end) => Written(s, start, end, Other)
    case Crash(n) =>
      var kept := s.journal[..n];
      var restart := Offset(kept[n - 1].end.file, 0);
      Node(kept, n, n, kept[n - 1].end, s.newest, restart, restart, false, Replay(comp, kept, Recorded(kept), n), s.infos, map[],
           map[], restart, false, true)
    case FinishRecovery(file) =>
      var start := Offset(file, 0);
      s.(tail := start, newest := file, lastSync := start, addedSync := start, commit := start, settled := true,
         recovering := false)
  }

  // The offset that a flush thread reads.
  function OffsetRead(s: Node, t: int, minimum: Offset): Offset
    requires t in s.threads && s.threads[t].Marked?
  {
    if minimum.file == NO_OFFSET.file then s.threads[t].sync else minimum
  }

  ghost predicate Runs(comp: string -> int, s: Node, steps: seq<Step>)
    decreases |steps|
  {
    steps != [] ==> Enabled(comp, s, steps[0]) && Runs(comp, Next(comp, s, steps[0]), steps[1..])
  }

  ghost function Run(comp: string -> int, s: Node, steps: seq<Step>): Node
    requires Runs(comp, s, steps)
    decreases |steps|
  {
    if steps == [] then s else Run(comp, Next(comp, s, steps[0]), steps[1..])
  }

  /** No record that its info file does not hold is in a journal file before that of the commit offset. */
  ghost predicate NothingBefore(s: Node) {
    forall path, i :: |InfoOf(s, path).applied| <= i < |Objects(s.journal, path)| ==>
      s.commit.file <= Objects(s.journal, path)[i].start.file
  }

  /** No journaled record of the container ends at or before the trailer, be it in memory already or not. */
  ghost predicate NothingClaimed(s: Node, path: string, trailer: Offset) {
    forall i :: 0 <= i < |Objects(s.journal, path)| ==> Less(trailer, Objects(s.journal, path)[i].end)
  }

  /** The memory of the container is kept because a flush goes on, or every added record is in its info file or its copy. */
  ghost predicate NothingDropped(comp: string -> int, s: Node, path: string) {
    Has(comp, s.mem, path) && HeldFor(comp, s.mem, path).flushing == [] ==>
      s.added <= |s.journal| && |Objects(s.journal[..s.added], path)| <= |Upcoming(s, path).applied|
  }

  /** No record that is in the copy of an info file, and not yet renamed into place, starts before `offset`. */
  ghost predicate NotAhead(s: Node, offset: Offset) {
    forall path, i :: |InfoOf(s, path).applied| <= i < |Objects(s.journal, path)| && i < |Upcoming(s, path).applied| ==>
      AtMost(offset, Objects(s.journal, path)[i].start)
  }

  /** The steps that do no harm: headers with nothing before their commit offset, offsets that are not ahead of
      a renaming, flushes of containers that have an info file, and creations that neither claim nor drop a
      record. */
  ghost predicate CarefulStep(comp: string -> int, s: Node, step: Step)
    requires Enabled(comp, s, step)
  {
    match step
    case WriteHeader(_, _) => NothingBefore(s)
    case ReleaseMemory(t) => s.threads[t].path in s.infos
    case ReadMinimum(t, minimum) => NotAhead(s, OffsetRead(s, t, minimum))
    case WriteInfo(t) => s.threads[t].path in s.infos || NothingClaimed(s, s.threads[t].path, s.threads[t].offset)
    case DropMemory(t) => NothingDropped(comp, s, s.threads[t].path)
    case _ => true
  }

  ghost predicate Careful(comp: string -> int, s: Node, steps: seq<Step>)
    requires Runs(comp, s, steps)
    decreases |steps|
  {
    steps != [] ==> CarefulStep(comp, s, steps[0]) && Careful(comp, Next(comp, s, steps[0]), steps[1..])
  }

  // ----- The invariant

  ghost predicate Ordered(journal: seq<Item>) {
    && (forall i :: 0 <= i < |journal| ==> Less(journal[i].start, journal[i].end))
    && (forall i, j :: 0 <= i < j < |journal| ==> AtMost(journal[i].end, journal[j].start))
  }

  /** The furthest offset that survives every crash. */
  function Limit(s: Node): Offset
    requires 0 < s.synced <= |s.journal|
  {
    if Less(s.journal[s.synced - 1].end, Offset(s.newest, 0)) then Offset(s.newest, 0) else s.journal[s.synced - 1].end
  }

  // No record from item `from` on starts before `offset`.
  ghost predicate Ahead(journal: seq<Item>, from: nat, offset: Offset) {
    forall j :: from <= j < |journal| && journal[j].content.Object? ==> AtMost(offset, journal[j].start)
  }

  /** The info file holds exactly the journaled records of its container that end at or before its trailer. */
  ghost predicate AppliedMatches(info: Info, all: seq<Item>, added: nat) {
    var k := |info.applied|;
    && k <= added <= |all|
    && (forall i :: 0 <= i < k ==> all[i].content.Object? && info.applied[i] == all[i].content.record)
    && (forall i :: 0 <= i < k ==> AtMost(all[i].end, info.trailer))
    && (forall i :: k <= i < |all| ==> Less(info.trailer, all[i].end))
  }

  // Memory holds the end of the added records, under keys that tell what is applied.
  ghost predicate HeldMatches(h: Held, added: seq<Item>, info: Info) {
    var mem := h.flushing + h.records;
    var first := |added| - |mem|;
    && 0 <= first <= |info.applied|
    && EntriesMatch(mem, added[first..], |info.applied| - first, info.trailer)
    && (forall i :: first <= i < |added| ==> AtMost(h.commit, added[i].start))
    && (forall i, j :: first + |h.flushing| <= i < |added| && 0 <= j < |h.flushing| ==>
          AtMost(h.flushing[j].offset, added[i].start))
  }

  // The first `applied` of the entries have keys up to the trailer.
  ghost predicate EntriesMatch(mem: seq<Pending>, items: seq<Item>, applied: int, trailer: Offset) {
    && |mem| == |items|
    && (forall j :: 0 <= j < |mem| ==>
          items[j].content.Object? && mem[j].record == items[j].content.record && AtMost(items[j].end, mem[j].offset))
    && (forall j :: 0 <= j < |mem| && j < applied ==> AtMost(mem[j].offset, trailer))
  }

  ghost predicate HeldAhead(h: Held, journal: seq<Item>, from: nat, limit: Offset) {
    && AtMost(h.commit, limit) && Ahead(journal, from, h.commit)
    && (forall j :: 0 <= j < |h.flushing| ==> AtMost(h.flushing[j].offset, limit) && Ahead(journal, from, h.flushing[j].offset))
    && (forall j :: 0 <= j < |h.records| ==> AtMost(h.records[j].offset, limit))
  }

  ghost predicate RecordsAhead(h: Held, journal: seq<Item>, from: nat) {
    forall j :: 0 <= j < |h.records| ==> Ahead(journal, from, h.records[j].offset)
  }

  // In operation, what is in memory is exactly what is not applied; while the node recovers, nothing is added.
  ghost predicate HeldIsNew(h: Held, added: nat, applied: nat, recovering: bool) {
    if recovering then h.flushing == [] || h.records == [] else added == applied + |h.flushing| + |h.records|
  }

  ghost predicate MemoryMatches(comp: string -> int, m: Memory, path: string, added: seq<Item>, info: Info) {
    if Has(comp, m, path) then HeldMatches(HeldFor(comp, m, path), added, info) else |added| <= |info.applied|
  }

  ghost predicate PathKept(comp: string -> int, s: Node, path: string) {
    && s.added <= |s.journal| && 0 < s.synced <= |s.journal|
    && var added := Objects(s.journal[..s.added], path);
       && AppliedMatches(Upcoming(s, path), Objects(s.journal, path), |added|)
       && AtMost(Upcoming(s, path).trailer, Limit(s))
       && MemoryMatches(comp, s.mem, path, added, Upcoming(s, path))
       && AppliedMatches(InfoOf(s, path), Objects(s.journal, path), |added|)
       && Extends(Upcoming(s, path), InfoOf(s, path))
       && (Has(comp, s.mem, path) ==>
             && HeldIsNew(HeldFor(comp, s.mem, path), |added|, |Upcoming(s, path).applied|, s.recovering)
             && HeldAhead(HeldFor(comp, s.mem, path), s.journal, s.added, Limit(s))
             && RecordsAhead(HeldFor(comp, s.mem, path), s.journal, s.added))
  }

  ghost predicate Extends(next: Info, info: Info) {
    |info.applied| <= |next.applied| && AtMost(info.trailer, next.trailer)
  }

  // Every record that starts before `offset` is applied.
  ghost predicate Covers(journal: seq<Item>, path: string, info: Info, offset: Offset) {
    var all := Objects(journal, path);
    forall i :: |info.applied| <= i < |all| ==> AtMost(offset, all[i].start)
  }

  ghost predicate Covered(s: Node, offset: Offset)
    requires 0 < s.synced <= |s.journal|
  {
    AtMost(offset, Limit(s)) && forall path :: Covers(s.journal, path, InfoOf(s, path), offset)
  }

  ghost predicate ItemKept(s: Node, item: Item)
    requires 0 < s.synced <= |s.journal|
  {
    match item.content
    case Header(commit) => Covered(s, commit)
    case EndFlush(path, sync) => AtMost(sync, InfoOf(s, path).trailer)
    case _ => true
  }

  ghost predicate ThreadKept(comp: string -> int, s: Node, phase: Phase)
    requires 0 < s.synced <= |s.journal|
  {
    match phase
    case Flushing(path, sync) =>
      && Has(comp, s.mem, path)
      && var h := HeldFor(comp, s.mem, path);
         h.flushing != [] && sync == h.flushing[|h.flushing| - 1].offset
    case Renaming(path, sync) => path in s.infos && path in s.temps && AtMost(sync, s.temps[path].trailer) && Behind(s, sync)
    case Published(path, sync) => AtMost(sync, InfoOf(s, path).trailer) && Behind(s, sync)
    case Marked(sync) => Behind(s, sync)
    case Setting(offset) => Covered(s, offset)
    case Creating(_, offset) => AtMost(offset, Limit(s))
    case Dropping(_) => true
  }

  ghost predicate Behind(s: Node, offset: Offset)
    requires 0 < s.synced <= |s.journal|
  {
    AtMost(offset, Limit(s)) && Ahead(s.journal, s.added, offset)
  }

  predicate SameFlush(a: Phase, b: Phase) {
    || (a.Flushing? && b.Flushing? && a.path == b.path)
    || (a.Renaming? && b.Renaming? && a.path == b.path)
  }

  ghost predicate Renames(s: Node, path: string) {
    exists t :: t in s.threads && s.threads[t].Renaming? && s.threads[t].path == path
  }

  // No two threads flush or rename for the same container, and every copy has a thread that will rename it.
  ghost predicate OneFlushEach(s: Node) {
    && (forall t, u :: t in s.threads && u in s.threads && t != u ==> !SameFlush(s.threads[t], s.threads[u]))
    && (forall path :: path in s.temps ==> Renames(s, path))
  }

  ghost predicate JournalKept(s: Node) {
    && 0 < s.synced && s.added <= s.synced <= |s.journal| && Ordered(s.journal)
    && (forall i :: 0 <= i < |s.journal| ==> AtMost(s.journal[i].end, s.tail) && ItemKept(s, s.journal[i]))
    && s.journal[0].content.Header?
    && s.tail.file <= s.newest < NO_OFFSET.file
    && (s.recovering ==> forall j :: s.added <= j < |s.journal| ==> !s.journal[j].content.Object?)
    && (!s.recovering ==>
          s.tail.file == s.newest && (s.tail == s.journal[|s.journal| - 1].end || s.tail == Offset(s.newest, 0)))
  }

  // What is synced ends at or before the last sync, what is not starts at or after it.
  ghost predicate SyncKept(s: Node)
    requires 0 < s.synced <= |s.journal|
  {
    && AtMost(s.lastSync, Limit(s)) && Ahead(s.journal, s.synced, s.lastSync)
    && (s.pending ==> !s.recovering && forall i :: 0 <= i < s.synced ==> AtMost(s.journal[i].end, s.lastSync))
  }

  ghost predicate Kept(comp: string -> int, s: Node) {
    && JournalKept(s)
    && Placed(comp, s.mem)
    && (forall path :: PathKept(comp, s, path))
    && (forall t :: t in s.threads ==> ThreadKept(comp, s, s.threads[t]))
    && OneFlushEach(s)
    && Behind(s, s.addedSync) && SyncKept(s)
    && (if s.settled then Covered(s, s.commit) else s.recovering && s.commit.pos == 0 && AtMost(s.commit, Limit(s)))
  }

  // ----- The reader

  class ContainerJournalReadHandler {
    const memory: MemoryManager
    var lastCommitOffset: Offset

    constructor (memory: MemoryManager)
      ensures this.memory == memory && lastCommitOffset == Offset(0, 0)
    {
      this.memory, lastCommitOffset := memory, Offset(0, 0);
    }

    /** The commit offset comes from the last header. */
    method RecoverHeaders(journal: seq<Item>)
      modifies this
      ensures lastCommitOffset == Recorded(journal)
    {
      lastCommitOffset := Offset(0, 0);
      for i := 0 to |journal|
        invariant lastCommitOffset == Recorded(journal[..i])
      {
        assert journal[..i + 1][..i] == journal[..i];
        if journal[i].content.Header? {
          lastCommitOffset := journal[i].content.commit;
        }
      }
      assert journal[..|journal|] == journal;
    }

    method RecoverObjects(item: Item)
      modifies memory
      ensures memory.memoryMap == RecoverItem(memory.comp, old(memory.memoryMap), item)
    {
      match item.content {
        case Object(path, r) => memory.AddRecordInMap(FinalRecord(path, r), item.start, item.end, true);
        case EndFlush(path, sync) => memory.RemoveEntry(path, sync);
        case _ =>
      }
    }

    method PerformRecovery(journal: seq<Item>)
      requires memory.memoryMap == map[]
      modifies this, memory
      ensures memory.memoryMap == Replay(memory.comp, journal, Recorded(journal), |journal|)
    {
      RecoverHeaders(journal);
      for i := 0 to |journal|
        invariant lastCommitOffset == Recorded(journal)
        invariant memory.memoryMap == Replay(memory.comp, journal, lastCommitOffset, i)
      {
        if !Less(journal[i].start, lastCommitOffset) {
          RecoverObjects(journal[i]);
        }
      }
    }
  }
}
