/** Every step of the write-ahead path keeps its invariant.

    What is in memory is the end of a container's log, so a record is out of memory iff its index is low
    enough; it is in its info file by then, or it is between release and renaming.  The commit offset of a
    container is never after a record that is still in memory, and that of the journal never after a record
    that is outside its info file. */
module ContainerRetentionSteps {
  import opened ContainerMemory
  import opened MemoryManagement
  import opened ContainerRetention

  lemma InOrder(a: Offset, b: Offset, c: Offset)
    requires AtMost(a, b) && AtMost(b, c)
    ensures AtMost(a, c)
  {
  }

  lemma AddedMatches(h: Held, log: seq<Logged>, lo: Offset, e: Entry, sync: Offset)
    requires HeldMatches(h, log, lo) && AtMost(lo, e.start)
    ensures HeldMatches(Added(h, Pending(sync, e.record)), log + [Logged(e.start, sync, e.record)], lo)
  {
    var h', log' := Added(h, Pending(sync, e.record)), log + [Logged(e.start, sync, e.record)];
    assert h'.flushing + h'.records == (h.flushing + h.records) + [Pending(sync, e.record)];
  }

  lemma NewMatches(log: seq<Logged>, prev: Offset, e: Entry, sync: Offset)
    requires AtMost(prev, e.start)
    ensures HeldMatches(NewHeld(Pending(sync, e.record), prev), log + [Logged(e.start, sync, e.record)], prev)
  {
    var h := NewHeld(Pending(sync, e.record), prev);
    assert h.records == [Pending(sync, e.record)];
  }

  lemma EntryMatches(comp: string -> int, m: Memory, log: Log, e: Entry, prev: Offset, sync: Offset)
    requires MemoryMatches(comp, m, log, prev, sync) && AtMost(prev, e.start) && Less(e.start, sync)
    ensures var m' := AddOne(comp, m, FinalRecord(e.path, e.record), prev, sync, e.owned);
            MemoryMatches(comp, m', LogOne(log, e, sync), prev, sync)
  {
    hide HeldMatches, Added, NewHeld, Put, Has, HeldFor;
    var m' := AddOne(comp, m, FinalRecord(e.path, e.record), prev, sync, e.owned);
    var p := Pending(sync, e.record);
    var h := if Has(comp, m, e.path) then Added(HeldFor(comp, m, e.path), p) else NewHeld(p, prev);
    forall path ensures PathMatches(comp, m', LogOf(LogOne(log, e, sync), path), path, prev, sync) {
      assert PathMatches(comp, m, LogOf(log, path), path, prev, sync);
      PutAt(comp, m, e.path, h, e.owned, path);
      if path == e.path {
        if Has(comp, m, path) {
          AddedMatches(HeldFor(comp, m, path), LogOf(log, path), prev, e, sync);
        } else {
          NewMatches(LogOf(log, path), prev, e, sync);
        }
      }
    }
  }

  lemma {:induction false} BatchMemory(comp: string -> int, m: Memory, log: Log, es: seq<Entry>, prev: Offset, sync: Offset)
    requires MemoryMatches(comp, m, log, prev, sync) && InBatch(es, prev, sync)
    ensures MemoryMatches(comp, AddEntries(comp, m, es, prev, sync), LogEntries(log, es, sync), prev, sync)
    decreases |es|
  {
    hide MemoryMatches, AddOne, LogOne;
    if es != [] {
      EntryMatches(comp, m, log, es[0], prev, sync);
      BatchMemory(comp, AddOne(comp, m, FinalRecord(es[0].path, es[0].record), prev, sync, es[0].owned),
                   LogOne(log, es[0], sync), es[1..], prev, sync);
    }
  }

  lemma Later(comp: string -> int, m: Memory, log: Log, lo: Offset, hi: Offset, lo': Offset, hi': Offset)
    requires MemoryMatches(comp, m, log, lo, hi) && AtMost(lo, lo') && AtMost(hi, hi')
    ensures MemoryMatches(comp, m, log, lo', hi')
  {
    forall path ensures PathMatches(comp, m, LogOf(log, path), path, lo', hi') {
      assert PathMatches(comp, m, LogOf(log, path), path, lo, hi);
    }
  }

  lemma SwappedMatches(h: Held, log: seq<Logged>, lo: Offset)
    requires HeldMatches(h, log, lo) && h.flushing == [] && forall i :: 0 <= i < |log| ==> AtMost(log[i].key, lo)
    ensures HeldMatches(Swapped(h), log, lo)
  {
    assert h.flushing + h.records == h.records;
    assert Swapped(h).flushing + Swapped(h).records == h.records;
  }

  lemma ReleasedMatches(h: Held, h': Held, log: seq<Logged>, lo: Offset)
    requires HeldMatches(h, log, lo) && h.flushing != []
    requires h'.flushing == [] && h'.records == h.records && h'.commit == h.flushing[|h.flushing| - 1].offset
    ensures HeldMatches(h', log, lo)
  {
    hide AtMost;
    assert h'.flushing + h'.records == h.records;
    EndOfLog(h.flushing, h.records, log);
  }

  lemma EndOfLog(q: seq<Pending>, r: seq<Pending>, log: seq<Logged>)
    requires |q| + |r| <= |log|
    requires forall j :: 0 <= j < |q + r| ==>
               (q + r)[j] == Pending(log[|log| - |q + r| + j].key, log[|log| - |q + r| + j].record)
    ensures forall j :: 0 <= j < |r| ==> r[j] == Pending(log[|log| - |r| + j].key, log[|log| - |r| + j].record)
  {
    forall j | 0 <= j < |r| ensures r[j] == Pending(log[|log| - |r| + j].key, log[|log| - |r| + j].record) {
      assert (q + r)[|q| + j] == r[j];
    }
  }

  // ----- A batch

  lemma {:induction false} LogGrows(log: Log, es: seq<Entry>, prev: Offset, sync: Offset, path: string)
    requires InBatch(es, prev, sync)
    ensures LogOf(log, path) <= LogOf(LogEntries(log, es, sync), path)
    ensures var log' := LogOf(LogEntries(log, es, sync), path);
            && (forall i :: |LogOf(log, path)| <= i < |log'| ==> AtMost(prev, log'[i].start) && log'[i].key == sync)
            && (|LogOf(log, path)| < |log'| ==> exists k :: 0 <= k < |es| && es[k].path == path)
    decreases |es|
  {
    hide AtMost, Less;
    if es != [] {
      LogGrows(LogOne(log, es[0], sync), es[1..], prev, sync, path);
    }
  }

  lemma {:induction false} NothingReleased(comp: string -> int, m: Memory, log: Log, es: seq<Entry>, prev: Offset,
                                           sync: Offset, path: string)
    ensures |LogOf(LogEntries(log, es, sync), path)| - InMemory(comp, AddEntries(comp, m, es, prev, sync), path)
         == |LogOf(log, path)| - InMemory(comp, m, path)
    decreases |es|
  {
    hide Put, Has, HeldFor;
    if es != [] {
      var e := es[0];
      var p := Pending(sync, e.record);
      PutAt(comp, m, e.path, if Has(comp, m, e.path) then Added(HeldFor(comp, m, e.path), p) else NewHeld(p, prev),
            e.owned, path);
      NothingReleased(comp, AddOne(comp, m, FinalRecord(e.path, e.record), prev, sync, e.owned), LogOne(log, e, sync),
                      es[1..], prev, sync, path);
    }
  }

  lemma {:induction false} BatchPlaced(comp: string -> int, m: Memory, es: seq<Entry>, prev: Offset, sync: Offset)
    requires Placed(comp, m)
    ensures Placed(comp, AddEntries(comp, m, es, prev, sync))
    decreases |es|
  {
    if es != [] {
      BatchPlaced(comp, AddOne(comp, m, FinalRecord(es[0].path, es[0].record), prev, sync, es[0].owned), es[1..], prev, sync);
    }
  }

  lemma {:induction false} FlushingStays(comp: string -> int, m: Memory, es: seq<Entry>, prev: Offset, sync: Offset,
                                         path: string)
    requires Has(comp, m, path)
    ensures var m' := AddEntries(comp, m, es, prev, sync);
            Has(comp, m', path) && HeldFor(comp, m', path).flushing == HeldFor(comp, m, path).flushing
    decreases |es|
  {
    hide Put, Has, HeldFor;
    if es != [] {
      var e := es[0];
      var p := Pending(sync, e.record);
      PutAt(comp, m, e.path, if Has(comp, m, e.path) then Added(HeldFor(comp, m, e.path), p) else NewHeld(p, prev),
            e.owned, path);
      FlushingStays(comp, AddOne(comp, m, FinalRecord(e.path, e.record), prev, sync, e.owned), es[1..], prev, sync, path);
    }
  }

  // What the batch does to the log of one container.
  lemma LogAfterBatch(comp: string -> int, s: Wal, path: string)
    requires BatchMatches(s) && s.adding
    ensures var s' := Next(comp, s, AddBatch);
            var log, log' := LogOf(s.log, path), LogOf(s'.log, path);
            && FirstHeld(comp, s', path) == FirstHeld(comp, s, path) && log <= log'
            && (forall i :: |log| <= i < |log'| ==> AtMost(s.lastAdded, log'[i].start) && log'[i].key == s.lastSync)
            && (|log| < |log'| ==> exists k :: 0 <= k < |s.batch| && s.batch[k].path == path)
  {
    hide AddEntries, LogEntries, InBatch;
    LogGrows(s.log, s.batch, s.lastAdded, s.lastSync, path);
    NothingReleased(comp, s.mem, s.log, s.batch, s.lastAdded, s.lastSync, path);
  }

  lemma CoveredGrows(comp: string -> int, s: Wal, offset: Offset)
    requires BatchMatches(s) && s.adding && Covered(s, offset)
    ensures Covered(Next(comp, s, AddBatch), offset)
  {
    hide AddEntries, LogEntries, InBatch;
    var s' := Next(comp, s, AddBatch);
    InOrder(offset, s.lastAdded, s.lastSync);
    forall path, i | Unpublished(s', path, i) ensures AtMost(offset, LogOf(s'.log, path)[i].start) {
      LogAfterBatch(comp, s, path);
      if i < |LogOf(s.log, path)| {
        assert Unpublished(s, path, i);
      } else {
        InOrder(offset, s.lastAdded, LogOf(s'.log, path)[i].start);
      }
    }
  }

  lemma UnclaimedGrows(comp: string -> int, s: Wal, path: string, trailer: Offset)
    requires BatchMatches(s) && s.adding && Unclaimed(comp, s, path, trailer)
    ensures Unclaimed(comp, Next(comp, s, AddBatch), path, trailer)
  {
    hide AddEntries, LogEntries, InBatch, FirstHeld, AtMost, Less;
    LogAfterBatch(comp, s, path);
  }

  lemma BatchPublished(comp: string -> int, s: Wal, path: string)
    requires BatchMatches(s) && s.adding && PublishedMatches(comp, s, path)
    ensures PublishedMatches(comp, Next(comp, s, AddBatch), path)
  {
    hide AddEntries, LogEntries, InBatch, FirstHeld;
    var s' := Next(comp, s, AddBatch);
    LogAfterBatch(comp, s, path);
    forall i | i in PublishedOf(s', path) ensures i < FirstHeld(comp, s', path) {
      assert i in PublishedOf(s, path);
    }
    forall i | Unpublished(s', path, i) && i < FirstHeld(comp, s', path) ensures OnItsWay(s', path, i) {
      FirstInLog(comp, s, path);
      assert Unpublished(s, path, i) && OnItsWay(s, path, i);
    }
  }

  lemma FirstInLog(comp: string -> int, s: Wal, path: string)
    ensures FirstHeld(comp, s, path) <= |LogOf(s.log, path)|
  {
  }

  lemma BatchThreads(comp: string -> int, s: Wal)
    requires Kept(comp, s) && s.adding
    ensures ThreadsMatch(comp, Next(comp, s, AddBatch))
  {
    hide AddEntries, LogEntries, MemoryMatches, Placed, RemovedBehind, PublishedMatches, Has, HeldFor, Covered, Unclaimed;
    var s' := Next(comp, s, AddBatch);
    forall t | t in s'.threads ensures ThreadMatches(comp, s', t) {
      assert ThreadMatches(comp, s, t);
      match s.threads[t]
      case Flushing(path, sync) =>
        FlushingStays(comp, s.mem, s.batch, s.lastAdded, s.lastSync, path);
        InOrder(sync, s.lastAdded, s.lastSync);
      case Renaming(path, sync, _, _, trailer) =>
        UnclaimedGrows(comp, s, path, trailer);
        LogAfterBatch(comp, s, path);
        InOrder(sync, s.lastAdded, s.lastSync);
      case Ended(sync) => InOrder(sync, s.lastAdded, s.lastSync);
      case Setting(offset) => CoveredGrows(comp, s, offset);
      case _ =>
    }
  }

  lemma BatchRemoved(comp: string -> int, s: Wal)
    requires RemovedBehind(s) && BatchMatches(s) && s.adding
    ensures RemovedBehind(Next(comp, s, AddBatch))
  {
    hide AddEntries, LogEntries, InBatch;
    var s' := Next(comp, s, AddBatch);
    forall f, path, i | f in s'.removed && Unpublished(s', path, i) ensures f < LogOf(s'.log, path)[i].start.file {
      LogAfterBatch(comp, s, path);
      if i < |LogOf(s.log, path)| {
        assert Unpublished(s, path, i);
      }
    }
  }

  /** The batch that has been synced is added to memory, with any steps of other threads since its sync. */
  lemma BatchKeeps(comp: string -> int, s: Wal)
    requires Kept(comp, s) && Enabled(comp, s, AddBatch)
    ensures Kept(comp, Next(comp, s, AddBatch))
  {
    hide AddEntries, LogEntries, MemoryMatches, Placed, RemovedBehind, Covered, ThreadsMatch, Unclaimed, PublishedMatches, InBatch;
    var s' := Next(comp, s, AddBatch);
    BatchPlaced(comp, s.mem, s.batch, s.lastAdded, s.lastSync);
    Later(comp, s.mem, s.log, s.lastAdded, s.lastAdded, s.lastAdded, s.lastSync);
    BatchMemory(comp, s.mem, s.log, s.batch, s.lastAdded, s.lastSync);
    Later(comp, s'.mem, s'.log, s.lastAdded, s.lastSync, s.lastSync, s.lastSync);
    BatchThreads(comp, s);
    BatchRemoved(comp, s);
    CoveredGrows(comp, s, s.commit);
    CoveredGrows(comp, s, s.recorded);
    forall path ensures PublishedMatches(comp, s', path) && TrailerMatches(comp, s', path) {
      BatchPublished(comp, s, path);
      assert TrailerMatches(comp, s, path);
      if path in s.trailers {
        UnclaimedGrows(comp, s, path, s.trailers[path]);
      }
    }
    NoBatch(s.lastSync);
  }

  lemma NoBatch(offset: Offset)
    ensures InBatch([], offset, offset) && AtMost(offset, offset)
  {
  }

  // ----- The sync of a batch

  // A trailer up to the last sync claims nothing of the next batch.
  lemma UnclaimedBySync(comp: string -> int, s: Wal, es: seq<Entry>, sync: Offset, path: string, trailer: Offset)
    requires Enabled(comp, s, Sync(es, sync)) && AtMost(trailer, s.lastSync) && Unclaimed(comp, s, path, trailer)
    ensures Unclaimed(comp, Next(comp, s, Sync(es, sync)), path, trailer) && AtMost(trailer, sync)
  {
    assert FirstHeld(comp, Next(comp, s, Sync(es, sync)), path) == FirstHeld(comp, s, path);
  }

  lemma SyncKeeps(comp: string -> int, s: Wal, es: seq<Entry>, sync: Offset)
    requires Kept(comp, s) && Enabled(comp, s, Sync(es, sync))
    ensures Kept(comp, Next(comp, s, Sync(es, sync)))
  {
    hide MemoryMatches, Placed, RemovedBehind, Covered, Unclaimed, PublishedMatches, AtMost, Less, InBatch, Has, HeldFor;
    var s' := Next(comp, s, Sync(es, sync));
    forall path ensures PublishedMatches(comp, s', path) && TrailerMatches(comp, s', path) {
      SamePublished(comp, s, s', path);
      assert TrailerMatches(comp, s, path);
      if path in s.trailers {
        UnclaimedBySync(comp, s, es, sync, path, s.trailers[path]);
      }
    }
    SameCovered(s, s', s.commit);
    SameCovered(s, s', s.recorded);
    SameRemoved(s, s');
    forall t | t in s'.threads ensures ThreadMatches(comp, s', t) {
      assert ThreadMatches(comp, s, t);
      match s.threads[t]
      case Renaming(path, _, _, _, trailer) => UnclaimedBySync(comp, s, es, sync, path, trailer);
      case Setting(offset) => SameCovered(s, s', offset);
      case Creating(_, offset) => InOrder(offset, s.lastSync, sync);
      case _ =>
    }
    SyncFile(s, sync);
  }

  lemma SyncFile(s: Wal, sync: Offset)
    requires s.lastSync.file <= s.active && AtMost(s.lastSync, sync) && sync.file <= s.active < NO_OFFSET.file
    ensures sync.file <= s.active && sync.file < NO_OFFSET.file && AtMost(s.lastSync, s.lastSync)
  {
  }

  // ----- What other steps leave as it is

  // The log, what is published of it, and the last batch decide what is covered and removed.
  lemma SameCovered(s: Wal, s': Wal, offset: Offset)
    requires s'.log == s.log && s'.lastAdded == s.lastAdded && Covered(s, offset)
    requires forall path :: PublishedOf(s, path) <= PublishedOf(s', path)
    ensures Covered(s', offset)
  {
    forall path, i | Unpublished(s', path, i) ensures AtMost(offset, LogOf(s'.log, path)[i].start) {
      assert PublishedOf(s, path) <= PublishedOf(s', path);
      assert Unpublished(s, path, i);
    }
  }

  lemma SameRemoved(s: Wal, s': Wal)
    requires s'.log == s.log && s'.lastAdded == s.lastAdded && s'.removed == s.removed && RemovedBehind(s)
    requires forall path :: PublishedOf(s, path) <= PublishedOf(s', path)
    ensures RemovedBehind(s')
  {
    forall f, path, i | f in s'.removed && Unpublished(s', path, i) ensures f < LogOf(s'.log, path)[i].start.file {
      assert PublishedOf(s, path) <= PublishedOf(s', path);
      assert Unpublished(s, path, i);
    }
  }

  // Less in memory means less to claim.
  lemma SameUnclaimed(comp: string -> int, s: Wal, s': Wal, path: string, trailer: Offset)
    requires s'.log == s.log && s'.batch == s.batch && s'.lastSync == s.lastSync && Unclaimed(comp, s, path, trailer)
    requires FirstHeld(comp, s, path) <= FirstHeld(comp, s', path)
    ensures Unclaimed(comp, s', path, trailer)
  {
  }

  lemma SamePublished(comp: string -> int, s: Wal, s': Wal, path: string)
    requires s'.mem == s.mem && s'.log == s.log && s'.published == s.published
    requires forall t :: t in s.threads && s.threads[t].Renaming? ==> t in s'.threads && s'.threads[t] == s.threads[t]
    requires PublishedMatches(comp, s, path)
    ensures PublishedMatches(comp, s', path)
  {
    hide InMemory;
    forall i | i in PublishedOf(s', path) ensures i < FirstHeld(comp, s', path) {
      assert i in PublishedOf(s, path);
    }
    forall i | Unpublished(s', path, i) && i < FirstHeld(comp, s', path) ensures OnItsWay(s', path, i) {
      assert Unpublished(s, path, i) && OnItsWay(s, path, i);
    }
  }

  /** A step of thread `t` that leaves the journal alone, and puts no record back into memory. */
  ghost predicate Continues(comp: string -> int, s: Wal, s': Wal, t: int) {
    && s'.log == s.log && s'.batch == s.batch && s'.adding == s.adding
    && s'.lastAdded == s.lastAdded && s'.lastSync == s.lastSync
    && s'.recorded == s.recorded && s'.active == s.active && s'.removed == s.removed
    && (forall path :: PublishedOf(s, path) <= PublishedOf(s', path))
    && (forall path :: path in s.trailers ==> path in s'.trailers)
    && (forall path :: FirstHeld(comp, s, path) <= FirstHeld(comp, s', path))
    && (forall u :: u != t && u in s.threads ==> u in s'.threads && s'.threads[u] == s.threads[u])
    && (forall u :: u != t && u in s'.threads ==> u in s.threads)
  }

  // The step leaves the flushes of other threads alone.
  ghost predicate FlushesGoOn(comp: string -> int, s: Wal, s': Wal, t: int) {
    forall u :: u in s.threads && u != t && s.threads[u].Flushing? && Has(comp, s.mem, s.threads[u].path) ==>
      var path := s.threads[u].path;
      Has(comp, s'.mem, path) && HeldFor(comp, s'.mem, path).flushing == HeldFor(comp, s.mem, path).flushing
  }

  lemma SameThread(comp: string -> int, s: Wal, s': Wal, t: int, u: int)
    requires Continues(comp, s, s', t) && FlushesGoOn(comp, s, s', t)
    requires u != t && u in s.threads && ThreadMatches(comp, s, u)
    ensures u in s'.threads && ThreadMatches(comp, s', u)
  {
    hide Has, HeldFor, Covered, Unclaimed, FirstHeld;
    match s.threads[u]
    case Renaming(path, _, _, _, trailer) => SameUnclaimed(comp, s, s', path, trailer);
    case Setting(offset) => SameCovered(s, s', offset);
    case _ =>
  }

  lemma ThreadsGoOn(comp: string -> int, s: Wal, s': Wal, t: int)
    requires ThreadsMatch(comp, s) && Continues(comp, s, s', t) && FlushesGoOn(comp, s, s', t)
    requires t in s'.threads ==>
               ThreadMatches(comp, s', t) && forall u :: u in s.threads && u != t ==> !SameFlush(s.threads[u], s'.threads[t])
    ensures ThreadsMatch(comp, s')
  {
    hide Continues, FlushesGoOn, ThreadMatches;
    forall u | u in s'.threads
      ensures ThreadMatches(comp, s', u) && (u != t ==> u in s.threads && s'.threads[u] == s.threads[u])
    {
      SameOthers(comp, s, s', t, u);
      if u != t {
        SameThread(comp, s, s', t, u);
      }
    }
  }

  lemma SameOthers(comp: string -> int, s: Wal, s': Wal, t: int, u: int)
    requires Continues(comp, s, s', t) && u in s'.threads
    ensures u != t ==> u in s.threads && s'.threads[u] == s.threads[u]
  {
  }

  /** Such a step keeps the invariant if it keeps what the invariant says of each container and of the threads. */
  lemma GoesOn(comp: string -> int, s: Wal, s': Wal, t: int)
    requires Kept(comp, s) && Continues(comp, s, s', t) && Placed(comp, s'.mem) && ThreadsMatch(comp, s')
    requires MemoryMatches(comp, s'.mem, s.log, s.lastAdded, s.lastAdded)
    requires forall path :: PublishedMatches(comp, s', path) && TrailerMatches(comp, s', path)
    requires s'.commit == s.commit || Covered(s, s'.commit)
    ensures Kept(comp, s')
  {
    hide Placed, MemoryMatches, ThreadsMatch, PublishedMatches, TrailerMatches, Covered, RemovedBehind;
    SameCovered(s, s', s'.commit);
    SameCovered(s, s', s.recorded);
    SameRemoved(s, s');
  }

  lemma SameTrailer(comp: string -> int, s: Wal, s': Wal, t: int, path: string)
    requires Continues(comp, s, s', t) && TrailerMatches(comp, s, path)
    requires path in s'.trailers ==> path in s.trailers && s'.trailers[path] == s.trailers[path]
    ensures TrailerMatches(comp, s', path)
  {
    hide Unclaimed, FirstHeld;
    if path in s.trailers {
      SameUnclaimed(comp, s, s', path, s.trailers[path]);
    }
  }

  // A thread that is not renaming has no part in what is on its way.
  lemma SamePath(comp: string -> int, s: Wal, s': Wal, t: int, path: string)
    requires Continues(comp, s, s', t) && PublishedMatches(comp, s, path)
    requires FirstHeld(comp, s', path) == FirstHeld(comp, s, path) && PublishedOf(s', path) == PublishedOf(s, path)
    requires t in s.threads && s.threads[t].Renaming? ==> s.threads[t].path != path
    ensures PublishedMatches(comp, s', path)
  {
    hide FirstHeld;
    forall i | i in PublishedOf(s', path) ensures i < FirstHeld(comp, s', path) {
      assert i in PublishedOf(s, path);
    }
    forall i | Unpublished(s', path, i) && i < FirstHeld(comp, s', path) ensures OnItsWay(s', path, i) {
      assert Unpublished(s, path, i) && OnItsWay(s, path, i);
    }
  }

  // ----- The steps of a flush

  lemma SwapContinues(comp: string -> int, s: Wal, t: int, path: string)
    requires Enabled(comp, s, StartFlushOf(t, path))
    ensures var s' := Next(comp, s, StartFlushOf(t, path));
            Continues(comp, s, s', t) && forall other :: FirstHeld(comp, s', other) == FirstHeld(comp, s, other)
  {
    hide Put, Has, HeldFor;
    var s' := Next(comp, s, StartFlushOf(t, path));
    forall other ensures FirstHeld(comp, s', other) == FirstHeld(comp, s, other) {
      PutAt(comp, s.mem, path, Swapped(HeldFor(comp, s.mem, path)), true, other);
    }
  }

  lemma SwapMemory(comp: string -> int, s: Wal, t: int, path: string)
    requires Kept(comp, s) && Enabled(comp, s, StartFlushOf(t, path))
    ensures MemoryMatches(comp, Next(comp, s, StartFlushOf(t, path)).mem, s.log, s.lastAdded, s.lastAdded)
  {
    hide Put, Has, HeldFor, Placed, Covered, RemovedBehind, HeldMatches, ThreadsMatch, PublishedMatches, TrailerMatches;
    var s' := Next(comp, s, StartFlushOf(t, path));
    var h := HeldFor(comp, s.mem, path);
    forall other ensures PathMatches(comp, s'.mem, LogOf(s.log, other), other, s.lastAdded, s.lastAdded) {
      PutAt(comp, s.mem, path, Swapped(h), true, other);
      assert PathMatches(comp, s.mem, LogOf(s.log, other), other, s.lastAdded, s.lastAdded);
      if other == path {
        SwappedMatches(h, LogOf(s.log, path), s.lastAdded);
      }
    }
  }

  lemma LastKeyBehind(h: Held, log: seq<Logged>, lo: Offset)
    requires HeldMatches(h, log, lo) && h.flushing == [] && h.records != []
    requires forall i :: 0 <= i < |log| ==> AtMost(log[i].key, lo)
    ensures AtMost(h.records[|h.records| - 1].offset, lo)
  {
    var mem := h.flushing + h.records;
    assert mem[|mem| - 1] == h.records[|h.records| - 1];
  }

  lemma SwapThreads(comp: string -> int, s: Wal, t: int, path: string)
    requires Kept(comp, s) && Enabled(comp, s, StartFlushOf(t, path))
    ensures ThreadsMatch(comp, Next(comp, s, StartFlushOf(t, path)))
  {
    hide Put, Has, HeldFor, Placed, Covered, RemovedBehind, HeldMatches, Unclaimed, PublishedMatches, TrailerMatches, Continues;
    var s' := Next(comp, s, StartFlushOf(t, path));
    var h := HeldFor(comp, s.mem, path);
    SwapContinues(comp, s, t, path);
    assert PathMatches(comp, s.mem, LogOf(s.log, path), path, s.lastAdded, s.lastAdded);
    LastKeyBehind(h, LogOf(s.log, path), s.lastAdded);
    PutAt(comp, s.mem, path, Swapped(h), true, path);
    forall u | u in s.threads && u != t && s.threads[u].Flushing?
      ensures s.threads[u].path != path && Has(comp, s'.mem, s.threads[u].path)
      ensures Has(comp, s.mem, s.threads[u].path)
           && HeldFor(comp, s'.mem, s.threads[u].path).flushing == HeldFor(comp, s.mem, s.threads[u].path).flushing
    {
      assert ThreadMatches(comp, s, u);
      PutAt(comp, s.mem, path, Swapped(h), true, s.threads[u].path);
    }
    ThreadsGoOn(comp, s, s', t);
  }

  lemma StartFlushKeeps(comp: string -> int, s: Wal, t: int, path: string)
    requires Kept(comp, s) && Enabled(comp, s, StartFlushOf(t, path))
    ensures Kept(comp, Next(comp, s, StartFlushOf(t, path)))
  {
    hide StartFlush, Has, HeldFor, Placed, MemoryMatches, ThreadsMatch, PublishedMatches, TrailerMatches, Covered, RemovedBehind,
      Continues, FirstHeld;
    var s' := Next(comp, s, StartFlushOf(t, path));
    SwapContinues(comp, s, t, path);
    SwapMemory(comp, s, t, path);
    SwapThreads(comp, s, t, path);
    forall other ensures PublishedMatches(comp, s', other) && TrailerMatches(comp, s', other) {
      SamePath(comp, s, s', t, other);
      SameTrailer(comp, s, s', t, other);
    }
    SwapPlaced(comp, s.mem, path);
    GoesOn(comp, s, s', t);
  }

  lemma SwapPlaced(comp: string -> int, m: Memory, path: string)
    requires Placed(comp, m)
    ensures Placed(comp, StartFlush(comp, m, path))
  {
    if Has(comp, m, path) {
      PutPlaced(comp, m, path, Swapped(HeldFor(comp, m, path)));
    }
  }

  // An info file that claims nothing gets the whole list.
  lemma NothingSkipped(comp: string -> int, s: Wal, path: string)
    requires Has(comp, s.mem, path) && HeldMatches(HeldFor(comp, s.mem, path), LogOf(s.log, path), s.lastAdded)
    requires path in s.trailers && Unclaimed(comp, s, path, s.trailers[path])
    ensures LeftToWrite(comp, s, path) == HeldFor(comp, s.mem, path).flushing
  {
    var h, log, trailer := HeldFor(comp, s.mem, path), LogOf(s.log, path), s.trailers[path];
    if h.flushing != [] {
      assert (h.flushing + h.records)[0] == h.flushing[0];
      assert Less(trailer, log[FirstHeld(comp, s, path)].key);
    }
  }

  // What a careful release does to the container.
  lemma ReleaseLeaves(comp: string -> int, s: Wal, t: int)
    requires Kept(comp, s) && Enabled(comp, s, ReleaseMemory(t)) && s.threads[t].path in s.trailers
    ensures var s', path, h := Next(comp, s, ReleaseMemory(t)), s.threads[t].path, HeldFor(comp, s.mem, s.threads[t].path);
            && Has(comp, s'.mem, path) == (h.records != [])
            && (h.records != [] ==>
                  && HeldFor(comp, s'.mem, path).flushing == [] && HeldFor(comp, s'.mem, path).records == h.records
                  && HeldFor(comp, s'.mem, path).commit == h.flushing[|h.flushing| - 1].offset)
            && s'.threads[t] == Renaming(path, s.threads[t].sync, FirstHeld(comp, s, path), |LogOf(s.log, path)| - |h.records|,
                                         h.flushing[|h.flushing| - 1].offset)
  {
    hide Kept, Freed, Has, HeldFor, LeftToWrite;
    WritesAll(comp, s, s.threads[t].path);
    FreedAt(comp, s.mem, s.threads[t].path, s.trailers[s.threads[t].path], s.threads[t].path);
  }

  lemma WritesAll(comp: string -> int, s: Wal, path: string)
    requires Kept(comp, s) && Has(comp, s.mem, path) && path in s.trailers && HeldFor(comp, s.mem, path).flushing != []
    ensures LeftToWrite(comp, s, path) == HeldFor(comp, s.mem, path).flushing
    ensures Skipped(HeldFor(comp, s.mem, path), s.trailers[path]).flushing != []
  {
    hide Has, HeldFor, Placed, Covered, RemovedBehind, HeldMatches, ThreadsMatch, PublishedMatches, Unclaimed, LeftToWrite, Skipped;
    assert PathMatches(comp, s.mem, LogOf(s.log, path), path, s.lastAdded, s.lastAdded) && TrailerMatches(comp, s, path);
    NothingSkipped(comp, s, path);
    LeftIsSkipped(comp, s, path);
  }

  lemma LeftIsSkipped(comp: string -> int, s: Wal, path: string)
    requires Has(comp, s.mem, path) && path in s.trailers
    ensures LeftToWrite(comp, s, path) == Skipped(HeldFor(comp, s.mem, path), s.trailers[path]).flushing
  {
  }

  // A release changes its own container only, whether it has an info file or not.
  lemma ReleaseElsewhere(comp: string -> int, s: Wal, t: int, other: string)
    requires Enabled(comp, s, ReleaseMemory(t)) && other != s.threads[t].path
    ensures var m' := Next(comp, s, ReleaseMemory(t)).mem;
            && Has(comp, m', other) == Has(comp, s.mem, other)
            && (Has(comp, s.mem, other) ==> HeldFor(comp, m', other) == HeldFor(comp, s.mem, other))
  {
    hide Freed, Release, Has, HeldFor;
    var path := s.threads[t].path;
    if path in s.trailers {
      FreedAt(comp, s.mem, path, s.trailers[path], other);
    } else {
      ReleaseAt(comp, s.mem, path, other);
    }
  }

  lemma ReleaseContinues(comp: string -> int, s: Wal, t: int)
    requires Kept(comp, s) && Enabled(comp, s, ReleaseMemory(t)) && s.threads[t].path in s.trailers
    ensures var s', path := Next(comp, s, ReleaseMemory(t)), s.threads[t].path;
            && Continues(comp, s, s', t) && FirstHeld(comp, s', path) == s'.threads[t].to
            && s'.threads[t].from == FirstHeld(comp, s, path)
            && forall other :: other != path ==> FirstHeld(comp, s', other) == FirstHeld(comp, s, other)
  {
    hide Freed, Has, HeldFor, Kept;
    var s', path := Next(comp, s, ReleaseMemory(t)), s.threads[t].path;
    ReleaseLeaves(comp, s, t);
    forall other | other != path ensures FirstHeld(comp, s', other) == FirstHeld(comp, s, other) {
      ReleaseElsewhere(comp, s, t, other);
    }
    assert FirstHeld(comp, s, path) <= FirstHeld(comp, s', path);
  }

  lemma ReleaseMatches(comp: string -> int, s: Wal, t: int)
    requires Kept(comp, s) && Enabled(comp, s, ReleaseMemory(t)) && s.threads[t].path in s.trailers
    ensures MemoryMatches(comp, Next(comp, s, ReleaseMemory(t)).mem, s.log, s.lastAdded, s.lastAdded)
  {
    hide Next, Has, HeldFor, Placed, Covered, RemovedBehind, HeldMatches, ThreadsMatch, PublishedMatches, TrailerMatches;
    var s', path := Next(comp, s, ReleaseMemory(t)), s.threads[t].path;
    ReleaseLeaves(comp, s, t);
    forall other ensures PathMatches(comp, s'.mem, LogOf(s.log, other), other, s.lastAdded, s.lastAdded) {
      assert PathMatches(comp, s.mem, LogOf(s.log, other), other, s.lastAdded, s.lastAdded);
      if other != path {
        ReleaseElsewhere(comp, s, t, other);
      } else if Has(comp, s'.mem, path) {
        ReleasedMatches(HeldFor(comp, s.mem, path), HeldFor(comp, s'.mem, path), LogOf(s.log, path), s.lastAdded);
      }
    }
  }

  lemma ReleaseThreads(comp: string -> int, s: Wal, t: int)
    requires Kept(comp, s) && Enabled(comp, s, ReleaseMemory(t)) && s.threads[t].path in s.trailers
    ensures ThreadsMatch(comp, Next(comp, s, ReleaseMemory(t)))
  {
    hide Freed, Has, HeldFor, Placed, Covered, RemovedBehind, MemoryMatches, PublishedMatches, TrailerMatches, Unclaimed, Continues,
      FirstHeld;
    var s', path := Next(comp, s, ReleaseMemory(t)), s.threads[t].path;
    ReleaseLeaves(comp, s, t);
    ReleaseContinues(comp, s, t);
    assert ThreadMatches(comp, s, t);
    forall u | u in s.threads && u != t
      ensures !SameFlush(s.threads[u], s'.threads[t])
      ensures s.threads[u].Flushing? ==>
                && s.threads[u].path != path && Has(comp, s'.mem, s.threads[u].path) && Has(comp, s.mem, s.threads[u].path)
                && HeldFor(comp, s'.mem, s.threads[u].path).flushing == HeldFor(comp, s.mem, s.threads[u].path).flushing
    {
      assert ThreadMatches(comp, s, u) && !SameFlush(s.threads[u], s.threads[t]);
      if s.threads[u].Flushing? {
        ReleaseElsewhere(comp, s, t, s.threads[u].path);
      }
    }
    NewTrailer(comp, s, t);
    ThreadsGoOn(comp, s, s', t);
  }

  // The trailer that a flush will write claims nothing of what has been added since it started.
  lemma NewTrailer(comp: string -> int, s: Wal, t: int)
    requires Kept(comp, s) && Enabled(comp, s, ReleaseMemory(t)) && s.threads[t].path in s.trailers
    ensures var s' := Next(comp, s, ReleaseMemory(t));
            && AtMost(s'.threads[t].trailer, s.lastSync) && Unclaimed(comp, s', s.threads[t].path, s'.threads[t].trailer)
  {
    hide Next, Has, HeldFor, Placed, Covered, RemovedBehind, ThreadsMatch, PublishedMatches, TrailerMatches, FirstHeld;
    var s', path := Next(comp, s, ReleaseMemory(t)), s.threads[t].path;
    ReleaseLeaves(comp, s, t);
    ReleaseContinues(comp, s, t);
    assert PathMatches(comp, s.mem, LogOf(s.log, path), path, s.lastAdded, s.lastAdded);
  }

  lemma ReleasePublished(comp: string -> int, s: Wal, t: int, other: string)
    requires Kept(comp, s) && Enabled(comp, s, ReleaseMemory(t)) && s.threads[t].path in s.trailers
    ensures PublishedMatches(comp, Next(comp, s, ReleaseMemory(t)), other)
  {
    hide Freed, AfterRelease, Has, HeldFor, Placed, Covered, RemovedBehind, MemoryMatches, TrailerMatches, ThreadsMatch, FirstHeld,
      Continues;
    var s', path := Next(comp, s, ReleaseMemory(t)), s.threads[t].path;
    ReleaseLeaves(comp, s, t);
    ReleaseContinues(comp, s, t);
    assert PublishedMatches(comp, s, other);
    if other != path {
      SamePath(comp, s, s', t, other);
    } else {
      ContinuesGrows(comp, s, s', t, path);
      forall i | i in PublishedOf(s', path) ensures i < FirstHeld(comp, s', path) {
        assert i in PublishedOf(s, path);
      }
      forall i | Unpublished(s', path, i) && i < FirstHeld(comp, s', path) ensures OnItsWay(s', path, i) {
        assert Unpublished(s, path, i);
        assert i >= FirstHeld(comp, s, path) || OnItsWay(s, path, i);
        assert t in s'.threads && s'.threads[t].path == path;
      }
    }
  }

  lemma ContinuesGrows(comp: string -> int, s: Wal, s': Wal, t: int, path: string)
    requires Continues(comp, s, s', t)
    ensures FirstHeld(comp, s, path) <= FirstHeld(comp, s', path)
  {
  }

  lemma ReleaseKeeps(comp: string -> int, s: Wal, t: int)
    requires Kept(comp, s) && Enabled(comp, s, ReleaseMemory(t)) && s.threads[t].path in s.trailers
    ensures Kept(comp, Next(comp, s, ReleaseMemory(t)))
  {
    hide Freed, AfterRelease, Has, HeldFor, Placed, MemoryMatches, ThreadsMatch, PublishedMatches, TrailerMatches, Covered,
      RemovedBehind, Continues, FirstHeld;
    var s' := Next(comp, s, ReleaseMemory(t));
    ReleaseContinues(comp, s, t);
    ReleaseMatches(comp, s, t);
    ReleaseThreads(comp, s, t);
    forall other ensures PublishedMatches(comp, s', other) && TrailerMatches(comp, s', other) {
      ReleasePublished(comp, s, t, other);
      SameTrailer(comp, s, s', t, other);
    }
    FreedPlaced(comp, s.mem, s.threads[t].path, s.trailers[s.threads[t].path]);
    GoesOn(comp, s, s', t);
  }

  // Without an info file what is released is nowhere.
  lemma ReleaseLoses(comp: string -> int, s: Wal, t: int)
    requires Kept(comp, s) && Enabled(comp, s, ReleaseMemory(t)) && s.threads[t].path !in s.trailers
    ensures !PublishedMatches(comp, Next(comp, s, ReleaseMemory(t)), s.threads[t].path)
  {
    hide Release, Has, HeldFor, Placed, Covered, RemovedBehind, MemoryMatches, ThreadsMatch, TrailerMatches;
    var path := s.threads[t].path;
    var s' := Next(comp, s, ReleaseMemory(t));
    ReleaseAt(comp, s.mem, path, path);
    assert PublishedMatches(comp, s, path);
    var i := FirstHeld(comp, s, path);
    assert PublishedOf(s', path) == PublishedOf(s, path) && i !in PublishedOf(s, path);
    assert 0 <= i < FirstHeld(comp, s', path) <= |LogOf(s.log, path)|;
    assert Unpublished(s', path, i);
    forall u | u in s'.threads && s'.threads[u].Renaming? ensures s'.threads[u].path != path {
      assert u in s.threads && s.threads[u] == s'.threads[u];
      RenamedHasInfo(comp, s, u);
    }
    assert !OnItsWay(s', path, i);
  }

  lemma RenamedHasInfo(comp: string -> int, s: Wal, u: int)
    requires Kept(comp, s) && u in s.threads && s.threads[u].Renaming?
    ensures s.threads[u].path in s.trailers
  {
    hide Placed, Covered, RemovedBehind, MemoryMatches, TrailerMatches, PublishedMatches, Unclaimed;
    assert ThreadMatches(comp, s, u);
  }

  lemma RenamePublished(comp: string -> int, s: Wal, t: int, path: string)
    requires Kept(comp, s) && Enabled(comp, s, RenameFile(t))
    ensures PublishedMatches(comp, Next(comp, s, RenameFile(t)), path)
  {
    hide Has, HeldFor, InMemory, Placed, Covered, RemovedBehind, MemoryMatches, TrailerMatches, ThreadMatches;
    var s' := Next(comp, s, RenameFile(t));
    assert PublishedMatches(comp, s, path);
    RenamerMatches(comp, s, t);
    forall i | i in PublishedOf(s', path) ensures i < FirstHeld(comp, s', path) {
      assert i in PublishedOf(s, path) || (path == s.threads[t].path && i < s.threads[t].to);
    }
    forall i | Unpublished(s', path, i) && i < FirstHeld(comp, s', path) ensures OnItsWay(s', path, i) {
      assert Unpublished(s, path, i) && OnItsWay(s, path, i);
      var u :| u in s.threads && s.threads[u].Renaming? && s.threads[u].path == path && s.threads[u].from <= i < s.threads[u].to;
      assert u != t && s'.threads[u] == s.threads[u];
    }
  }

  lemma RenameKeeps(comp: string -> int, s: Wal, t: int)
    requires Kept(comp, s) && Enabled(comp, s, RenameFile(t))
    ensures Kept(comp, Next(comp, s, RenameFile(t)))
  {
    hide Has, HeldFor, InMemory, Placed, MemoryMatches, ThreadsMatch, PublishedMatches, Covered, RemovedBehind, Unclaimed;
    var s', path := Next(comp, s, RenameFile(t)), s.threads[t].path;
    RenameThreads(comp, s, t);
    forall other ensures PublishedMatches(comp, s', other) && TrailerMatches(comp, s', other) {
      RenamePublished(comp, s, t, other);
      assert TrailerMatches(comp, s, other);
      RenamerMatches(comp, s, t);
      if other in s'.trailers {
        SameUnclaimed(comp, s, s', other, s'.trailers[other]);
      }
    }
    GoesOn(comp, s, s', t);
  }

  lemma RenamerMatches(comp: string -> int, s: Wal, t: int)
    requires Kept(comp, s) && Enabled(comp, s, RenameFile(t))
    ensures ThreadMatches(comp, s, t) && s.threads[t].to <= FirstHeld(comp, s, s.threads[t].path)
  {
    hide FirstHeld, Placed, Covered, RemovedBehind, MemoryMatches, PublishedMatches, TrailerMatches;
  }

  lemma RenameThreads(comp: string -> int, s: Wal, t: int)
    requires Kept(comp, s) && Enabled(comp, s, RenameFile(t))
    ensures ThreadsMatch(comp, Next(comp, s, RenameFile(t)))
  {
    hide Has, HeldFor, InMemory, Placed, Covered, RemovedBehind, MemoryMatches, PublishedMatches, TrailerMatches, Unclaimed;
    RenamerMatches(comp, s, t);
    ThreadsGoOn(comp, s, Next(comp, s, RenameFile(t)), t);
  }

  // ----- The commit offset

  /** What a flush thread reads is covered exactly when it is not ahead of a flush between its release and
      its rename. */
  lemma ReadIsCoveredIff(comp: string -> int, s: Wal, t: int, minimum: Offset)
    requires Kept(comp, s) && Enabled(comp, s, ReadMinimum(t, minimum))
    ensures Covered(s, OffsetRead(s, t, minimum)) <==> NotAhead(comp, s, OffsetRead(s, t, minimum))
  {
    hide ThreadsMatch, RemovedBehind, HeldMatches, IsLastCommit, FirstHeld, Has, HeldFor;
    var offset := OffsetRead(s, t, minimum);
    ReadBehind(comp, s, t, minimum);
    forall path, i | Unpublished(s, path, i)
      ensures InWindow(comp, s, path, i) || AtMost(offset, LogOf(s.log, path)[i].start)
    {
      assert PublishedMatches(comp, s, path);
      if i < FirstHeld(comp, s, path) {
        assert OnItsWay(s, path, i);
      } else {
        MinimumBehind(comp, s, path, minimum, i);
      }
    }
  }

  lemma MinimumBehind(comp: string -> int, s: Wal, path: string, minimum: Offset, i: int)
    requires Kept(comp, s) && IsLastCommit(s.mem, minimum) && FirstHeld(comp, s, path) <= i < |LogOf(s.log, path)|
    ensures 0 <= i && minimum.file < NO_OFFSET.file && AtMost(minimum, LogOf(s.log, path)[i].start)
  {
    hide ThreadsMatch, RemovedBehind, MemoryMatches, Covered, PublishedMatches, Placed, TrailerMatches, IsLastCommit;
    LastCommitAtMost(comp, s.mem, minimum, path);
    HeldBehind(comp, s, path);
    InOrder(minimum, HeldFor(comp, s.mem, path).commit, LogOf(s.log, path)[i].start);
  }

  lemma ReadBehind(comp: string -> int, s: Wal, t: int, minimum: Offset)
    requires Kept(comp, s) && Enabled(comp, s, ReadMinimum(t, minimum))
    ensures AtMost(OffsetRead(s, t, minimum), s.lastAdded)
  {
    hide ThreadsMatch, RemovedBehind, HeldMatches, TrailerMatches, PublishedMatches;
    SyncBehind(comp, s, t);
    if minimum.file != NO_OFFSET.file {
      var c, path :| c in s.mem && path in s.mem[c].containers && s.mem[c].containers[path].commit == minimum;
      assert Has(comp, s.mem, path) && HeldFor(comp, s.mem, path).commit == minimum;
      HeldBehind(comp, s, path);
    }
  }

  lemma SyncBehind(comp: string -> int, s: Wal, t: int)
    requires ThreadsMatch(comp, s) && t in s.threads && s.threads[t].Ended?
    ensures AtMost(s.threads[t].sync, s.lastAdded)
  {
    hide Unclaimed, Covered;
    assert ThreadMatches(comp, s, t);
  }

  lemma HeldBehind(comp: string -> int, s: Wal, path: string)
    requires Kept(comp, s) && Has(comp, s.mem, path)
    ensures 0 <= FirstHeld(comp, s, path)
    ensures var h, log := HeldFor(comp, s.mem, path), LogOf(s.log, path);
            && AtMost(h.commit, s.lastAdded)
            && forall i :: FirstHeld(comp, s, path) <= i < |log| ==> AtMost(h.commit, log[i].start)
  {
    hide ThreadsMatch, RemovedBehind, Covered, PublishedMatches, Placed, TrailerMatches;
    assert PathMatches(comp, s.mem, LogOf(s.log, path), path, s.lastAdded, s.lastAdded);
  }

  // A step of thread `t` that changes neither the memory nor an info file.
  lemma ThreadOnly(comp: string -> int, s: Wal, s': Wal, t: int)
    requires Kept(comp, s) && s' == s.(threads := s'.threads, commit := s'.commit) && Continues(comp, s, s', t)
    requires t in s.threads ==> !s.threads[t].Renaming?
    requires t in s'.threads ==>
               !s'.threads[t].Flushing? && !s'.threads[t].Renaming? && ThreadMatches(comp, s', t)
    requires s'.commit == s.commit || Covered(s, s'.commit)
    ensures Kept(comp, s')
  {
    hide Has, HeldFor, Placed, MemoryMatches, PublishedMatches, Covered, RemovedBehind, TrailerMatches, InMemory, Unclaimed;
    forall path ensures PublishedMatches(comp, s', path) && TrailerMatches(comp, s', path) {
      SamePath(comp, s, s', t, path);
      SameTrailer(comp, s, s', t, path);
    }
    forall u | u in s.threads && s.threads[u].Flushing? ensures Has(comp, s.mem, s.threads[u].path) {
      assert ThreadMatches(comp, s, u);
    }
    ThreadsGoOn(comp, s, s', t);
    GoesOn(comp, s, s', t);
  }

  lemma ReadKeeps(comp: string -> int, s: Wal, t: int, minimum: Offset)
    requires Kept(comp, s) && Enabled(comp, s, ReadMinimum(t, minimum))
    requires NotAhead(comp, s, OffsetRead(s, t, minimum))
    ensures Kept(comp, Next(comp, s, ReadMinimum(t, minimum)))
  {
    ReadIsCoveredIff(comp, s, t, minimum);
    hide Kept, NotAhead, InMemory, Covered, IsLastCommit;
    var s' := Next(comp, s, ReadMinimum(t, minimum));
    SameCovered(s, s', s'.threads[t].offset);
    ThreadOnly(comp, s, s', t);
  }

  lemma ReadLoses(comp: string -> int, s: Wal, t: int, minimum: Offset)
    requires Kept(comp, s) && Enabled(comp, s, ReadMinimum(t, minimum))
    requires !NotAhead(comp, s, OffsetRead(s, t, minimum))
    ensures !ThreadsMatch(comp, Next(comp, s, ReadMinimum(t, minimum)))
  {
    hide NotAhead, Kept, IsLastCommit;
    var s' := Next(comp, s, ReadMinimum(t, minimum));
    ReadIsCoveredIff(comp, s, t, minimum);
    assert s'.threads[t] == Setting(OffsetRead(s, t, minimum));
    assert ThreadMatches(comp, s', t) ==> Covered(s', OffsetRead(s, t, minimum));
  }

  lemma SetKeeps(comp: string -> int, s: Wal, t: int)
    requires Kept(comp, s) && Enabled(comp, s, SetCommit(t))
    ensures Kept(comp, Next(comp, s, SetCommit(t)))
  {
    hide Has, HeldFor, InMemory, Placed, Covered, RemovedBehind, MemoryMatches, PublishedMatches, TrailerMatches, Unclaimed;
    assert ThreadMatches(comp, s, t);
    ThreadOnly(comp, s, Next(comp, s, SetCommit(t)), t);
  }

  // ----- Headers and rotation

  lemma HeaderKeeps(comp: string -> int, s: Wal, step: Step)
    requires Kept(comp, s) && (step == WriteCheckpoint || step == Rotate) && Enabled(comp, s, step)
    ensures Kept(comp, Next(comp, s, step))
  {
    hide Has, HeldFor, InMemory, Placed, Covered, RemovedBehind, MemoryMatches, PublishedMatches, Range, Unclaimed;
    var s' := Next(comp, s, step);
    SameCovered(s, s', s.commit);
    forall u | u in s'.threads ensures ThreadMatches(comp, s', u) {
      assert ThreadMatches(comp, s, u);
      match s.threads[u]
      case Setting(offset) => SameCovered(s, s', offset);
      case Renaming(path, _, _, _, trailer) => SameUnclaimed(comp, s, s', path, trailer);
      case _ =>
    }
    forall path ensures PublishedMatches(comp, s', path) && TrailerMatches(comp, s', path) {
      SamePublished(comp, s, s', path);
      assert TrailerMatches(comp, s, path);
      if path in s.trailers {
        SameUnclaimed(comp, s, s', path, s.trailers[path]);
      }
    }
    if step == Rotate {
      RotateRemoved(s, s');
    } else {
      SameRemoved(s, s');
    }
  }

  lemma RotateRemoved(s: Wal, s': Wal)
    requires RemovedBehind(s) && Covered(s, s.commit)
    requires s'.log == s.log && s'.lastAdded == s.lastAdded && s'.published == s.published
    requires s'.removed == s.removed + Range(s.oldest, s.commit.file)
    ensures RemovedBehind(s')
  {
    forall f, path, i | f in s'.removed && Unpublished(s', path, i) ensures f < LogOf(s'.log, path)[i].start.file {
      assert Unpublished(s, path, i);
    }
  }

  // ----- The creation of a container

  lemma ReadSyncKeeps(comp: string -> int, s: Wal, t: int, path: string)
    requires Kept(comp, s) && Enabled(comp, s, ReadSync(t, path))
    ensures Kept(comp, Next(comp, s, ReadSync(t, path)))
  {
    hide Kept, InMemory;
    ThreadOnly(comp, s, Next(comp, s, ReadSync(t, path)), t);
  }

  /** A new info file keeps the invariant when its trailer claims no record that is in memory or in the batch
      that is being added. */
  lemma WriteInfoKeeps(comp: string -> int, s: Wal, t: int)
    requires Kept(comp, s) && Enabled(comp, s, WriteInfo(t)) && CarefulStep(comp, s, WriteInfo(t))
    ensures Kept(comp, Next(comp, s, WriteInfo(t)))
  {
    hide Has, HeldFor, FirstHeld, Placed, Covered, RemovedBehind, MemoryMatches, PublishedMatches, TrailerMatches, Unclaimed,
      Continues, BatchMatches;
    var s' := Next(comp, s, WriteInfo(t));
    WriteInfoContinues(comp, s, t);
    forall other ensures PublishedMatches(comp, s', other) && TrailerMatches(comp, s', other) {
      WriteInfoMatches(comp, s, t, other);
    }
    FlushersHave(comp, s);
    ThreadsGoOn(comp, s, s', t);
    GoesOn(comp, s, s', t);
  }

  lemma WriteInfoContinues(comp: string -> int, s: Wal, t: int)
    requires Enabled(comp, s, WriteInfo(t))
    ensures var s' := Next(comp, s, WriteInfo(t));
            Continues(comp, s, s', t) && forall other :: FirstHeld(comp, s', other) == FirstHeld(comp, s, other)
  {
    hide Continues, FirstHeld;
    SameMemory(comp, s, Next(comp, s, WriteInfo(t)), t);
  }

  lemma SameMemory(comp: string -> int, s: Wal, s': Wal, t: int)
    requires s' == s.(trailers := s'.trailers, threads := s'.threads)
    requires forall path :: path in s.trailers ==> path in s'.trailers
    requires forall u :: u != t && u in s.threads ==> u in s'.threads && s'.threads[u] == s.threads[u]
    requires forall u :: u != t && u in s'.threads ==> u in s.threads
    ensures Continues(comp, s, s', t) && forall other :: FirstHeld(comp, s', other) == FirstHeld(comp, s, other)
  {
    hide InMemory;
    forall other ensures FirstHeld(comp, s', other) == FirstHeld(comp, s, other) {
    }
  }

  lemma WriteInfoMatches(comp: string -> int, s: Wal, t: int, other: string)
    requires Kept(comp, s) && Enabled(comp, s, WriteInfo(t)) && CarefulStep(comp, s, WriteInfo(t))
    ensures var s' := Next(comp, s, WriteInfo(t)); PublishedMatches(comp, s', other) && TrailerMatches(comp, s', other)
  {
    hide Has, HeldFor, FirstHeld, Placed, Covered, RemovedBehind, MemoryMatches, PublishedMatches, Unclaimed, Continues, BatchMatches;
    var s', path, offset := Next(comp, s, WriteInfo(t)), s.threads[t].path, s.threads[t].offset;
    WriteInfoContinues(comp, s, t);
    SamePath(comp, s, s', t, other);
    if other == path && path !in s.trailers {
      assert ThreadMatches(comp, s, t);
      SameUnclaimed(comp, s, s', path, offset);
    } else {
      SameTrailer(comp, s, s', t, other);
    }
  }

  lemma FlushersHave(comp: string -> int, s: Wal)
    requires ThreadsMatch(comp, s)
    ensures forall u :: u in s.threads && s.threads[u].Flushing? ==>
              Has(comp, s.mem, s.threads[u].path) && HeldFor(comp, s.mem, s.threads[u].path).flushing != []
  {
    hide Unclaimed, Covered, FirstHeld, Has;
    forall u | u in s.threads && s.threads[u].Flushing?
      ensures Has(comp, s.mem, s.threads[u].path) && HeldFor(comp, s.mem, s.threads[u].path).flushing != []
    {
      assert ThreadMatches(comp, s, u);
    }
  }

  // A record that the new trailer claims would be skipped by its flush.
  lemma WriteInfoLoses(comp: string -> int, s: Wal, t: int)
    requires Kept(comp, s) && Enabled(comp, s, WriteInfo(t)) && !CarefulStep(comp, s, WriteInfo(t))
    ensures !TrailerMatches(comp, Next(comp, s, WriteInfo(t)), s.threads[t].path)
  {
    hide Kept, InMemory;
    var s', path, offset := Next(comp, s, WriteInfo(t)), s.threads[t].path, s.threads[t].offset;
    assert FirstHeld(comp, s', path) == FirstHeld(comp, s, path);
    assert Unclaimed(comp, s', path, offset) == Unclaimed(comp, s, path, offset);
  }

  lemma DropMemoryKeeps(comp: string -> int, s: Wal, t: int)
    requires Kept(comp, s) && Enabled(comp, s, DropMemory(t)) && NothingDropped(comp, s.mem, s.threads[t].path)
    ensures Kept(comp, Next(comp, s, DropMemory(t)))
  {
    hide WithoutContainer, Has, HeldFor, Placed, Covered, RemovedBehind, HeldMatches, PublishedMatches, TrailerMatches, Unclaimed;
    var s', path := Next(comp, s, DropMemory(t)), s.threads[t].path;
    forall other
      ensures PathMatches(comp, s'.mem, LogOf(s'.log, other), other, s.lastAdded, s.lastAdded)
      ensures FirstHeld(comp, s', other) == FirstHeld(comp, s, other)
    {
      WithoutAt(comp, s.mem, path, other);
      assert PathMatches(comp, s.mem, LogOf(s.log, other), other, s.lastAdded, s.lastAdded);
    }
    forall other ensures PublishedMatches(comp, s', other) && TrailerMatches(comp, s', other) {
      SamePath(comp, s, s', t, other);
      SameTrailer(comp, s, s', t, other);
    }
    WithoutPlaced(comp, s.mem, path);
    DropThreads(comp, s, t);
    GoesOn(comp, s, s', t);
  }

  lemma DropThreads(comp: string -> int, s: Wal, t: int)
    requires Kept(comp, s) && Enabled(comp, s, DropMemory(t))
    requires Continues(comp, s, Next(comp, s, DropMemory(t)), t)
    ensures ThreadsMatch(comp, Next(comp, s, DropMemory(t)))
  {
    hide WithoutContainer, Has, HeldFor, Placed, Covered, RemovedBehind, MemoryMatches, PublishedMatches, TrailerMatches, Continues;
    FlushersHave(comp, s);
    forall u | u in s.threads && s.threads[u].Flushing?
      ensures Has(comp, Next(comp, s, DropMemory(t)).mem, s.threads[u].path)
      ensures HeldFor(comp, Next(comp, s, DropMemory(t)).mem, s.threads[u].path) == HeldFor(comp, s.mem, s.threads[u].path)
    {
      WithoutAt(comp, s.mem, s.threads[t].path, s.threads[u].path);
    }
    ThreadsGoOn(comp, s, Next(comp, s, DropMemory(t)), t);
  }

  // What is dropped from memory without a flush is in no info file.
  lemma DropMemoryLoses(comp: string -> int, s: Wal, t: int)
    requires Kept(comp, s) && Enabled(comp, s, DropMemory(t)) && !NothingDropped(comp, s.mem, s.threads[t].path)
    ensures !PublishedMatches(comp, Next(comp, s, DropMemory(t)), s.threads[t].path)
  {
    hide WithoutContainer, Has, HeldFor, Placed, Covered, RemovedBehind, HeldMatches, TrailerMatches, Unclaimed;
    var s', path := Next(comp, s, DropMemory(t)), s.threads[t].path;
    WithoutAt(comp, s.mem, path, path);
    var i := FirstHeld(comp, s, path);
    HeldBehind(comp, s, path);
    assert PublishedMatches(comp, s, path);
    assert PublishedOf(s', path) == PublishedOf(s, path) && i !in PublishedOf(s, path);
    assert 0 <= i < FirstHeld(comp, s', path) <= |LogOf(s.log, path)|;
    assert Unpublished(s', path, i);
    forall u | u in s'.threads && s'.threads[u].Renaming? && s'.threads[u].path == path ensures s'.threads[u].to <= i {
      RenamerMatches(comp, s, u);
    }
    assert !OnItsWay(s', path, i);
  }

  // ----- Every step

  lemma StepKeeps(comp: string -> int, s: Wal, step: Step)
    requires Kept(comp, s) && Enabled(comp, s, step) && CarefulStep(comp, s, step)
    ensures Kept(comp, Next(comp, s, step))
  {
    hide Kept, Next, NotAhead, NothingDropped, Unclaimed;
    match step
    case Sync(es, sync) => SyncKeeps(comp, s, es, sync);
    case AddBatch => BatchKeeps(comp, s);
    case StartFlushOf(t, path) => StartFlushKeeps(comp, s, t, path);
    case ReleaseMemory(t) => ReleaseKeeps(comp, s, t);
    case RenameFile(t) => RenameKeeps(comp, s, t);
    case ReadMinimum(t, minimum) => ReadKeeps(comp, s, t, minimum);
    case SetCommit(t) => SetKeeps(comp, s, t);
    case ReadSync(t, path) => ReadSyncKeeps(comp, s, t, path);
    case WriteInfo(t) => WriteInfoKeeps(comp, s, t);
    case DropMemory(t) => DropMemoryKeeps(comp, s, t);
    case WriteCheckpoint => HeaderKeeps(comp, s, step);
    case Rotate => HeaderKeeps(comp, s, step);
  }

  lemma StepLoses(comp: string -> int, s: Wal, step: Step)
    requires Kept(comp, s) && Enabled(comp, s, step) && !CarefulStep(comp, s, step)
    ensures !Kept(comp, Next(comp, s, step))
  {
    hide Next, NotAhead, NothingDropped, Covered, Placed, MemoryMatches, PublishedMatches, TrailerMatches, Unclaimed, RemovedBehind;
    match step
    case ReleaseMemory(t) => ReleaseLoses(comp, s, t);
    case ReadMinimum(t, minimum) => ReadLoses(comp, s, t, minimum);
    case WriteInfo(t) => WriteInfoLoses(comp, s, t);
    case DropMemory(t) => DropMemoryLoses(comp, s, t);
    case _ =>
  }

  /** Exactly the careful steps keep the invariant. */
  lemma StepKeepsIff(comp: string -> int, s: Wal, step: Step)
    requires Kept(comp, s) && Enabled(comp, s, step)
    ensures Kept(comp, Next(comp, s, step)) <==> CarefulStep(comp, s, step)
  {
    if CarefulStep(comp, s, step) {
      StepKeeps(comp, s, step);
    } else {
      StepLoses(comp, s, step);
    }
  }

  // ----- A creation without interruption

  // The state that the three steps of a creation leave when nothing comes in between.
  ghost function Created(comp: string -> int, s: Wal, path: string): Wal {
    s.(trailers := s.trailers[path := s.lastSync], mem := WithoutContainer(comp, s.mem, path))
  }

  lemma CreatedInSteps(comp: string -> int, s: Wal, t: int, path: string)
    requires t !in s.threads && path !in s.trailers
    ensures var s1 := Next(comp, s, ReadSync(t, path));
            && Enabled(comp, s1, WriteInfo(t))
            && var s2 := Next(comp, s1, WriteInfo(t));
               Enabled(comp, s2, DropMemory(t)) && Next(comp, s2, DropMemory(t)) == Created(comp, s, path)
  {
    hide WithoutContainer;
    var s1 := Next(comp, s, ReadSync(t, path));
    var s2 := Next(comp, s1, WriteInfo(t));
    assert Next(comp, s2, DropMemory(t)).threads == s.threads;
  }

  // The container has no record in memory and none in the batch that is being added.
  predicate Nowhere(comp: string -> int, s: Wal, path: string) {
    InMemory(comp, s.mem, path) == 0 && forall i :: 0 <= i < |s.batch| ==> s.batch[i].path != path
  }

  /** A creation without interruption keeps the invariant exactly when the container has no record at all that
      is still to be flushed, not even one that is being flushed. */
  lemma CreateKeepsIff(comp: string -> int, s: Wal, t: int, path: string)
    requires Kept(comp, s) && t !in s.threads && path !in s.trailers
    ensures var s1 := Next(comp, s, ReadSync(t, path));
            && Enabled(comp, s1, WriteInfo(t))
            && var s2 := Next(comp, s1, WriteInfo(t));
               Enabled(comp, s2, DropMemory(t)) && (Kept(comp, Next(comp, s2, DropMemory(t))) <==> Nowhere(comp, s, path))
  {
    hide Kept, Next, Enabled, Nowhere, Created;
    CreatedInSteps(comp, s, t, path);
    if Nowhere(comp, s, path) {
      NowhereKeeps(comp, s, t, path);
    } else {
      SomewhereLoses(comp, s, path);
    }
  }

  lemma NowhereKeeps(comp: string -> int, s: Wal, t: int, path: string)
    requires Kept(comp, s) && t !in s.threads && path !in s.trailers && Nowhere(comp, s, path)
    ensures Kept(comp, Created(comp, s, path))
  {
    hide Kept, WithoutContainer, Has, HeldFor;
    var s1 := Next(comp, s, ReadSync(t, path));
    ReadSyncKeeps(comp, s, t, path);
    WriteInfoKeeps(comp, s1, t);
    var s2 := Next(comp, s1, WriteInfo(t));
    DropMemoryKeeps(comp, s2, t);
    CreatedInSteps(comp, s, t, path);
  }

  lemma SomewhereLoses(comp: string -> int, s: Wal, path: string)
    requires Kept(comp, s) && path !in s.trailers && !Nowhere(comp, s, path)
    ensures !Kept(comp, Created(comp, s, path))
  {
    hide WithoutContainer, Has, HeldFor, Placed, Covered, RemovedBehind, HeldMatches, ThreadsMatch;
    var s' := Created(comp, s, path);
    WithoutAt(comp, s.mem, path, path);
    assert PublishedMatches(comp, s, path) && PathMatches(comp, s.mem, LogOf(s.log, path), path, s.lastAdded, s.lastAdded);
    if InMemory(comp, s.mem, path) > 0 {
      var i := FirstHeld(comp, s, path);
      HeldBehind(comp, s, path);
      InOrder(LogOf(s.log, path)[i].key, s.lastAdded, s.lastSync);
      if HeldFor(comp, s.mem, path).flushing == [] {
        assert PublishedOf(s', path) == PublishedOf(s, path) && i !in PublishedOf(s, path);
        assert Unpublished(s', path, i);
        NotOnItsWay(comp, s, path, i);
        assert OnItsWay(s', path, i) == OnItsWay(s, path, i);
        assert !PublishedMatches(comp, s', path);
      } else {
        assert !Unclaimed(comp, s', path, s.lastSync);
      }
    } else {
      assert !Unclaimed(comp, s', path, s.lastSync);
    }
    assert !TrailerMatches(comp, s', path) || !PublishedMatches(comp, s', path);
  }

  lemma NotOnItsWay(comp: string -> int, s: Wal, path: string, i: int)
    requires Kept(comp, s) && path !in s.trailers
    ensures !OnItsWay(s, path, i)
  {
    hide Kept;
    forall u | u in s.threads && s.threads[u].Renaming? ensures s.threads[u].path != path {
      RenamedHasInfo(comp, s, u);
    }
  }
}
