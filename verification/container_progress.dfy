/** No careful run ends in a deadlock: each thread has a next step or waits for one that has, and batches go on. */
module ContainerProgress {
  import opened ContainerMemory
  import opened MemoryManagement
  import Retention = ContainerRetention
  import RetentionSteps = ContainerRetentionSteps
  import Recovery = ContainerRecovery
  import RecoverySteps = ContainerRecoverySteps

  // ----- Retention

  // The thread has a next step, or waits for one that renames the info file of the same container.
  ghost predicate GoesOn(comp: string -> int, s: Retention.Wal, t: int)
    requires t in s.threads
  {
    match s.threads[t]
    case Flushing(path, _) =>
      || Retention.Enabled(comp, s, Retention.ReleaseMemory(t))
      || exists u :: u in s.threads && s.threads[u].Renaming? && s.threads[u].path == path
                     && Retention.Enabled(comp, s, Retention.RenameFile(u))
    case Renaming(_, _, _, _, _) => Retention.Enabled(comp, s, Retention.RenameFile(t))
    case Ended(_) => exists minimum :: Retention.Enabled(comp, s, Retention.ReadMinimum(t, minimum))
    case Setting(_) => Retention.Enabled(comp, s, Retention.SetCommit(t))
    case Creating(_, _) => Retention.Enabled(comp, s, Retention.WriteInfo(t))
    case Dropping(_) => Retention.Enabled(comp, s, Retention.DropMemory(t))
  }

  /** While the invariant is kept no thread is stuck; in particular a release always has a record to release. */
  lemma NoThreadIsStuck(comp: string -> int, s: Retention.Wal, t: int)
    requires Retention.Kept(comp, s) && t in s.threads
    ensures GoesOn(comp, s, t)
  {
    hide Placed, Retention.Covered, Retention.RemovedBehind, Retention.MemoryMatches, Retention.PublishedMatches,
      Retention.Unclaimed, IsLastCommit, Retention.LeftToWrite;
    assert Retention.ThreadMatches(comp, s, t);
    match s.threads[t]
    case Flushing(path, _) =>
      RetentionSteps.HeldBehind(comp, s, path);
      if path in s.trailers {
        RetentionSteps.WritesAll(comp, s, path);
      }
    case Ended(_) =>
      LastCommitExists(s.mem);
      var minimum :| IsLastCommit(s.mem, minimum);
      assert Retention.Enabled(comp, s, Retention.ReadMinimum(t, minimum));
    case _ =>
  }

  /** A batch that is synced can be added, and after that the next one can be synced. */
  lemma BatchesGoOn(comp: string -> int, s: Retention.Wal, es: seq<Retention.Entry>, sync: Offset)
    requires Retention.Kept(comp, s) && s.active < NO_OFFSET.file
    requires AtMost(s.lastSync, sync) && sync.file <= s.active && Retention.InBatch(es, s.lastSync, sync)
    ensures s.adding ==>
              && Retention.Enabled(comp, s, Retention.AddBatch)
              && Retention.Enabled(comp, Retention.Next(comp, s, Retention.AddBatch), Retention.Sync(es, sync))
    ensures !s.adding ==>
              && Retention.Enabled(comp, s, Retention.Sync(es, sync))
              && Retention.Enabled(comp, Retention.Next(comp, s, Retention.Sync(es, sync)), Retention.AddBatch)
  {
    hide Retention.Kept, Retention.AddEntries, Retention.LogEntries, Retention.InBatch;
  }

  // ----- Recovery

  ghost predicate GoesOnRecovering(comp: string -> int, s: Recovery.Node, t: int)
    requires t in s.threads
  {
    match s.threads[t]
    case Flushing(path, _) =>
      || Recovery.Enabled(comp, s, Recovery.ReleaseMemory(t))
      || exists u :: u in s.threads && s.threads[u].Renaming? && s.threads[u].path == path
                     && Recovery.Enabled(comp, s, Recovery.RenameFile(u))
    case Renaming(_, _) => Recovery.Enabled(comp, s, Recovery.RenameFile(t))
    case Published(_, _) =>
      forall start, end :: Recovery.Appends(s, start, end) ==> Recovery.Enabled(comp, s, Recovery.MarkEnd(t, start, end))
    case Marked(_) => exists minimum :: Recovery.Enabled(comp, s, Recovery.ReadMinimum(t, minimum))
    case Setting(_) => Recovery.Enabled(comp, s, Recovery.SetCommit(t))
    case Creating(_, _) => Recovery.Enabled(comp, s, Recovery.WriteInfo(t))
    case Dropping(_) => Recovery.Enabled(comp, s, Recovery.DropMemory(t))
  }

  /** The same for a node with crashes: also after any replay, a release never meets an empty list while
      records are pending. */
  lemma NoThreadIsStuckRecovering(comp: string -> int, s: Recovery.Node, t: int)
    requires Recovery.Kept(comp, s) && t in s.threads
    ensures GoesOnRecovering(comp, s, t)
  {
    hide Recovery.JournalKept, Recovery.PathKept, Recovery.Covered, Recovery.Behind, Recovery.SyncKept, Placed, IsLastCommit,
      Recovery.Upcoming;
    RecoverySteps.KeptJournal(s);
    assert Recovery.ThreadKept(comp, s, s.threads[t]);
    match s.threads[t]
    case Flushing(_, _) => FlushIsNotStuck(comp, s, t);
    case Marked(_) =>
      LastCommitExists(s.mem);
      var minimum :| IsLastCommit(s.mem, minimum);
      assert Recovery.Enabled(comp, s, Recovery.ReadMinimum(t, minimum));
    case _ =>
  }

  lemma FlushIsNotStuck(comp: string -> int, s: Recovery.Node, t: int)
    requires Recovery.Kept(comp, s) && t in s.threads && s.threads[t].Flushing?
    ensures GoesOnRecovering(comp, s, t)
  {
    hide Recovery.JournalKept, Recovery.PathKept, Recovery.Covered, Recovery.Behind, Recovery.SyncKept, Placed, Has, HeldFor,
      Skipped, Recovery.InfoOf;
    var path := s.threads[t].path;
    RecoverySteps.KeptJournal(s);
    assert Recovery.ThreadKept(comp, s, s.threads[t]);
    if path in s.temps {
      assert Recovery.Renames(s, path);
      var u :| u in s.threads && s.threads[u].Renaming? && s.threads[u].path == path;
      assert Recovery.Enabled(comp, s, Recovery.RenameFile(u));
    } else {
      ReleaseHasRecords(comp, s, path);
    }
  }

  lemma ReleaseHasRecords(comp: string -> int, s: Recovery.Node, path: string)
    requires Recovery.Kept(comp, s) && path !in s.temps && Has(comp, s.mem, path) && HeldFor(comp, s.mem, path).flushing != []
    ensures var h := HeldFor(comp, s.mem, path);
            h.records == [] || Skipped(h, Recovery.InfoOf(s, path).trailer).flushing != []
  {
    hide Recovery.JournalKept, Recovery.ThreadKept, Recovery.Covered, Recovery.Behind, Recovery.SyncKept, Placed, Has, HeldFor,
      Recovery.Objects, Recovery.HeldAhead, Recovery.RecordsAhead, Recovery.HeldMatches, Recovery.OneFlushEach;
    assert Recovery.PathKept(comp, s, path);
    var h, info := HeldFor(comp, s.mem, path), Recovery.InfoOf(s, path);
    var all, added := Recovery.Objects(s.journal, path), Recovery.Objects(s.journal[..s.added], path);
    if h.records != [] {
      RecoverySteps.ObjectsPrefix(s.journal, s.added, path);
      RecoverySteps.NotApplied(info, all, added);
      RecoverySteps.SkipsApplied(h, added, info);
    }
  }

  lemma RecoveringBatchesGoOn(comp: string -> int, s: Recovery.Node)
    requires Recovery.Kept(comp, s)
    ensures s.pending ==> Recovery.Enabled(comp, s, Recovery.AddBatch) && !Recovery.Next(comp, s, Recovery.AddBatch).pending
    ensures !s.pending && !s.recovering ==>
              Recovery.Enabled(comp, s, Recovery.Sync) && Recovery.Next(comp, s, Recovery.Sync).pending
  {
    hide Recovery.PathKept, Recovery.ThreadKept, Recovery.Covered, Recovery.Behind, Recovery.AddItems, Recovery.ItemKept;
  }

  /** A recovery whose flushes have ended can end, with any later file. */
  lemma RecoveryCanEnd(comp: string -> int, s: Recovery.Node, file: nat)
    requires Recovery.Kept(comp, s) && s.recovering && s.threads == map[] && forall path :: !Has(comp, s.mem, path)
    requires s.tail.file < file && s.newest <= file < NO_OFFSET.file
    ensures Recovery.Enabled(comp, s, Recovery.FinishRecovery(file))
    ensures !Recovery.Next(comp, s, Recovery.FinishRecovery(file)).recovering
    ensures Recovery.Next(comp, s, Recovery.FinishRecovery(file)).journal == s.journal
  {
    hide Recovery.Kept;
  }
}
