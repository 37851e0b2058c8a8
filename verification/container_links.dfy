/** The container models are about the same code: batches, flushes and info files agree. */
module ContainerLinks {
  import opened ContainerMemory
  import opened MemoryManagement
  import opened InfoView
  import opened InfoFileSorting
  import Retention = ContainerRetention
  import Recovery = ContainerRecovery
  import RecoveryRuns = ContainerRecoveryRuns
  import Info = ContainerInfo

  // ----- Batches

  function FinalRecords(es: seq<Retention.Entry>): seq<FinalRecord> {
    if es == [] then [] else [FinalRecord(es[0].path, es[0].record)] + FinalRecords(es[1..])
  }

  lemma {:induction false} EntriesAppend(comp: string -> int, m: Memory, a: seq<Retention.Entry>, b: seq<Retention.Entry>,
                                         prev: Offset, sync: Offset)
    ensures Retention.AddEntries(comp, m, a + b, prev, sync)
         == Retention.AddEntries(comp, Retention.AddEntries(comp, m, a, prev, sync), b, prev, sync)
    decreases |a|
  {
    hide AddOne;
    if a == [] {
      assert a + b == b;
    } else {
      assert (a + b)[0] == a[0] && (a + b)[1..] == a[1..] + b;
      EntriesAppend(comp, AddOne(comp, m, FinalRecord(a[0].path, a[0].record), prev, sync, a[0].owned), a[1..], b, prev, sync);
    }
  }

  lemma {:induction false} EntriesAreRecords(comp: string -> int, m: Memory, es: seq<Retention.Entry>, prev: Offset,
                                             sync: Offset, owned: bool)
    requires forall i :: 0 <= i < |es| ==> es[i].owned == owned
    ensures Retention.AddEntries(comp, m, es, prev, sync) == AddRecords(comp, m, FinalRecords(es), prev, sync, owned)
    decreases |es|
  {
    hide AddOne;
    if es != [] {
      EntriesAreRecords(comp, AddOne(comp, m, FinalRecord(es[0].path, es[0].record), prev, sync, owned), es[1..], prev, sync,
                        owned);
      assert FinalRecords(es)[1..] == FinalRecords(es[1..]);
    }
  }

  /** A batch is sorted by the kind of its jobs before it is added: for the memory it is one sequence of
      entries, first those of the one kind and then those of the other. */
  lemma BatchIsEntries(comp: string -> int, m: Memory, own: seq<Retention.Entry>, others: seq<Retention.Entry>, prev: Offset,
                       sync: Offset)
    requires forall i :: 0 <= i < |own| ==> own[i].owned
    requires forall i :: 0 <= i < |others| ==> !others[i].owned
    ensures AddJobs(comp, m, [Job(true, FinalRecords(own)), Job(false, FinalRecords(others))], prev, sync)
         == Retention.AddEntries(comp, m, own + others, prev, sync)
  {
    hide AddRecords, FinalRecords, Retention.AddEntries;
    var jobs := [Job(true, FinalRecords(own)), Job(false, FinalRecords(others))];
    EntriesAppend(comp, m, own, others, prev, sync);
    EntriesAreRecords(comp, m, own, prev, sync, true);
    var m1 := Retention.AddEntries(comp, m, own, prev, sync);
    EntriesAreRecords(comp, m1, others, prev, sync, false);
    TwoJobs(comp, m, jobs[0], jobs[1], prev, sync);
  }

  lemma TwoJobs(comp: string -> int, m: Memory, a: Job, b: Job, prev: Offset, sync: Offset)
    ensures AddJobs(comp, m, [a, b], prev, sync)
         == AddRecords(comp, AddRecords(comp, m, a.records, prev, sync, a.owned), b.records, prev, sync, b.owned)
  {
    hide AddRecords;
    var m1 := AddRecords(comp, m, a.records, prev, sync, a.owned);
    var m2 := AddRecords(comp, m1, b.records, prev, sync, b.owned);
    assert [a, b][1..] == [b] && [b][1..] == [];
    assert AddJobs(comp, m2, [], prev, sync) == m2;
    assert AddJobs(comp, m1, [b], prev, sync) == m2;
  }

  // The object records among the items, with their places in the journal.
  function EntriesIn(journal: seq<Recovery.Item>, from: nat, n: nat): seq<Retention.Entry>
    requires from <= n <= |journal|
    decreases n
  {
    if n == from then [] else
      var item := journal[n - 1];
      EntriesIn(journal, from, n - 1)
        + (if item.content.Object? then [Retention.Entry(item.content.path, item.content.record, true, item.start)] else [])
  }

  /** The items that a sync adds to memory are the entries of a batch. */
  lemma {:induction false} ItemsAreEntries(comp: string -> int, m: Memory, journal: seq<Recovery.Item>, from: nat, n: nat,
                                           prev: Offset, sync: Offset)
    requires from <= n <= |journal|
    ensures Recovery.AddItems(comp, m, journal, from, n, prev, sync)
         == Retention.AddEntries(comp, m, EntriesIn(journal, from, n), prev, sync)
    decreases n
  {
    hide AddOne;
    if n > from {
      var before, item := EntriesIn(journal, from, n - 1), journal[n - 1];
      ItemsAreEntries(comp, m, journal, from, n - 1, prev, sync);
      if item.content.Object? {
        var e := Retention.Entry(item.content.path, item.content.record, true, item.start);
        EntriesAppend(comp, m, before, [e], prev, sync);
        OneEntry(comp, Retention.AddEntries(comp, m, before, prev, sync), e, prev, sync);
      } else {
        assert before + [] == before;
      }
    }
  }

  lemma OneEntry(comp: string -> int, m: Memory, e: Retention.Entry, prev: Offset, sync: Offset)
    ensures Retention.AddEntries(comp, m, [e], prev, sync) == AddOne(comp, m, FinalRecord(e.path, e.record), prev, sync, e.owned)
  {
    hide AddOne;
    assert [e][1..] == [];
  }

  // ----- Flushes

  /** The file has the live records of what it has been given, and the same trailer. */
  ghost predicate Represents(f: Info.InfoFile, info: Recovery.Info) {
    && f.journalOffset == info.trailer
    && forall r :: IsLive(f.sorted + f.unsorted, r) <==> IsLive(info.applied, r)
  }

  lemma RecordsAgree(q: seq<Pending>)
    ensures Recovery.Records(q) == Info.RecordsOf(q)
    decreases |q|
  {
    if q != [] {
      RecordsAgree(q[..|q| - 1]);
      assert Recovery.Records(q) == Recovery.Records(q[..|q| - 1]) + [q[|q| - 1].record];
    }
  }

  lemma LiveAppend(a: seq<Record>, b: seq<Record>, more: seq<Record>, r: Record)
    requires IsLive(a, r) <==> IsLive(b, r)
    ensures IsLive(a + more, r) <==> IsLive(b + more, r)
  {
    CurrentOfBoth(a, more, r);
    CurrentOfBoth(b, more, r);
  }

  /** A flush of the file and the flush of the recovery model give the same records, with any compactions. */
  lemma FlushesAgree(f: Info.InfoFile, info: Recovery.Info, h: Held, unknown: bool)
    requires Info.WellFormed(f) && Info.AllNamed(h.flushing) && Represents(f, info)
    ensures Represents(Info.Flushed(f, h.flushing, unknown), Recovery.Flushed(info, h))
    ensures Info.WellFormed(Info.Flushed(f, h.flushing, unknown))
  {
    hide IsLive, Info.View, Info.Tally, Info.StatAfterAll, Info.AnyUnknown, Info.WellFormed, Info.RecordsOf, Recovery.Records;
    var q := h.flushing;
    var left, roomy := Info.Unflushed(f, q), Info.MadeRoom(f, |q|);
    CompactedRepresents(f, info);
    assert Represents(roomy, info) && Info.WellFormed(roomy);
    if left == [] {
      CompactedRepresents(roomy, info);
    } else {
      var appended, info' := Info.Appended(roomy, left), Recovery.Flushed(info, h);
      RecordsAgree(left);
      Info.AppendedIsWellFormed(roomy, left);
      forall r ensures IsLive(appended.sorted + appended.unsorted, r) <==> IsLive(info'.applied, r) {
        LiveAppend(roomy.sorted + roomy.unsorted, info.applied, Info.RecordsOf(left), r);
        assert roomy.sorted + roomy.unsorted + Info.RecordsOf(left) == appended.sorted + appended.unsorted;
      }
      CompactedRepresents(appended, info');
    }
  }

  lemma CompactedRepresents(f: Info.InfoFile, info: Recovery.Info)
    requires Info.WellFormed(f) && Represents(f, info)
    ensures Represents(Info.Compacted(f), info) && Info.WellFormed(Info.Compacted(f))
  {
    hide IsLive, Info.View, Info.Tally;
    var c := Info.Compacted(f);
    Info.CompactedIsWellFormed(f);
    assert c.sorted + c.unsorted == c.sorted;
    forall r ensures IsLive(c.sorted + c.unsorted, r) <==> IsLive(info.applied, r) {
      Info.CompactedIsLive(f, r);
    }
  }

  /** After every careful run with any crashes, what an info file shows are exactly the live records among the
      journaled records of its container that end at or before its trailer, and among all that were added to
      memory once none of them is in memory or on its way from there to the file. */
  lemma ShownIsJournaled(comp: string -> int, file: nat, end: nat, steps: seq<Recovery.Step>, path: string, f: Info.InfoFile)
    requires 0 < end && file < NO_OFFSET.file && Info.WellFormed(f)
    requires Recovery.Runs(comp, RecoveryRuns.Start(file, end), steps)
    requires Recovery.Careful(comp, RecoveryRuns.Start(file, end), steps)
    requires Represents(f, Recovery.InfoOf(Recovery.Run(comp, RecoveryRuns.Start(file, end), steps), path))
    ensures var s := Recovery.Run(comp, RecoveryRuns.Start(file, end), steps);
            && s.added <= |s.journal|
            && var all, info := Recovery.Objects(s.journal, path), Recovery.InfoOf(s, path);
               && |info.applied| <= |all|
               && (forall i :: 0 <= i < |all| ==> (i < |info.applied| <==> AtMost(all[i].end, f.journalOffset)))
               && (forall r :: r in Info.View(f) <==> IsLive(JournaledRecords(all[..|info.applied|]), r))
               && (!Has(comp, s.mem, path) && path !in s.temps ==>
                     all[..|info.applied|] == Recovery.Objects(s.journal[..s.added], path))
  {
    hide Recovery.Run, Recovery.Runs, Recovery.Careful, IsLive, Info.View, Recovery.Objects;
    var s := Recovery.Run(comp, RecoveryRuns.Start(file, end), steps);
    RecoveryRuns.ExactlyOnce(comp, file, end, steps, path);
    var all, info := Recovery.Objects(s.journal, path), Recovery.InfoOf(s, path);
    HeldIsJournaled(info, all[..|info.applied|]);
    Info.ViewIsLive(f);
    RecoveryRuns.AddedFirst(s.journal, s.added, path);
  }

  function JournaledRecords(items: seq<Recovery.Item>): seq<Record> {
    seq(|items|, i requires 0 <= i < |items| =>
      if items[i].content.Object? then items[i].content.record else ObjectRecord("", Add, 0, 0))
  }

  lemma HeldIsJournaled(info: Recovery.Info, items: seq<Recovery.Item>)
    requires RecoveryRuns.HoldsAll(info, items)
    ensures info.applied == JournaledRecords(items)
  {
  }
}
