/** What the replay of a journal leaves in memory, said of the journal alone. */
module ContainerReplay {
  import opened ContainerMemory
  import opened MemoryManagement
  import opened ContainerRecovery
  import opened ContainerRecoverySteps

  // Item `i` is a record of the container and does not start before `from`.
  predicate Returns(journal: seq<Item>, from: Offset, path: string, i: nat)
    requires i < |journal|
  {
    journal[i].content.Object? && journal[i].content.path == path && !Less(journal[i].start, from)
  }

  /** A later end of a flush of the container is for records beyond the end of item `i`. */
  predicate FlushedLater(journal: seq<Item>, path: string, i: nat)
    requires i < |journal|
  {
    exists j :: i < j < |journal| && EndsFlush(journal[j], path, journal[i].end)
  }

  predicate EndsFlush(item: Item, path: string, end: Offset) {
    item.content.EndFlush? && item.content.path == path && Less(end, item.content.sync)
  }

  // Of the first `n` items, those that return and are not flushed later, under their ends.
  function StillPending(journal: seq<Item>, from: Offset, path: string, n: nat): seq<Pending>
    requires n <= |journal|
  {
    if n == 0 then []
    else if Returns(journal, from, path, n - 1) && !FlushedLater(journal, path, n - 1) then
      StillPending(journal, from, path, n - 1) + [Pending(journal[n - 1].end, journal[n - 1].content.record)]
    else StillPending(journal, from, path, n - 1)
  }

  // The records of the container that have to come back.
  function ToReplay(journal: seq<Item>, from: Offset, path: string): seq<Pending> {
    StillPending(journal, from, path, |journal|)
  }

  /** The container has been in memory since item `k`, and was not before. */
  ghost predicate InMemorySince(journal: seq<Item>, from: Offset, path: string, k: nat)
    requires k < |journal|
  {
    && ToReplay(journal[..k], from, path) == []
    && forall n :: k < n <= |journal| ==> ToReplay(journal[..n], from, path) != []
  }

  // The commit offset is the start of the item since which the container has been in memory.
  ghost predicate CommitIs(journal: seq<Item>, from: Offset, path: string, commit: Offset) {
    exists k :: 0 <= k < |journal| && journal[k].start == commit && InMemorySince(journal, from, path, k)
  }

  ghost predicate HeldIs(h: Held, journal: seq<Item>, from: Offset, path: string) {
    h.flushing == [] && h.records == ToReplay(journal, from, path) && h.stat == Total(h.records)
    && CommitIs(journal, from, path, h.commit)
  }

  ghost predicate ReplayIs(comp: string -> int, m: Memory, journal: seq<Item>, from: Offset, path: string) {
    && (Has(comp, m, path) <==> ToReplay(journal, from, path) != [])
    && (Has(comp, m, path) ==> HeldIs(HeldFor(comp, m, path), journal, from, path))
  }

  // ----- One more item

  lemma FlushedOneMore(journal: seq<Item>, item: Item, path: string, i: nat)
    requires i < |journal|
    ensures FlushedLater(journal + [item], path, i) <==> FlushedLater(journal, path, i) || EndsFlush(item, path, journal[i].end)
  {
    var longer := journal + [item];
    assert longer[|journal|] == item && longer[i] == journal[i];
    if FlushedLater(journal, path, i) {
      var j :| i < j < |journal| && EndsFlush(journal[j], path, journal[i].end);
      assert longer[j] == journal[j];
    }
  }

  // Every pending record ends at or before the start of item `n`, and they are in order.
  lemma {:induction false} PendingBefore(journal: seq<Item>, from: Offset, path: string, n: nat, offset: Offset)
    requires n <= |journal| && forall i :: 0 <= i < n ==> AtMost(journal[i].end, offset)
    ensures forall i :: 0 <= i < |StillPending(journal, from, path, n)| ==>
              AtMost(StillPending(journal, from, path, n)[i].offset, offset)
    decreases n
  {
    hide AtMost, Returns, FlushedLater;
    if n > 0 {
      PendingBefore(journal, from, path, n - 1, offset);
    }
  }

  lemma CountAppend(q: seq<Pending>, p: Pending, offset: Offset)
    ensures CountBelow(q + [p], offset)
         == if CountBelow(q, offset) == |q| && Less(p.offset, offset) then |q| + 1 else CountBelow(q, offset)
    decreases |q|
  {
    if q != [] {
      assert (q + [p])[1..] == q[1..] + [p];
      CountAppend(q[1..], p, offset);
    }
  }

  lemma CutAppend(q: seq<Pending>, p: Pending, offset: Offset)
    requires Less(p.offset, offset) ==> CountBelow(q, offset) == |q|
    ensures (q + [p])[CountBelow(q + [p], offset)..]
         == q[CountBelow(q, offset)..] + (if Less(p.offset, offset) then [] else [p])
  {
    CountAppend(q, p, offset);
  }

  lemma {:induction false} CountsAll(q: seq<Pending>, offset: Offset)
    requires forall i :: 0 <= i < |q| ==> Less(q[i].offset, offset)
    ensures CountBelow(q, offset) == |q|
    decreases |q|
  {
    if q != [] {
      CountsAll(q[1..], offset);
    }
  }

  /** An item that does not end a flush of the container leaves what is pending. */
  lemma {:induction false} PendingStays(journal: seq<Item>, item: Item, from: Offset, path: string, n: nat)
    requires n <= |journal| && !(item.content.EndFlush? && item.content.path == path)
    ensures StillPending(journal + [item], from, path, n) == StillPending(journal, from, path, n)
    decreases n
  {
    if n > 0 {
      PendingStays(journal, item, from, path, n - 1);
      FlushedOneMore(journal, item, path, n - 1);
      assert (journal + [item])[n - 1] == journal[n - 1];
    }
  }

  /** The end of a flush takes away the leading records that are below its offset. */
  lemma {:induction false} PendingFlushed(journal: seq<Item>, item: Item, from: Offset, path: string, n: nat)
    requires Ordered(journal) && n <= |journal| && item.content.EndFlush? && item.content.path == path
    ensures var q, sync := StillPending(journal, from, path, n), item.content.sync;
            StillPending(journal + [item], from, path, n) == q[CountBelow(q, sync)..]
    decreases n
  {
    hide Less, FlushedLater, Ordered, CountBelow;
    if n > 0 {
      var q, sync := StillPending(journal, from, path, n - 1), item.content.sync;
      PendingFlushed(journal, item, from, path, n - 1);
      FlushedOneMore(journal, item, path, n - 1);
      assert (journal + [item])[n - 1] == journal[n - 1];
      if Returns(journal, from, path, n - 1) && !FlushedLater(journal, path, n - 1) {
        if Less(journal[n - 1].end, sync) {
          AllBelow(journal, from, path, n - 1, sync);
        }
        CutAppend(q, Pending(journal[n - 1].end, journal[n - 1].content.record), sync);
      }
    }
  }

  lemma AllBelow(journal: seq<Item>, from: Offset, path: string, n: nat, sync: Offset)
    requires Ordered(journal) && n < |journal| && Less(journal[n].end, sync)
    ensures var q := StillPending(journal, from, path, n); CountBelow(q, sync) == |q|
  {
    var q := StillPending(journal, from, path, n);
    PendingBefore(journal, from, path, n, journal[n].start);
    forall i | 0 <= i < |q| ensures Less(q[i].offset, sync) {
      InOrder(q[i].offset, journal[n].start, journal[n].end);
      InOrder(q[i].offset, journal[n].end, sync);
    }
    CountsAll(q, sync);
  }

  lemma LastIsNotFlushed(journal: seq<Item>, item: Item, path: string)
    ensures !FlushedLater(journal + [item], path, |journal|)
  {
  }

  /** What has to come back after one more item. */
  lemma ToReplayOneMore(journal: seq<Item>, item: Item, from: Offset, path: string)
    requires Ordered(journal)
    ensures var q, q' := ToReplay(journal, from, path), ToReplay(journal + [item], from, path);
            match item.content
            case Object(p, r) => q' == if p == path && !Less(item.start, from) then q + [Pending(item.end, r)] else q
            case EndFlush(p, sync) => q' == if p == path then q[CountBelow(q, sync)..] else q
            case _ => q' == q
  {
    hide StillPending, CountBelow, Less;
    var longer := journal + [item];
    LastIsNotFlushed(journal, item, path);
    StillPendingStep(longer, from, path, |journal|);
    if item.content.EndFlush? && item.content.path == path {
      PendingFlushed(journal, item, from, path, |journal|);
    } else {
      PendingStays(journal, item, from, path, |journal|);
    }
  }

  lemma StillPendingStep(journal: seq<Item>, from: Offset, path: string, n: nat)
    requires n < |journal|
    ensures StillPending(journal, from, path, n + 1)
         == StillPending(journal, from, path, n)
              + (if Returns(journal, from, path, n) && !FlushedLater(journal, path, n)
                 then [Pending(journal[n].end, journal[n].content.record)] else [])
  {
  }

  lemma NothingReturns(journal: seq<Item>, from: Offset, path: string, n: nat)
    requires n <= |journal| && forall i :: 0 <= i < n ==> Less(journal[i].start, from)
    ensures StillPending(journal, from, path, n) == []
  {
  }

  // ----- The commit offset

  lemma CommitGoesOn(journal: seq<Item>, item: Item, from: Offset, path: string, commit: Offset)
    requires CommitIs(journal, from, path, commit) && ToReplay(journal + [item], from, path) != []
    ensures CommitIs(journal + [item], from, path, commit)
  {
    hide ToReplay;
    var longer := journal + [item];
    var k :| 0 <= k < |journal| && journal[k].start == commit && InMemorySince(journal, from, path, k);
    assert longer[..k] == journal[..k] && longer[k] == journal[k];
    forall n | k < n <= |longer| ensures ToReplay(longer[..n], from, path) != [] {
      if n <= |journal| {
        assert longer[..n] == journal[..n];
      } else {
        assert longer[..n] == longer;
      }
    }
  }

  lemma CommitStarts(journal: seq<Item>, item: Item, from: Offset, path: string)
    requires ToReplay(journal, from, path) == [] && ToReplay(journal + [item], from, path) != []
    ensures CommitIs(journal + [item], from, path, item.start)
  {
    hide ToReplay;
    var longer := journal + [item];
    assert longer[..|journal|] == journal && longer[..|longer|] == longer && longer[|journal|] == item;
    assert InMemorySince(longer, from, path, |journal|);
  }

  // ----- One replayed item

  lemma AddedIs(h: Held, journal: seq<Item>, item: Item, from: Offset, path: string)
    requires Ordered(journal) && HeldIs(h, journal, from, path) && Returns([item], from, path, 0)
    ensures HeldIs(Added(h, Pending(item.end, item.content.record)), journal + [item], from, path)
    ensures ToReplay(journal + [item], from, path) != []
  {
    hide ToReplay, CommitIs, Ordered, Less;
    var p := Pending(item.end, item.content.record);
    ToReplayOneMore(journal, item, from, path);
    TotalOfOneMore(h.records, p);
    CommitGoesOn(journal, item, from, path, h.commit);
  }

  lemma NewIs(journal: seq<Item>, item: Item, from: Offset, path: string)
    requires Ordered(journal) && ToReplay(journal, from, path) == [] && Returns([item], from, path, 0)
    ensures HeldIs(NewHeld(Pending(item.end, item.content.record), item.start), journal + [item], from, path)
    ensures ToReplay(journal + [item], from, path) != []
  {
    hide ToReplay, CommitIs, Ordered, Less;
    var p := Pending(item.end, item.content.record);
    ToReplayOneMore(journal, item, from, path);
    TotalOfOneMore([], p);
    TotalNone();
    assert [] + [p] == [p];
    CommitStarts(journal, item, from, path);
  }

  // An item that is not about the container.
  lemma HeldStays(h: Held, journal: seq<Item>, item: Item, from: Offset, path: string)
    requires HeldIs(h, journal, from, path) && ToReplay(journal, from, path) != []
    requires ToReplay(journal + [item], from, path) == ToReplay(journal, from, path)
    ensures HeldIs(h, journal + [item], from, path)
  {
    hide ToReplay, CommitIs;
    CommitGoesOn(journal, item, from, path, h.commit);
  }

  lemma RemovedIs(h: Held, journal: seq<Item>, item: Item, from: Offset, path: string)
    requires Ordered(journal) && HeldIs(h, journal, from, path) && item.content.EndFlush? && item.content.path == path
    ensures var h' := Removed(h, item.content.sync);
            && (h'.records == [] <==> ToReplay(journal + [item], from, path) == [])
            && (h'.records != [] ==> HeldIs(h', journal + [item], from, path))
  {
    hide ToReplay, CommitIs, Ordered, CountBelow, Total;
    ToReplayOneMore(journal, item, from, path);
    TotalSplit(h.records, CountBelow(h.records, item.content.sync));
    if ToReplay(journal + [item], from, path) != [] {
      CommitGoesOn(journal, item, from, path, h.commit);
    }
  }

  lemma ObjectReplayed(comp: string -> int, m: Memory, journal: seq<Item>, item: Item, from: Offset, path: string)
    requires Ordered(journal) && ReplayIs(comp, m, journal, from, path) && item.content.Object? && !Less(item.start, from)
    ensures ReplayIs(comp, RecoverItem(comp, m, item), journal + [item], from, path)
  {
    hide ToReplay, HeldIs, Ordered, Less, Has, HeldFor, Put;
    var owner, p := item.content.path, Pending(item.end, item.content.record);
    var h := if Has(comp, m, owner) then Added(HeldFor(comp, m, owner), p) else NewHeld(p, item.start);
    PutAt(comp, m, owner, h, true, path);
    if path != owner {
      ToReplayOneMore(journal, item, from, path);
      if Has(comp, m, path) {
        HeldStays(HeldFor(comp, m, path), journal, item, from, path);
      }
    } else if Has(comp, m, path) {
      AddedIs(HeldFor(comp, m, path), journal, item, from, path);
    } else {
      NewIs(journal, item, from, path);
    }
  }

  lemma MarkerReplayed(comp: string -> int, m: Memory, journal: seq<Item>, item: Item, from: Offset, path: string)
    requires Ordered(journal) && ReplayIs(comp, m, journal, from, path) && item.content.EndFlush?
    ensures ReplayIs(comp, RecoverItem(comp, m, item), journal + [item], from, path)
  {
    hide ToReplay, HeldIs, Ordered, Has, HeldFor, WithoutBelow, Removed;
    WithoutBelowAt(comp, m, item.content.path, item.content.sync, path);
    ToReplayOneMore(journal, item, from, path);
    if Has(comp, m, path) {
      if path == item.content.path {
        RemovedIs(HeldFor(comp, m, path), journal, item, from, path);
      } else {
        HeldStays(HeldFor(comp, m, path), journal, item, from, path);
      }
    } else {
      NothingBelow(item.content.sync);
    }
  }

  lemma NothingBelow(sync: Offset)
    ensures CountBelow([], sync) == 0
  {
  }

  lemma OtherReplayed(comp: string -> int, m: Memory, journal: seq<Item>, item: Item, from: Offset, path: string)
    requires Ordered(journal) && ReplayIs(comp, m, journal, from, path) && !item.content.Object? && !item.content.EndFlush?
    ensures ReplayIs(comp, RecoverItem(comp, m, item), journal + [item], from, path)
  {
    hide ToReplay, HeldIs, Ordered, Has, HeldFor;
    ToReplayOneMore(journal, item, from, path);
    if Has(comp, m, path) {
      HeldStays(HeldFor(comp, m, path), journal, item, from, path);
    }
  }

  lemma EarlierItems(journal: seq<Item>, from: Offset)
    requires Ordered(journal) && journal != [] && Less(journal[|journal| - 1].start, from)
    ensures forall i :: 0 <= i < |journal| ==> Less(journal[i].start, from)
  {
    var last := journal[|journal| - 1];
    forall i | 0 <= i < |journal| - 1 ensures Less(journal[i].start, from) {
      InOrder(journal[i].start, journal[i].end, last.start);
      LessIsAtMost(journal[i].start, journal[i].end);
      InOrder(journal[i].start, last.start, from);
    }
  }

  /** After the replay of an ordered journal from an offset, a container is in memory iff one of its records
      that do not start before the offset is not followed by the end of a flush for records beyond it; and
      memory holds exactly these records, in journal order under their ends, with the statistic that they
      add up to and with the start of the record since which the container has been in memory. */
  lemma {:induction false} ReplayIsExact(comp: string -> int, journal: seq<Item>, from: Offset, path: string)
    requires Ordered(journal)
    ensures ReplayIs(comp, Replay(comp, journal, from, |journal|), journal, from, path)
    decreases |journal|
  {
    hide ReplayIs, RecoverItem, Less, Ordered;
    if journal == [] {
      NothingReplayedYet(comp, from, path);
    } else {
      var n := |journal| - 1;
      var before, item := journal[..n], journal[n];
      assert journal == before + [item];
      OrderedPrefix(journal, n);
      SameReplay(comp, before, journal, from, n);
      if Less(item.start, from) {
        EarlierItems(journal, from);
        ReplayNothing(comp, journal, from, |journal|);
        NothingReturns(journal, from, path, |journal|);
        NothingIsReplayed(comp, journal, from, path);
      } else {
        ReplayIsExact(comp, before, from, path);
        var m := Replay(comp, journal, from, n);
        match item.content
        case Object(_, _) => ObjectReplayed(comp, m, before, item, from, path);
        case EndFlush(_, _) => MarkerReplayed(comp, m, before, item, from, path);
        case _ => OtherReplayed(comp, m, before, item, from, path);
      }
    }
  }

  lemma NothingReplayedYet(comp: string -> int, from: Offset, path: string)
    ensures ReplayIs(comp, Replay(comp, [], from, 0), [], from, path)
  {
  }

  lemma NothingIsReplayed(comp: string -> int, journal: seq<Item>, from: Offset, path: string)
    requires ToReplay(journal, from, path) == []
    ensures ReplayIs(comp, map[], journal, from, path)
  {
  }

  lemma OrderedPrefix(journal: seq<Item>, n: nat)
    requires Ordered(journal) && n <= |journal|
    ensures Ordered(journal[..n])
  {
  }

  lemma {:induction false} SameReplay(comp: string -> int, a: seq<Item>, b: seq<Item>, from: Offset, n: nat)
    requires a <= b && n <= |a|
    ensures Replay(comp, a, from, n) == Replay(comp, b, from, n)
    decreases n
  {
    hide RecoverItem;
    if n > 0 {
      SameReplay(comp, a, b, from, n - 1);
    }
  }

  /** Every component that the replay has made belongs to the node. */
  lemma {:induction false} ReplayOwns(comp: string -> int, journal: seq<Item>, from: Offset, n: nat)
    requires n <= |journal|
    ensures forall c :: c in Replay(comp, journal, from, n) ==> Replay(comp, journal, from, n)[c].owned
    decreases n
  {
    hide Removed, Added, NewHeld;
    if n > 0 {
      ReplayOwns(comp, journal, from, n - 1);
    }
  }

  lemma TotalOfOneMore(q: seq<Pending>, p: Pending)
    ensures Total(q + [p]) == Plus(Total(q), Delta(p.record))
  {
    TotalAppend(q, [p]);
    TotalOne(p);
  }
}
