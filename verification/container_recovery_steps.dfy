/** Every step of a node keeps its invariant.

    The journal is cut at `added`: what is before it has reached memory, what is after it has not.  A flush
    goes through the records of its container in journal order, so what it skips and what it applies is a
    matter of where the trailer lies; a crash replaces the memory by a replay, which is shown to hold every
    record that is not applied.  Each step is proved for the container that it touches first, and then for
    the others, which it leaves alone. */
module ContainerRecoverySteps {
  import opened ContainerMemory
  import opened MemoryManagement
  import opened ContainerRecovery

  // ----- The records of a container in the journal

  function ObjectIn(item: Item, path: string): seq<Item> {
    if item.content.Object? && item.content.path == path then [item] else []
  }

  lemma ObjectsOneMore(journal: seq<Item>, item: Item, path: string)
    ensures Objects(journal + [item], path) == Objects(journal, path) + ObjectIn(item, path)
  {
    assert (journal + [item])[..|journal|] == journal;
  }

  lemma ObjectsStep(journal: seq<Item>, n: nat, path: string)
    requires n < |journal|
    ensures Objects(journal[..n + 1], path) == Objects(journal[..n], path) + ObjectIn(journal[n], path)
  {
    assert journal[..n + 1][..n] == journal[..n];
  }

  lemma {:induction false} ObjectsPrefix(journal: seq<Item>, n: nat, path: string)
    requires n <= |journal|
    ensures Objects(journal[..n], path) <= Objects(journal, path)
    decreases |journal| - n
  {
    if n < |journal| {
      ObjectsStep(journal, n, path);
      ObjectsPrefix(journal, n + 1, path);
    } else {
      assert journal[..n] == journal;
    }
  }

  /** A record that is not among those of the first `n` items is an item from `n` on. */
  lemma {:induction false} ObjectPlace(journal: seq<Item>, n: nat, path: string, i: nat) returns (j: nat)
    requires n <= |journal| && |Objects(journal[..n], path)| <= i < |Objects(journal, path)|
    ensures n <= j < |journal| && journal[j] == Objects(journal, path)[i]
    ensures journal[j].content.Object? && journal[j].content.path == path
    decreases |journal| - n
  {
    assert journal[..|journal|] == journal;
    ObjectsStep(journal, n, path);
    ObjectsPrefix(journal, n + 1, path);
    if i == |Objects(journal[..n], path)| && ObjectIn(journal[n], path) != [] {
      j := n;
    } else {
      j := ObjectPlace(journal, n + 1, path, i);
    }
  }

  lemma {:induction false} ObjectsInOrder(journal: seq<Item>, path: string, i: nat, j: nat)
    requires Ordered(journal) && i < j < |Objects(journal, path)|
    ensures AtMost(Objects(journal, path)[i].end, Objects(journal, path)[j].start)
    decreases |journal|
  {
    var n := |journal| - 1;
    assert journal[..n] + [journal[n]] == journal;
    ObjectsOneMore(journal[..n], journal[n], path);
    if j < |Objects(journal[..n], path)| {
      ObjectsInOrder(journal[..n], path, i, j);
    } else {
      var p := ObjectPlace(journal[..n], 0, path, i);
    }
  }

  lemma AheadOfObject(journal: seq<Item>, n: nat, path: string, i: nat, offset: Offset)
    requires n <= |journal| && Ahead(journal, n, offset)
    requires |Objects(journal[..n], path)| <= i < |Objects(journal, path)|
    ensures AtMost(offset, Objects(journal, path)[i].start)
  {
    var j := ObjectPlace(journal, n, path, i);
  }

  lemma InOrder(a: Offset, b: Offset, c: Offset)
    ensures AtMost(a, b) && AtMost(b, c) ==> AtMost(a, c)
    ensures AtMost(a, b) && Less(b, c) ==> Less(a, c)
    ensures Less(a, b) && AtMost(b, c) ==> Less(a, c)
  {
  }

  // ----- Adding a batch

  lemma AddedMatches(h: Held, added: seq<Item>, info: Info, item: Item, p: Pending)
    requires HeldMatches(h, added, info) && item.content.Object? && item.content.record == p.record
    requires AtMost(item.end, p.offset) && |info.applied| <= |added|
    requires AtMost(h.commit, item.start) && forall j :: 0 <= j < |h.flushing| ==> AtMost(h.flushing[j].offset, item.start)
    ensures HeldMatches(Added(h, p), added + [item], info)
  {
    var h' := Added(h, p);
    var first := |added| - |h.flushing + h.records|;
    assert h'.flushing + h'.records == (h.flushing + h.records) + [p];
    assert (added + [item])[first..] == added[first..] + [item];
  }

  lemma NewMatches(added: seq<Item>, info: Info, item: Item, p: Pending, prev: Offset)
    requires |added| == |info.applied| && item.content.Object? && item.content.record == p.record
    requires AtMost(item.end, p.offset) && AtMost(prev, item.start)
    ensures HeldMatches(NewHeld(p, prev), added + [item], info)
  {
    var h := NewHeld(p, prev);
    assert h.flushing + h.records == [p];
    assert (added + [item])[|added|..] == [item];
  }

  // What holds of one container while the items from `from` up to `to` are being added.
  ghost predicate Adding(comp: string -> int, m: Memory, path: string, added: seq<Item>, info: Info, journal: seq<Item>,
                         from: nat, to: nat, limit: Offset) {
    && |info.applied| <= |added| && MemoryMatches(comp, m, path, added, info)
    && (Has(comp, m, path) ==>
          && HeldIsNew(HeldFor(comp, m, path), |added|, |info.applied|, false)
          && HeldAhead(HeldFor(comp, m, path), journal, from, limit) && RecordsAhead(HeldFor(comp, m, path), journal, to))
  }

  // The offsets of a batch: the records start after the last one and end before the new one.
  ghost predicate Between(journal: seq<Item>, from: nat, to: nat, prev: Offset, sync: Offset, limit: Offset) {
    && from <= to <= |journal| && Ahead(journal, from, prev) && Ahead(journal, to, sync)
    && AtMost(prev, limit) && AtMost(sync, limit)
    && forall i :: 0 <= i < to ==> AtMost(journal[i].end, sync)
  }

  lemma AddOneMatches(comp: string -> int, m: Memory, path: string, added: seq<Item>, info: Info, journal: seq<Item>,
                      from: nat, to: nat, limit: Offset, k: nat, prev: Offset, sync: Offset)
    requires Adding(comp, m, path, added, info, journal, from, to, limit) && Between(journal, from, to, prev, sync, limit)
    requires from <= k < to && journal[k].content.Object?
    ensures var item := journal[k];
            var m' := AddOne(comp, m, FinalRecord(item.content.path, item.content.record), prev, sync, true);
            Adding(comp, m', path, added + ObjectIn(item, path), info, journal, from, to, limit)
  {
    hide Put, HeldMatches, Has, HeldFor;
    var item := journal[k];
    var p := Pending(sync, item.content.record);
    var owner := item.content.path;
    var h := if Has(comp, m, owner) then Added(HeldFor(comp, m, owner), p) else NewHeld(p, prev);
    PutAt(comp, m, owner, h, true, path);
    if path == owner {
      if Has(comp, m, path) {
        AddedMatches(HeldFor(comp, m, path), added, info, item, p);
      } else {
        NewMatches(added, info, item, p, prev);
      }
    } else {
      assert added + ObjectIn(item, path) == added;
    }
  }

  lemma {:induction false} AddItemsMatch(comp: string -> int, m: Memory, path: string, info: Info, journal: seq<Item>,
                                         from: nat, n: nat, to: nat, prev: Offset, sync: Offset, limit: Offset)
    requires from <= n <= to && Between(journal, from, to, prev, sync, limit)
    requires Adding(comp, m, path, Objects(journal[..from], path), info, journal, from, to, limit)
    ensures Adding(comp, AddItems(comp, m, journal, from, n, prev, sync), path, Objects(journal[..n], path), info, journal,
                   from, to, limit)
    decreases n
  {
    hide Adding, Ahead, AddOne, ObjectIn;
    if n > from {
      AddItemsMatch(comp, m, path, info, journal, from, n - 1, to, prev, sync, limit);
      var before := AddItems(comp, m, journal, from, n - 1, prev, sync);
      ObjectsStep(journal, n - 1, path);
      if journal[n - 1].content.Object? {
        AddOneMatches(comp, before, path, Objects(journal[..n - 1], path), info, journal, from, to, limit, n - 1, prev, sync);
      } else {
        NoObject(journal[n - 1], path);
        assert Objects(journal[..n], path) == Objects(journal[..n - 1], path);
      }
    }
  }

  lemma NoObject(item: Item, path: string)
    requires !item.content.Object?
    ensures ObjectIn(item, path) == []
  {
  }

  // ----- Replay

  // Replay has brought back the end of the records `objects`, each under its own end offset.
  ghost predicate HeldReplayed(h: Held, objects: seq<Item>, info: Info) {
    var first := |objects| - |h.records|;
    && h.flushing == [] && h.records != [] && 0 <= first <= |info.applied|
    && Restored(h.records, objects[first..])
    && AtMost(h.commit, objects[first].start)
  }

  ghost predicate Restored(q: seq<Pending>, items: seq<Item>) {
    |q| == |items|
    && forall j :: 0 <= j < |q| ==> items[j].content.Object? && q[j] == Pending(items[j].end, items[j].content.record)
  }

  ghost predicate Replayed(comp: string -> int, m: Memory, path: string, objects: seq<Item>, info: Info) {
    if Has(comp, m, path) then HeldReplayed(HeldFor(comp, m, path), objects, info) else |objects| <= |info.applied|
  }

  lemma {:induction false} ReplayNothing(comp: string -> int, journal: seq<Item>, from: Offset, n: nat)
    requires Ordered(journal) && n <= |journal| && (n > 0 ==> Less(journal[n - 1].start, from))
    ensures Replay(comp, journal, from, n) == map[]
    decreases n
  {
    if n > 0 {
      assert n > 1 ==> AtMost(journal[n - 2].end, journal[n - 1].start);
      ReplayNothing(comp, journal, from, n - 1);
    }
  }

  lemma CoveredPrefix(journal: seq<Item>, path: string, info: Info, from: Offset, n: nat)
    requires Ordered(journal) && 0 < n <= |journal| && Less(journal[n - 1].start, from) && Covers(journal, path, info, from)
    ensures |Objects(journal[..n], path)| <= |info.applied|
  {
    var objects := Objects(journal[..n], path);
    ObjectsPrefix(journal, n, path);
    if objects != [] {
      var i := |objects| - 1;
      assert journal[..n][..0] == [];
      var j := ObjectPlace(journal[..n], 0, path, i);
      assert j < n - 1 ==> AtMost(journal[j].end, journal[n - 1].start);
      InOrder(journal[j].end, journal[n - 1].start, from);
      assert Objects(journal, path)[i] == objects[i];
    }
  }

  lemma ReplayObject(comp: string -> int, m: Memory, path: string, objects: seq<Item>, info: Info, item: Item)
    requires item.content.Object? && Replayed(comp, m, path, objects, info)
    requires Less(item.start, item.end) && Ordered(objects)
    requires forall i :: 0 <= i < |objects| ==> AtMost(objects[i].end, item.start)
    ensures Replayed(comp, RecoverItem(comp, m, item), path, objects + ObjectIn(item, path), info)
  {
    hide Put, Has, HeldFor;
    var p := Pending(item.end, item.content.record);
    var owner := item.content.path;
    var h := if Has(comp, m, owner) then Added(HeldFor(comp, m, owner), p) else NewHeld(p, item.start);
    PutAt(comp, m, owner, h, true, path);
    if path != owner {
      assert objects + ObjectIn(item, path) == objects;
    } else if Has(comp, m, path) {
      AddedReplayed(HeldFor(comp, m, path), objects, info, item, p);
    }
  }

  lemma AddedReplayed(h: Held, objects: seq<Item>, info: Info, item: Item, p: Pending)
    requires HeldReplayed(h, objects, info) && item.content.Object? && p == Pending(item.end, item.content.record)
    ensures HeldReplayed(Added(h, p), objects + [item], info)
  {
    var first := |objects| - |h.records|;
    assert (objects + [item])[first..] == objects[first..] + [item];
  }

  lemma ReplayMarker(comp: string -> int, m: Memory, path: string, objects: seq<Item>, info: Info, owner: string, sync: Offset)
    requires Replayed(comp, m, path, objects, info) && Ordered(objects)
    requires path == owner ==> AtMost(sync, info.trailer)
    requires forall i :: |info.applied| <= i < |objects| ==> Less(info.trailer, objects[i].end)
    ensures Replayed(comp, WithoutBelow(comp, m, owner, sync), path, objects, info)
  {
    hide WithoutBelow, Has, HeldFor;
    WithoutBelowAt(comp, m, owner, sync, path);
    if path == owner && Has(comp, m, path) {
      var h := HeldFor(comp, m, path);
      RemovedReplayed(h, objects, info, sync);
    }
  }

  lemma RemovedReplayed(h: Held, objects: seq<Item>, info: Info, sync: Offset)
    requires HeldReplayed(h, objects, info) && AtMost(sync, info.trailer) && Ordered(objects)
    requires forall i :: |info.applied| <= i < |objects| ==> Less(info.trailer, objects[i].end)
    ensures Removed(h, sync).records == [] ==> |objects| <= |info.applied|
    ensures Removed(h, sync).records != [] ==> HeldReplayed(Removed(h, sync), objects, info)
  {
    hide Total, Minus, AtMost, Less, Ordered, Restored;
    var n := CountBelow(h.records, sync);
    var first := |objects| - |h.records|;
    RemovedAreApplied(h, objects, info, sync);
    assert objects[first..][n..] == objects[first + n..];
    RestoredFrom(h.records, objects[first..], n);
    if n < |h.records| {
      CommitRestored(h, objects, first);
    }
  }

  // What is removed is in the info file.
  lemma RemovedAreApplied(h: Held, objects: seq<Item>, info: Info, sync: Offset)
    requires HeldReplayed(h, objects, info) && AtMost(sync, info.trailer)
    requires forall i :: |info.applied| <= i < |objects| ==> Less(info.trailer, objects[i].end)
    ensures |objects| - |h.records| + CountBelow(h.records, sync) <= |info.applied|
  {
    hide AtMost, Less;
    var n := CountBelow(h.records, sync);
    var first := |objects| - |h.records|;
    if n > 0 {
      assert h.records[n - 1].offset == objects[first..][n - 1].end == objects[first + n - 1].end;
      InOrder(objects[first + n - 1].end, sync, info.trailer);
      NotBoth(objects[first + n - 1].end, info.trailer);
    }
  }

  lemma NotBoth(a: Offset, b: Offset)
    ensures !(Less(a, b) && Less(b, a))
  {
  }

  lemma RestoredFrom(q: seq<Pending>, items: seq<Item>, n: nat)
    requires Restored(q, items) && n <= |q|
    ensures Restored(q[n..], items[n..])
  {
  }

  lemma ObjectsOrdered(journal: seq<Item>, n: nat, path: string)
    requires Ordered(journal) && n <= |journal|
    ensures Ordered(Objects(journal[..n], path))
    ensures n < |journal| ==> forall i :: 0 <= i < |Objects(journal[..n], path)| ==>
                                AtMost(Objects(journal[..n], path)[i].end, journal[n].start)
  {
    var objects := Objects(journal[..n], path);
    forall i | 0 <= i < |objects|
      ensures Less(objects[i].start, objects[i].end) && (n < |journal| ==> AtMost(objects[i].end, journal[n].start))
    {
      assert journal[..n][..0] == [];
      var p := ObjectPlace(journal[..n], 0, path, i);
    }
    forall i, j | 0 <= i < j < |objects| ensures AtMost(objects[i].end, objects[j].start) {
      ObjectsInOrder(journal[..n], path, i, j);
    }
  }

  ghost predicate MarkersBehind(journal: seq<Item>, path: string, info: Info) {
    forall i :: 0 <= i < |journal| && journal[i].content.EndFlush? && journal[i].content.path == path ==>
      AtMost(journal[i].content.sync, info.trailer)
  }

  ghost predicate RestNotApplied(journal: seq<Item>, path: string, info: Info) {
    forall i :: |info.applied| <= i < |Objects(journal, path)| ==> Less(info.trailer, Objects(journal, path)[i].end)
  }

  /** Replay from an offset that covers what is applied brings back every record that is not applied. */
  lemma {:induction false} ReplayMatches(comp: string -> int, journal: seq<Item>, from: Offset, n: nat, path: string, info: Info)
    requires Ordered(journal) && n <= |journal| && Covers(journal, path, info, from)
    requires MarkersBehind(journal, path, info) && RestNotApplied(journal, path, info)
    ensures Replayed(comp, Replay(comp, journal, from, n), path, Objects(journal[..n], path), info)
    decreases n
  {
    hide Ordered, Replayed, Covers, RecoverItem, ObjectIn;
    if n == 0 {
      ReplayOfNone(comp, path, info, journal);
    } else {
      var item := journal[n - 1];
      ObjectsStep(journal, n - 1, path);
      if Less(item.start, from) {
        ReplayNothing(comp, journal, from, n);
        CoveredPrefix(journal, path, info, from, n);
        NothingReplayed(comp, path, Objects(journal[..n], path), info);
      } else {
        ReplayMatches(comp, journal, from, n - 1, path, info);
        ReplayStep(comp, journal, Replay(comp, journal, from, n - 1), n - 1, path, info);
      }
    }
  }

  lemma ReplayOfNone(comp: string -> int, path: string, info: Info, journal: seq<Item>)
    ensures Objects(journal[..0], path) == [] && Replayed(comp, map[], path, [], info)
  {
  }

  lemma NothingReplayed(comp: string -> int, path: string, objects: seq<Item>, info: Info)
    requires |objects| <= |info.applied|
    ensures Replayed(comp, map[], path, objects, info)
  {
  }

  lemma ReplayStep(comp: string -> int, journal: seq<Item>, m: Memory, n: nat, path: string, info: Info)
    requires Ordered(journal) && n < |journal|
    requires MarkersBehind(journal, path, info) && RestNotApplied(journal, path, info)
    requires Replayed(comp, m, path, Objects(journal[..n], path), info)
    ensures Replayed(comp, RecoverItem(comp, m, journal[n]), path, Objects(journal[..n], path) + ObjectIn(journal[n], path), info)
  {
    hide Replayed, WithoutBelow, AddOne;
    var objects := Objects(journal[..n], path);
    ObjectsOrdered(journal, n, path);
    match journal[n].content
    case Object(_, _) => ReplayObject(comp, m, path, objects, info, journal[n]);
    case EndFlush(owner, sync) =>
      ObjectsPrefix(journal, n, path);
      assert forall i :: |info.applied| <= i < |objects| ==> objects[i] == Objects(journal, path)[i];
      ReplayMarker(comp, m, path, objects, info, owner, sync);
      assert objects + [] == objects;
    case _ => assert objects + [] == objects;
  }

  lemma ReplayedMatches(comp: string -> int, m: Memory, path: string, journal: seq<Item>, info: Info, tail: Offset)
    requires Ordered(journal) && Replayed(comp, m, path, Objects(journal, path), info)
    requires forall i :: 0 <= i < |journal| ==> AtMost(journal[i].end, tail)
    requires AppliedMatches(info, Objects(journal, path), |Objects(journal, path)|)
    ensures MemoryMatches(comp, m, path, Objects(journal, path), info)
    ensures Has(comp, m, path) ==> HeldAhead(HeldFor(comp, m, path), journal, |journal|, tail)
    ensures Has(comp, m, path) ==> RecordsAhead(HeldFor(comp, m, path), journal, |journal|)
  {
    hide Has, HeldFor, Objects;
    if Has(comp, m, path) {
      var objects, h := Objects(journal, path), HeldFor(comp, m, path);
      assert journal[..|journal|] == journal;
      ObjectsOrdered(journal, |journal|, path);
      EndsBehind(journal, path, tail);
      HeldRestored(h, objects, info, tail);
    }
  }

  lemma EndsBehind(journal: seq<Item>, path: string, tail: Offset)
    requires forall i :: 0 <= i < |journal| ==> AtMost(journal[i].end, tail)
    ensures forall i :: 0 <= i < |Objects(journal, path)| ==> AtMost(Objects(journal, path)[i].end, tail)
  {
    forall i | 0 <= i < |Objects(journal, path)| ensures AtMost(Objects(journal, path)[i].end, tail) {
      assert journal[..0] == [];
      var j := ObjectPlace(journal, 0, path, i);
    }
  }

  lemma HeldRestored(h: Held, objects: seq<Item>, info: Info, tail: Offset)
    requires HeldReplayed(h, objects, info) && Ordered(objects)
    requires AppliedMatches(info, objects, |objects|) && forall i :: 0 <= i < |objects| ==> AtMost(objects[i].end, tail)
    ensures HeldMatches(h, objects, info) && AtMost(h.commit, tail)
    ensures forall j :: 0 <= j < |h.records| ==> AtMost(h.records[j].offset, tail)
  {
    hide AtMost, Less;
    var first := |objects| - |h.records|;
    assert h.flushing + h.records == h.records;
    InOrder(objects[first].start, objects[first].end, tail);
    InOrder(h.commit, objects[first].start, tail);
    forall j | 0 <= j < |h.records| ensures AtMost(h.records[j].offset, tail) {
      assert objects[first..][j] == objects[first + j];
    }
    CommitRestored(h, objects, first);
    EntriesRestored(h.records, objects, first, info);
    LessIsAtMost(objects[first].start, objects[first].end);
  }

  lemma LessIsAtMost(a: Offset, b: Offset)
    ensures Less(a, b) ==> AtMost(a, b)
  {
  }

  lemma CommitRestored(h: Held, objects: seq<Item>, first: nat)
    requires Ordered(objects) && first < |objects| && AtMost(h.commit, objects[first].start)
    ensures forall i :: first <= i < |objects| ==> AtMost(h.commit, objects[i].start)
  {
    forall i | first <= i < |objects| ensures AtMost(h.commit, objects[i].start) {
      if i > first {
        InOrder(objects[first].start, objects[first].end, objects[i].start);
      }
    }
  }

  lemma EntriesRestored(q: seq<Pending>, objects: seq<Item>, first: nat, info: Info)
    requires first + |q| == |objects| && Restored(q, objects[first..])
    requires AppliedMatches(info, objects, |objects|)
    ensures EntriesMatch(q, objects[first..], |info.applied| - first, info.trailer)
  {
    forall j | 0 <= j < |q| && j < |info.applied| - first ensures AtMost(q[j].offset, info.trailer) {
      assert objects[first..][j] == objects[first + j];
    }
  }

  // ----- One more item in the journal

  lemma LimitGrows(s: Node, s': Node)
    requires 0 < s.synced <= s'.synced && s.synced <= |s.journal| && s'.synced <= |s'.journal|
    requires s.newest <= s'.newest && Ordered(s'.journal) && s.journal[s.synced - 1] == s'.journal[s.synced - 1]
    ensures AtMost(Limit(s), Limit(s'))
  {
    if s.synced < s'.synced {
      InOrder(s.journal[s.synced - 1].end, s'.journal[s'.synced - 1].start, s'.journal[s'.synced - 1].end);
    }
  }

  lemma LimitBehindTail(s: Node)
    requires JournalKept(s) && !s.recovering
    ensures AtMost(Limit(s), s.tail)
  {
  }

  lemma WrittenOrdered(s: Node, start: Offset, end: Offset, content: Content)
    requires JournalKept(s) && Appends(s, start, end)
    ensures Ordered(Written(s, start, end, content).journal)
    ensures var s' := Written(s, start, end, content); 0 < s'.synced <= |s'.journal| && AtMost(Limit(s), Limit(s'))
  {
    hide Objects;
    var s' := Written(s, start, end, content);
    forall i | 0 <= i < |s.journal| ensures AtMost(s'.journal[i].end, start) {
      InOrder(s.journal[i].end, s.tail, start);
    }
    LimitGrows(s, s');
  }

  // Whatever is behind the limit stays ahead of no record.
  lemma WrittenAhead(s: Node, start: Offset, end: Offset, content: Content, from: nat, offset: Offset)
    requires JournalKept(s) && Appends(s, start, end) && (content.Object? ==> !s.recovering)
    requires Ahead(s.journal, from, offset) && AtMost(offset, Limit(s))
    ensures Ahead(Written(s, start, end, content).journal, from, offset)
    ensures content.Object? ==> AtMost(offset, start)
  {
    if content.Object? {
      LimitBehindTail(s);
      InOrder(offset, Limit(s), s.tail);
      InOrder(offset, s.tail, start);
    }
  }

  lemma WrittenCovered(s: Node, start: Offset, end: Offset, content: Content, offset: Offset)
    requires JournalKept(s) && Appends(s, start, end) && (content.Object? ==> !s.recovering) && Covered(s, offset)
    ensures Covered(Written(s, start, end, content), offset)
  {
    hide Objects, Ordered, ItemKept;
    var s' := Written(s, start, end, content);
    WrittenOrdered(s, start, end, content);
    InOrder(offset, Limit(s), Limit(s'));
    WrittenAhead(s, start, end, content, |s.journal|, offset);
    forall path ensures Covers(s'.journal, path, InfoOf(s', path), offset) {
      assert Covers(s.journal, path, InfoOf(s, path), offset);
      ObjectsOneMore(s.journal, Item(start, end, content), path);
    }
  }

  lemma WrittenPath(comp: string -> int, s: Node, start: Offset, end: Offset, content: Content, path: string)
    requires JournalKept(s) && Appends(s, start, end) && (content.Object? ==> !s.recovering) && PathKept(comp, s, path)
    ensures PathKept(comp, Written(s, start, end, content), path)
  {
    hide Objects, Ordered, ItemKept, Has, HeldFor, Ahead, HeldMatches;
    var s' := Written(s, start, end, content);
    var info, next := InfoOf(s, path), Upcoming(s, path);
    WrittenOrdered(s, start, end, content);
    InOrder(next.trailer, Limit(s), Limit(s'));
    ObjectsOneMore(s.journal, Item(start, end, content), path);
    assert s'.journal[..s.added] == s.journal[..s.added];
    if content.Object? {
      LimitBehindTail(s);
      InOrder(next.trailer, Limit(s), s.tail);
      InOrder(next.trailer, s.tail, start);
      InOrder(next.trailer, start, end);
      InOrder(info.trailer, next.trailer, end);
    }
    if Has(comp, s.mem, path) {
      WrittenHeld(s, start, end, content, HeldFor(comp, s.mem, path));
    }
  }

  lemma WrittenHeld(s: Node, start: Offset, end: Offset, content: Content, h: Held)
    requires JournalKept(s) && Appends(s, start, end) && (content.Object? ==> !s.recovering)
    requires HeldAhead(h, s.journal, s.added, Limit(s)) && RecordsAhead(h, s.journal, s.added)
    ensures var s' := Written(s, start, end, content);
            && 0 < s'.synced <= |s'.journal|
            && HeldAhead(h, s'.journal, s.added, Limit(s')) && RecordsAhead(h, s'.journal, s.added)
  {
    hide Objects, Ordered, ItemKept, Ahead;
    var s' := Written(s, start, end, content);
    WrittenOrdered(s, start, end, content);
    forall offset | AtMost(offset, Limit(s)) ensures AtMost(offset, Limit(s')) {
      InOrder(offset, Limit(s), Limit(s'));
    }
    forall offset | Ahead(s.journal, s.added, offset) && AtMost(offset, Limit(s)) ensures Ahead(s'.journal, s.added, offset) {
      WrittenAhead(s, start, end, content, s.added, offset);
    }
  }

  lemma WrittenBehind(s: Node, start: Offset, end: Offset, content: Content, offset: Offset)
    requires JournalKept(s) && Appends(s, start, end) && (content.Object? ==> !s.recovering) && Behind(s, offset)
    ensures Behind(Written(s, start, end, content), offset)
  {
    hide Objects, Ordered, ItemKept, Ahead;
    WrittenOrdered(s, start, end, content);
    WrittenAhead(s, start, end, content, s.added, offset);
    InOrder(offset, Limit(s), Limit(Written(s, start, end, content)));
  }

  lemma WrittenJournal(comp: string -> int, s: Node, start: Offset, end: Offset, content: Content)
    requires JournalKept(s) && Appends(s, start, end) && (content.Object? ==> !s.recovering)
    requires ItemKept(s, Item(start, end, content))
    ensures JournalKept(Written(s, start, end, content))
  {
    hide Objects, Ordered, Covered;
    var s' := Written(s, start, end, content);
    WrittenOrdered(s, start, end, content);
    forall i | 0 <= i < |s'.journal| ensures AtMost(s'.journal[i].end, end) && ItemKept(s', s'.journal[i]) {
      if i < |s.journal| {
        InOrder(s.journal[i].end, s.tail, start);
        InOrder(s.journal[i].end, start, end);
      }
      if s'.journal[i].content.Header? {
        WrittenCovered(s, start, end, content, s'.journal[i].content.commit);
      }
    }
  }

  lemma WrittenKeeps(comp: string -> int, s: Node, start: Offset, end: Offset, content: Content)
    requires Kept(comp, s) && Appends(s, start, end) && (content.Object? ==> !s.recovering)
    requires ItemKept(s, Item(start, end, content))
    ensures Kept(comp, Written(s, start, end, content))
  {
    hide JournalKept, PathKept, Covered, Behind, Has, HeldFor, Placed, ItemKept, SyncKept, Limit;
    var s' := Written(s, start, end, content);
    WrittenJournal(comp, s, start, end, content);
    KeptJournal(s);
    KeptJournal(s');
    forall path ensures PathKept(comp, s', path) {
      WrittenPath(comp, s, start, end, content, path);
    }
    forall t | t in s'.threads ensures ThreadKept(comp, s', s'.threads[t]) {
      assert ThreadKept(comp, s, s.threads[t]);
      match s.threads[t]
      case Renaming(_, sync) => WrittenBehind(s, start, end, content, sync);
      case Published(_, sync) => WrittenBehind(s, start, end, content, sync);
      case Marked(sync) => WrittenBehind(s, start, end, content, sync);
      case Setting(offset) => WrittenCovered(s, start, end, content, offset);
      case Creating(_, offset) =>
        WrittenLimit(s, start, end, content);
        InOrder(offset, Limit(s), Limit(s'));
      case _ =>
    }
    WrittenBehind(s, start, end, content, s.addedSync);
    WrittenSync(s, start, end, content);
    if s.settled {
      WrittenCovered(s, start, end, content, s.commit);
    } else {
      WrittenLimit(s, start, end, content);
      InOrder(s.commit, Limit(s), Limit(s'));
    }
  }

  lemma WrittenSync(s: Node, start: Offset, end: Offset, content: Content)
    requires JournalKept(s) && Appends(s, start, end) && (content.Object? ==> !s.recovering) && SyncKept(s)
    ensures var s' := Written(s, start, end, content); 0 < s'.synced <= |s'.journal| && SyncKept(s')
  {
    hide Objects, Ordered, ItemKept, Ahead;
    WrittenLimit(s, start, end, content);
    WrittenAhead(s, start, end, content, s.synced, s.lastSync);
    InOrder(s.lastSync, Limit(s), Limit(Written(s, start, end, content)));
  }

  lemma WrittenLimit(s: Node, start: Offset, end: Offset, content: Content)
    requires JournalKept(s) && Appends(s, start, end)
    ensures var s' := Written(s, start, end, content); 0 < s'.synced <= |s'.journal| && AtMost(Limit(s), Limit(s'))
  {
    WrittenOrdered(s, start, end, content);
  }

  lemma KeptJournal(s: Node)
    requires JournalKept(s)
    ensures 0 < s.synced <= |s.journal| && s.added <= s.synced && Ordered(s.journal)
  {
  }

  // A step that changes only what the threads are doing.
  lemma ThreadsOnly(comp: string -> int, s: Node, s': Node)
    requires Kept(comp, s) && s' == s.(threads := s'.threads, commit := s'.commit, settled := s'.settled)
    requires forall t :: t in s'.threads ==> ThreadKept(comp, s, s'.threads[t])
    requires OneFlushEach(s')
    requires (s'.settled && Covered(s, s'.commit)) || (s'.settled == s.settled && s'.commit == s.commit)
    ensures Kept(comp, s')
  {
    hide Objects, Ordered, Has, HeldFor, Placed, AppliedMatches, MemoryMatches, HeldAhead, RecordsAhead, Covers, Ahead;
    forall i | 0 <= i < |s'.journal| ensures ItemKept(s', s'.journal[i]) {
      assert ItemKept(s, s.journal[i]);
      if s.journal[i].content.Header? {
        SameCovered(s, s', s.journal[i].content.commit);
      }
    }
    if Covered(s, s'.commit) {
      SameCovered(s, s', s'.commit);
    }
    forall path ensures PathKept(comp, s', path) {
      assert PathKept(comp, s, path);
    }
    forall t | t in s'.threads ensures ThreadKept(comp, s', s'.threads[t]) {
      assert ThreadKept(comp, s, s'.threads[t]);
      if s'.threads[t].Setting? {
        SameCovered(s, s', s'.threads[t].offset);
      }
    }
  }

  // A thread that neither starts nor ends a renaming.
  lemma StillRenames(s: Node, s': Node, t: int)
    requires OneFlushEach(s) && s'.temps == s.temps
    requires forall u :: u in s.threads && u != t ==> u in s'.threads && s'.threads[u] == s.threads[u]
    requires forall u :: u in s'.threads && u != t ==> u in s.threads
    requires t in s.threads ==> !s.threads[t].Renaming?
    requires t in s'.threads ==>
               !s'.threads[t].Renaming? && forall u :: u in s.threads && u != t ==> !SameFlush(s.threads[u], s'.threads[t])
    ensures OneFlushEach(s')
  {
    forall path | path in s'.temps ensures Renames(s', path) {
      assert Renames(s, path);
      var u :| u in s.threads && s.threads[u].Renaming? && s.threads[u].path == path;
      assert u in s'.threads && s'.threads[u].Renaming?;
    }
  }

  // Covering an offset is up to the journal, the info files, and the limit.
  lemma SameCovered(s: Node, s': Node, offset: Offset)
    requires 0 < s.synced <= |s.journal| && Covered(s, offset)
    requires 0 < s'.synced <= |s'.journal| && AtMost(Limit(s), Limit(s'))
    requires s'.journal == s.journal && forall path :: |InfoOf(s, path).applied| <= |InfoOf(s', path).applied|
    ensures Covered(s', offset)
  {
    InOrder(offset, Limit(s), Limit(s'));
    forall path ensures Covers(s'.journal, path, InfoOf(s', path), offset) {
      assert Covers(s.journal, path, InfoOf(s, path), offset);
      assert |InfoOf(s, path).applied| <= |InfoOf(s', path).applied|;
    }
  }

  lemma MarkEndKeeps(comp: string -> int, s: Node, t: int, start: Offset, end: Offset)
    requires Kept(comp, s) && Enabled(comp, s, MarkEnd(t, start, end))
    ensures Kept(comp, Next(comp, s, MarkEnd(t, start, end)))
  {
    hide JournalKept, PathKept, Covered, Has, HeldFor, Placed;
    var phase := s.threads[t];
    KeptJournal(s);
    assert ThreadKept(comp, s, phase);
    var s1 := Written(s, start, end, EndFlush(phase.path, phase.sync));
    WrittenKeeps(comp, s, start, end, EndFlush(phase.path, phase.sync));
    KeptJournal(s1);
    var s' := s1.(threads := s.threads[t := Marked(phase.sync)]);
    assert ThreadKept(comp, s1, phase);
    forall u | u in s'.threads ensures ThreadKept(comp, s1, s'.threads[u]) {
      assert u != t ==> ThreadKept(comp, s1, s1.threads[u]);
    }
    StillRenames(s1, s', t);
    ThreadsOnly(comp, s1, s');
  }

  // ----- The commit offset and the headers

  lemma {:induction false} RecordedIsHeader(journal: seq<Item>) returns (i: nat)
    requires journal != [] && journal[0].content.Header?
    ensures i < |journal| && journal[i].content == Header(Recorded(journal))
    decreases |journal|
  {
    var n := |journal| - 1;
    if journal[n].content.Header? {
      i := n;
    } else {
      i := RecordedIsHeader(journal[..n]);
    }
  }

  lemma CoveredBefore(s: Node, offset: Offset, earlier: Offset)
    requires 0 < s.synced <= |s.journal| && Covered(s, offset) && AtMost(earlier, offset)
    ensures Covered(s, earlier)
  {
    InOrder(earlier, offset, Limit(s));
    forall path ensures Covers(s.journal, path, InfoOf(s, path), earlier) {
      assert Covers(s.journal, path, InfoOf(s, path), offset);
    }
  }

  lemma HeaderKeeps(comp: string -> int, s: Node, start: Offset, end: Offset)
    requires Kept(comp, s) && Enabled(comp, s, WriteHeader(start, end)) && NothingBefore(s)
    ensures Kept(comp, Next(comp, s, WriteHeader(start, end)))
  {
    hide PathKept, Has, HeldFor, Placed, Ordered, Objects;
    WrittenKeeps(comp, s, start, end, Header(s.commit));
  }

  lemma HeaderLoses(comp: string -> int, s: Node, start: Offset, end: Offset)
    requires Kept(comp, s) && Enabled(comp, s, WriteHeader(start, end)) && !NothingBefore(s)
    ensures !JournalKept(Next(comp, s, WriteHeader(start, end)))
  {
    hide PathKept, Has, HeldFor, Placed, Ordered, Objects, ThreadKept;
    var s' := Next(comp, s, WriteHeader(start, end));
    var path, i :| |InfoOf(s, path).applied| <= i < |Objects(s.journal, path)|
                   && Objects(s.journal, path)[i].start.file < s.commit.file;
    ObjectsOneMore(s.journal, Item(start, end, Header(s.commit)), path);
    NoObject(Item(start, end, Header(s.commit)), path);
    assert Objects(s'.journal, path) == Objects(s.journal, path);
    assert s'.journal[|s.journal|] == Item(start, end, Header(s.commit));
    assert !Covers(s'.journal, path, InfoOf(s', path), s.commit);
  }

  /** Nothing is before the commit offset when one has been computed since the restart, or when the recorded
      one is in the same file as the one that the restart has set. */
  lemma SettledIsBehind(comp: string -> int, s: Node)
    requires Kept(comp, s) && (s.settled || Recorded(s.journal).file == s.commit.file)
    ensures NothingBefore(s)
  {
    hide PathKept, Has, HeldFor, Placed, Ordered, Objects, ThreadKept;
    if !s.settled {
      var i := RecordedIsHeader(s.journal);
      assert ItemKept(s, s.journal[i]);
      CoveredBefore(s, Recorded(s.journal), s.commit);
    }
    assert Covered(s, s.commit);
    forall path, i | |InfoOf(s, path).applied| <= i < |Objects(s.journal, path)|
      ensures s.commit.file <= Objects(s.journal, path)[i].start.file
    {
      assert Covers(s.journal, path, InfoOf(s, path), s.commit);
    }
  }

  /** A minimum taken from memory is not after any record that is neither in its info file nor in its copy. */
  lemma MinimumCovers(comp: string -> int, s: Node, minimum: Offset, path: string)
    requires Kept(comp, s) && IsLastCommit(s.mem, minimum) && minimum.file != NO_OFFSET.file
    ensures AtMost(minimum, Limit(s)) && Covers(s.journal, path, Upcoming(s, path), minimum)
  {
    hide JournalKept, Covered, ThreadKept, Upcoming;
    var c, owner :| c in s.mem && owner in s.mem[c].containers && s.mem[c].containers[owner].commit == minimum;
    assert Has(comp, s.mem, owner) && HeldFor(comp, s.mem, owner).commit == minimum;
    assert PathKept(comp, s, owner) && PathKept(comp, s, path);
    if Has(comp, s.mem, path) {
      LastCommitAtMost(comp, s.mem, minimum, path);
    }
    CoversFrom(comp, s, path, minimum);
  }

  lemma CoversFrom(comp: string -> int, s: Node, path: string, offset: Offset)
    requires PathKept(comp, s, path) && Ahead(s.journal, s.added, offset)
    requires Has(comp, s.mem, path) ==> AtMost(offset, HeldFor(comp, s.mem, path).commit)
    ensures Covers(s.journal, path, Upcoming(s, path), offset)
  {
    hide Has, HeldFor, Ahead, Upcoming;
    var added, all := Objects(s.journal[..s.added], path), Objects(s.journal, path);
    ObjectsPrefix(s.journal, s.added, path);
    forall i | |Upcoming(s, path).applied| <= i < |all| ensures AtMost(offset, all[i].start) {
      if i >= |added| {
        AheadOfObject(s.journal, s.added, path, i, offset);
      } else {
        InOrder(offset, HeldFor(comp, s.mem, path).commit, added[i].start);
        assert added[i] == all[i];
      }
    }
  }

  lemma MemoryIsEmpty(comp: string -> int, s: Node, minimum: Offset, path: string)
    requires Kept(comp, s) && IsLastCommit(s.mem, minimum) && minimum.file == NO_OFFSET.file
    ensures !Has(comp, s.mem, path)
  {
    hide Covered, ThreadKept;
    assert PathKept(comp, s, path);
    if Has(comp, s.mem, path) {
      LastCommitAtMost(comp, s.mem, minimum, path);
      CommitFile(comp, s, path);
    }
  }

  lemma CommitFile(comp: string -> int, s: Node, path: string)
    requires JournalKept(s) && PathKept(comp, s, path) && Has(comp, s.mem, path)
    ensures HeldFor(comp, s.mem, path).commit.file < NO_OFFSET.file
  {
    assert Limit(s).file < NO_OFFSET.file;
  }

  lemma ReadCovers(comp: string -> int, s: Node, t: int, minimum: Offset, path: string)
    requires Kept(comp, s) && Enabled(comp, s, ReadMinimum(t, minimum))
    ensures var offset := OffsetRead(s, t, minimum);
            0 < s.synced <= |s.journal| && AtMost(offset, Limit(s)) && Covers(s.journal, path, Upcoming(s, path), offset)
  {
    hide JournalKept, PathKept, Has, HeldFor, Placed, Covers, IsLastCommit, Upcoming, Limit;
    KeptJournal(s);
    assert ThreadKept(comp, s, s.threads[t]);
    if minimum.file == NO_OFFSET.file {
      MemoryIsEmpty(comp, s, minimum, path);
      CoversFrom(comp, s, path, s.threads[t].sync);
    } else {
      MinimumCovers(comp, s, minimum, path);
    }
  }

  /** What a flush thread reads is covered exactly when it is not ahead of a renaming. */
  lemma ReadIsCoveredIff(comp: string -> int, s: Node, t: int, minimum: Offset)
    requires Kept(comp, s) && Enabled(comp, s, ReadMinimum(t, minimum))
    ensures 0 < s.synced <= |s.journal|
    ensures Covered(s, OffsetRead(s, t, minimum)) <==> NotAhead(s, OffsetRead(s, t, minimum))
  {
    hide Kept, Has, HeldFor, IsLastCommit, Upcoming, Limit, InfoOf, Objects;
    var offset := OffsetRead(s, t, minimum);
    ReadCovers(comp, s, t, minimum, "");
    forall path, i | |InfoOf(s, path).applied| <= i < |Objects(s.journal, path)|
      ensures i < |Upcoming(s, path).applied| || AtMost(offset, Objects(s.journal, path)[i].start)
    {
      ReadCovers(comp, s, t, minimum, path);
    }
    if Covered(s, offset) {
      forall path, i | |InfoOf(s, path).applied| <= i < |Objects(s.journal, path)| && i < |Upcoming(s, path).applied|
        ensures AtMost(offset, Objects(s.journal, path)[i].start)
      {
        assert Covers(s.journal, path, InfoOf(s, path), offset);
      }
    }
  }

  lemma ReadKeeps(comp: string -> int, s: Node, t: int, minimum: Offset)
    requires Kept(comp, s) && Enabled(comp, s, ReadMinimum(t, minimum)) && NotAhead(s, OffsetRead(s, t, minimum))
    ensures Kept(comp, Next(comp, s, ReadMinimum(t, minimum)))
  {
    hide JournalKept, PathKept, Has, HeldFor, Placed, Covered, IsLastCommit, NotAhead, OneFlushEach;
    var s' := Next(comp, s, ReadMinimum(t, minimum));
    KeptJournal(s);
    ReadIsCoveredIff(comp, s, t, minimum);
    forall u | u in s'.threads ensures ThreadKept(comp, s, s'.threads[u]) {
      assert u != t ==> ThreadKept(comp, s, s.threads[u]);
    }
    StillRenames(s, s', t);
    ThreadsOnly(comp, s, s');
  }

  lemma SettingIsCovered(comp: string -> int, s: Node, t: int)
    requires Kept(comp, s) && t in s.threads && s.threads[t].Setting?
    ensures 0 < s.synced <= |s.journal| && Covered(s, s.threads[t].offset)
  {
    hide JournalKept, PathKept, Placed, Covered, OneFlushEach, Behind, SyncKept;
    KeptJournal(s);
    assert ThreadKept(comp, s, s.threads[t]);
  }

  lemma ReadLoses(comp: string -> int, s: Node, t: int, minimum: Offset)
    requires Kept(comp, s) && Enabled(comp, s, ReadMinimum(t, minimum)) && !NotAhead(s, OffsetRead(s, t, minimum))
    ensures !Kept(comp, Next(comp, s, ReadMinimum(t, minimum)))
  {
    hide Kept, Covered, IsLastCommit, NotAhead, OffsetRead, Limit;
    ReadIsCoveredIff(comp, s, t, minimum);
    var s' := Next(comp, s, ReadMinimum(t, minimum));
    if Kept(comp, s') {
      SettingIsCovered(comp, s', t);
      SameLimit(s, s');
      LimitIsAtMost(s);
      SameCovered(s', s, OffsetRead(s, t, minimum));
    }
  }

  lemma LimitIsAtMost(s: Node)
    requires 0 < s.synced <= |s.journal|
    ensures AtMost(Limit(s), Limit(s))
  {
  }

  lemma SetCommitKeeps(comp: string -> int, s: Node, t: int)
    requires Kept(comp, s) && Enabled(comp, s, SetCommit(t))
    ensures Kept(comp, Next(comp, s, SetCommit(t)))
  {
    hide JournalKept, PathKept, Has, HeldFor, Placed, Covered, OneFlushEach;
    var s' := Next(comp, s, SetCommit(t));
    KeptJournal(s);
    assert ThreadKept(comp, s, s.threads[t]);
    forall u | u in s'.threads ensures ThreadKept(comp, s, s'.threads[u]) {
      assert ThreadKept(comp, s, s.threads[u]);
    }
    StillRenames(s, s', t);
    ThreadsOnly(comp, s, s');
  }

  // ----- Steps on one container

  // A step that changes the memory, and perhaps the info file or its copy, of one container.
  ghost predicate OnlyAt(comp: string -> int, s: Node, s': Node, path: string) {
    forall other :: other != path ==>
      && Has(comp, s'.mem, other) == Has(comp, s.mem, other)
      && (Has(comp, s.mem, other) ==> HeldFor(comp, s'.mem, other) == HeldFor(comp, s.mem, other))
      && InfoOf(s', other) == InfoOf(s, other) && Upcoming(s', other) == Upcoming(s, other)
  }

  lemma OneContainer(comp: string -> int, s: Node, s': Node, path: string)
    requires Kept(comp, s) && s' == s.(mem := s'.mem, infos := s'.infos, temps := s'.temps, threads := s'.threads)
    requires OnlyAt(comp, s, s', path) && PathKept(comp, s', path) && Placed(comp, s'.mem)
    requires |InfoOf(s, path).applied| <= |InfoOf(s', path).applied|
    requires AtMost(InfoOf(s, path).trailer, InfoOf(s', path).trailer)
    requires forall t :: t in s'.threads ==> ThreadKept(comp, s', s'.threads[t])
    requires OneFlushEach(s')
    ensures Kept(comp, s')
  {
    hide Objects, Ordered, Has, HeldFor, Placed, AppliedMatches, HeldMatches, HeldAhead, RecordsAhead, Covers, Ahead, ThreadKept,
      InfoOf, Upcoming, OneFlushEach;
    forall other ensures PathKept(comp, s', other) {
      assert PathKept(comp, s, other);
    }
    forall other
      ensures |InfoOf(s, other).applied| <= |InfoOf(s', other).applied|
      ensures AtMost(InfoOf(s, other).trailer, InfoOf(s', other).trailer)
    {
      assert other != path ==> InfoOf(s', other) == InfoOf(s, other);
    }
    forall i | 0 <= i < |s'.journal| ensures ItemKept(s', s'.journal[i]) {
      assert ItemKept(s, s.journal[i]);
      match s.journal[i].content
      case Header(commit) => SameCovered(s, s', commit);
      case EndFlush(other, sync) => InOrder(sync, InfoOf(s, other).trailer, InfoOf(s', other).trailer);
      case _ =>
    }
    if s.settled {
      SameCovered(s, s', s.commit);
    }
  }

  lemma StartFlushPath(comp: string -> int, s: Node, t: int, path: string)
    requires Kept(comp, s) && Enabled(comp, s, StartFlushOf(t, path))
    ensures var s' := Next(comp, s, StartFlushOf(t, path));
            OnlyAt(comp, s, s', path) && PathKept(comp, s', path) && Placed(comp, s'.mem)
  {
    hide Kept, Put, Has, HeldFor, PathKept, Placed;
    var s' := Next(comp, s, StartFlushOf(t, path));
    forall other
      ensures other != path ==> Has(comp, s'.mem, other) == Has(comp, s.mem, other)
      ensures other != path && Has(comp, s.mem, other) ==> HeldFor(comp, s'.mem, other) == HeldFor(comp, s.mem, other)
    {
      PutAt(comp, s.mem, path, Swapped(HeldFor(comp, s.mem, path)), true, other);
    }
    KeptPath(comp, s, path);
    SwappedPath(comp, s, s', path);
    PutPlaced(comp, s.mem, path, Swapped(HeldFor(comp, s.mem, path)));
  }

  lemma KeptPath(comp: string -> int, s: Node, path: string)
    requires Kept(comp, s)
    ensures PathKept(comp, s, path) && Placed(comp, s.mem)
  {
    hide JournalKept, PathKept, ThreadKept, Covered, Behind, SyncKept, OneFlushEach;
  }

  lemma SwappedPath(comp: string -> int, s: Node, s': Node, path: string)
    requires PathKept(comp, s, path) && Has(comp, s.mem, path) && HeldFor(comp, s.mem, path).flushing == []
    requires s' == s.(mem := StartFlush(comp, s.mem, path), threads := s'.threads)
    ensures PathKept(comp, s', path)
  {
    hide Put, Has, HeldFor, HeldMatches, Ahead, AppliedMatches, Extends, Objects;
    var h := HeldFor(comp, s.mem, path);
    PutAt(comp, s.mem, path, Swapped(h), true, path);
    SwappedMatches(h, Objects(s.journal[..s.added], path), Upcoming(s, path));
    SameLimit(s, s');
  }

  lemma StartFlushKeeps(comp: string -> int, s: Node, t: int, path: string)
    requires Kept(comp, s) && Enabled(comp, s, StartFlushOf(t, path))
    ensures Kept(comp, Next(comp, s, StartFlushOf(t, path)))
  {
    hide JournalKept, Put, Has, HeldFor, Placed, Covered, PathKept, Behind, OnlyAt, OneFlushEach;
    var s' := Next(comp, s, StartFlushOf(t, path));
    KeptJournal(s);
    PutAt(comp, s.mem, path, Swapped(HeldFor(comp, s.mem, path)), true, path);
    StartFlushPath(comp, s, t, path);
    forall u | u in s.threads
      ensures ThreadKept(comp, s, s.threads[u])
      ensures s.threads[u].Flushing? ==> s.threads[u].path != path
    {
      assert ThreadKept(comp, s, s.threads[u]);
    }
    forall u | u in s'.threads ensures ThreadKept(comp, s', s'.threads[u]) {
      if u != t {
        SameThread(comp, s, s', path, s.threads[u]);
      }
    }
    StillRenames(s, s', t);
    OneContainer(comp, s, s', path);
  }

  lemma SameThread(comp: string -> int, s: Node, s': Node, path: string, phase: Phase)
    requires 0 < s.synced <= |s.journal| && ThreadKept(comp, s, phase) && OnlyAt(comp, s, s', path)
    requires s' == s.(mem := s'.mem, infos := s'.infos, temps := s'.temps, threads := s'.threads)
    requires Extends(InfoOf(s', path), InfoOf(s, path))
    requires phase.Flushing? ==> phase.path != path || s'.mem == s.mem
    requires phase.Renaming? ==>
               phase.path in s'.infos && phase.path in s'.temps && phase.path in s.temps
               && s'.temps[phase.path] == s.temps[phase.path]
    ensures ThreadKept(comp, s', phase)
  {
    hide Has, HeldFor, Ahead, Covered, InfoOf, Upcoming, Limit;
    SameLimit(s, s');
    forall other ensures Extends(InfoOf(s', other), InfoOf(s, other)) {
      assert other != path ==> InfoOf(s', other) == InfoOf(s, other);
    }
    match phase
    case Published(p, sync) => InOrder(sync, InfoOf(s, p).trailer, InfoOf(s', p).trailer);
    case Setting(offset) => SameCovered(s, s', offset);
    case _ =>
  }

  lemma SwappedMatches(h: Held, added: seq<Item>, info: Info)
    requires HeldMatches(h, added, info) && h.flushing == []
    ensures HeldMatches(Swapped(h), added, info)
  {
    hide EntriesMatch;
    assert h.flushing + h.records == h.records;
    assert Swapped(h).flushing + Swapped(h).records == h.records;
  }

  // ----- The flush gives an info file what it does not hold

  /** What a flush skips is exactly what the info file holds. */
  lemma SkipsApplied(h: Held, added: seq<Item>, info: Info)
    requires HeldMatches(h, added, info) && h.flushing != []
    requires forall i :: |info.applied| <= i < |added| ==> Less(info.trailer, added[i].end)
    ensures var first, n := |added| - |h.flushing| - |h.records|, CountUpTo(h.flushing, info.trailer);
            n == if |info.applied| - first < |h.flushing| then |info.applied| - first else |h.flushing|
  {
    var n := CountUpTo(h.flushing, info.trailer);
    if n < |h.flushing| {
      KeyTells(h, added, info, n);
    }
    if n > 0 {
      KeyTells(h, added, info, n - 1);
    }
  }

  lemma KeyTells(h: Held, added: seq<Item>, info: Info, j: nat)
    requires HeldMatches(h, added, info) && j < |h.flushing|
    requires forall i :: |info.applied| <= i < |added| ==> Less(info.trailer, added[i].end)
    ensures AtMost(h.flushing[j].offset, info.trailer)
       <==> |added| - |h.flushing| - |h.records| + j < |info.applied|
  {
    var mem := h.flushing + h.records;
    var items := added[|added| - |mem|..];
    assert mem[j] == h.flushing[j] && items[j] == added[|added| - |mem| + j];
    InOrder(info.trailer, items[j].end, mem[j].offset);
  }

  lemma FlushedApplied(h: Held, added: seq<Item>, info: Info)
    requires HeldMatches(h, added, info) && h.flushing != []
    requires forall i :: |info.applied| <= i < |added| ==> Less(info.trailer, added[i].end)
    ensures var info', upTo := Flushed(info, h), |added| - |h.records|;
            && (|info.applied| >= upTo ==> info' == info)
            && (|info.applied| < upTo ==>
                  && |info'.applied| == upTo && info.applied <= info'.applied
                  && info'.trailer == h.flushing[|h.flushing| - 1].offset && Less(info.trailer, info'.trailer)
                  && forall i :: |info.applied| <= i < upTo ==>
                       added[i].content.Object? && info'.applied[i] == added[i].content.record)
  {
    hide HeldMatches;
    SkipsApplied(h, added, info);
    FirstInMemory(h, added, info);
    if |info.applied| < |added| - |h.records| {
      var n := CountUpTo(h.flushing, info.trailer);
      FlushedTail(h, added, info, n);
      var last := |h.flushing| - 1;
      EntryInMemory(h, added, info, last);
      InOrder(info.trailer, added[|added| - |h.records| - 1].end, h.flushing[last].offset);
    }
  }

  lemma FirstInMemory(h: Held, added: seq<Item>, info: Info)
    requires HeldMatches(h, added, info)
    ensures 0 <= |added| - |h.flushing| - |h.records| <= |info.applied|
  {
  }

  lemma EntryInMemory(h: Held, added: seq<Item>, info: Info, j: nat)
    requires HeldMatches(h, added, info) && j < |h.flushing|
    ensures var i := |added| - |h.flushing| - |h.records| + j;
            && 0 <= i < |added| && added[i].content.Object? && h.flushing[j].record == added[i].content.record
            && AtMost(added[i].end, h.flushing[j].offset)
  {
    var mem := h.flushing + h.records;
    var first := |added| - |mem|;
    assert mem[j] == h.flushing[j] && added[first..][j] == added[first + j];
  }

  lemma FlushedTail(h: Held, added: seq<Item>, info: Info, n: nat)
    requires HeldMatches(h, added, info) && n == CountUpTo(h.flushing, info.trailer) && n < |h.flushing|
    requires n == |info.applied| - (|added| - |h.flushing| - |h.records|)
    ensures var info', upTo := Flushed(info, h), |added| - |h.records|;
            && |info'.applied| == upTo && info.applied <= info'.applied
            && info'.trailer == h.flushing[|h.flushing| - 1].offset
            && forall i :: |info.applied| <= i < upTo ==>
                 added[i].content.Object? && info'.applied[i] == added[i].content.record
  {
    hide HeldMatches;
    var first, q := |added| - |h.flushing| - |h.records|, Skipped(h, info.trailer).flushing;
    forall i | |info.applied| <= i < first + |h.flushing|
      ensures added[i].content.Object? && Flushed(info, h).applied[i] == added[i].content.record
    {
      EntryInMemory(h, added, info, i - first);
      assert q[i - |info.applied|] == h.flushing[i - first];
    }
  }

  lemma FlushedMatches(h: Held, all: seq<Item>, added: seq<Item>, info: Info)
    requires HeldMatches(h, added, info) && h.flushing != [] && AppliedMatches(info, all, |added|) && Ordered(all)
    requires added <= all
    requires forall i :: |added| <= i < |all| ==> AtMost(h.flushing[|h.flushing| - 1].offset, all[i].start)
    ensures AppliedMatches(Flushed(info, h), all, |added|)
    ensures |info.applied| <= |Flushed(info, h).applied| && AtMost(info.trailer, Flushed(info, h).trailer)
    ensures AtMost(h.flushing[|h.flushing| - 1].offset, Flushed(info, h).trailer)
  {
    var info' := Flushed(info, h);
    var upTo, last := |added| - |h.records|, |h.flushing| - 1;
    var mem := h.flushing + h.records;
    FlushedApplied(h, added, info);
    assert mem[last] == h.flushing[last] && added[|added| - |mem|..][last] == added[upTo - 1];
    if |info.applied| < upTo {
      forall i | 0 <= i < upTo ensures AtMost(all[i].end, info'.trailer) {
        EndBehindLast(all, i, upTo - 1, h.flushing[last].offset);
      }
      forall i | upTo <= i < |all| ensures Less(info'.trailer, all[i].end) {
        assert AtMost(h.flushing[last].offset, all[i].start);
        InOrder(h.flushing[last].offset, all[i].start, all[i].end);
      }
    }
  }

  lemma EndBehindLast(all: seq<Item>, i: nat, j: nat, offset: Offset)
    requires Ordered(all) && i <= j < |all| && AtMost(all[j].end, offset)
    ensures AtMost(all[i].end, offset)
  {
    if i < j {
      InOrder(all[i].end, all[j].start, all[j].end);
      InOrder(all[i].end, all[j].end, offset);
    }
  }

  lemma ReleasedMatches(h: Held, h': Held, added: seq<Item>, info: Info, info': Info)
    requires HeldMatches(h, added, info) && h.flushing != [] && h.records != []
    requires h'.flushing == [] && h'.records == h.records && h'.commit == h.flushing[|h.flushing| - 1].offset
    requires (info' == info && |added| - |h.records| <= |info.applied|) || |info'.applied| == |added| - |h.records|
    ensures HeldMatches(h', added, info')
  {
    var mem := h.flushing + h.records;
    var first, gone := |added| - |mem|, |h.flushing|;
    hide AtMost, EntriesMatch;
    assert h'.flushing + h'.records == h.records == mem[gone..];
    assert added[first..][gone..] == added[first + gone..];
    EntriesSuffix(mem, added[first..], |info.applied| - first, info.trailer, gone, |info'.applied| - first - gone, info'.trailer);
  }

  // The entries from number `gone` on, with the same trailer or with none of them applied.
  lemma EntriesSuffix(mem: seq<Pending>, items: seq<Item>, applied: int, trailer: Offset, gone: nat, applied': int,
                      trailer': Offset)
    requires EntriesMatch(mem, items, applied, trailer) && gone <= |mem|
    requires (trailer' == trailer && applied' == applied - gone) || applied' <= 0
    ensures EntriesMatch(mem[gone..], items[gone..], applied', trailer')
  {
    hide AtMost;
    assert forall j :: 0 <= j < |mem| - gone ==> mem[gone..][j] == mem[gone + j] && items[gone..][j] == items[gone + j];
  }

  lemma ReleasePath(comp: string -> int, s: Node, t: int)
    requires Kept(comp, s) && Enabled(comp, s, ReleaseMemory(t)) && s.threads[t].path in s.infos
    ensures var s', path := Next(comp, s, ReleaseMemory(t)), s.threads[t].path;
            && OnlyAt(comp, s, s', path) && PathKept(comp, s', path) && Placed(comp, s'.mem)
            && AtMost(s.threads[t].sync, s'.temps[path].trailer) && Behind(s, s.threads[t].sync)
  {
    hide JournalKept, Freed, Flushed, Has, HeldFor, Placed, Covered, HeldMatches, AppliedMatches, Ahead, AtMost, Less, Objects, Limit;
    KeptJournal(s);
    var s', path := Next(comp, s, ReleaseMemory(t)), s.threads[t].path;
    var h, info := HeldFor(comp, s.mem, path), InfoOf(s, path);
    var added := Objects(s.journal[..s.added], path);
    assert ThreadKept(comp, s, s.threads[t]) && PathKept(comp, s, path);
    PublishInfo(s, path, h);
    ReleaseElsewhere(comp, s, t);
    FreedAt(comp, s.mem, path, info.trailer, path);
    FreedPlaced(comp, s.mem, path, info.trailer);
    SameLimit(s, s');
    if h.records != [] {
      PublishHeld(s, h, HeldFor(comp, s'.mem, path), added, info, Upcoming(s', path));
    }
  }

  lemma ReleaseElsewhere(comp: string -> int, s: Node, t: int)
    requires Enabled(comp, s, ReleaseMemory(t)) && HeldFor(comp, s.mem, s.threads[t].path).flushing != []
    requires s.threads[t].path in s.infos
    ensures OnlyAt(comp, s, Next(comp, s, ReleaseMemory(t)), s.threads[t].path)
  {
    hide Freed, Flushed, Has, HeldFor;
    var s', path := Next(comp, s, ReleaseMemory(t)), s.threads[t].path;
    forall other
      ensures other != path ==> Has(comp, s'.mem, other) == Has(comp, s.mem, other)
      ensures other != path && Has(comp, s.mem, other) ==> HeldFor(comp, s'.mem, other) == HeldFor(comp, s.mem, other)
    {
      FreedAt(comp, s.mem, path, InfoOf(s, path).trailer, other);
    }
  }

  lemma PublishHeld(s: Node, h: Held, h': Held, added: seq<Item>, info: Info, info': Info)
    requires 0 < s.synced <= |s.journal| && HeldMatches(h, added, info) && h.flushing != [] && h.records != []
    requires HeldAhead(h, s.journal, s.added, Limit(s)) && RecordsAhead(h, s.journal, s.added)
    requires h'.flushing == [] && h'.records == h.records && h'.commit == h.flushing[|h.flushing| - 1].offset
    requires (info' == info && |added| - |h.records| <= |info.applied|) || |info'.applied| == |added| - |h.records|
    ensures HeldMatches(h', added, info')
    ensures HeldAhead(h', s.journal, s.added, Limit(s)) && RecordsAhead(h', s.journal, s.added)
  {
    hide HeldMatches, Ahead;
    ReleasedMatches(h, h', added, info, info');
  }

  lemma PublishInfo(s: Node, path: string, h: Held)
    requires 0 < s.synced <= |s.journal| && s.added <= s.synced && Ordered(s.journal)
    requires var added := Objects(s.journal[..s.added], path);
             && HeldMatches(h, added, InfoOf(s, path)) && h.flushing != []
             && AppliedMatches(InfoOf(s, path), Objects(s.journal, path), |added|)
    requires HeldAhead(h, s.journal, s.added, Limit(s)) && AtMost(InfoOf(s, path).trailer, Limit(s))
    ensures var added, info, info' := Objects(s.journal[..s.added], path), InfoOf(s, path), Flushed(InfoOf(s, path), h);
            && AppliedMatches(info', Objects(s.journal, path), |added|) && AtMost(info'.trailer, Limit(s))
            && |info.applied| <= |info'.applied| && AtMost(info.trailer, info'.trailer)
            && AtMost(h.flushing[|h.flushing| - 1].offset, info'.trailer)
            && ((info' == info && |added| - |h.records| <= |info.applied|) || |info'.applied| == |added| - |h.records|)
  {
    hide Flushed, Ahead, HeldMatches, AppliedMatches, AtMost, Less, Objects, RecordsAhead;
    var all, added, info := Objects(s.journal, path), Objects(s.journal[..s.added], path), InfoOf(s, path);
    var last := |h.flushing| - 1;
    ObjectsPrefix(s.journal, s.added, path);
    ObjectsOrdered(s.journal, |s.journal|, path);
    assert s.journal[..|s.journal|] == s.journal;
    forall i | |added| <= i < |all| ensures AtMost(h.flushing[last].offset, all[i].start) {
      AheadOfObject(s.journal, s.added, path, i, h.flushing[last].offset);
    }
    FlushedMatches(h, all, added, info);
    NotApplied(info, all, added);
    FlushedApplied(h, added, info);
    LessIsAtMost(info.trailer, Flushed(info, h).trailer);
  }

  lemma NotApplied(info: Info, all: seq<Item>, added: seq<Item>)
    requires AppliedMatches(info, all, |added|) && added <= all
    ensures forall i :: |info.applied| <= i < |added| ==> Less(info.trailer, added[i].end)
  {
    assert forall i :: 0 <= i < |added| ==> added[i] == all[i];
  }

  lemma ReleaseKeeps(comp: string -> int, s: Node, t: int)
    requires Kept(comp, s) && Enabled(comp, s, ReleaseMemory(t)) && s.threads[t].path in s.infos
    ensures Kept(comp, Next(comp, s, ReleaseMemory(t)))
  {
    hide JournalKept, Freed, Flushed, Has, HeldFor, Placed, Covered, PathKept, Behind, OnlyAt, OneFlushEach, Limit;
    var s', path := Next(comp, s, ReleaseMemory(t)), s.threads[t].path;
    KeptJournal(s);
    ReleasePath(comp, s, t);
    ReleaseThreads(comp, s, t);
    forall u | u in s'.threads ensures ThreadKept(comp, s', s'.threads[u]) {
      if u != t {
        assert ThreadKept(comp, s, s.threads[u]);
        SameThread(comp, s, s', path, s.threads[u]);
      } else {
        SameBehind(s, s', s.threads[t].sync);
      }
    }
    OneContainer(comp, s, s', path);
  }

  lemma ReleaseThreads(comp: string -> int, s: Node, t: int)
    requires Kept(comp, s) && Enabled(comp, s, ReleaseMemory(t)) && s.threads[t].path in s.infos
    ensures OneFlushEach(Next(comp, s, ReleaseMemory(t)))
    ensures forall u :: u in s.threads && u != t ==>
              && (s.threads[u].Flushing? ==> s.threads[u].path != s.threads[t].path)
              && (s.threads[u].Renaming? ==> s.threads[u].path != s.threads[t].path && s.threads[u].path in s.temps)
  {
    hide JournalKept, Freed, Flushed, Has, HeldFor, Placed, Covered, PathKept, Behind, SyncKept;
    var s', path := Next(comp, s, ReleaseMemory(t)), s.threads[t].path;
    KeptJournal(s);
    forall u | u in s.threads && u != t
      ensures s.threads[u].Flushing? ==> s.threads[u].path != path
      ensures s.threads[u].Renaming? ==> s.threads[u].path != path && s.threads[u].path in s.temps
    {
      assert ThreadKept(comp, s, s.threads[u]) && !SameFlush(s.threads[u], s.threads[t]);
    }
    forall p | p in s'.temps ensures Renames(s', p) {
      if p == path {
        assert s'.threads[t].Renaming? && s'.threads[t].path == p;
      } else {
        assert Renames(s, p);
        var u :| u in s.threads && s.threads[u].Renaming? && s.threads[u].path == p;
        assert s'.threads[u] == s.threads[u];
      }
    }
  }

  // Without an info file the records that are released are nowhere.
  lemma ReleaseLoses(comp: string -> int, s: Node, t: int)
    requires Kept(comp, s) && Enabled(comp, s, ReleaseMemory(t)) && s.threads[t].path !in s.infos
    ensures !PathKept(comp, Next(comp, s, ReleaseMemory(t)), s.threads[t].path)
  {
    hide JournalKept, Release, Has, HeldFor, Placed, Covered, AppliedMatches, Ahead, EntriesMatch, Objects;
    var s', path := Next(comp, s, ReleaseMemory(t)), s.threads[t].path;
    var h := HeldFor(comp, s.mem, path);
    KeptJournal(s);
    assert ThreadKept(comp, s, s.threads[t]) && PathKept(comp, s, path);
    ReleaseAt(comp, s.mem, path, path);
    assert |h.flushing + h.records| == |h.flushing| + |h.records|;
    assert Upcoming(s, path) == NO_INFO && Upcoming(s', path) == NO_INFO;
  }

  lemma RenamePath(comp: string -> int, s: Node, t: int)
    requires Kept(comp, s) && Enabled(comp, s, RenameFile(t))
    ensures var s', path := Next(comp, s, RenameFile(t)), s.threads[t].path;
            && OnlyAt(comp, s, s', path) && PathKept(comp, s', path)
            && InfoOf(s', path) == s.temps[path] && Extends(InfoOf(s', path), InfoOf(s, path))
  {
    hide JournalKept, Has, HeldFor, Placed, Covered, HeldMatches, AppliedMatches, HeldAhead, RecordsAhead, Objects, AtMost;
    KeptJournal(s);
    assert PathKept(comp, s, s.threads[t].path);
    SameLimit(s, Next(comp, s, RenameFile(t)));
    ExtendsItself(s.temps[s.threads[t].path]);
  }

  lemma ExtendsItself(info: Info)
    ensures Extends(info, info)
  {
  }

  lemma RenameThreads(comp: string -> int, s: Node, t: int)
    requires Kept(comp, s) && Enabled(comp, s, RenameFile(t))
    ensures OneFlushEach(Next(comp, s, RenameFile(t)))
    ensures forall u :: u in s.threads && u != t && s.threads[u].Renaming? ==>
              s.threads[u].path != s.threads[t].path && s.threads[u].path in s.temps && s.threads[u].path in s.infos
  {
    hide JournalKept, Has, HeldFor, Placed, Covered, PathKept, Behind, SyncKept;
    var s', path := Next(comp, s, RenameFile(t)), s.threads[t].path;
    KeptJournal(s);
    forall u | u in s.threads && u != t && s.threads[u].Renaming?
      ensures s.threads[u].path != path && s.threads[u].path in s.temps && s.threads[u].path in s.infos
    {
      assert ThreadKept(comp, s, s.threads[u]) && !SameFlush(s.threads[u], s.threads[t]);
    }
    forall p | p in s'.temps ensures Renames(s', p) {
      assert Renames(s, p);
      var u :| u in s.threads && s.threads[u].Renaming? && s.threads[u].path == p;
      assert s'.threads[u] == s.threads[u];
    }
  }

  /** Renaming the copy into place publishes what the flush has released. */
  lemma RenameKeeps(comp: string -> int, s: Node, t: int)
    requires Kept(comp, s) && Enabled(comp, s, RenameFile(t))
    ensures Kept(comp, Next(comp, s, RenameFile(t)))
  {
    hide JournalKept, Has, HeldFor, Placed, Covered, PathKept, OnlyAt, OneFlushEach, Limit, SyncKept;
    var s', path := Next(comp, s, RenameFile(t)), s.threads[t].path;
    KeptJournal(s);
    RenamePath(comp, s, t);
    RenameThreads(comp, s, t);
    assert ThreadKept(comp, s, s.threads[t]);
    forall u | u in s'.threads ensures ThreadKept(comp, s', s'.threads[u]) {
      if u != t {
        assert ThreadKept(comp, s, s.threads[u]);
        SameThread(comp, s, s', path, s.threads[u]);
      } else {
        SameBehind(s, s', s.threads[t].sync);
      }
    }
    OneContainer(comp, s, s', path);
  }

  lemma SameBehind(s: Node, s': Node, offset: Offset)
    requires 0 < s.synced <= |s.journal| && Behind(s, offset)
    requires s'.journal == s.journal && s'.synced == s.synced && s'.added == s.added && s'.newest == s.newest
    ensures Behind(s', offset)
  {
  }

  // A copy is made of an info file that exists.
  lemma CopyHasInfo(comp: string -> int, s: Node, path: string)
    requires Kept(comp, s) && path in s.temps
    ensures path in s.infos
  {
    hide PathKept, Covered, Behind, Placed, SyncKept;
    KeptJournal(s);
    assert Renames(s, path);
    var u :| u in s.threads && s.threads[u].Renaming? && s.threads[u].path == path;
    assert ThreadKept(comp, s, s.threads[u]);
  }

  // ----- A batch

  lemma {:induction false} ItemsPlaced(comp: string -> int, m: Memory, journal: seq<Item>, from: nat, n: nat, prev: Offset,
                                       sync: Offset)
    requires from <= n <= |journal| && Placed(comp, m)
    ensures Placed(comp, AddItems(comp, m, journal, from, n, prev, sync))
    decreases n
  {
    if n > from {
      ItemsPlaced(comp, m, journal, from, n - 1, prev, sync);
    }
  }

  lemma {:induction false} FlushingStays(comp: string -> int, m: Memory, journal: seq<Item>, from: nat, n: nat, prev: Offset,
                                         sync: Offset, path: string)
    requires from <= n <= |journal| && Has(comp, m, path)
    ensures var m' := AddItems(comp, m, journal, from, n, prev, sync);
            Has(comp, m', path) && HeldFor(comp, m', path).flushing == HeldFor(comp, m, path).flushing
    decreases n
  {
    hide Put, Has, HeldFor;
    if n > from {
      FlushingStays(comp, m, journal, from, n - 1, prev, sync, path);
      var before := AddItems(comp, m, journal, from, n - 1, prev, sync);
      if journal[n - 1].content.Object? {
        var owner, p := journal[n - 1].content.path, Pending(sync, journal[n - 1].content.record);
        PutAt(comp, before, owner,
              if Has(comp, before, owner) then Added(HeldFor(comp, before, owner), p) else NewHeld(p, prev), true, path);
      }
    }
  }

  /** More of the journal is synced: the limit grows, and nothing else changes. */
  lemma SyncPath(comp: string -> int, s: Node, s': Node, path: string)
    requires PathKept(comp, s, path) && s' == s.(synced := |s.journal|, lastSync := s'.lastSync, pending := s'.pending)
    requires AtMost(Limit(s), Limit(s'))
    ensures PathKept(comp, s', path)
  {
    hide Objects, Has, HeldFor, AppliedMatches, MemoryMatches, Ahead, RecordsAhead, Extends;
    InOrder(Upcoming(s, path).trailer, Limit(s), Limit(s'));
    if Has(comp, s.mem, path) {
      AheadUpTo(HeldFor(comp, s.mem, path), s.journal, s.added, Limit(s), Limit(s'));
    }
  }

  lemma AheadUpTo(h: Held, journal: seq<Item>, from: nat, limit: Offset, limit': Offset)
    requires HeldAhead(h, journal, from, limit) && AtMost(limit, limit')
    ensures HeldAhead(h, journal, from, limit')
  {
  }

  lemma SyncJournal(s: Node)
    requires JournalKept(s) && !s.recovering
    ensures var s' := s.(synced := |s.journal|, lastSync := s.tail, pending := true);
            && 0 < s'.synced <= |s'.journal| && JournalKept(s') && SyncKept(s') && AtMost(Limit(s), Limit(s'))
  {
    hide Covered, Objects;
    var s' := s.(synced := |s.journal|, lastSync := s.tail, pending := true);
    LimitGrows(s, s');
    forall i | 0 <= i < |s'.journal| ensures ItemKept(s', s'.journal[i]) {
      assert ItemKept(s, s.journal[i]);
      if s.journal[i].content.Header? {
        SameCovered(s, s', s.journal[i].content.commit);
      }
    }
  }

  lemma SyncKeeps(comp: string -> int, s: Node)
    requires Kept(comp, s) && Enabled(comp, s, Sync)
    ensures Kept(comp, Next(comp, s, Sync))
  {
    hide JournalKept, Has, HeldFor, Placed, Covered, PathKept, SyncKept, Ahead, Limit;
    var s' := Next(comp, s, Sync);
    KeptJournal(s);
    SyncJournal(s);
    forall path ensures PathKept(comp, s', path) {
      SyncPath(comp, s, s', path);
    }
    SameCovered(s, s', s.commit);
    InOrder(s.addedSync, Limit(s), Limit(s'));
    NotRecovering(comp, s);
    forall t | t in s'.threads ensures ThreadKept(comp, s', s'.threads[t]) {
      assert ThreadKept(comp, s, s.threads[t]);
      match s.threads[t]
      case Renaming(_, sync) => InOrder(sync, Limit(s), Limit(s'));
      case Published(_, sync) => InOrder(sync, Limit(s), Limit(s'));
      case Marked(sync) => InOrder(sync, Limit(s), Limit(s'));
      case Setting(offset) => SameCovered(s, s', offset);
      case Creating(_, offset) => InOrder(offset, Limit(s), Limit(s'));
      case _ =>
    }
  }

  lemma NotRecovering(comp: string -> int, s: Node)
    requires Kept(comp, s) && !s.recovering
    ensures s.settled && 0 < s.synced <= |s.journal| && Covered(s, s.commit)
  {
    hide PathKept, ThreadKept, Covered, SyncKept;
    KeptJournal(s);
  }

  lemma AddPath(comp: string -> int, s: Node, path: string)
    requires Kept(comp, s) && Enabled(comp, s, AddBatch)
    ensures PathKept(comp, Next(comp, s, AddBatch), path)
  {
    hide Objects, Has, HeldFor, Placed, Covered, HeldMatches, ItemKept, ThreadKept, AddItems, Ordered, Ahead, Limit;
    KeptJournal(s);
    var s', info := Next(comp, s, AddBatch), Upcoming(s, path);
    assert PathKept(comp, s, path);
    ObjectsPrefix(s.journal, s.added, path);
    ObjectsGrow(s.journal, s.added, s.synced, path);
    if Has(comp, s.mem, path) {
      LaterRecords(HeldFor(comp, s.mem, path), s.journal, s.added, s.synced);
    }
    AddItemsMatch(comp, s.mem, path, info, s.journal, s.added, s.synced, s.synced, s.addedSync, s.lastSync, Limit(s));
    assert Limit(s') == Limit(s) by { SameLimit(s, s'); }
    if Has(comp, s'.mem, path) {
      LaterAhead(HeldFor(comp, s'.mem, path), s.journal, s.added, s.synced, Limit(s));
    }
  }

  lemma SameLimit(s: Node, s': Node)
    requires 0 < s.synced <= |s.journal| && s'.journal == s.journal && s'.synced == s.synced && s'.newest == s.newest
    ensures Limit(s') == Limit(s)
  {
  }

  lemma ObjectsGrow(journal: seq<Item>, n: nat, k: nat, path: string)
    requires n <= k <= |journal|
    ensures Objects(journal[..n], path) <= Objects(journal[..k], path) <= Objects(journal, path)
  {
    ObjectsPrefix(journal, k, path);
    ObjectsPrefix(journal[..k], n, path);
    assert journal[..k][..n] == journal[..n];
  }

  lemma LaterRecords(h: Held, journal: seq<Item>, from: nat, to: nat)
    requires RecordsAhead(h, journal, from) && from <= to
    ensures RecordsAhead(h, journal, to)
  {
  }

  lemma LaterAhead(h: Held, journal: seq<Item>, from: nat, to: nat, limit: Offset)
    requires HeldAhead(h, journal, from, limit) && from <= to
    ensures HeldAhead(h, journal, to, limit)
  {
  }

  lemma AddJournal(s: Node, s': Node)
    requires JournalKept(s) && SyncKept(s) && s.pending && Behind(s, s.addedSync)
    requires s' == s.(added := s.synced, addedSync := s.lastSync, pending := false, mem := s'.mem)
    ensures JournalKept(s') && SyncKept(s') && Behind(s', s'.addedSync)
    ensures forall offset :: Behind(s, offset) ==> Behind(s', offset)
    ensures forall offset :: Covered(s, offset) ==> Covered(s', offset)
  {
    hide Objects;
    forall offset | Covered(s, offset) ensures Covered(s', offset) {
      SameCovered(s, s', offset);
    }
    forall i | 0 <= i < |s'.journal| ensures ItemKept(s', s'.journal[i]) {
      assert ItemKept(s, s.journal[i]);
    }
  }

  /** The batch that has been synced is added to memory, with any steps of other threads since its sync. */
  lemma BatchKeeps(comp: string -> int, s: Node)
    requires Kept(comp, s) && Enabled(comp, s, AddBatch)
    ensures Kept(comp, Next(comp, s, AddBatch))
  {
    hide JournalKept, Has, HeldFor, Placed, Covered, PathKept, AddItems, SyncKept, Behind;
    var s' := Next(comp, s, AddBatch);
    KeptJournal(s);
    AddJournal(s, s');
    forall path ensures PathKept(comp, s', path) {
      AddPath(comp, s, path);
    }
    ItemsPlaced(comp, s.mem, s.journal, s.added, s.synced, s.addedSync, s.lastSync);
    forall t | t in s'.threads ensures ThreadKept(comp, s', s'.threads[t]) {
      assert ThreadKept(comp, s, s.threads[t]);
      if s.threads[t].Flushing? {
        FlushingStays(comp, s.mem, s.journal, s.added, s.synced, s.addedSync, s.lastSync, s.threads[t].path);
      }
    }
  }

  // ----- The creation of a container

  lemma ReadSyncKeeps(comp: string -> int, s: Node, t: int, path: string)
    requires Kept(comp, s) && Enabled(comp, s, ReadSync(t, path))
    ensures Kept(comp, Next(comp, s, ReadSync(t, path)))
  {
    hide JournalKept, PathKept, Covered, Placed, Behind, Has, HeldFor, Limit, OneFlushEach;
    KeptJournal(s);
    StillRenames(s, Next(comp, s, ReadSync(t, path)), t);
    ThreadsOnly(comp, s, Next(comp, s, ReadSync(t, path)));
  }

  lemma CreatedMatches(h: Held, added: seq<Item>, info: Info, info': Info)
    requires HeldMatches(h, added, info) && info.applied == [] && info'.applied == []
    ensures HeldMatches(h, added, info')
  {
    hide AtMost;
    var mem := h.flushing + h.records;
    var first := |added| - |mem|;
    assert EntriesMatch(mem, added[first..], |info.applied| - first, info.trailer);
    assert EntriesMatch(mem, added[first..], |info'.applied| - first, info'.trailer);
  }

  lemma WriteInfoPath(comp: string -> int, s: Node, t: int)
    requires Kept(comp, s) && Enabled(comp, s, WriteInfo(t)) && s.threads[t].path !in s.infos
    requires NothingClaimed(s, s.threads[t].path, s.threads[t].offset)
    ensures var s', path := Next(comp, s, WriteInfo(t)), s.threads[t].path;
            PathKept(comp, s', path) && OnlyAt(comp, s, s', path) && Extends(InfoOf(s', path), InfoOf(s, path))
  {
    hide JournalKept, Has, HeldFor, Placed, Covered, Ahead, Objects, HeldMatches, HeldAhead, RecordsAhead, OneFlushEach;
    var s', path := Next(comp, s, WriteInfo(t)), s.threads[t].path;
    KeptJournal(s);
    NoCopy(comp, s, path);
    assert PathKept(comp, s, path) && ThreadKept(comp, s, s.threads[t]);
    SameLimit(s, s');
    if Has(comp, s.mem, path) {
      CreatedMatches(HeldFor(comp, s.mem, path), Objects(s.journal[..s.added], path), InfoOf(s, path), InfoOf(s', path));
    }
  }

  lemma NoCopy(comp: string -> int, s: Node, path: string)
    requires Kept(comp, s) && path !in s.infos
    ensures path !in s.temps
  {
    hide Kept;
    if path in s.temps {
      CopyHasInfo(comp, s, path);
    }
  }

  /** A new info file keeps the invariant when its trailer claims no journaled record of the container. */
  lemma WriteInfoKeeps(comp: string -> int, s: Node, t: int)
    requires Kept(comp, s) && Enabled(comp, s, WriteInfo(t)) && CarefulStep(comp, s, WriteInfo(t))
    ensures Kept(comp, Next(comp, s, WriteInfo(t)))
  {
    hide JournalKept, Has, HeldFor, Placed, Covered, PathKept, Behind, NothingClaimed, Limit, OneFlushEach, OnlyAt, Extends;
    var s', path := Next(comp, s, WriteInfo(t)), s.threads[t].path;
    KeptJournal(s);
    StillRenames(s, s', t);
    forall u | u in s.threads ensures ThreadKept(comp, s, s.threads[u]) {
    }
    if path in s.infos {
      ThreadsOnly(comp, s, s');
    } else {
      WriteInfoPath(comp, s, t);
      forall u | u in s'.threads ensures ThreadKept(comp, s', s'.threads[u]) {
        if u != t {
          SameThread(comp, s, s', path, s.threads[u]);
        }
      }
      OneContainer(comp, s, s', path);
    }
  }

  // A record that the new trailer claims would be skipped by its flush.
  lemma WriteInfoLoses(comp: string -> int, s: Node, t: int)
    requires Kept(comp, s) && Enabled(comp, s, WriteInfo(t)) && !CarefulStep(comp, s, WriteInfo(t))
    ensures !PathKept(comp, Next(comp, s, WriteInfo(t)), s.threads[t].path)
  {
    hide JournalKept, ThreadKept, Covered, Placed, Has, HeldFor, Objects, MemoryMatches, HeldAhead, RecordsAhead, Limit;
    KeptJournal(s);
    var s', path, offset := Next(comp, s, WriteInfo(t)), s.threads[t].path, s.threads[t].offset;
    assert InfoOf(s', path) == Info([], offset) && s'.journal == s.journal && s'.added == s.added;
    var i :| 0 <= i < |Objects(s.journal, path)| && !Less(offset, Objects(s.journal, path)[i].end);
    assert !AppliedMatches(InfoOf(s', path), Objects(s.journal, path), |Objects(s.journal[..s.added], path)|);
  }

  lemma DropPath(comp: string -> int, s: Node, t: int)
    requires Kept(comp, s) && Enabled(comp, s, DropMemory(t)) && NothingDropped(comp, s, s.threads[t].path)
    ensures var s', path := Next(comp, s, DropMemory(t)), s.threads[t].path;
            && OnlyAt(comp, s, s', path) && PathKept(comp, s', path) && Extends(InfoOf(s', path), InfoOf(s, path))
            && forall p :: Has(comp, s.mem, p) && HeldFor(comp, s.mem, p).flushing != [] ==>
                 Has(comp, s'.mem, p) && HeldFor(comp, s'.mem, p) == HeldFor(comp, s.mem, p)
  {
    hide JournalKept, WithoutContainer, Has, HeldFor, Placed, Covered, Objects, HeldMatches, AppliedMatches, HeldAhead, RecordsAhead;
    var s', path := Next(comp, s, DropMemory(t)), s.threads[t].path;
    KeptJournal(s);
    assert PathKept(comp, s, path);
    SameLimit(s, s');
    WithoutAt(comp, s.mem, path, path);
    forall other
      ensures other != path ==> Has(comp, s'.mem, other) == Has(comp, s.mem, other)
      ensures other != path && Has(comp, s.mem, other) ==> HeldFor(comp, s'.mem, other) == HeldFor(comp, s.mem, other)
    {
      WithoutAt(comp, s.mem, path, other);
    }
  }

  lemma DropMemoryKeeps(comp: string -> int, s: Node, t: int)
    requires Kept(comp, s) && Enabled(comp, s, DropMemory(t)) && NothingDropped(comp, s, s.threads[t].path)
    ensures Kept(comp, Next(comp, s, DropMemory(t)))
  {
    hide JournalKept, WithoutContainer, Has, HeldFor, Placed, Covered, PathKept, Behind, OnlyAt, NothingDropped, Limit, OneFlushEach;
    var s', path := Next(comp, s, DropMemory(t)), s.threads[t].path;
    KeptJournal(s);
    StillRenames(s, s', t);
    DropPath(comp, s, t);
    WithoutPlaced(comp, s.mem, path);
    forall u | u in s'.threads ensures ThreadKept(comp, s', s'.threads[u]) {
      assert ThreadKept(comp, s, s.threads[u]);
      DropThread(comp, s, s', s.threads[u]);
    }
    OneContainer(comp, s, s', path);
  }

  lemma DropThread(comp: string -> int, s: Node, s': Node, phase: Phase)
    requires 0 < s.synced <= |s.journal| && ThreadKept(comp, s, phase)
    requires s' == s.(mem := s'.mem, threads := s'.threads)
    requires forall p :: Has(comp, s.mem, p) && HeldFor(comp, s.mem, p).flushing != [] ==>
               Has(comp, s'.mem, p) && HeldFor(comp, s'.mem, p) == HeldFor(comp, s.mem, p)
    ensures ThreadKept(comp, s', phase)
  {
    hide Has, HeldFor, Ahead;
    SameLimit(s, s');
    if phase.Setting? {
      SameCovered(s, s', phase.offset);
    }
  }

  // What is dropped from memory without a flush is in no info file.
  lemma DropMemoryLoses(comp: string -> int, s: Node, t: int)
    requires Kept(comp, s) && Enabled(comp, s, DropMemory(t)) && !NothingDropped(comp, s, s.threads[t].path)
    ensures !PathKept(comp, Next(comp, s, DropMemory(t)), s.threads[t].path)
  {
    hide JournalKept, WithoutContainer, Has, HeldFor, Placed, Covered, Objects, HeldMatches, AppliedMatches, HeldAhead, RecordsAhead;
    KeptJournal(s);
    WithoutAt(comp, s.mem, s.threads[t].path, s.threads[t].path);
  }

  // The state that the three steps of a creation leave when nothing comes in between.
  ghost function Created(comp: string -> int, s: Node, path: string): Node {
    s.(infos := s.infos[path := Info([], s.lastSync)], mem := WithoutContainer(comp, s.mem, path))
  }

  lemma CreatedInSteps(comp: string -> int, s: Node, t: int, path: string)
    requires t !in s.threads && path !in s.infos
    ensures Enabled(comp, s, ReadSync(t, path))
    ensures var s1 := Next(comp, s, ReadSync(t, path));
            && Enabled(comp, s1, WriteInfo(t))
            && var s2 := Next(comp, s1, WriteInfo(t));
               Enabled(comp, s2, DropMemory(t)) && Next(comp, s2, DropMemory(t)) == Created(comp, s, path)
  {
    hide WithoutContainer;
    var s1 := Next(comp, s, ReadSync(t, path));
    var s2 := Next(comp, s1, WriteInfo(t));
    assert Next(comp, s2, DropMemory(t)).threads == s.threads;
  }

  /** A creation without interruption keeps the invariant exactly when no journaled record of the container,
      added to memory or not, ends at or before the last sync, and none is pending without a flush. */
  lemma CreateKeepsIff(comp: string -> int, s: Node, t: int, path: string)
    requires Kept(comp, s) && t !in s.threads && path !in s.infos
    ensures var s1 := Next(comp, s, ReadSync(t, path));
            && Enabled(comp, s1, WriteInfo(t))
            && var s2 := Next(comp, s1, WriteInfo(t));
               && Enabled(comp, s2, DropMemory(t))
               && (Kept(comp, Next(comp, s2, DropMemory(t))) <==>
                     NothingClaimed(s, path, s.lastSync) && NothingDropped(comp, s, path))
  {
    hide Kept, Next, Enabled, Created, NothingClaimed, NothingDropped;
    CreatedInSteps(comp, s, t, path);
    if NothingClaimed(s, path, s.lastSync) && NothingDropped(comp, s, path) {
      CreationKeeps(comp, s, t, path);
    } else {
      CreationLoses(comp, s, path);
    }
  }

  lemma CreationKeeps(comp: string -> int, s: Node, t: int, path: string)
    requires Kept(comp, s) && t !in s.threads && path !in s.infos
    requires NothingClaimed(s, path, s.lastSync) && NothingDropped(comp, s, path)
    ensures Kept(comp, Created(comp, s, path))
  {
    hide Kept, WithoutContainer, Has, HeldFor, Objects;
    CreatedInSteps(comp, s, t, path);
    var s1 := Next(comp, s, ReadSync(t, path));
    ReadSyncKeeps(comp, s, t, path);
    WriteInfoKeeps(comp, s1, t);
    DropMemoryKeeps(comp, Next(comp, s1, WriteInfo(t)), t);
  }

  lemma CreationLoses(comp: string -> int, s: Node, path: string)
    requires Kept(comp, s) && path !in s.infos
    requires !NothingClaimed(s, path, s.lastSync) || !NothingDropped(comp, s, path)
    ensures !Kept(comp, Created(comp, s, path))
  {
    hide JournalKept, ThreadKept, Covered, Placed, WithoutContainer, Has, HeldFor, Objects, HeldMatches, HeldAhead, RecordsAhead;
    KeptJournal(s);
    var s' := Created(comp, s, path);
    WithoutAt(comp, s.mem, path, path);
    NoCopy(comp, s, path);
    assert InfoOf(s', path) == Info([], s.lastSync) && Upcoming(s', path) == InfoOf(s', path);
    if !NothingClaimed(s, path, s.lastSync) {
      var i :| 0 <= i < |Objects(s.journal, path)| && !Less(s.lastSync, Objects(s.journal, path)[i].end);
      assert !AppliedMatches(InfoOf(s', path), Objects(s.journal, path), |Objects(s.journal[..s.added], path)|);
    } else {
      assert !MemoryMatches(comp, s'.mem, path, Objects(s.journal[..s.added], path), InfoOf(s', path));
    }
    assert !PathKept(comp, s', path);
  }

  // ----- A crash

  lemma CrashReplayed(comp: string -> int, s: Node, n: nat, path: string)
    requires Kept(comp, s) && Enabled(comp, s, Crash(n))
    ensures Replayed(comp, Next(comp, s, Crash(n)).mem, path, Objects(s.journal[..n], path), InfoOf(s, path))
  {
    hide Has, HeldFor, Placed, ThreadKept, Replay, Objects, Recorded, MemoryMatches, HeldAhead, RecordsAhead, Replayed;
    var s' := Next(comp, s, Crash(n));
    var kept := s.journal[..n];
    assert PathKept(comp, s, path);
    var i := RecordedIsHeader(kept);
    assert ItemKept(s, s.journal[i]);
    CrashLimit(s, s', n);
    CrashApplied(s, n, path);
    CrashCovers(s, n, path, Recorded(kept));
    CrashMarkers(s, n, path);
    assert kept[..n] == kept;
    ReplayMatches(comp, kept, Recorded(kept), n, path, InfoOf(s, path));
  }

  lemma CrashPath(comp: string -> int, s: Node, n: nat, path: string)
    requires Kept(comp, s) && Enabled(comp, s, Crash(n))
    ensures PathKept(comp, Next(comp, s, Crash(n)), path)
  {
    hide Has, HeldFor, Placed, ThreadKept, Replay, Objects, Recorded, MemoryMatches, HeldAhead, RecordsAhead, Replayed;
    var s' := Next(comp, s, Crash(n));
    var kept, info := s.journal[..n], InfoOf(s, path);
    assert PathKept(comp, s, path);
    CrashLimit(s, s', n);
    CrashApplied(s, n, path);
    assert kept[..n] == kept;
    CrashReplayed(comp, s, n, path);
    ReplayedMatches(comp, s'.mem, path, kept, info, Limit(s'));
    ReplayFlushesNothing(comp, s'.mem, path, Objects(kept, path), info);
    InOrder(info.trailer, Upcoming(s, path).trailer, Limit(s));
    InOrder(info.trailer, Limit(s), Limit(s'));
  }

  lemma ReplayFlushesNothing(comp: string -> int, m: Memory, path: string, objects: seq<Item>, info: Info)
    requires Replayed(comp, m, path, objects, info)
    ensures Has(comp, m, path) ==> HeldFor(comp, m, path).flushing == []
  {
    hide Has, HeldFor;
  }

  lemma CrashLimit(s: Node, s': Node, n: nat)
    requires JournalKept(s) && s.synced <= n <= |s.journal|
    requires s'.journal == s.journal[..n] && s'.synced == n && s'.newest == s.newest
    ensures Ordered(s'.journal) && AtMost(Limit(s), Limit(s'))
    ensures forall i :: 0 <= i < n ==> AtMost(s'.journal[i].end, Limit(s'))
    ensures AtMost(Offset(s'.journal[n - 1].end.file, 0), Limit(s'))
  {
    hide Objects, ItemKept;
    LimitGrows(s, s');
    forall i | 0 <= i < n ensures AtMost(s'.journal[i].end, Limit(s')) {
      EndBehindLast(s'.journal, i, n - 1, Limit(s'));
    }
  }

  lemma CrashApplied(s: Node, n: nat, path: string)
    requires JournalKept(s) && s.synced <= n <= |s.journal|
    requires AppliedMatches(InfoOf(s, path), Objects(s.journal, path), |Objects(s.journal[..s.added], path)|)
    ensures var kept := s.journal[..n];
            && AppliedMatches(InfoOf(s, path), Objects(kept, path), |Objects(kept, path)|)
            && RestNotApplied(kept, path, InfoOf(s, path))
  {
    hide Objects, ItemKept, Ordered;
    var kept := s.journal[..n];
    ObjectsPrefix(s.journal, n, path);
    ObjectsPrefix(kept, s.added, path);
    assert kept[..s.added] == s.journal[..s.added];
  }

  lemma CrashCovers(s: Node, n: nat, path: string, offset: Offset)
    requires 0 < s.synced <= |s.journal| && n <= |s.journal| && Covered(s, offset)
    ensures Covers(s.journal[..n], path, InfoOf(s, path), offset)
  {
    assert Covers(s.journal, path, InfoOf(s, path), offset);
    ObjectsPrefix(s.journal, n, path);
  }

  lemma CrashMarkers(s: Node, n: nat, path: string)
    requires JournalKept(s) && n <= |s.journal|
    ensures MarkersBehind(s.journal[..n], path, InfoOf(s, path))
  {
    hide Objects, Ordered, Covered;
    var kept := s.journal[..n];
    forall i | 0 <= i < n && kept[i].content.EndFlush? && kept[i].content.path == path
      ensures AtMost(kept[i].content.sync, InfoOf(s, path).trailer)
    {
      assert ItemKept(s, s.journal[i]);
    }
  }

  lemma {:induction false} ReplayPlaced(comp: string -> int, journal: seq<Item>, from: Offset, n: nat)
    requires n <= |journal|
    ensures Placed(comp, Replay(comp, journal, from, n))
    decreases n
  {
    if n > 0 {
      ReplayPlaced(comp, journal, from, n - 1);
      RecoverPlaced(comp, Replay(comp, journal, from, n - 1), journal[n - 1]);
    }
  }

  lemma RecoverPlaced(comp: string -> int, m: Memory, item: Item)
    requires Placed(comp, m)
    ensures Placed(comp, RecoverItem(comp, m, item))
  {
    hide Removed;
  }

  lemma CrashKeeps(comp: string -> int, s: Node, n: nat)
    requires Kept(comp, s) && Enabled(comp, s, Crash(n))
    ensures Kept(comp, Next(comp, s, Crash(n)))
  {
    hide Has, HeldFor, Placed, PathKept, Replay, Objects, Recorded, ThreadKept, Ordered;
    var s' := Next(comp, s, Crash(n));
    CrashLimit(s, s', n);
    forall path ensures PathKept(comp, s', path) {
      CrashPath(comp, s, n, path);
    }
    ReplayPlaced(comp, s'.journal, Recorded(s'.journal), n);
    forall i | 0 <= i < |s'.journal| ensures ItemKept(s', s'.journal[i]) {
      assert ItemKept(s, s.journal[i]);
      if s.journal[i].content.Header? {
        InOrder(s.journal[i].content.commit, Limit(s), Limit(s'));
        forall path ensures Covers(s'.journal, path, InfoOf(s', path), s.journal[i].content.commit) {
          CrashCovers(s, n, path, s.journal[i].content.commit);
        }
      }
    }
    CrashTail(s, s', n);
  }

  lemma CrashTail(s: Node, s': Node, n: nat)
    requires JournalKept(s) && s.synced <= n <= |s.journal| && s'.journal == s.journal[..n]
    requires s'.tail == s'.journal[n - 1].end && s'.newest == s.newest
    ensures s'.tail.file <= s'.newest < NO_OFFSET.file
    ensures forall i :: 0 <= i < n ==> AtMost(s'.journal[i].end, s'.tail)
  {
    hide Objects, ItemKept;
    assert AtMost(s.journal[n - 1].end, s.tail);
    assert Ordered(s'.journal);
    forall i | 0 <= i < n ensures AtMost(s'.journal[i].end, s'.tail) {
      EndBehindLast(s'.journal, i, n - 1, s'.tail);
    }
  }

  lemma NoCopies(s: Node)
    requires OneFlushEach(s) && s.threads == map[]
    ensures s.temps == map[]
  {
    forall path ensures path !in s.temps {
      assert path in s.temps ==> Renames(s, path);
    }
  }

  lemma FinishKeeps(comp: string -> int, s: Node, file: nat)
    requires Kept(comp, s) && Enabled(comp, s, FinishRecovery(file))
    ensures Kept(comp, Next(comp, s, FinishRecovery(file)))
  {
    hide Has, HeldFor, Placed, Objects, Ordered, AppliedMatches, MemoryMatches, Covers;
    var s' := Next(comp, s, FinishRecovery(file));
    LimitGrows(s, s');
    NoCopies(s);
    forall path ensures PathKept(comp, s', path) && Covers(s'.journal, path, InfoOf(s', path), s'.commit) {
      assert PathKept(comp, s, path);
      InOrder(InfoOf(s, path).trailer, Limit(s), Limit(s'));
      CoversFrom(comp, s, path, s'.commit);
    }
    forall i | 0 <= i < |s'.journal| ensures ItemKept(s', s'.journal[i]) {
      assert ItemKept(s, s.journal[i]);
      if s.journal[i].content.Header? {
        SameCovered(s, s', s.journal[i].content.commit);
      }
    }
  }

  lemma StepKeeps(comp: string -> int, s: Node, step: Step)
    requires Kept(comp, s) && Enabled(comp, s, step) && CarefulStep(comp, s, step)
    ensures Kept(comp, Next(comp, s, step))
  {
    hide Kept;
    match step
    case WriteObject(path, r, start, end) => WriteKeeps(comp, s, start, end, Object(path, r));
    case Sync => SyncKeeps(comp, s);
    case AddBatch => BatchKeeps(comp, s);
    case ReadSync(t, path) => ReadSyncKeeps(comp, s, t, path);
    case WriteInfo(t) => WriteInfoKeeps(comp, s, t);
    case DropMemory(t) => DropMemoryKeeps(comp, s, t);
    case StartFlushOf(t, path) => StartFlushKeeps(comp, s, t, path);
    case ReleaseMemory(t) => ReleaseKeeps(comp, s, t);
    case RenameFile(t) => RenameKeeps(comp, s, t);
    case MarkEnd(t, start, end) => MarkEndKeeps(comp, s, t, start, end);
    case ReadMinimum(t, minimum) => ReadKeeps(comp, s, t, minimum);
    case SetCommit(t) => SetCommitKeeps(comp, s, t);
    case WriteHeader(start, end) => HeaderKeeps(comp, s, start, end);
    case WriteOther(start, end) => WriteKeeps(comp, s, start, end, Other);
    case Crash(n) => CrashKeeps(comp, s, n);
    case FinishRecovery(file) => FinishKeeps(comp, s, file);
  }

  /** Exactly the careful steps keep the invariant. */
  lemma StepKeepsIff(comp: string -> int, s: Node, step: Step)
    requires Kept(comp, s) && Enabled(comp, s, step)
    ensures Kept(comp, Next(comp, s, step)) <==> CarefulStep(comp, s, step)
  {
    if CarefulStep(comp, s, step) {
      StepKeeps(comp, s, step);
    } else {
      StepLoses(comp, s, step);
    }
  }

  lemma StepLoses(comp: string -> int, s: Node, step: Step)
    requires Kept(comp, s) && Enabled(comp, s, step) && !CarefulStep(comp, s, step)
    ensures !Kept(comp, Next(comp, s, step))
  {
    hide JournalKept, PathKept, Next, NothingBefore, NotAhead, NothingClaimed, NothingDropped, Placed, ThreadKept, Behind, Covered,
      SyncKept;
    match step
    case WriteInfo(t) => WriteInfoLoses(comp, s, t);
    case DropMemory(t) => DropMemoryLoses(comp, s, t);
    case ReleaseMemory(t) => ReleaseLoses(comp, s, t);
    case ReadMinimum(t, minimum) => ReadLoses(comp, s, t, minimum);
    case WriteHeader(start, end) => HeaderLoses(comp, s, start, end);
    case _ =>
  }

  lemma WriteKeeps(comp: string -> int, s: Node, start: Offset, end: Offset, content: Content)
    requires Kept(comp, s) && Appends(s, start, end) && (content.Object? ==> !s.recovering)
    requires content.Object? || content.Other?
    ensures Kept(comp, Written(s, start, end, content))
  {
    KeptJournal(s);
    WrittenKeeps(comp, s, start, end, content);
  }
}
