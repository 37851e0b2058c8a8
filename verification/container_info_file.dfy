/** The info file of a container: a sorted part, an unsorted tail of later records, and a statistic. */
module ContainerInfo {
  import opened ContainerMemory
  import opened Names
  import opened InfoFileSorting
  import opened InfoView

  datatype InfoFile = InfoFile(sorted: seq<Record>, unsorted: seq<Record>, stat: Stat, journalOffset: Offset)

  const COMPACTION_THRESHOLD := 5000

  predicate WellFormed(f: InfoFile) {
    Ascending(f.sorted) && Named(f.sorted) && Named(f.unsorted)
  }

  // The records of a merge that are not deletions.
  function Kept(q: seq<Record>): seq<Record> {
    if q == [] then [] else Kept(q[..|q| - 1]) + (if Deleted(q[|q| - 1]) then [] else [q[|q| - 1]])
  }

  function Tally(q: seq<Record>): Stat {
    if q == [] then NO_STAT else Plus(Tally(q[..|q| - 1]), Stat(q[|q| - 1].size, 1))
  }

  function Sources(f: InfoFile): seq<seq<Record>> {
    [f.sorted, Latest(f.unsorted)]
  }

  /** The live records of a file in ascending order of their names. */
  function View(f: InfoFile): seq<Record> {
    Kept(Merge(Sources(f)))
  }

  function Compacted(f: InfoFile): InfoFile {
    InfoFile(View(f), [], Tally(View(f)), f.journalOffset)
  }

  /** The statistic after one flushed record: counts do not fall below zero. */
  function StatAfter(stat: Stat, r: Record): Stat {
    match r.flag
    case Add => Stat(stat.bytes + r.size, stat.count + 1)
    case Delete =>
      Stat(if stat.bytes >= r.size then stat.bytes - r.size else 0, if stat.count > 0 then stat.count - 1 else stat.count)
    case Modify =>
      var bytes := stat.bytes + (r.size - r.oldSize);
      stat.(bytes := if bytes < 0 then 0 else bytes)
    case _ => stat
  }

  function StatAfterAll(stat: Stat, q: seq<Pending>): Stat {
    if q == [] then stat else StatAfter(StatAfterAll(stat, q[..|q| - 1]), q[|q| - 1].record)
  }

  function RecordsOf(q: seq<Pending>): seq<Record> {
    if q == [] then [] else RecordsOf(q[..|q| - 1]) + [q[|q| - 1].record]
  }

  predicate Unknown(r: Record) {
    r.flag == UnknownAdd || r.flag == UnknownDelete
  }

  predicate AnyUnknown(q: seq<Pending>) {
    exists i :: 0 <= i < |q| && Unknown(q[i].record)
  }

  function MadeRoom(f: InfoFile, n: nat): InfoFile {
    if |f.unsorted| + n >= COMPACTION_THRESHOLD then Compacted(f) else f
  }

  // The records to flush that the file does not hold yet.
  function Unflushed(f: InfoFile, q: seq<Pending>): seq<Pending> {
    q[CountUpTo(q, f.journalOffset)..]
  }

  function Appended(f: InfoFile, q: seq<Pending>): InfoFile
    requires q != []
  {
    InfoFile(f.sorted, f.unsorted + RecordsOf(q), StatAfterAll(f.stat, q), q[|q| - 1].offset)
  }

  function Flushed(f: InfoFile, q: seq<Pending>, unknown: bool): InfoFile {
    var roomy := MadeRoom(f, |q|);
    var left := Unflushed(roomy, q);
    if left == [] then (if unknown && roomy.unsorted != [] then Compacted(roomy) else roomy)
    else
      var appended := Appended(roomy, left);
      if unknown || AnyUnknown(left) then Compacted(appended) else appended
  }

  // ----- Listing

  // What the sorter is started with for a query.
  function StartMarker(q: Query): string {
    if Before(q.prefix, q.marker) then q.marker else q.prefix
  }

  predicate AtPrefix(q: Query) {
    Before(q.marker, q.prefix)
  }

  predicate AfterMarker(q: Query, name: string) {
    q.marker == "" || Before(q.marker, name)
  }

  // The names that the skipping must not lose.
  predicate Wanted(q: Query, name: string) {
    q.prefix <= name && AfterMarker(q, name)
  }

  lemma {:induction false} FromMarkerSuffix(list: seq<Record>, marker: string, prefix: bool)
    ensures var rest := FromMarker(list, marker, prefix); rest == list[|list| - |rest|..]
    decreases |list|
  {
    if list != [] {
      FromMarkerSuffix(list[1..], marker, prefix);
    }
  }

  lemma {:induction false} AfterSkipping(list: seq<Record>, marker: string, x: Record)
    requires Ascending(list)
    ensures x in FromMarker(list, marker, false) <==> x in list && !Before(x.name, marker)
    decreases |list|
  {
    if list != [] {
      StrncmpOfPrefix(marker, list[0].name);
      assert list == [list[0]] + list[1..];
      if Before(list[0].name, marker) {
        AfterSkipping(list[1..], marker, x);
      } else if x in list {
        var i :| 0 <= i < |list| && list[i] == x;
        BeforeOrSame(marker, list[0].name, x.name);
        BeforeTotal(marker, x.name);
      }
    }
  }

  lemma {:induction false} FromPrefix(list: seq<Record>, prefix: string, x: Record)
    requires Ascending(list)
    ensures x in FromMarker(list, prefix, true) ==> x in list && !Before(x.name, prefix)
    ensures x in list && prefix <= x.name ==> x in FromMarker(list, prefix, true)
    decreases |list|
  {
    if list != [] {
      StrncmpOfPrefix(prefix, list[0].name);
      PrefixNotAfter(prefix, list[0].name);
      assert list == [list[0]] + list[1..];
      if !(prefix <= list[0].name) {
        FromPrefix(list[1..], prefix, x);
      } else if x in list {
        var i :| 0 <= i < |list| && list[i] == x;
        BeforeOrSame(prefix, list[0].name, x.name);
        BeforeTotal(prefix, x.name);
      }
    }
  }

  // An iterator starts at a suffix that has every wanted name, and none before the prefix or up to the marker.
  lemma StartedList(list: seq<Record>, q: Query, x: Record)
    requires Ascending(list) && Named(list)
    ensures var rest := Started(list, StartMarker(q), AtPrefix(q));
            && (x in rest ==> x in list && !Before(x.name, q.prefix) && AfterMarker(q, x.name))
            && (x in list && Wanted(q, x.name) ==> x in rest)
  {
    var m := StartMarker(q);
    var kept := FromMarker(list, m, AtPrefix(q));
    BeforeTotal(q.prefix, q.marker);
    FromMarkerSuffix(list, m, AtPrefix(q));
    BeforeOrSame(q.marker, q.prefix, x.name);
    BeforeTotal(x.name, q.marker);
    BeforeTotal(x.name, q.prefix);
    BeforeOrSame(q.prefix, q.marker, x.name);
    if AtPrefix(q) {
      FromPrefix(list, m, x);
    } else {
      AfterSkipping(list, m, x);
      if m != "" && kept != [] {
        forall i | 0 <= i < |kept| ensures !Before(kept[i].name, m) {
          AfterSkipping(list, m, kept[i]);
        }
        EqualFirst(m, kept, x);
      }
    }
  }

  // Of names not before the marker, the marker itself can only come first.
  lemma EqualFirst(m: string, kept: seq<Record>, x: Record)
    requires Ascending(kept) && kept != [] && forall i :: 0 <= i < |kept| ==> !Before(kept[i].name, m)
    ensures kept[0].name == m ==> (x in kept[1..] <==> x in kept && x.name != m)
    ensures kept[0].name != m ==> x in kept ==> x.name != m
    ensures Strncmp(m, kept[0].name, |m|) == 0 && |kept[0].name| == |m| <==> kept[0].name == m
  {
    StrncmpOfPrefix(m, kept[0].name);
    assert kept == [kept[0]] + kept[1..];
    forall i | 0 < i < |kept| ensures kept[i].name != m {
      BeforeTotal(kept[0].name, m);
      BeforeTotal(kept[0].name, kept[i].name);
    }
  }

  function ListingSources(f: InfoFile, memory: seq<Record>): seq<seq<Record>> {
    [f.sorted, Latest(f.unsorted), Latest(memory)]
  }

  lemma SourcesMergeable(f: InfoFile, memory: seq<Record>)
    requires WellFormed(f) && Named(memory)
    ensures Mergeable(Sources(f)) && Mergeable(ListingSources(f, memory))
  {
    LatestIsCurrent(f.unsorted);
    LatestIsCurrent(memory);
  }

  lemma StartedNames(list: seq<Record>, q: Query, name: string)
    requires Ascending(list) && Named(list) && Wanted(q, name)
    ensures HasName(Started(list, StartMarker(q), AtPrefix(q)), name) <==> HasName(list, name)
  {
    var rest := Started(list, StartMarker(q), AtPrefix(q));
    if i :| 0 <= i < |rest| && rest[i].name == name {
      StartedList(list, q, rest[i]);
    }
    if i :| 0 <= i < |list| && list[i].name == name {
      StartedList(list, q, list[i]);
      var j :| 0 <= j < |rest| && rest[j] == list[i];
    }
  }

  lemma StartedMergeable(lists: seq<seq<Record>>, q: Query)
    requires Mergeable(lists)
    ensures Mergeable(AllStarted(lists, StartMarker(q), AtPrefix(q)))
  {
    forall i | 0 <= i < |lists|
      ensures Ascending(Started(lists[i], StartMarker(q), AtPrefix(q))) && Named(Started(lists[i], StartMarker(q), AtPrefix(q)))
    {
      FromMarkerSuffix(lists[i], StartMarker(q), AtPrefix(q));
    }
  }

  /** Starting the iterators late keeps every wanted record, and what is left is not before the prefix. */
  lemma StartedMerge(lists: seq<seq<Record>>, q: Query, r: Record)
    requires Mergeable(lists)
    ensures var started := AllStarted(lists, StartMarker(q), AtPrefix(q));
            && Mergeable(started)
            && (r in Merge(started) ==> !Before(r.name, q.prefix) && AfterMarker(q, r.name))
            && (Wanted(q, r.name) ==> (r in Merge(started) <==> Wins(lists, r)))
  {
    var started := AllStarted(lists, StartMarker(q), AtPrefix(q));
    StartedMergeable(lists, q);
    MergeIsOverride(started);
    forall i | 0 <= i < |lists|
      ensures r in started[i] ==> !Before(r.name, q.prefix) && AfterMarker(q, r.name)
      ensures Wanted(q, r.name) ==> (r in started[i] <==> r in lists[i])
      ensures Wanted(q, r.name) ==> (HasName(started[i], r.name) <==> HasName(lists[i], r.name))
    {
      StartedList(lists[i], q, r);
      if Wanted(q, r.name) {
        StartedNames(lists[i], q, r.name);
      }
    }
    if Wanted(q, r.name) {
      forall i | 0 <= i < |lists| ensures WinsFrom(started, i, r) <==> WinsFrom(lists, i, r) {
      }
    }
  }

  // What the listing has taken from the part of the merge that it has seen.
  function Taken(seen: seq<Record>, prefix: string): seq<Record> {
    if seen == [] then [] else
      var r := seen[|seen| - 1];
      Taken(seen[..|seen| - 1], prefix) + (if !Deleted(r) && prefix <= r.name then [r] else [])
  }

  lemma {:induction false} TakenIn(seen: seq<Record>, prefix: string, x: Record)
    ensures x in Taken(seen, prefix) <==> x in seen && !Deleted(x) && prefix <= x.name
    decreases |seen|
  {
    if seen != [] {
      assert seen == seen[..|seen| - 1] + [seen[|seen| - 1]];
      TakenIn(seen[..|seen| - 1], prefix, x);
    }
  }

  lemma {:induction false} TakenAscends(seen: seq<Record>, prefix: string)
    requires Ascending(seen)
    ensures Ascending(Taken(seen, prefix))
    decreases |seen|
  {
    hide Taken;
    if seen == [] {
      NothingSeen(prefix);
    } else {
      var before, last := seen[..|seen| - 1], seen[|seen| - 1];
      assert seen == before + [last];
      TakenAscends(before, prefix);
      TakenOneMore(before, last, prefix);
      forall i | 0 <= i < |Taken(before, prefix)| ensures Before(Taken(before, prefix)[i].name, last.name) {
        TakenIn(before, prefix, Taken(before, prefix)[i]);
        var j :| 0 <= j < |before| && before[j] == Taken(before, prefix)[i];
        assert seen[j] == before[j];
      }
      AppendAscends(Taken(before, prefix), last);
    }
  }

  lemma TakenOneMore(seen: seq<Record>, r: Record, prefix: string)
    ensures Taken(seen + [r], prefix) == Taken(seen, prefix) + (if !Deleted(r) && prefix <= r.name then [r] else [])
  {
    assert (seen + [r])[..|seen|] == seen;
  }

  // Why the listing stopped before the rest of the merge.
  predicate Stopped(q: Query, result: seq<Record>, rest: seq<Record>) {
    || rest == []
    || !BeforeEnd(rest[0].name, q.endMarker)
    || (q.count != 0 && |result| >= q.count)
    || !(q.prefix <= rest[0].name)
  }

  lemma RestDoesNotMatch(q: Query, seen: seq<Record>, rest: seq<Record>, result: seq<Record>, r: Record)
    requires Ascending(seen + rest) && result == Taken(seen, q.prefix) && Stopped(q, result, rest)
    requires q.count != 0 ==> |result| <= q.count
    requires forall i :: 0 <= i < |rest| ==> !Before(rest[i].name, q.prefix)
    requires r in rest && InRange(q, r.name)
    ensures LeftOut(q, result, r)
  {
    var k :| 0 <= k < |rest| && rest[k] == r;
    var all := seen + rest;
    assert all[|seen| + k] == r && all[|seen|] == rest[0];
    assert k > 0 ==> Before(all[|seen|].name, all[|seen| + k].name);
    BeforeOrSame(q.endMarker, rest[0].name, r.name);
    BeforeTotal(rest[0].name, q.endMarker);
    BeforeTotal(r.name, q.endMarker);
    if !(q.prefix <= rest[0].name) {
      PrefixedFirst(q.prefix, r.name, rest[0].name);
      BeforeTotal(r.name, rest[0].name);
    }
    forall i | 0 <= i < |result| ensures Before(result[i].name, r.name) {
      TakenIn(seen, q.prefix, result[i]);
      var j :| 0 <= j < |seen| && seen[j] == result[i];
      assert all[j] == seen[j];
    }
  }

  /** What the loop over the merge has taken when it stops is the listing of the query. */
  lemma StoppedIsListing(f: InfoFile, memory: seq<Record>, q: Query, seen: seq<Record>, rest: seq<Record>, result: seq<Record>)
    requires WellFormed(f) && Named(memory)
    requires seen + rest == Merge(AllStarted(ListingSources(f, memory), StartMarker(q), AtPrefix(q)))
    requires result == Taken(seen, q.prefix) && Stopped(q, result, rest) && (q.count != 0 ==> |result| <= q.count)
    requires forall i :: 0 <= i < |seen| ==> BeforeEnd(seen[i].name, q.endMarker)
    ensures IsListing(f.sorted + f.unsorted + memory, q, result)
  {
    var log, lists := f.sorted + f.unsorted + memory, ListingSources(f, memory);
    var started := AllStarted(lists, StartMarker(q), AtPrefix(q));
    SourcesMergeable(f, memory);
    StartedMergeable(lists, q);
    MergeIsOverride(started);
    SeenAscends(seen, rest);
    TakenAscends(seen, q.prefix);
    forall r | r in result ensures Matches(log, q, r) {
      TakenIn(seen, q.prefix, r);
      assert r in seen + rest;
      StartedMerge(lists, q, r);
      WinsOfThree(f.sorted, f.unsorted, memory, r);
    }
    forall i | 0 <= i < |rest| ensures !Before(rest[i].name, q.prefix) {
      assert rest[i] in seen + rest;
      StartedMerge(lists, q, rest[i]);
    }
    forall r | Matches(log, q, r) ensures r in result || LeftOut(q, result, r) {
      WinsOfThree(f.sorted, f.unsorted, memory, r);
      StartedMerge(lists, q, r);
      assert r in seen || r in rest;
      TakenIn(seen, q.prefix, r);
      if r in rest {
        RestDoesNotMatch(q, seen, rest, result, r);
      }
    }
  }

  lemma SeenAscends(seen: seq<Record>, rest: seq<Record>)
    requires Ascending(seen + rest)
    ensures Ascending(seen)
  {
    assert forall i :: 0 <= i < |seen| ==> (seen + rest)[i] == seen[i];
  }

  // ----- The view

  lemma {:induction false} KeptIn(q: seq<Record>, x: Record)
    ensures x in Kept(q) <==> x in q && !Deleted(x)
    decreases |q|
  {
    if q != [] {
      assert q == q[..|q| - 1] + [q[|q| - 1]];
      KeptIn(q[..|q| - 1], x);
    }
  }

  lemma {:induction false} KeptAscends(q: seq<Record>)
    requires Ascending(q)
    ensures Ascending(Kept(q)) && (Named(q) ==> Named(Kept(q)))
    decreases |q|
  {
    hide Kept;
    if q == [] {
      NothingSeen("");
    } else {
      var before, last := q[..|q| - 1], q[|q| - 1];
      assert q == before + [last];
      KeptAscends(before);
      KeptOneMore(before, last);
      forall i | 0 <= i < |Kept(before)| ensures Before(Kept(before)[i].name, last.name) {
        KeptIn(before, Kept(before)[i]);
        var j :| 0 <= j < |before| && before[j] == Kept(before)[i];
        assert q[j] == before[j];
      }
      AppendAscends(Kept(before), last);
    }
  }

  lemma AppendAscends(q: seq<Record>, r: Record)
    requires Ascending(q) && forall i :: 0 <= i < |q| ==> Before(q[i].name, r.name)
    ensures Ascending(q + [r]) && q + [] == q
    ensures Named(q) && IsName(r.name) ==> Named(q + [r])
  {
  }

  lemma KeptOneMore(q: seq<Record>, r: Record)
    ensures Kept(q + [r]) == Kept(q) + (if Deleted(r) then [] else [r])
  {
    assert (q + [r])[..|q|] == q;
  }

  lemma TallyOneMore(q: seq<Record>, r: Record)
    ensures Tally(q + [r]) == Plus(Tally(q), Stat(r.size, 1))
  {
    assert (q + [r])[..|q|] == q;
  }

  /** The view has exactly the live records of the file, in strictly ascending order of their names. */
  lemma ViewIsLive(f: InfoFile)
    requires WellFormed(f)
    ensures Ascending(View(f)) && Named(View(f))
    ensures forall r :: r in View(f) <==> IsLive(f.sorted + f.unsorted, r)
  {
    SourcesMergeable(f, []);
    MergeIsOverride(Sources(f));
    KeptAscends(Merge(Sources(f)));
    forall r ensures r in View(f) <==> IsLive(f.sorted + f.unsorted, r) {
      KeptIn(Merge(Sources(f)), r);
      WinsOfTwo(f.sorted, f.unsorted, r);
    }
  }

  /** A compaction by the flags: of the last records of all names it keeps those that are added, modified, or
      added by a node that is not known to have finished, once each and in ascending order, and it drops the
      names whose last record is a deletion, known to have finished or not. */
  lemma KeptByFlag(f: InfoFile)
    requires WellFormed(f)
    ensures var f', log := Compacted(f), f.sorted + f.unsorted;
            && Ascending(f'.sorted) && f'.unsorted == [] && f'.journalOffset == f.journalOffset
            && f'.stat.count == |f'.sorted|
            && (forall r :: r in f'.sorted <==> IsCurrent(log, r) && (r.flag == Add || r.flag == Modify || r.flag == UnknownAdd))
            && (forall r :: IsCurrent(log, r) && (r.flag == Delete || r.flag == UnknownDelete) ==> !HasName(f'.sorted, r.name))
  {
    hide View, Tally, Ascending, Before, IsCurrent;
    var live, log := View(f), f.sorted + f.unsorted;
    ViewIsLive(f);
    TallyCounts(live);
    forall r | IsCurrent(log, r) && HasName(live, r.name) ensures r in live {
      var k :| 0 <= k < |live| && live[k].name == r.name;
      assert live[k] in live;
      CurrentUnique(log, r, live[k]);
    }
  }

  lemma {:induction false} TallyCounts(q: seq<Record>)
    ensures Tally(q).count == |q|
    decreases |q|
  {
    if q != [] {
      TallyCounts(q[..|q| - 1]);
    }
  }

  // ----- Compaction preserves meaning

  lemma CompactedIsLive(f: InfoFile, r: Record)
    requires WellFormed(f)
    ensures WellFormed(Compacted(f))
    ensures IsLive(Compacted(f).sorted, r) <==> IsLive(f.sorted + f.unsorted, r)
  {
    ViewIsLive(f);
    AscendingIsCurrent(View(f), r);
  }

  /** A listing together with any records in memory is the same before and after a compaction. */
  lemma CompactionKeepsListings(f: InfoFile, memory: seq<Record>, q: Query, result: seq<Record>)
    requires WellFormed(f)
    ensures IsListing(f.sorted + f.unsorted + memory, q, result)
       <==> IsListing(Compacted(f).sorted + Compacted(f).unsorted + memory, q, result)
  {
    var log, live := f.sorted + f.unsorted, Compacted(f).sorted;
    assert live + [] == live;
    forall r ensures Matches(log + memory, q, r) <==> Matches(live + memory, q, r) {
      CompactedIsLive(f, r);
      CurrentOfBoth(log, memory, r);
      CurrentOfBoth(live, memory, r);
    }
    SameMatches(log + memory, live + memory, q, result);
  }

  lemma SameMatches(a: seq<Record>, b: seq<Record>, q: Query, result: seq<Record>)
    requires forall r :: Matches(a, q, r) <==> Matches(b, q, r)
    ensures IsListing(a, q, result) <==> IsListing(b, q, result)
  {
  }

  /** Compacting a compacted file changes nothing. */
  lemma CompactionIsIdempotent(f: InfoFile)
    requires WellFormed(f)
    ensures Compacted(Compacted(f)) == Compacted(f)
  {
    var once := Compacted(f);
    CompactedIsWellFormed(f);
    ViewIsLive(f);
    ViewIsLive(once);
    assert once.sorted + once.unsorted == once.sorted;
    forall r ensures r in View(once) <==> r in once.sorted {
      CompactedIsLive(f, r);
    }
    AscendingUnique(View(once), once.sorted);
  }

  lemma CompactedIsWellFormed(f: InfoFile)
    requires WellFormed(f)
    ensures WellFormed(Compacted(f))
  {
    ViewIsLive(f);
  }

  // ----- The statistic of a view

  lemma {:induction false} TallyFront(r: Record, q: seq<Record>)
    ensures Tally([r] + q) == Plus(Stat(r.size, 1), Tally(q))
    decreases |q|
  {
    hide Tally, Plus;
    if q == [] {
      assert [r] + q == [] + [r];
      TallyOneMore([], r);
      PlusMoves(Tally([]), Stat(r.size, 1), NO_STAT);
    } else {
      var n := |q| - 1;
      TallyFront(r, q[..n]);
      assert [r] + q == [r] + q[..n] + [q[n]] && q == q[..n] + [q[n]];
      TallyOneMore([r] + q[..n], q[n]);
      TallyOneMore(q[..n], q[n]);
      PlusMoves(Stat(r.size, 1), Tally(q[..n]), Stat(q[n].size, 1));
    }
  }

  lemma PlusMoves(a: Stat, b: Stat, c: Stat)
    ensures Plus(a, b) == Plus(b, a) && Plus(Plus(a, b), c) == Plus(a, Plus(b, c))
  {
  }

  lemma NameInFront(m: seq<Record>, name: string)
    requires m != []
    ensures HasName(m, name) <==> m[0].name == name || HasName(m[1..], name)
  {
    assert forall i :: 0 <= i < |m| - 1 ==> m[1..][i] == m[i + 1];
    if i :| 0 <= i < |m| && m[i].name == name {
      assert i > 0 ==> m[1..][i - 1].name == name;
    }
  }

  lemma NameNotAfter(m: seq<Record>, name: string)
    requires Ascending(m) && m != [] && Before(name, m[0].name)
    ensures !HasName(m, name)
  {
    forall i | 0 <= i < |m| ensures m[i].name != name {
      BeforeTotal(m[i].name, name);
      BeforeTotal(name, m[0].name);
      BeforeOrSame(name, m[0].name, m[i].name);
    }
  }

  // The size of the record that has the name.
  function SizeOf(m: seq<Record>, name: string): nat {
    if m == [] then 0 else if m[0].name == name then m[0].size else SizeOf(m[1..], name)
  }

  lemma TallyOne(r: Record)
    ensures Tally([r]) == Plus(Tally([]), Stat(r.size, 1)) && !HasName([], r.name)
  {
    TallyOneMore([], r);
    assert [] + [r] == [r];
  }

  lemma {:induction false} InsertedTally(m: seq<Record>, r: Record)
    requires Ascending(m)
    ensures Tally(Inserted(m, r)) ==
              if HasName(m, r.name) then Plus(Tally(m), Stat(r.size - SizeOf(m, r.name), 0)) else Plus(Tally(m), Stat(r.size, 1))
    decreases |m|
  {
    hide Tally, HasName;
    if m == [] {
      TallyOne(r);
    } else {
      var rest := m[1..];
      assert m == [m[0]] + rest;
      TallyFront(m[0], rest);
      BeforeTotal(m[0].name, r.name);
      NameInFront(m, r.name);
      if Before(m[0].name, r.name) {
        InsertedTally(rest, r);
        TallyFront(m[0], Inserted(rest, r));
      } else if m[0].name == r.name {
        TallyFront(r, rest);
      } else {
        TallyFront(r, m);
        NameNotAfter(m, r.name);
      }
    }
  }

  function Without(m: seq<Record>, name: string): seq<Record> {
    if m == [] then [] else if m[0].name == name then m[1..] else [m[0]] + Without(m[1..], name)
  }

  lemma {:induction false} WithoutTally(m: seq<Record>, name: string)
    ensures Tally(Without(m, name)) == if HasName(m, name) then Minus(Tally(m), Stat(SizeOf(m, name), 1)) else Tally(m)
    decreases |m|
  {
    if m != [] {
      var rest := m[1..];
      assert m == [m[0]] + rest;
      TallyFront(m[0], rest);
      if m[0].name != name {
        WithoutTally(rest, name);
        TallyFront(m[0], Without(rest, name));
      }
      NameInFront(m, name);
    }
  }

  lemma {:induction false} WithoutIn(m: seq<Record>, name: string, x: Record)
    requires Ascending(m)
    ensures x in Without(m, name) <==> x in m && x.name != name
    decreases |m|
  {
    if m != [] {
      assert m == [m[0]] + m[1..];
      if m[0].name == name {
        if x in m[1..] {
          var i :| 0 <= i < |m[1..]| && m[1..][i] == x;
          BeforeTotal(m[0].name, m[i + 1].name);
        }
      } else {
        WithoutIn(m[1..], name, x);
      }
    }
  }

  lemma {:induction false} WithoutAscends(m: seq<Record>, name: string)
    requires Ascending(m)
    ensures Ascending(Without(m, name))
    decreases |m|
  {
    if m != [] && m[0].name != name {
      WithoutAscends(m[1..], name);
      forall i | 0 <= i < |Without(m[1..], name)| ensures Before(m[0].name, Without(m[1..], name)[i].name) {
        WithoutIn(m[1..], name, Without(m[1..], name)[i]);
        var j :| 0 <= j < |m[1..]| && m[1..][j] == Without(m[1..], name)[i];
        assert m[j + 1] == m[1..][j];
      }
    }
  }

  // ----- The statistic after a flush

  function WithRecord(f: InfoFile, r: Record): InfoFile {
    f.(unsorted := f.unsorted + [r])
  }

  /** One more record either takes its place in the view or takes its name out of it. */
  lemma ViewAfter(f: InfoFile, r: Record)
    requires WellFormed(f) && IsName(r.name)
    ensures View(WithRecord(f, r)) == if Deleted(r) then Without(View(f), r.name) else Inserted(View(f), r)
  {
    hide View, Without, Inserted, IsCurrent;
    var f' := WithRecord(f, r);
    var expected := if Deleted(r) then Without(View(f), r.name) else Inserted(View(f), r);
    ViewIsLive(f);
    ViewIsLive(f');
    WithoutAscends(View(f), r.name);
    InsertedAscends(View(f), r);
    assert f'.sorted + f'.unsorted == f.sorted + f.unsorted + [r];
    forall x ensures x in View(f') <==> x in expected {
      CurrentOneMore(f.sorted + f.unsorted, r, x);
      WithoutIn(View(f), r.name, x);
      InsertedIn(View(f), r, x);
    }
    AscendingUnique(View(f'), expected);
  }

  /** The record says what it does to the object's current state: it adds an absent object, or deletes or
      modifies a present one of the size that it names. */
  predicate Describes(view: seq<Record>, r: Record) {
    match r.flag
    case Add => !HasName(view, r.name)
    case Delete => HasName(view, r.name) && SizeOf(view, r.name) == r.size
    case Modify => HasName(view, r.name) && SizeOf(view, r.name) == r.oldSize
    case _ => false
  }

  ghost predicate AllDescribe(f: InfoFile, q: seq<Pending>)
    decreases |q|
  {
    q != [] ==>
      var n := |q| - 1;
      && IsName(q[n].record.name)
      && AllDescribe(f, q[..n])
      && Describes(View(f.(unsorted := f.unsorted + RecordsOf(q[..n]))), q[n].record)
  }

  lemma {:induction false} TallyCovers(m: seq<Record>, name: string)
    ensures Tally(m).bytes >= 0 && Tally(m).count >= 0
    ensures HasName(m, name) ==> Tally(m).bytes >= SizeOf(m, name) && Tally(m).count >= 1
    decreases |m|
  {
    if m != [] {
      TallyCovers(m[1..], name);
      TallyFront(m[0], m[1..]);
      assert m == [m[0]] + m[1..];
      NameInFront(m, name);
    }
  }

  lemma StatFollowsView(f: InfoFile, r: Record)
    requires WellFormed(f) && IsName(r.name) && Describes(View(f), r)
    ensures Tally(View(WithRecord(f, r))) == StatAfter(Tally(View(f)), r)
  {
    hide View, Without, Inserted, Tally, SizeOf, IsLive, HasName;
    ViewAfter(f, r);
    ViewIsLive(f);
    TallyCovers(View(f), r.name);
    WithoutTally(View(f), r.name);
    InsertedTally(View(f), r);
  }

  /** One record, with nothing to clamp: the incremental statistic is the recomputed one exactly when the record
      adds an absent object, deletes or modifies a present one of the size that it names, adds a present one
      of its size without knowing, or deletes an absent one without knowing. */
  lemma StatFollowsViewIff(f: InfoFile, r: Record)
    requires WellFormed(f) && IsName(r.name) && !Clamps(Tally(View(f)), r)
    ensures Tally(View(WithRecord(f, r))) == StatAfter(Tally(View(f)), r) <==>
              var present, size := HasName(View(f), r.name), SizeOf(View(f), r.name);
              match r.flag
              case Add => !present
              case Delete => present && size == r.size
              case Modify => present && size == r.oldSize
              case UnknownAdd => present && size == r.size
              case UnknownDelete => !present
  {
    hide View, Without, Inserted, Tally, SizeOf, IsLive, HasName;
    ViewAfter(f, r);
    ViewIsLive(f);
    WithoutTally(View(f), r.name);
    InsertedTally(View(f), r);
  }

  lemma {:induction false} RecordsNamed(f: InfoFile, q: seq<Pending>)
    requires AllDescribe(f, q)
    ensures Named(RecordsOf(q))
    decreases |q|
  {
    hide View, Describes;
    if q != [] {
      RecordsNamed(f, q[..|q| - 1]);
    }
  }

  /** When every flushed record describes the object's state at its turn, the statistic that the flush keeps
      equals the one that a compaction recomputes. */
  lemma {:induction false} IncrementalIsRecomputed(f: InfoFile, q: seq<Pending>)
    requires WellFormed(f) && f.stat == Tally(View(f)) && AllDescribe(f, q)
    ensures StatAfterAll(f.stat, q) == Tally(View(f.(unsorted := f.unsorted + RecordsOf(q))))
    decreases |q|
  {
    hide View, Describes, Tally;
    if q == [] {
      assert f.unsorted + RecordsOf(q) == f.unsorted;
      ViewOfSame(f, f.(unsorted := f.unsorted + RecordsOf(q)));
    } else {
      var n := |q| - 1;
      var before := f.(unsorted := f.unsorted + RecordsOf(q[..n]));
      IncrementalIsRecomputed(f, q[..n]);
      RecordsNamed(f, q[..n]);
      StatFollowsView(before, q[n].record);
      assert before.unsorted + [q[n].record] == f.unsorted + RecordsOf(q);
      ViewOfSame(WithRecord(before, q[n].record), f.(unsorted := f.unsorted + RecordsOf(q)));
    }
  }

  lemma ViewOfSame(f: InfoFile, g: InfoFile)
    requires f.sorted == g.sorted && f.unsorted == g.unsorted
    ensures View(f) == View(g)
  {
  }

  // ----- Conservation of the reported total

  // No count would fall below zero while the records are flushed.
  predicate NoClamp(stat: Stat, q: seq<Pending>)
    decreases |q|
  {
    q != [] ==>
      var n := |q| - 1;
      NoClamp(stat, q[..n]) && !Clamps(StatAfterAll(stat, q[..n]), q[n].record)
  }

  predicate Clamps(stat: Stat, r: Record) {
    match r.flag
    case Delete => stat.bytes < r.size || stat.count <= 0
    case Modify => stat.bytes + (r.size - r.oldSize) < 0
    case _ => false
  }

  lemma StepExceeds(stat: Stat, r: Record)
    ensures var after, exact := StatAfter(stat, r), Plus(stat, Delta(r));
            && after.bytes >= exact.bytes && after.count >= exact.count
            && (after == exact <==> !Clamps(stat, r))
  {
  }

  /** A flush raises the file's statistic by the records' total, and by more exactly if something is clamped. */
  lemma {:induction false} FlushedStat(stat: Stat, q: seq<Pending>)
    ensures var after, exact := StatAfterAll(stat, q), Plus(stat, ContainerMemory.Total(q));
            && after.bytes >= exact.bytes && after.count >= exact.count
            && (after == exact <==> NoClamp(stat, q))
    decreases |q|
  {
    if q != [] {
      var n := |q| - 1;
      FlushedStat(stat, q[..n]);
      StepExceeds(StatAfterAll(stat, q[..n]), q[n].record);
      TotalAppend(q[..n], [q[n]]);
      TotalOne(q[n]);
      assert q == q[..n] + [q[n]];
    }
  }

  /** What is reported for a container, from its file and its memory. */
  function Reported(file: Stat, memory: Stat): Stat {
    var sum := Plus(file, memory);
    Stat(if sum.bytes < 0 then 0 else sum.bytes, if sum.count < 0 then 0 else sum.count)
  }

  // ----- The statistic of a whole flush, with the compactions that it makes

  function WithRecords(f: InfoFile, q: seq<Pending>): InfoFile {
    f.(unsorted := f.unsorted + RecordsOf(q))
  }

  predicate AllNamed(q: seq<Pending>) {
    forall i :: 0 <= i < |q| ==> IsName(q[i].record.name)
  }

  predicate CompactsBefore(f: InfoFile, q: seq<Pending>) {
    |f.unsorted| + |q| >= COMPACTION_THRESHOLD
  }

  predicate CompactsAfter(left: seq<Pending>, unknown: bool) {
    unknown || AnyUnknown(left)
  }

  /** When a flush compacts: before it starts, iff the tail and the list reach 5000 records; at its end, iff the
      status is unknown or a record that it writes is of an object whose fate is unknown. Otherwise the file
      keeps its sorted part, and the records that it does not hold come behind its tail. With nothing to write
      a file without a tail stays as it is. */
  lemma FlushCompactsIff(f: InfoFile, q: seq<Pending>, unknown: bool)
    requires WellFormed(f) && AllNamed(q)
    ensures var f', left := Flushed(f, q, unknown), q[CountUpTo(q, f.journalOffset)..];
            var full := |f.unsorted| + |q| >= 5000;
            var fateUnknown :=
              exists i :: 0 <= i < |left| && (left[i].record.flag == UnknownAdd || left[i].record.flag == UnknownDelete);
            && f'.journalOffset == (if left == [] then f.journalOffset else left[|left| - 1].offset)
            && (left != [] ==> (f'.unsorted == [] <==> unknown || fateUnknown))
            && (left == [] ==> (f'.unsorted == [] <==> unknown || full || f.unsorted == []))
            && (left == [] && !full && (!unknown || f.unsorted == []) ==> f' == f)
            && (left != [] && !full && !unknown && !fateUnknown ==>
                  f'.sorted == f.sorted && f'.unsorted == f.unsorted + RecordsOf(left))
  {
    hide View, Tally, StatAfterAll, CountUpTo, RecordsOf;
    RecordsLength(Unflushed(f, q));
  }

  lemma {:induction false} RecordsLength(q: seq<Pending>)
    ensures |RecordsOf(q)| == |q| && forall i :: 0 <= i < |q| ==> RecordsOf(q)[i] == q[i].record
    decreases |q|
  {
    if q != [] {
      RecordsLength(q[..|q| - 1]);
    }
  }

  lemma ViewWithoutCompaction(f: InfoFile, q: seq<Pending>)
    requires WellFormed(f) && AllNamed(q)
    ensures View(WithRecords(Compacted(f), q)) == View(WithRecords(f, q))
    ensures WellFormed(WithRecords(f, q)) && WellFormed(Compacted(f))
  {
    hide View, IsCurrent, Tally, RecordsOf;
    var more, live, log := RecordsOf(q), Compacted(f).sorted, f.sorted + f.unsorted;
    var g, g' := WithRecords(f, q), WithRecords(Compacted(f), q);
    RecordsOfNamed(q);
    CompactedIsWellFormed(f);
    ViewIsLive(g);
    ViewIsLive(g');
    assert g.sorted + g.unsorted == log + more && g'.sorted + g'.unsorted == live + more;
    forall r ensures r in View(g) <==> r in View(g') {
      CompactedIsLive(f, r);
      CurrentOfBoth(log, more, r);
      CurrentOfBoth(live, more, r);
    }
    AscendingUnique(View(g), View(g'));
  }

  lemma FlushedStatIs(f: InfoFile, q: seq<Pending>, unknown: bool)
    requires WellFormed(f) && AllNamed(q) && Unflushed(f, q) != []
    ensures var left := Unflushed(f, q);
            Flushed(f, q, unknown).stat ==
              if CompactsAfter(left, unknown) then Tally(View(WithRecords(f, left)))
              else StatAfterAll(if CompactsBefore(f, q) then Tally(View(f)) else f.stat, left)
  {
    hide View, Tally, StatAfterAll, AnyUnknown, WellFormed, RecordsOf;
    var left, roomy := Unflushed(f, q), MadeRoom(f, |q|);
    assert AllNamed(left);
    ViewWithoutCompaction(f, left);
    ViewOfSame(Appended(roomy, left), WithRecords(roomy, left));
  }

  /** The total of file and memory is the same before and after a flush exactly when: the recomputed statistic
      is the old one with the records' total, if the flush compacts after it has appended; the recomputed one
      with the records counted is, if it compacts before; no count would fall below zero, if it does neither. */
  lemma FlushConservesIff(f: InfoFile, h: Held, unknown: bool)
    requires WellFormed(f) && AllNamed(h.flushing) && Skipped(h, f.journalOffset).flushing != []
    ensures var f', h' := Flushed(f, h.flushing, unknown), Released(Skipped(h, f.journalOffset));
            var left := Unflushed(f, h.flushing);
            var kept := Plus(f.stat, ContainerMemory.Total(left));
            Plus(f'.stat, h'.stat) == Plus(f.stat, h.stat) <==>
              if CompactsAfter(left, unknown) then Tally(View(WithRecords(f, left))) == kept
              else if CompactsBefore(f, h.flushing) then StatAfterAll(Tally(View(f)), left) == kept
              else NoClamp(f.stat, left)
  {
    hide View, Tally, StatAfterAll, NoClamp, AnyUnknown, WellFormed;
    FlushedStatIs(f, h.flushing, unknown);
    FlushedStat(f.stat, Unflushed(f, h.flushing));
  }

  lemma DescribedIsNamed(f: InfoFile, q: seq<Pending>)
    requires AllDescribe(f, q)
    ensures AllNamed(q)
    decreases |q|
  {
    hide View, Describes;
    if q != [] {
      DescribedIsNamed(f, q[..|q| - 1]);
    }
  }

  // What describes the view after a compaction describes it before.
  lemma {:induction false} DescribedWithoutCompaction(f: InfoFile, q: seq<Pending>)
    requires WellFormed(f) && AllDescribe(f, q)
    ensures AllDescribe(Compacted(f), q)
    decreases |q|
  {
    hide View, Describes, Tally, RecordsOf, WellFormed;
    if q != [] {
      var n := |q| - 1;
      DescribedWithoutCompaction(f, q[..n]);
      DescribedIsNamed(f, q[..n]);
      ViewWithoutCompaction(f, q[..n]);
    }
  }

  lemma {:induction false} TruthfulIsNotClamped(f: InfoFile, q: seq<Pending>)
    requires WellFormed(f) && f.stat == Tally(View(f)) && AllDescribe(f, q)
    ensures NoClamp(f.stat, q)
    decreases |q|
  {
    hide View, Tally;
    if q != [] {
      var n := |q| - 1;
      TruthfulIsNotClamped(f, q[..n]);
      IncrementalIsRecomputed(f, q[..n]);
      TallyCovers(View(WithRecords(f, q[..n])), q[n].record.name);
    }
  }

  /** A flush of records that describe the objects' states keeps the statistic equal to the recomputed one,
      with any compactions. */
  lemma FlushKeepsStat(f: InfoFile, q: seq<Pending>, unknown: bool)
    requires WellFormed(f) && f.stat == Tally(View(f)) && AllDescribe(f, Unflushed(f, q)) && AllNamed(q)
    ensures var f' := Flushed(f, q, unknown); f'.stat == Tally(View(f'))
  {
    hide View, Tally, StatAfterAll, AnyUnknown, RecordsOf, AllDescribe, WellFormed;
    var left, roomy := Unflushed(f, q), MadeRoom(f, |q|);
    CompactedIsWellFormed(f);
    CompactionIsIdempotent(f);
    CompactedStat(f);
    if left == [] {
      CompactedStat(roomy);
      if roomy != f {
        CompactionIsIdempotent(f);
      }
    } else {
      var appended := Appended(roomy, left);
      assert AllNamed(left);
      DescribedWithoutCompaction(f, left);
      IncrementalIsRecomputed(roomy, left);
      ViewOfSame(appended, WithRecords(roomy, left));
      AppendedIsWellFormed(roomy, left);
      CompactedStat(appended);
    }
  }

  lemma CompactedStat(f: InfoFile)
    requires WellFormed(f)
    ensures Compacted(f).stat == Tally(View(Compacted(f)))
  {
    hide View, Tally, WellFormed;
    CompactionIsIdempotent(f);
    assert Compacted(Compacted(f)).sorted == View(Compacted(f));
  }

  /** For such records a flush does not change the total that is reported for the container, whatever
      compactions it makes. */
  lemma FlushKeepsReported(f: InfoFile, h: Held, unknown: bool)
    requires WellFormed(f) && f.stat == Tally(View(f)) && AllNamed(h.flushing)
    requires Skipped(h, f.journalOffset).flushing != [] && AllDescribe(f, Unflushed(f, h.flushing))
    ensures var f', h' := Flushed(f, h.flushing, unknown), Released(Skipped(h, f.journalOffset));
            && f'.stat == Tally(View(f'))
            && Plus(f'.stat, h'.stat) == Plus(f.stat, h.stat) && Reported(f'.stat, h'.stat) == Reported(f.stat, h.stat)
  {
    hide View, Tally, StatAfterAll, NoClamp, AnyUnknown, WellFormed, Flushed, Released, AllDescribe, RecordsOf;
    var left := Unflushed(f, h.flushing);
    FlushKeepsStat(f, h.flushing, unknown);
    FlushConservesIff(f, h, unknown);
    TruthfulIsNotClamped(f, left);
    FlushedStat(f.stat, left);
    IncrementalIsRecomputed(f, left);
  }

  /** A compaction in a flush corrects a wrong statistic, and so changes what is reported although nothing
      is clamped: an object that the file has is added once more. */
  lemma FlushCorrects(a: Record, o: Offset, p: Offset)
    requires a.flag == Add && IsName(a.name) && Less(o, p)
    ensures var f := InfoFile([a], [], Stat(a.size, 1), o);
            var q := [Pending(p, a)];
            var h := Held([], q, o, Delta(a));
            && WellFormed(f) && f.stat == Tally(View(f)) && NoClamp(f.stat, q)
            && Flushed(f, q, true).stat == Stat(a.size, 1)
            && Reported(f.stat, h.stat) == Stat(2 * a.size, 2)
            && Reported(Flushed(f, q, true).stat, Released(Skipped(h, o)).stat) == Stat(a.size, 1)
  {
    hide View, Merge;
    var f, q := InfoFile([a], [], Stat(a.size, 1), o), [Pending(p, a)];
    assert CountUpTo(q, o) == 0 && Unflushed(f, q) == q;
    OneRecordView(f, a);
    TallyOneRecord(a);
    assert RecordsOf(q[..0]) == [] && RecordsOf(q) == [a];
    var g := WithRecords(f, q);
    OneRecordView(g, a);
    FlushedStatIs(f, q, true);
    TotalOne(q[0]);
    assert StatAfterAll(f.stat, q[..0]) == f.stat && NoClamp(f.stat, q[..0]);
  }

  lemma TallyOneRecord(a: Record)
    ensures Tally([a]) == Stat(a.size, 1)
  {
    TallyOne(a);
  }

  lemma OneRecordView(f: InfoFile, a: Record)
    requires !Deleted(a) && IsName(a.name) && f.sorted == [a] && (f.unsorted == [] || f.unsorted == [a])
    ensures WellFormed(f) && View(f) == [a]
  {
    var log := f.sorted + f.unsorted;
    ViewIsLive(f);
    forall r ensures IsLive(log, r) <==> r == a {
      assert CurrentAt(log, |log| - 1, a);
      assert forall i :: 0 <= i < |log| ==> log[i] == a;
    }
    AscendingUnique(View(f), [a]);
  }

  /** A flush after recovery that skips a record which the file holds: the container stays in memory with a
      new record, and the skipped one is reported twice from then on. */
  lemma SkippedCountsTwice(a: Record, b: Record, c: Record, o: Offset, p: Offset, s: Offset)
    requires a.flag == Add && b.flag == Add && c.flag == Add && Less(o, p)
    ensures var q := [Pending(o, a), Pending(p, b)];
            var l, f := Life(Held(q, [], o, Plus(Delta(a), Delta(b))), [], []), InfoFile([a], [], Stat(a.size, 1), o);
            var ops := [StartFlushOp, AddOp(Pending(s, c)), SkipOp(o), ReleaseOp];
            && l.held.stat == Owed(l) && CanApplyAll(l, ops)
            && var l', f' := RunOps(l, ops), Flushed(f, q, false);
               && l'.held.records == [Pending(s, c)] && l'.held.flushing == [] && l'.out == []
               && Meant(l') == Stat(c.size, 1) && l'.held.stat == Stat(a.size + c.size, 2)
               && f'.stat == Stat(a.size + b.size, 2)
               && Reported(f'.stat, l'.held.stat) == Stat(2 * a.size + b.size + c.size, 4)
  {
    var q := [Pending(o, a), Pending(p, b)];
    var l := Life(Held(q, [], o, Plus(Delta(a), Delta(b))), [], []);
    SkippingLife(q[0], q[1], Pending(s, c), l);
    RunFour(l, StartFlushOp, AddOp(Pending(s, c)), SkipOp(o), ReleaseOp);
    FlushedSecond(a, q[0], q[1]);
  }

  lemma RunFour(l: Life, a: Op, b: Op, c: Op, d: Op)
    requires CanApply(l, a) && CanApply(Apply(l, a), b) && CanApply(Apply(Apply(l, a), b), c)
    requires CanApply(Apply(Apply(Apply(l, a), b), c), d)
    ensures CanApplyAll(l, [a, b, c, d]) && RunOps(l, [a, b, c, d]) == Apply(Apply(Apply(Apply(l, a), b), c), d)
  {
    hide Apply, CanApply;
    var l1 := Apply(l, a);
    var l2 := Apply(l1, b);
    var l3 := Apply(l2, c);
    RunOneMore(l3, d, []);
    RunOneMore(l2, c, [d]);
    RunOneMore(l1, b, [c, d]);
    RunOneMore(l, a, [b, c, d]);
    assert [d] + [] == [d] && [c] + [d] == [c, d] && [b] + [c, d] == [b, c, d] && [a] + [b, c, d] == [a, b, c, d];
  }

  lemma RunOneMore(l: Life, op: Op, rest: seq<Op>)
    requires CanApply(l, op) && CanApplyAll(Apply(l, op), rest)
    ensures CanApplyAll(l, [op] + rest) && RunOps(l, [op] + rest) == RunOps(Apply(l, op), rest)
  {
    hide Apply, CanApply;
    assert ([op] + rest)[1..] == rest;
  }

  lemma SkippingLife(x: Pending, y: Pending, z: Pending, l: Life)
    requires Less(x.offset, y.offset) && l == Life(Held([x, y], [], x.offset, Plus(Delta(x.record), Delta(y.record))), [], [])
    ensures var l2 := Apply(Apply(l, StartFlushOp), AddOp(z));
            var l3 := Apply(l2, SkipOp(x.offset));
            && l.held.stat == Owed(l) && CanApply(l3, ReleaseOp)
            && var l4 := Apply(l3, ReleaseOp);
               && l4.held.records == [z] && l4.held.flushing == [] && l4.out == []
               && l4.held.stat == Plus(Delta(x.record), Delta(z.record)) && Meant(l4) == Delta(z.record)
  {
    hide Delta, Less, ContainerMemory.Total, CountUpTo, Apply, Owed, Meant, Plus, Minus;
    SecondIsLeft(x, y);
    SkippingSteps(x, y, z, l);
    SkippingTotals(x, y, z, l);
  }

  lemma SkippingTotals(x: Pending, y: Pending, z: Pending, l: Life)
    requires l.held.records == [x, y] && l.held.flushing == [] && l.out == [] && l.skipped == []
    ensures Owed(l) == Plus(Delta(x.record), Delta(y.record))
    ensures Minus(Plus(Plus(Delta(x.record), Delta(y.record)), Delta(z.record)), ContainerMemory.Total([y]))
         == Plus(Delta(x.record), Delta(z.record))
    ensures forall l': Life :: l'.held.records == [z] && l'.held.flushing == [] && l'.out == [] ==> Meant(l') == Delta(z.record)
  {
    hide Delta, ContainerMemory.Total;
    TotalsOfTwo(x, y);
    TotalNone();
    TotalOne(z);
  }

  lemma SkippingSteps(x: Pending, y: Pending, z: Pending, l: Life)
    requires CountUpTo([x, y], x.offset) == 1 && l.held.records == [x, y] && l.held.flushing == [] && l.skipped == []
    ensures var l2 := Apply(Apply(l, StartFlushOp), AddOp(z));
            var l3 := Apply(l2, SkipOp(x.offset));
            l3 == Life(Held([z], [y], l.held.commit, Plus(l.held.stat, Delta(z.record))), l.out, [x])
    ensures Apply(Life(Held([z], [y], l.held.commit, Plus(l.held.stat, Delta(z.record))), l.out, [x]), ReleaseOp)
         == Life(Held([z], [], y.offset, Minus(Plus(l.held.stat, Delta(z.record)), ContainerMemory.Total([y]))), l.out, [x])
  {
    hide Delta, ContainerMemory.Total, CountUpTo;
    var l1 := Apply(l, StartFlushOp);
    assert l1.held.flushing == [x, y] && l1.held.records == [];
    var l2 := Apply(l1, AddOp(z));
    assert l2.held.records == [] + [z] == [z];
    assert [x, y][..1] == [x] && [x, y][1..] == [y] && [] + [x] == [x];
  }

  lemma FlushedSecond(a: Record, x: Pending, y: Pending)
    requires Less(x.offset, y.offset) && y.record.flag == Add
    ensures Flushed(InfoFile([a], [], Stat(a.size, 1), x.offset), [x, y], false).stat
         == Stat(a.size + y.record.size, 2)
  {
    hide View, Tally;
    var f, q := InfoFile([a], [], Stat(a.size, 1), x.offset), [x, y];
    SecondIsLeft(x, y);
    assert Unflushed(f, q) == [y] && MadeRoom(f, |q|) == f;
    assert [y][..0] == [] && StatAfterAll(f.stat, []) == f.stat;
  }

  lemma SecondIsLeft(x: Pending, y: Pending)
    requires Less(x.offset, y.offset)
    ensures CountUpTo([x, y], x.offset) == 1 && [x, y][1..] == [y]
  {
    assert CountUpTo([y], x.offset) == 0;
  }

  lemma TotalsOfTwo(x: Pending, y: Pending)
    ensures ContainerMemory.Total([x, y]) == Plus(Delta(x.record), Delta(y.record))
    ensures ContainerMemory.Total([x]) == Delta(x.record) && ContainerMemory.Total([y]) == Delta(y.record)
  {
    TotalOne(x);
    TotalOne(y);
    assert [x, y][1..] == [y];
  }

  // ----- The listings around a flush

  /** The file already holds the records: the last record of each of their names is its current one there, or
      is a deletion of a name that is not there any more. */
  ghost predicate AlreadyHolds(log: seq<Record>, records: seq<Record>) {
    forall r :: IsCurrent(records, r) ==> IsCurrent(log, r) || (Deleted(r) && !HasName(log, r.name))
  }

  lemma HeldChangesNothing(log: seq<Record>, records: seq<Record>, more: seq<Record>, r: Record)
    requires AlreadyHolds(log, records)
    ensures IsLive(log + records + more, r) <==> IsLive(log + more, r)
  {
    hide IsCurrent;
    CurrentOfBoth(log + records, more, r);
    CurrentOfBoth(log, more, r);
    CurrentOfBoth(log, records, r);
    if HasName(records, r.name) {
      var last := LastOf(records, r.name);
      OneCurrent(log, last, r);
      OneCurrent(records, last, r);
      CurrentHasName(log, r);
    }
  }

  lemma OneCurrent(log: seq<Record>, a: Record, b: Record)
    requires a.name == b.name
    ensures IsCurrent(log, a) && IsCurrent(log, b) ==> a == b
  {
  }

  /** Readers do not notice a flush: with the flushed records gone from memory every listing is as it was
      while they were there, whatever compactions the flush makes, and whatever leading records it skips
      because the file already holds them. */
  lemma FlushKeepsListings(f: InfoFile, f': InfoFile, q: seq<Pending>, later: seq<Record>, unknown: bool, query: Query,
                           result: seq<Record>)
    requires WellFormed(f) && AllNamed(q) && f' == Flushed(f, q, unknown)
    requires AlreadyHolds(f.sorted + f.unsorted, RecordsOf(q[..CountUpTo(q, f.journalOffset)]))
    ensures IsListing(f.sorted + f.unsorted + (RecordsOf(q) + later), query, result)
       <==> IsListing(f'.sorted + f'.unsorted + later, query, result)
  {
    hide IsListing, View, Tally, StatAfterAll, RecordsOf, AnyUnknown, WellFormed, AlreadyHolds;
    var n := CountUpTo(q, f.journalOffset);
    var log, skipped, left := f.sorted + f.unsorted, RecordsOf(q[..n]), Unflushed(f, q);
    RecordsSplit(q, n);
    assert log + (RecordsOf(q) + later) == log + skipped + (RecordsOf(left) + later);
    SkippedListings(log, skipped, RecordsOf(left) + later, query, result);
    FlushedListings(f, q, later, unknown, query, result);
  }

  lemma SkippedListings(log: seq<Record>, skipped: seq<Record>, more: seq<Record>, query: Query, result: seq<Record>)
    requires AlreadyHolds(log, skipped)
    ensures IsListing(log + skipped + more, query, result) <==> IsListing(log + more, query, result)
  {
    hide AlreadyHolds, IsCurrent;
    forall r ensures Matches(log + skipped + more, query, r) <==> Matches(log + more, query, r) {
      HeldChangesNothing(log, skipped, more, r);
    }
    SameMatches(log + skipped + more, log + more, query, result);
  }

  lemma FlushedListings(f: InfoFile, q: seq<Pending>, later: seq<Record>, unknown: bool, query: Query, result: seq<Record>)
    requires WellFormed(f) && AllNamed(q)
    ensures var f' := Flushed(f, q, unknown);
            IsListing(f.sorted + f.unsorted + (RecordsOf(Unflushed(f, q)) + later), query, result) ==
            IsListing(f'.sorted + f'.unsorted + later, query, result)
  {
    hide IsListing, View, Tally, StatAfterAll, RecordsOf, AnyUnknown, WellFormed;
    var left, roomy := Unflushed(f, q), MadeRoom(f, |q|);
    var records := RecordsOf(left);
    CompactedIsWellFormed(f);
    CompactionKeepsListings(f, records + later, query, result);
    assert AllNamed(left);
    if left == [] {
      NoRecordsOf();
      assert [] + later == later;
      CompactionKeepsListings(roomy, later, query, result);
    } else {
      var appended := Appended(roomy, left);
      assert roomy.sorted + roomy.unsorted + (records + later) == appended.sorted + appended.unsorted + later;
      AppendedIsWellFormed(roomy, left);
      CompactionKeepsListings(appended, later, query, result);
    }
  }

  lemma NoRecordsOf()
    ensures RecordsOf([]) == []
  {
  }

  lemma {:induction false} RecordsSplit(q: seq<Pending>, n: nat)
    requires n <= |q|
    ensures RecordsOf(q) == RecordsOf(q[..n]) + RecordsOf(q[n..])
    decreases |q|
  {
    var last := |q| - 1;
    if n == |q| {
      assert q[..n] == q && q[n..] == [];
    } else {
      RecordsSplit(q[..last], n);
      assert q[..last][..n] == q[..n] && q[..last][n..] == q[n..][..last - n] && q[n..][last - n] == q[last];
    }
  }

  lemma AppendedIsWellFormed(f: InfoFile, q: seq<Pending>)
    requires WellFormed(f) && q != [] && forall i :: 0 <= i < |q| ==> IsName(q[i].record.name)
    ensures WellFormed(Appended(f, q))
  {
    RecordsOfNamed(q);
  }

  // ----- The file as the code works on it

  class ContainerInfoFile {
    var sorted: seq<Record>
    var unsorted: seq<Record>
    var stat: Stat
    var journalOffset: Offset

    function Model(): InfoFile
      reads this
    {
      InfoFile(sorted, unsorted, stat, journalOffset)
    }

    constructor (offset: Offset)
      ensures Model() == InfoFile([], [], NO_STAT, offset) && WellFormed(Model())
    {
      sorted, unsorted, stat, journalOffset := [], [], NO_STAT, offset;
    }

    // The iterator over unsorted records: a map from names to the last record of each.
    static method SortedMap(q: seq<Record>) returns (m: seq<Record>)
      ensures m == Latest(q)
    {
      m := [];
      for i := 0 to |q|
        invariant m == Latest(q[..i])
      {
        assert q[..i + 1][..i] == q[..i];
        m := Inserted(m, q[i]);
      }
      assert q[..|q|] == q;
    }

    method Compaction()
      requires WellFormed(Model())
      modifies this
      ensures Model() == Compacted(old(Model())) && WellFormed(Model())
    {
      hide Merge, Best, Mergeable, Passed, Latest, Kept, Tally, WellFormed, AllStarted;
      ghost var f := Model();
      var tail := SortedMap(unsorted);
      var sorter := new InfoFileSorter([sorted, tail], "", "", false);
      ghost var merge := Merge(Sources(f));
      SourcesMergeable(f, []);
      StartedAtOnce([sorted, tail]);
      NothingSeen("");
      var live: seq<Record>, total := [], NO_STAT;
      ghost var seen: seq<Record> := [];
      var record := sorter.Next();
      while record.Some?
        invariant Mergeable(sorter.ahead) && record == Best(sorter.ahead) && sorter.endMarker == ""
        invariant sorter.target == if record.Some? then record.value.name else ""
        invariant seen + Merge(sorter.ahead) == merge && Model() == f
        invariant live == Kept(seen) && total == Tally(live)
        decreases |Merge(sorter.ahead)|
      {
        var r := record.value;
        KeptOneMore(seen, r);
        if !Deleted(r) {
          TallyOneMore(live, r);
          live := live + [r];
          total := Stat(total.bytes + r.size, total.count + 1);
        }
        MergeMovesOn(sorter.ahead);
        TargetNotEmpty(sorter.ahead);
        seen := seen + [r];
        record := sorter.Next();
      }
      MergeMovesOn(sorter.ahead);
      assert seen == merge;
      CompactedIsWellFormed(f);
      sorted, unsorted, stat := live, [], total;
    }

    /** Lists by a query without a delimiter, over the file and the records in memory. */
    method GetObjectList(memory: seq<Record>, q: Query) returns (result: seq<Record>)
      requires WellFormed(Model()) && Named(memory)
      ensures IsListing(sorted + unsorted + memory, q, result)
    {
      hide Merge, Best, Mergeable, Passed, Latest, Taken, WellFormed, AllStarted, IsListing, Strncmp, Before;
      var tail := SortedMap(unsorted);
      var recent := SortedMap(memory);
      var start := if Before(q.prefix, q.marker) then q.marker else q.prefix;
      var sorter := new InfoFileSorter([sorted, tail, recent], start, q.endMarker, Before(q.marker, q.prefix));
      ghost var started := AllStarted(ListingSources(Model(), memory), StartMarker(q), AtPrefix(q));
      SourcesMergeable(Model(), memory);
      StartedMergeable(ListingSources(Model(), memory), q);
      NothingSeen(q.prefix);
      result := [];
      ghost var seen: seq<Record> := [];
      var record := sorter.Next();
      while record.Some?
        invariant Mergeable(sorter.ahead) && sorter.endMarker == q.endMarker
        invariant record == NextOf(sorter.ahead, q.endMarker)
        invariant sorter.target == if Best(sorter.ahead).Some? then Best(sorter.ahead).value.name else ""
        invariant seen + Merge(sorter.ahead) == Merge(started)
        invariant result == Taken(seen, q.prefix) && (q.count != 0 ==> |result| <= q.count)
        invariant forall i :: 0 <= i < |seen| ==> BeforeEnd(seen[i].name, q.endMarker)
        decreases |Merge(sorter.ahead)|
      {
        var r := record.value;
        MergeMovesOn(sorter.ahead);
        if !Deleted(r) {
          StrncmpOfPrefix(q.prefix, r.name);
          if q.count != 0 && |result| >= q.count {
            break;
          }
          if Strncmp(q.prefix, r.name, |q.prefix|) != 0 {
            break;
          }
          result := result + [r];
        }
        TakenOneMore(seen, r, q.prefix);
        TargetNotEmpty(sorter.ahead);
        seen := seen + [r];
        record := sorter.Next();
      }
      MergeMovesOn(sorter.ahead);
      StoppedIsListing(Model(), memory, q, seen, Merge(sorter.ahead), result);
    }

    /** Flushes the records that the file does not hold; `left` is what remains of the list. */
    method FlushContainer(q: seq<Pending>, unknown: bool) returns (left: seq<Pending>)
      requires WellFormed(Model()) && forall i :: 0 <= i < |q| ==> IsName(q[i].record.name)
      modifies this
      ensures Model() == Flushed(old(Model()), q, unknown) && WellFormed(Model())
      ensures left == Unflushed(MadeRoom(old(Model()), |q|), q)
    {
      hide Compacted, WellFormed, Unflushed, StatAfterAll, AnyUnknown, RecordsOf;
      if |unsorted| + |q| >= COMPACTION_THRESHOLD {
        Compaction();
      }
      left := DropHeld(q);
      if left == [] {
        if unknown && unsorted != [] {
          Compaction();
        }
      } else {
        var anyUnknown := CountAll(left);
        AppendAll(left);
        if unknown || anyUnknown {
          Compaction();
        }
      }
    }

    // The list is popped in place while its first record is in the file.
    method DropHeld(q: seq<Pending>) returns (left: seq<Pending>)
      requires forall i :: 0 <= i < |q| ==> IsName(q[i].record.name)
      ensures left == Unflushed(Model(), q)
      ensures forall i :: 0 <= i < |left| ==> IsName(left[i].record.name)
    {
      left := q;
      while left != [] && AtMost(left[0].offset, journalOffset)
        invariant Unflushed(Model(), left) == Unflushed(Model(), q)
        invariant forall i :: 0 <= i < |left| ==> IsName(left[i].record.name)
        decreases |left|
      {
        left := left[1..];
      }
    }

    method CountAll(q: seq<Pending>) returns (anyUnknown: bool)
      requires WellFormed(Model())
      modifies this`stat
      ensures WellFormed(Model())
      ensures stat == StatAfterAll(old(stat), q) && anyUnknown == AnyUnknown(q)
    {
      anyUnknown := false;
      for i := 0 to |q|
        invariant stat == StatAfterAll(old(stat), q[..i]) && anyUnknown == AnyUnknown(q[..i])
      {
        assert q[..i + 1][..i] == q[..i];
        AnyUnknownOneMore(q, i);
        CountRecord(q[i].record);
        if Unknown(q[i].record) {
          anyUnknown := true;
        }
      }
      assert q[..|q|] == q;
    }

    method AppendAll(q: seq<Pending>)
      requires q != [] && WellFormed(Model()) && forall i :: 0 <= i < |q| ==> IsName(q[i].record.name)
      modifies this`unsorted, this`journalOffset
      ensures unsorted == old(unsorted) + RecordsOf(q) && journalOffset == q[|q| - 1].offset && WellFormed(Model())
    {
      RecordsOfNamed(q);
      unsorted := unsorted + RecordsOf(q);
      journalOffset := q[|q| - 1].offset;
    }

    method CountRecord(r: Record)
      modifies this`stat
      ensures stat == StatAfter(old(stat), r)
    {
      match r.flag {
        case Add => stat := Stat(stat.bytes + r.size, stat.count + 1);
        case Delete =>
          if stat.count > 0 {
            stat := stat.(count := stat.count - 1);
          }
          if stat.bytes >= r.size {
            stat := stat.(bytes := stat.bytes - r.size);
          } else {
            stat := stat.(bytes := 0);
          }
        case Modify =>
          stat := stat.(bytes := stat.bytes + (r.size - r.oldSize));
          if stat.bytes < 0 {
            stat := stat.(bytes := 0);
          }
        case _ =>
      }
    }

    method GetContainerStat(memory: Stat) returns (total: Stat)
      ensures total == Reported(stat, memory)
    {
      total := Stat(stat.bytes + memory.bytes, stat.count + memory.count);
      if total.count < 0 {
        total := total.(count := 0);
      }
      if total.bytes < 0 {
        total := total.(bytes := 0);
      }
    }
  }

  // What a sorter with this end marker gives out next.
  function NextOf(lists: seq<seq<Record>>, endMarker: string): Option<Record> {
    if Best(lists).Some? && BeforeEnd(Best(lists).value.name, endMarker) then Best(lists) else None
  }

  lemma NothingSeen(prefix: string)
    ensures Kept([]) == [] && Tally([]) == NO_STAT && Taken([], prefix) == []
  {
  }

  lemma StartedAtOnce(lists: seq<seq<Record>>)
    ensures AllStarted(lists, "", false) == lists
  {
  }

  lemma MergeMovesOn(lists: seq<seq<Record>>)
    ensures Best(lists).Some? ==> Merge(lists) == [Best(lists).value] + Merge(Passed(lists, Best(lists).value.name))
    ensures Best(lists).None? <==> Merge(lists) == []
    ensures Best(lists).Some? ==> Merge(lists)[0] == Best(lists).value
  {
  }

  lemma TargetNotEmpty(lists: seq<seq<Record>>)
    requires Mergeable(lists) && Best(lists).Some?
    ensures Best(lists).value.name != ""
  {
    BestIsLeast(lists);
  }

  lemma AnyUnknownOneMore(q: seq<Pending>, i: nat)
    requires i < |q|
    ensures AnyUnknown(q[..i + 1]) <==> AnyUnknown(q[..i]) || Unknown(q[i].record)
  {
    var shorter, longer := q[..i], q[..i + 1];
    if AnyUnknown(shorter) {
      var k :| 0 <= k < |shorter| && Unknown(shorter[k].record);
      assert longer[k] == shorter[k];
    }
    assert longer[i] == q[i];
    if AnyUnknown(longer) {
      var k :| 0 <= k < |longer| && Unknown(longer[k].record);
      assert k < i ==> shorter[k] == longer[k];
    }
  }

  lemma {:induction false} RecordsOfNamed(q: seq<Pending>)
    requires forall i :: 0 <= i < |q| ==> IsName(q[i].record.name)
    ensures Named(RecordsOf(q))
    decreases |q|
  {
    if q != [] {
      RecordsOfNamed(q[..|q| - 1]);
    }
  }
}
