/** What recovery rebuilds from the newest journal file, however the writer mixes checkpoints and rotations. */
module TransactionRecovery {
  import opened LockTable
  import opened OrderedKeys
  import opened LockInvariant
  import opened BulkTransaction
  import opened TransactionHistory
  import opened TransactionJournal
  import TransactionMemory

  // How event `w` reaches the journal: with what in front of it, and after how many events in memory.
  datatype Turn = Turn(kind: Kind, at: nat)

  function MemoryAt(comp: string -> int, es: seq<Event>, n: nat): Table
    requires n <= |es|
  {
    Replay(comp, EMPTY, es[..n])
  }

  ghost predicate Scheduled(es: seq<Event>, sched: seq<Turn>) {
    && |sched| == |es|
    && (forall w :: 0 <= w < |es| ==> w < sched[w].at <= |es|)
    && (forall v, w :: 0 <= v <= w < |es| ==> sched[v].at <= sched[w].at)
    && (es != [] ==> sched[0].kind == Rotated)
  }

  /** The newest file after `w` records. */
  ghost function File(comp: string -> int, es: seq<Event>, sched: seq<Turn>, w: nat): seq<Entry>
    requires Scheduled(es, sched) && w <= |es|
    decreases w
  {
    if w == 0 then [] else
      Appended(File(comp, es, sched, w - 1), MemoryAt(comp, es, sched[w - 1].at), LastOpened(0, es, w - 1), es[w - 1],
               sched[w - 1].kind)
  }

  /** The last record that a checkpoint or a rotation precedes. */
  ghost function LastMark(sched: seq<Turn>, w: nat): (m: nat)
    requires 0 < w <= |sched| && sched[0].kind == Rotated
    ensures m < w && sched[m].kind != Plain
    ensures forall i :: m < i < w ==> sched[i].kind == Plain
  {
    if sched[w - 1].kind != Plain then w - 1 else LastMark(sched, w - 1)
  }

  // The checkpoint leaves a single active lock out of its list.
  ghost function Dropped(es: seq<Event>, m: nat, mark: Turn): set<int>
    requires m <= |es| && mark.at <= |es|
  {
    if mark.kind == AtCheckpoint && |ActiveAt(es, mark.at)| == 1 then
      set id | id in ActiveAt(es, mark.at) && id <= LastOpened(0, es, m)
    else {}
  }

  // ----- The memory of a history

  lemma MemoryIsTable(comp: string -> int, es: seq<Event>, n: nat)
    requires History(0, es) && n <= |es|
    ensures TableOf(comp, ActiveAt(es, n), MemoryAt(comp, es, n))
    ensures MemoryAt(comp, es, n).lastId == LastOpened(0, es, n)
  {
    hide History, TableOf;
    EmptyTable(comp);
    assert ActiveAt(es, 0) - {} == map[];
    ReplayFollows(comp, 0, es, 0, {}, n, EMPTY);
    assert es[0..n] == es[..n];
    assert ActiveAt(es, n) - {} == ActiveAt(es, n);
  }

  lemma EmptyTable(comp: string -> int)
    ensures TableOf(comp, map[], EMPTY)
  {
  }

  lemma TableEntry(comp: string -> int, held: Active, t: Table, c: int, id: int)
    requires TableOf(comp, held, t)
    ensures In(t, c, id) <==> id in held && comp(held[id].name) == c
    ensures In(t, c, id) ==> Rec(t, c, id) == held[id]
  {
    assert BulkTransaction.Entry(t, c, id) == EntryOf(comp, EMPTY, held, c, id);
  }

  lemma {:induction false} CollectedRecords(records: map<int, ActiveRecord>, ids: seq<int>, r: ActiveRecord)
    requires forall i :: 0 <= i < |ids| ==> ids[i] in records
    ensures r in TransactionMemory.Collect(records, ids) <==> exists id :: id in ids && records[id] == r
    decreases |ids|
  {
    if ids != [] {
      CollectedRecords(records, ids[1..], r);
      assert forall id :: id in ids <==> id == ids[0] || id in ids[1..];
      assert records[ids[0]] == r ==> ids[0] in ids;
    }
  }

  lemma {:induction false} ListedRecords(mem: map<int, Component>, cs: seq<int>, r: ActiveRecord)
    ensures r in RecordsOf(mem, cs)
       <==> exists c, id :: c in cs && c in mem && id in mem[c].records && mem[c].records[id] == r
    decreases |cs|
  {
    if cs != [] {
      var n := |cs| - 1;
      ListedRecords(mem, cs[..n], r);
      assert forall c :: c in cs <==> c == cs[n] || c in cs[..n];
      if cs[n] in mem {
        CollectedRecords(mem[cs[n]].records, Ascending(mem[cs[n]].records.Keys), r);
      }
    }
  }

  /** The snapshot lists exactly the active locks. */
  lemma SnapshotIsActive(comp: string -> int, held: Active, t: Table, r: ActiveRecord)
    requires TableOf(comp, held, t)
    ensures r in SnapshotRecords(t) <==> exists id :: id in held && held[id] == r
  {
    hide TableOf;
    ListedRecords(t.mem, Ascending(t.mem.Keys), r);
    forall c, id ensures In(t, c, id) <==> id in held && comp(held[id].name) == c
      ensures In(t, c, id) ==> Rec(t, c, id) == held[id]
    {
      TableEntry(comp, held, t, c, id);
    }
    if r in SnapshotRecords(t) {
      var c, id :| c in t.mem && id in t.mem[c].records && t.mem[c].records[id] == r;
      assert In(t, c, id);
    }
    if id :| id in held && held[id] == r {
      assert In(t, comp(held[id].name), id);
    }
  }

  // ----- What the newest file knows about the locks held at a later moment `n`

  ghost predicate KnownEntry(es: seq<Event>, w: nat, n: nat, entry: Entry)
    requires w <= |es| && n <= |es|
  {
    match entry
    case SnapshotHeader(lastId) => 0 <= lastId <= LastOpened(0, es, w)
    case Checkpoint(_, _) => true
    case Record(Open(r)) => r.id in ActiveAt(es, n) ==> ActiveAt(es, n)[r.id] == r
    case Record(Close(id)) => id !in ActiveAt(es, n)
  }

  ghost predicate AllKnown(es: seq<Event>, w: nat, n: nat, file: seq<Entry>)
    requires w <= |es| && n <= |es|
  {
    forall entry :: entry in file ==> KnownEntry(es, w, n, entry)
  }

  ghost predicate OpenListed(file: seq<Entry>, r: ActiveRecord) {
    Record(Open(r)) in file
  }

  ghost predicate Covers(es: seq<Event>, w: nat, n: nat, file: seq<Entry>)
    requires w <= |es| && n <= |es|
  {
    forall id :: id in ActiveAt(es, n) && id <= LastOpened(0, es, w) ==> OpenListed(file, ActiveAt(es, n)[id])
  }

  lemma NoneOpened(es: seq<Event>)
    ensures LastOpened(0, es, 0) == 0
  {
  }

  lemma OpensListed(rs: seq<ActiveRecord>, entry: Entry)
    ensures entry in Opens(rs) <==> entry.Record? && entry.event.Open? && entry.event.record in rs
  {
    if entry.Record? && entry.event.Open? && entry.event.record in rs {
      var i :| 0 <= i < |rs| && rs[i] == entry.event.record;
      assert Opens(rs)[i] == entry;
    }
  }

  lemma RecordKnown(es: seq<Event>, w: nat, n: nat)
    requires History(0, es) && w < n <= |es|
    ensures KnownEntry(es, w + 1, n, Record(es[w]))
    ensures forall id :: id in ActiveAt(es, n) && id <= LastOpened(0, es, w + 1) ==>
                           id <= LastOpened(0, es, w) || es[w] == Open(ActiveAt(es, n)[id])
  {
    hide History, ActiveAt, LastOpened;
    if es[w].Open? {
      forall id | id in ActiveAt(es, n)
        ensures id == es[w].record.id ==> ActiveAt(es, n)[id] == es[w].record
        ensures id <= LastOpened(0, es, w + 1) ==> id <= LastOpened(0, es, w) || id == es[w].record.id
      {
        OpenedNow(0, es, w, n, id);
      }
    } else {
      ClosedStaysClosed(0, es, w, n);
      FreshlyClosed(0, es, w);
    }
  }

  lemma SnapshotKnown(comp: string -> int, es: seq<Event>, w: nat, at: nat, n: nat)
    requires History(0, es) && w < at <= n <= |es|
    ensures var snapshot := Snapshot(MemoryAt(comp, es, at), LastOpened(0, es, w));
            AllKnown(es, w, n, snapshot) && Covers(es, w, n, snapshot)
  {
    hide History, ActiveAt, LastOpened, Opens, SnapshotRecords, TableOf, MemoryAt;
    var t := MemoryAt(comp, es, at);
    var snapshot := Snapshot(t, LastOpened(0, es, w));
    MemoryIsTable(comp, es, at);
    LastOpenedGrows(0, es, 0, w);
    LastOpenedGrows(0, es, w, at);
    NoneOpened(es);
    forall entry | entry in snapshot ensures KnownEntry(es, w, n, entry) {
      OpensListed(SnapshotRecords(t), entry);
      if entry.Record? {
        var r := entry.event.record;
        SnapshotIsActive(comp, ActiveAt(es, at), t, r);
        var id :| id in ActiveAt(es, at) && ActiveAt(es, at)[id] == r;
        OneHolder(0, es, at, id, id);
        HeldIdBounds(0, es, at, id);
        if id in ActiveAt(es, n) {
          HeldSinceOpened(0, es, at, n, id);
        }
      }
    }
    forall id | id in ActiveAt(es, n) && id <= LastOpened(0, es, w) ensures OpenListed(snapshot, ActiveAt(es, n)[id]) {
      var r := ActiveAt(es, n)[id];
      HeldSinceOpened(0, es, at, n, id);
      SnapshotIsActive(comp, ActiveAt(es, at), t, r);
      OpensListed(SnapshotRecords(t), Record(Open(r)));
    }
  }

  lemma AppendKnown(comp: string -> int, es: seq<Event>, w: nat, n: nat, at: nat, kind: Kind, file: seq<Entry>)
    requires History(0, es) && w < at <= n <= |es|
    requires kind != Rotated ==> AllKnown(es, w, n, file) && Covers(es, w, n, file)
    ensures var file' := Appended(file, MemoryAt(comp, es, at), LastOpened(0, es, w), es[w], kind);
            AllKnown(es, w + 1, n, file') && Covers(es, w + 1, n, file')
  {
    hide History, ActiveAt, LastOpened, Snapshot, MemoryAt;
    var file' := Appended(file, MemoryAt(comp, es, at), LastOpened(0, es, w), es[w], kind);
    RecordKnown(es, w, n);
    SnapshotKnown(comp, es, w, at, n);
    LastOpenedGrows(0, es, w, w + 1);
    var snapshot := Snapshot(MemoryAt(comp, es, at), LastOpened(0, es, w));
    assert Record(es[w]) in file' && forall entry :: entry in (if kind == Rotated then snapshot else file) ==> entry in file';
  }

  lemma {:induction false} FileKnown(comp: string -> int, es: seq<Event>, sched: seq<Turn>, w: nat, n: nat)
    requires History(0, es) && Scheduled(es, sched) && w <= n <= |es| && (w > 0 ==> sched[w - 1].at <= n)
    ensures AllKnown(es, w, n, File(comp, es, sched, w)) && Covers(es, w, n, File(comp, es, sched, w))
    decreases w
  {
    hide History, Appended, MemoryAt, ActiveAt;
    if w == 0 {
      forall id | id in ActiveAt(es, n) ensures id > 0 {
        HeldIdBounds(0, es, n, id);
      }
    } else {
      assert w > 1 ==> sched[w - 2].at <= sched[w - 1].at;
      FileKnown(comp, es, sched, w - 1, n);
      AppendKnown(comp, es, w - 1, n, sched[w - 1].at, sched[w - 1].kind, File(comp, es, sched, w - 1));
    }
  }

  // ----- Loading locks that are held together

  ghost predicate HeldTogether(all: Active) {
    && (forall id :: id in all ==> id > 0 && all[id].id == id && all[id].op == Write)
    && (forall i, j :: i in all && j in all && all[i].name == all[j].name ==> i == j)
    && |all| <= 1000001
  }

  ghost predicate PartOf(held: Active, all: Active) {
    forall id :: id in held ==> id in all && held[id] == all[id]
  }

  ghost predicate Counted(held: Active, t: Table) {
    forall id :: id in held ==> id <= t.lastId
  }

  lemma ActiveTogether(es: seq<Event>, n: nat)
    requires History(0, es) && n <= |es|
    ensures HeldTogether(ActiveAt(es, n))
    ensures forall id :: id in ActiveAt(es, n) ==> id <= LastOpened(0, es, n)
  {
    HistoryIsProper(0, es, n);
  }

  lemma LoadFits(all: Active, held: Active, r: ActiveRecord)
    requires HeldTogether(all) && PartOf(held, all) && r.id in all && all[r.id] == r
    ensures r.op == Write && r.id > 0 && (r.id in held ==> held[r.id] == r)
    ensures ReplayedOpen(held, r) == if r.id in held then held else held[r.id := r]
  {
    hide HeldTogether, Holds;
    NameIsTaken(all, held, r);
    if r.id !in held {
      assert forall id :: id in held.Keys ==> id in all.Keys;
      Smaller(held.Keys, all.Keys, r.id);
    }
  }

  lemma NameIsTaken(all: Active, held: Active, r: ActiveRecord)
    requires HeldTogether(all) && PartOf(held, all) && r.id in all && all[r.id] == r
    ensures r.op == Write && r.id > 0 && |all| <= 1000001
    ensures Holds(held, r.name) <==> r.id in held
  {
    if r.id in held {
      assert held[r.id].name == r.name;
    }
  }

  lemma Smaller(a: set<int>, b: set<int>, id: int)
    requires a <= b && id in b && id !in a
    ensures |a| < |b|
  {
    SubsetSize(a + {id}, b);
  }

  lemma LoadOne(comp: string -> int, all: Active, held: Active, t: Table, r: ActiveRecord)
    requires HeldTogether(all) && PartOf(held, all) && TableOf(comp, held, t) && r.id in all && all[r.id] == r
    requires Counted(held, t)
    ensures var t' := AcquireLock(comp, t, r).0;
            && TableOf(comp, held[r.id := r], t') && PartOf(held[r.id := r], all) && Counted(held[r.id := r], t')
            && t.lastId <= t'.lastId && (t'.lastId == t.lastId || t'.lastId == r.id)
  {
    hide AcquireLock, TableOf, HeldTogether, Holds;
    LoadFits(all, held, r);
    ReplayOpen(comp, held, t, r);
    if r.id in held {
      assert held[r.id := r] == held;
    }
  }

  lemma CloseNothing(comp: string -> int, held: Active, t: Table, id: int)
    requires TableOf(comp, held, t) && id !in held
    ensures Release(t, id).0 == t
  {
    TableSize(comp, held, t);
    assert id !in t.comps.Keys;
  }

  // What a load has made of the table, starting from the ids of `wanted`.
  ghost predicate Loaded(comp: string -> int, all: Active, wanted: set<int>, held: Active, r: Reader, lo: int, hi: int) {
    && TableOf(comp, held, r.table) && PartOf(held, all) && Counted(held, r.table)
    && held.Keys <= wanted && r.ids == wanted - held.Keys
    && lo <= r.table.lastId <= hi
  }

  lemma LoadFiltered(comp: string -> int, es: seq<Event>, w: nat, n: nat, wanted: set<int>, held: Active, r: Reader,
                     lo: int, entry: Entry)
      returns (held': Active)
    requires History(0, es) && w <= n <= |es| && wanted <= ActiveAt(es, n).Keys && KnownEntry(es, w, n, entry)
    requires Loaded(comp, ActiveAt(es, n), wanted, held, r, lo, LastOpened(0, es, n))
    ensures Loaded(comp, ActiveAt(es, n), wanted, held', RecoverEntry(comp, r, entry, true), lo, LastOpened(0, es, n))
    ensures held.Keys <= held'.Keys
    ensures entry.Record? && entry.event.Open? && entry.event.record.id in wanted ==> entry.event.record.id in held'
  {
    hide History, ActiveAt, LastOpened, AcquireLock, Release, TableOf;
    var all := ActiveAt(es, n);
    held' := held;
    ActiveTogether(es, n);
    LastOpenedGrows(0, es, w, n);
    match entry
    case SnapshotHeader(lastId) => KeepTable(comp, held, r.table, lastId);
    case Checkpoint(_, _) =>
    case Record(Close(id)) => CloseNothing(comp, held, r.table, id);
    case Record(Open(record)) =>
      if record.id in r.ids {
        LoadOne(comp, all, held, r.table, record);
        held' := held[record.id := record];
      }
  }

  lemma KeepTable(comp: string -> int, held: Active, t: Table, id: int)
    requires TableOf(comp, held, t)
    ensures TableOf(comp, held, SetLastId(t, id))
  {
    TableIgnoresCounter(comp, held, t, SetLastId(t, id).lastId);
  }

  lemma TableIgnoresCounter(comp: string -> int, held: Active, t: Table, id: int)
    requires TableOf(comp, held, t)
    ensures TableOf(comp, held, t.(lastId := id))
  {
    var u := t.(lastId := id);
    forall c, id ensures In(u, c, id) == In(t, c, id) && BulkTransaction.Entry(u, c, id) == BulkTransaction.Entry(t, c, id) {
    }
  }

  lemma {:induction false} FilteredLoad(comp: string -> int, es: seq<Event>, w: nat, n: nat, wanted: set<int>, r: Reader,
                                        file: seq<Entry>, k: nat)
      returns (held: Active)
    requires History(0, es) && w <= n <= |es| && wanted <= ActiveAt(es, n).Keys && k <= |file|
    requires AllKnown(es, w, n, file)
    requires Loaded(comp, ActiveAt(es, n), wanted, map[], r, r.table.lastId, LastOpened(0, es, n))
    ensures Loaded(comp, ActiveAt(es, n), wanted, held, RecoverEntries(comp, r, file[..k], true), r.table.lastId,
                   LastOpened(0, es, n))
    ensures forall id :: id in wanted && OpenListed(file[..k], ActiveAt(es, n)[id]) ==> id in held
    decreases k
  {
    hide History, ActiveAt, LastOpened, RecoverEntry, TableOf, KnownEntry;
    if k == 0 {
      held := map[];
    } else {
      var before := FilteredLoad(comp, es, w, n, wanted, r, file, k - 1);
      assert file[..k][..k - 1] == file[..k - 1];
      assert file[k - 1] in file;
      held := LoadFiltered(comp, es, w, n, wanted, before, RecoverEntries(comp, r, file[..k - 1], true), r.table.lastId,
                           file[k - 1]);
      ActiveTogether(es, n);
      forall id | id in wanted && OpenListed(file[..k], ActiveAt(es, n)[id]) ensures id in held {
        assert OpenListed(file[..k - 1], ActiveAt(es, n)[id]) ==> id in before.Keys;
      }
    }
  }

  ghost predicate SnapshotLoaded(comp: string -> int, all: Active, rs: seq<ActiveRecord>, k: nat, held: Active, r: Reader,
                                 lo: int, hi: int)
    requires k <= |rs|
  {
    && TableOf(comp, held, r.table) && PartOf(held, all) && Counted(held, r.table)
    && (forall i :: 0 <= i < k ==> rs[i].id in held)
    && lo <= r.table.lastId <= hi
  }

  lemma {:induction false} SnapshotLoad(comp: string -> int, all: Active, rs: seq<ActiveRecord>, r: Reader, hi: int, k: nat)
      returns (held: Active)
    requires HeldTogether(all) && TableOf(comp, map[], r.table) && k <= |rs| && r.table.lastId <= hi
    requires forall i :: 0 <= i < |rs| ==> rs[i].id in all && all[rs[i].id] == rs[i] && rs[i].id <= hi
    ensures SnapshotLoaded(comp, all, rs, k, held, RecoverEntries(comp, r, Opens(rs)[..k], false), r.table.lastId, hi)
    decreases k
  {
    hide TableOf, AcquireLock, HeldTogether;
    if k == 0 {
      held := map[];
    } else {
      var before := SnapshotLoad(comp, all, rs, r, hi, k - 1);
      assert Opens(rs)[..k][..k - 1] == Opens(rs)[..k - 1];
      var r' := RecoverEntries(comp, r, Opens(rs)[..k - 1], false);
      LoadOne(comp, all, before, r'.table, rs[k - 1]);
      held := before[rs[k - 1].id := rs[k - 1]];
    }
  }

  // ----- The shape of the newest file

  function Records(es: seq<Event>): seq<Entry> {
    seq(|es|, i requires 0 <= i < |es| => Record(es[i]))
  }

  lemma {:induction false} FileTail(comp: string -> int, es: seq<Event>, sched: seq<Turn>, m: nat, w: nat)
    requires Scheduled(es, sched) && m < w <= |es| && forall i :: m < i < w ==> sched[i].kind == Plain
    ensures File(comp, es, sched, w) == File(comp, es, sched, m + 1) + Records(es[m + 1..w])
    decreases w
  {
    hide Appended, MemoryAt, LastOpened;
    if w > m + 1 {
      FileTail(comp, es, sched, m, w - 1);
      PlainStep(comp, es, sched, w);
      assert es[m + 1..w] == es[m + 1..w - 1] + [es[w - 1]];
    }
  }

  lemma PlainStep(comp: string -> int, es: seq<Event>, sched: seq<Turn>, w: nat)
    requires Scheduled(es, sched) && 0 < w <= |es| && sched[w - 1].kind == Plain
    ensures File(comp, es, sched, w) == File(comp, es, sched, w - 1) + Records([es[w - 1]])
  {
    hide MemoryAt, LastOpened;
  }

  lemma {:induction false} NoCheckpoint(file: seq<Entry>)
    requires forall entry :: entry in file ==> !entry.Checkpoint?
    ensures LastCheckpoint(file) == -1
    decreases |file|
  {
    if file != [] {
      NoCheckpoint(file[..|file| - 1]);
    }
  }

  lemma {:induction false} CheckpointBefore(file: seq<Entry>, k: nat)
    requires k < |file| && file[k].Checkpoint? && forall i :: k < i < |file| ==> !file[i].Checkpoint?
    ensures LastCheckpoint(file) == k
    decreases |file|
  {
    if k < |file| - 1 {
      CheckpointBefore(file[..|file| - 1], k);
    }
  }

  lemma {:induction false} RecoverAppend(comp: string -> int, r: Reader, a: seq<Entry>, b: seq<Entry>, before: bool)
    ensures RecoverEntries(comp, r, a + b, before)
         == RecoverEntries(comp, RecoverEntries(comp, r, a, before), b, before)
    decreases |b|
  {
    if b == [] {
      assert a + b == a;
    } else {
      assert (a + b)[..|a + b| - 1] == a + b[..|b| - 1];
      RecoverAppend(comp, r, a, b[..|b| - 1], before);
    }
  }

  lemma {:induction false} RecoverRecords(comp: string -> int, r: Reader, es: seq<Event>)
    ensures RecoverEntries(comp, r, Records(es), false).table == Replay(comp, r.table, es)
    decreases |es|
  {
    if es != [] {
      assert Records(es)[..|es| - 1] == Records(es[..|es| - 1]);
      RecoverRecords(comp, r, es[..|es| - 1]);
    }
  }

  // ----- Recovery

  /** `t` holds what is held after the whole history, but for the dropped locks, and counts on from the
      last id that was given out. */
  ghost predicate Rebuilt(comp: string -> int, es: seq<Event>, dropped: set<int>, t: Table) {
    TableOf(comp, ActiveAt(es, |es|) - dropped, t) && t.lastId == LastOpened(0, es, |es|)
  }

  lemma MarkShape(comp: string -> int, es: seq<Event>, sched: seq<Turn>, m: nat)
    requires Scheduled(es, sched) && m < |es| && forall i :: m < i < |es| ==> sched[i].kind == Plain
    ensures File(comp, es, sched, |es|)
         == Appended(File(comp, es, sched, m), MemoryAt(comp, es, sched[m].at), LastOpened(0, es, m), es[m], sched[m].kind)
            + Records(es[m + 1..])
  {
    hide Appended, MemoryAt, LastOpened, Records;
    FileTail(comp, es, sched, m, |es|);
    assert es[m + 1..|es|] == es[m + 1..];
  }

  lemma MarkRecord(before: seq<Entry>, es: seq<Event>, m: nat)
    requires m < |es|
    ensures before + [Record(es[m])] + Records(es[m + 1..]) == before + Records(es[m..])
  {
    assert es[m..] == [es[m]] + es[m + 1..];
  }

  lemma RotatedShape(comp: string -> int, es: seq<Event>, sched: seq<Turn>, m: nat)
    requires Scheduled(es, sched) && m < |es| && sched[m].kind == Rotated
    requires forall i :: m < i < |es| ==> sched[i].kind == Plain
    ensures File(comp, es, sched, |es|)
         == [SnapshotHeader(LastOpened(0, es, m))] + Opens(SnapshotRecords(MemoryAt(comp, es, sched[m].at)))
            + Records(es[m..])
  {
    hide File, MemoryAt, LastOpened, Opens, SnapshotRecords, Records;
    MarkShape(comp, es, sched, m);
    MarkRecord(Snapshot(MemoryAt(comp, es, sched[m].at), LastOpened(0, es, m)), es, m);
  }

  lemma CheckpointShape(comp: string -> int, es: seq<Event>, sched: seq<Turn>, m: nat)
    requires Scheduled(es, sched) && m < |es| && sched[m].kind == AtCheckpoint
    requires forall i :: m < i < |es| ==> sched[i].kind == Plain
    ensures File(comp, es, sched, |es|)
         == File(comp, es, sched, m)
            + ([Checkpoint(LastOpened(0, es, m), ActiveIds(MemoryAt(comp, es, sched[m].at)))] + Records(es[m..]))
  {
    hide File, MemoryAt, LastOpened, ActiveIds, Records;
    var file, c := File(comp, es, sched, m), Checkpoint(LastOpened(0, es, m), ActiveIds(MemoryAt(comp, es, sched[m].at)));
    MarkShape(comp, es, sched, m);
    CheckpointTail(file, c, es, m);
  }

  lemma CheckpointTail(file: seq<Entry>, c: Entry, es: seq<Event>, m: nat)
    requires m < |es|
    ensures file + [c, Record(es[m])] + Records(es[m + 1..]) == file + ([c] + Records(es[m..]))
  {
    hide Records;
    MarkRecord(file + [c], es, m);
    assert file + [c] + [Record(es[m])] == file + [c, Record(es[m])];
    assert file + [c] + Records(es[m..]) == file + ([c] + Records(es[m..]));
  }

  lemma SnapshotRecovered(comp: string -> int, es: seq<Event>, m: nat, at: nat)
      returns (r: Reader)
    requires History(0, es) && m <= at <= |es|
    ensures var file := [SnapshotHeader(LastOpened(0, es, m))] + Opens(SnapshotRecords(MemoryAt(comp, es, at)));
            r == RecoverEntries(comp, Reader(EMPTY, {}), file, false)
    ensures TableOf(comp, ActiveAt(es, at), r.table) && Counted(ActiveAt(es, at), r.table)
    ensures LastOpened(0, es, m) <= r.table.lastId <= LastOpened(0, es, at)
  {
    hide History, ActiveAt, LastOpened, TableOf, MemoryAt, SnapshotRecords, AcquireLock;
    var all := ActiveAt(es, at);
    var t := MemoryAt(comp, es, at);
    var rs := SnapshotRecords(t);
    var header := [SnapshotHeader(LastOpened(0, es, m))];
    var r0 := RecoverEntries(comp, Reader(EMPTY, {}), header, false);
    HeaderRecovered(comp, es, m);
    LastOpenedGrows(0, es, m, at);
    ActiveTogether(es, at);
    MemoryIsTable(comp, es, at);
    forall i | 0 <= i < |rs| ensures rs[i].id in all && all[rs[i].id] == rs[i] && rs[i].id <= LastOpened(0, es, at) {
      SnapshotIsActive(comp, all, t, rs[i]);
    }
    var held := SnapshotLoad(comp, all, rs, r0, LastOpened(0, es, at), |rs|);
    assert Opens(rs)[..|rs|] == Opens(rs);
    forall id ensures id in held <==> id in all {
      if id in all {
        SnapshotIsActive(comp, all, t, all[id]);
        var i :| 0 <= i < |rs| && rs[i] == all[id];
        assert rs[i].id in held;
      }
    }
    forall id | id in held ensures held[id] == all[id] {
    }
    SameMap(held, all);
    RecoverAppend(comp, Reader(EMPTY, {}), header, Opens(rs), false);
    r := RecoverEntries(comp, Reader(EMPTY, {}), header + Opens(rs), false);
  }

  lemma HeaderRecovered(comp: string -> int, es: seq<Event>, m: nat)
    requires History(0, es) && m <= |es|
    ensures var r := RecoverEntries(comp, Reader(EMPTY, {}), [SnapshotHeader(LastOpened(0, es, m))], false);
            TableOf(comp, map[], r.table) && r.table.lastId == LastOpened(0, es, m)
  {
    hide History, TableOf;
    var header := [SnapshotHeader(LastOpened(0, es, m))];
    assert header[..|header| - 1] == [];
    NoneOpened(es);
    LastOpenedGrows(0, es, 0, m);
    EmptyTable(comp);
    KeepTable(comp, map[], EMPTY, LastOpened(0, es, m));
  }

  // The replay that starts with every lock of the later moment.
  lemma AllHeldConverges(es: seq<Event>, m: nat, at: nat)
    requires m <= at <= |es|
    ensures Converging(0, es, m, at, {}, m, ActiveAt(es, at))
  {
    assert ActiveAt(es, at).Keys + ActiveAt(es, at).Keys == ActiveAt(es, at).Keys;
  }

  lemma RecoverFromSnapshot(comp: string -> int, es: seq<Event>, sched: seq<Turn>, m: nat)
    requires History(0, es) && Scheduled(es, sched) && m < |es| && sched[m].kind == Rotated
    requires forall i :: m < i < |es| ==> sched[i].kind == Plain
    requires Roomy(es, m, sched[m].at)
    ensures Rebuilt(comp, es, {}, Recover(comp, EMPTY, File(comp, es, sched, |es|)))
  {
    hide History, ActiveAt, LastOpened, TableOf, MemoryAt, SnapshotRecords, Roomy, Replay, RecoverEntries;
    var at := sched[m].at;
    var head := [SnapshotHeader(LastOpened(0, es, m))] + Opens(SnapshotRecords(MemoryAt(comp, es, at)));
    RotatedShape(comp, es, sched, m);
    NoCheckpoint(head + Records(es[m..]));
    var r := SnapshotRecovered(comp, es, m, at);
    ActiveTogether(es, at);
    AllHeldConverges(es, m, at);
    ReplayRebuilds(comp, 0, es, m, at, {}, ActiveAt(es, at), r.table);
    RecoverAppend(comp, Reader(EMPTY, {}), head, Records(es[m..]), false);
    RecoverRecords(comp, r, es[m..]);
  }

  lemma ActiveIdsOfMemory(comp: string -> int, held: Active, t: Table)
    requires TableOf(comp, held, t)
    ensures ActiveIds(t) == if |held| <= 1 then {} else held.Keys
  {
    TableSize(comp, held, t);
  }

  lemma FilteredRecovered(comp: string -> int, es: seq<Event>, sched: seq<Turn>, m: nat)
      returns (held: Active, r: Reader)
    requires History(0, es) && Scheduled(es, sched) && m < |es| && sched[m].kind == AtCheckpoint
    ensures var start := Reader(SetLastId(EMPTY, LastOpened(0, es, m)), ActiveIds(MemoryAt(comp, es, sched[m].at)));
            r == RecoverEntries(comp, start, File(comp, es, sched, m), true)
    ensures TableOf(comp, held, r.table) && Counted(held, r.table)
    ensures LastOpened(0, es, m) <= r.table.lastId <= LastOpened(0, es, sched[m].at)
    ensures PartOf(held, ActiveAt(es, sched[m].at))
    ensures forall id :: id in ActiveAt(es, sched[m].at) && id <= LastOpened(0, es, m) ==>
                           id in Dropped(es, m, sched[m]) || id in held
    ensures Dropped(es, m, sched[m]) != {} ==> held == map[]
  {
    hide History, ActiveAt, LastOpened, TableOf, MemoryAt, RecoverEntries, File;
    var at := sched[m].at;
    var all, t, file := ActiveAt(es, at), MemoryAt(comp, es, at), File(comp, es, sched, m);
    var start := Reader(SetLastId(EMPTY, LastOpened(0, es, m)), ActiveIds(t));
    MemoryIsTable(comp, es, at);
    ActiveIdsOfMemory(comp, all, t);
    EmptyTable(comp);
    KeepTable(comp, map[], EMPTY, LastOpened(0, es, m));
    NoneOpened(es);
    LastOpenedGrows(0, es, 0, m);
    LastOpenedGrows(0, es, m, at);
    assert m > 0 ==> sched[m - 1].at <= at;
    FileKnown(comp, es, sched, m, at);
    held := FilteredLoad(comp, es, m, at, start.ids, start, file, |file|);
    assert file[..|file|] == file;
    r := RecoverEntries(comp, start, file, true);
    NotListed(all);
  }

  lemma NotListed(all: Active)
    ensures |all| == 0 ==> forall id :: id !in all
  {
  }

  lemma RecoverFromCheckpoint(comp: string -> int, es: seq<Event>, sched: seq<Turn>, m: nat)
    requires History(0, es) && Scheduled(es, sched) && m < |es| && sched[m].kind == AtCheckpoint
    requires forall i :: m < i < |es| ==> sched[i].kind == Plain
    requires Roomy(es, m, sched[m].at)
    ensures Rebuilt(comp, es, Dropped(es, m, sched[m]), Recover(comp, EMPTY, File(comp, es, sched, |es|)))
  {
    hide History, ActiveAt, LastOpened, TableOf, MemoryAt, Roomy, Replay, RecoverEntries, File, ActiveIds;
    var at, dropped := sched[m].at, Dropped(es, m, sched[m]);
    var before, ids := File(comp, es, sched, m), ActiveIds(MemoryAt(comp, es, at));
    var tail := [Checkpoint(LastOpened(0, es, m), ids)] + Records(es[m..]);
    CheckpointShape(comp, es, sched, m);
    CheckpointBefore(before + tail, |before|);
    assert (before + tail)[..|before|] == before && (before + tail)[|before|..] == tail;
    var held, r := FilteredRecovered(comp, es, sched, m);
    RecoverTail(comp, r, LastOpened(0, es, m), ids, es[m..]);
    PartConverges(es, m, at, dropped, held);
    ActiveTogether(es, at);
    ReplayRebuilds(comp, 0, es, m, at, dropped, held, r.table);
  }

  lemma RecoverTail(comp: string -> int, r: Reader, lastId: int, ids: set<int>, es: seq<Event>)
    ensures RecoverEntries(comp, r, [Checkpoint(lastId, ids)] + Records(es), false).table == Replay(comp, r.table, es)
  {
    hide Replay;
    var checkpoint := [Checkpoint(lastId, ids)];
    assert checkpoint[..|checkpoint| - 1] == [];
    RecoverAppend(comp, r, checkpoint, Records(es), false);
    RecoverRecords(comp, r, es);
  }

  lemma PartConverges(es: seq<Event>, m: nat, at: nat, dropped: set<int>, held: Active)
    requires m <= at <= |es| && PartOf(held, ActiveAt(es, at)) && (dropped != {} ==> held == map[])
    requires forall id :: id in ActiveAt(es, at) && id <= LastOpened(0, es, m) && id !in dropped ==> id in held
    ensures Converging(0, es, m, at, dropped, m, held)
  {
    hide ActiveAt, LastOpened;
    var all := ActiveAt(es, at);
    assert forall id :: id in held.Keys + all.Keys <==> id in all.Keys;
    assert held.Keys + all.Keys == all.Keys;
  }

  /** Recovery from the newest file alone rebuilds the memory after every history that has reached the
      journal, but for a lock that was alone at the last checkpoint and opened before it. */
  lemma RecoveryRebuilds(comp: string -> int, es: seq<Event>, sched: seq<Turn>, m: nat)
    requires History(0, es) && Scheduled(es, sched) && es != [] && m == LastMark(sched, |es|)
    requires Roomy(es, m, sched[m].at)
    ensures Rebuilt(comp, es, Dropped(es, m, sched[m]), Recover(comp, EMPTY, File(comp, es, sched, |es|)))
  {
    hide History, Rebuilt, Recover, File, Roomy, ActiveAt, LastOpened;
    if sched[m].kind == Rotated {
      RecoverFromSnapshot(comp, es, sched, m);
    } else {
      RecoverFromCheckpoint(comp, es, sched, m);
    }
  }

  /** Recovery gives back the memory exactly when no lock that the last checkpoint left out is still held. */
  lemma RecoveryIsExactIff(comp: string -> int, es: seq<Event>, sched: seq<Turn>, m: nat)
    requires History(0, es) && Scheduled(es, sched) && es != [] && m == LastMark(sched, |es|)
    requires Roomy(es, m, sched[m].at)
    ensures Recover(comp, EMPTY, File(comp, es, sched, |es|)) == MemoryAt(comp, es, |es|)
       <==> ActiveAt(es, |es|).Keys !! Dropped(es, m, sched[m])
  {
    hide History, Recover, File, Roomy, ActiveAt, LastOpened, TableOf, MemoryAt;
    var dropped, held := Dropped(es, m, sched[m]), ActiveAt(es, |es|);
    RecoveryRebuilds(comp, es, sched, m);
    MemoryIsTable(comp, es, |es|);
    SameTable(comp, held, dropped, MemoryAt(comp, es, |es|), Recover(comp, EMPTY, File(comp, es, sched, |es|)));
  }

  lemma SameTable(comp: string -> int, held: Active, dropped: set<int>, t: Table, u: Table)
    requires TableOf(comp, held, t) && TableOf(comp, held - dropped, u) && t.lastId == u.lastId
    ensures t == u <==> held.Keys !! dropped
  {
    hide TableOf;
    TableSize(comp, held, t);
    TableSize(comp, held - dropped, u);
    if held.Keys !! dropped {
      forall id ensures id in held - dropped <==> id in held {
        assert id in held.Keys ==> id !in dropped;
      }
      SameMap(held - dropped, held);
      UniqueTable(comp, held, t, u);
    } else {
      Meeting(held.Keys, dropped);
      var id :| id in held.Keys && id in dropped;
      assert id in t.comps.Keys && id !in u.comps.Keys;
    }
  }

  lemma Meeting(a: set<int>, b: set<int>)
    ensures a !! b || exists id :: id in a && id in b
  {
    if forall id :: id in a ==> id !in b {
      assert a !! b;
    }
  }

  lemma UniqueTable(comp: string -> int, held: Active, t: Table, u: Table)
    requires TableOf(comp, held, t) && TableOf(comp, held, u) && t.lastId == u.lastId
    ensures t == u
  {
    ExtensionUnique(comp, EMPTY, held, t, u);
  }

  /** When every lock reaches the journal before the next change of the memory, recovery is exact unless the
      last mark is the checkpoint in front of a close that left a single lock, which is still held. */
  lemma StepwiseRecovery(comp: string -> int, es: seq<Event>, sched: seq<Turn>, m: nat)
    requires History(0, es) && Scheduled(es, sched) && es != [] && m == LastMark(sched, |es|)
    requires sched[m].at == m + 1
    ensures Recover(comp, EMPTY, File(comp, es, sched, |es|)) == MemoryAt(comp, es, |es|)
       <==> !(sched[m].kind == AtCheckpoint && es[m].Close? && |ActiveAt(es, m + 1)| == 1
              && ActiveAt(es, m + 1).Keys <= ActiveAt(es, |es|).Keys)
  {
    hide History, Recover, File, ActiveAt, LastOpened, MemoryAt;
    RecoveryIsExactIff(comp, es, sched, m);
    var all, last := ActiveAt(es, m + 1), ActiveAt(es, |es|);
    if sched[m].kind == AtCheckpoint && |all| == 1 {
      LoneLock(all.Keys);
      var id :| all.Keys == {id};
      HeldIdBounds(0, es, m + 1, id);
      assert id in all.Keys;
      assert Dropped(es, m, sched[m]) == if id <= LastOpened(0, es, m) then {id} else {};
      if es[m].Open? {
        FreshlyOpened(0, es, m);
        assert es[m].record.id in all.Keys;
      } else {
        FreshlyClosed(0, es, m);
      }
    }
  }

  lemma LoneLock(ids: set<int>)
    requires |ids| == 1
    ensures exists id :: ids == {id}
  {
    HasElement(ids);
    var id :| id in ids;
    assert |ids - {id}| == 0;
    assert ids == {id};
  }

  /** A lock that is alone when a checkpoint is written is lost by recovery. */
  lemma LoneLockIsLost(comp: string -> int, a: ActiveRecord, b: ActiveRecord)
    requires a.op == Write && b.op == Write && a.name != b.name && a.id == 1 && b.id == 2
    ensures var es := [Open(a), Open(b), Close(2)];
            var sched := [Turn(Rotated, 1), Turn(Plain, 2), Turn(AtCheckpoint, 3)];
            && History(0, es) && Scheduled(es, sched)
            && 1 in MemoryAt(comp, es, 3).comps && 1 !in Recover(comp, EMPTY, File(comp, es, sched, 3)).comps
  {
    hide Recover, File, MemoryAt, TableOf;
    var es := [Open(a), Open(b), Close(2)];
    var sched := [Turn(Rotated, 1), Turn(Plain, 2), Turn(AtCheckpoint, 3)];
    LoneLockHistory(a, b);
    RecoveryRebuilds(comp, es, sched, 2);
    MemoryIsTable(comp, es, 3);
    TableSize(comp, ActiveAt(es, 3), MemoryAt(comp, es, 3));
    TableSize(comp, ActiveAt(es, 3) - {1}, Recover(comp, EMPTY, File(comp, es, sched, 3)));
    assert 1 in ActiveAt(es, 3).Keys;
  }

  lemma LoneLockHistory(a: ActiveRecord, b: ActiveRecord)
    requires a.op == Write && b.op == Write && a.name != b.name && a.id == 1 && b.id == 2
    ensures var es := [Open(a), Open(b), Close(2)];
            && History(0, es) && ActiveAt(es, 3) == map[1 := a] && LastOpened(0, es, 2) == 2
            && Dropped(es, 2, Turn(AtCheckpoint, 3)) == {1}
  {
    var es := [Open(a), Open(b), Close(2)];
    assert ActiveAt(es, 0) == map[];
    assert ActiveAt(es, 1) == map[1 := a];
    assert ActiveAt(es, 2) == map[1 := a, 2 := b];
    assert ActiveAt(es, 3) == map[1 := a];
    assert LastOpened(0, es, 0) == 0 && LastOpened(0, es, 1) == 1 && LastOpened(0, es, 2) == 2;
    assert Admissible(0, es, 0) && Admissible(0, es, 1) && Admissible(0, es, 2);
    assert |ActiveAt(es, 3)| == 1;
  }

  // ----- The histories are those of the lock table

  datatype Call = Take(record: ActiveRecord) | Drop(id: int)

  /** Serves one call; a lock that is granted or released is an event for the journal. */
  function ServeCall(comp: string -> int, t: Table, call: Call): (Table, seq<Event>) {
    match call
    case Take(r) =>
      var (t', out) := AcquireLock(comp, t, r.(id := 0));
      (t', if out.Granted? then [Open(r.(id := out.id))] else [])
    case Drop(id) =>
      var (t', released) := Release(t, id);
      (t', if released then [Close(id)] else [])
  }

  function ServeCalls(comp: string -> int, calls: seq<Call>): (Table, seq<Event>)
    decreases |calls|
  {
    if calls == [] then (EMPTY, []) else
      var (t, es) := ServeCalls(comp, calls[..|calls| - 1]);
      var (t', e) := ServeCall(comp, t, calls[|calls| - 1]);
      (t', es + e)
  }

  lemma ServeCallExtends(comp: string -> int, held: Active, t: Table, call: Call)
    requires TableOf(comp, held, t) && 0 <= t.lastId && forall id :: id in held ==> 0 < id <= t.lastId
    requires call.Take? ==> call.record.op == Write
    ensures var (t', es) := ServeCall(comp, t, call);
            || (t' == t && es == [])
            || (call.Take? && es == [Open(call.record.(id := t.lastId + 1))] && t'.lastId == t.lastId + 1
                && TableOf(comp, held[t.lastId + 1 := call.record.(id := t.lastId + 1)], t')
                && !Holds(held, call.record.name) && |held| <= 1000000)
            || (call.Drop? && es == [Close(call.id)] && call.id in held && t'.lastId == t.lastId
                && TableOf(comp, held - {call.id}, t'))
  {
    hide Extends, WellFormed, Exclusive, NothingEmpty, Acquire, Fresh, Release;
    EmptyIsWellFormed(comp);
    TableSize(comp, held, t);
    match call
    case Take(r) =>
      if |t.comps| <= 1000000 {
        if Holds(held, r.name) {
          HeldIsConflict(comp, held, t, r.(id := 0));
        } else {
          AcquireExtends(comp, EMPTY, held, t, r.(id := 0));
        }
      }
    case Drop(id) =>
      if id in held {
        ReleaseExtends(comp, EMPTY, held, t, id);
      } else {
        CloseNothing(comp, held, t, id);
        assert id !in t.comps.Keys;
        NotReleased(t, id);
      }
  }

  lemma NotReleased(t: Table, id: int)
    requires id !in t.comps
    ensures Release(t, id) == (t, false)
  {
  }

  lemma {:induction false} PrefixHistory(es: seq<Event>, e: Event, n: nat)
    requires n <= |es|
    ensures ActiveAt(es + [e], n) == ActiveAt(es, n) && LastOpened(0, es + [e], n) == LastOpened(0, es, n)
    decreases n
  {
    if n > 0 {
      assert (es + [e])[n - 1] == es[n - 1];
      PrefixHistory(es, e, n - 1);
    }
  }

  ghost predicate NextEvent(es: seq<Event>, e: Event) {
    match e
    case Open(r) =>
      r.op == Write && r.id > LastOpened(0, es, |es|) && !Holds(ActiveAt(es, |es|), r.name)
      && |ActiveAt(es, |es|)| <= 1000000
    case Close(id) => id in ActiveAt(es, |es|)
  }

  lemma HistoryGoesOn(es: seq<Event>, e: Event)
    requires History(0, es) && NextEvent(es, e)
    ensures History(0, es + [e])
    ensures ActiveAt(es + [e], |es| + 1) == After(ActiveAt(es, |es|), e)
    ensures LastOpened(0, es + [e], |es| + 1) == if e.Open? then e.record.id else LastOpened(0, es, |es|)
  {
    hide ActiveAt, LastOpened, Holds;
    var es' := es + [e];
    forall n | 0 <= n < |es'| ensures Admissible(0, es', n) {
      PrefixHistory(es, e, n);
      if n < |es| {
        assert Admissible(0, es, n) && es'[n] == es[n];
      }
    }
    LastStep(es, e);
  }

  lemma LastStep(es: seq<Event>, e: Event)
    ensures ActiveAt(es + [e], |es| + 1) == After(ActiveAt(es, |es|), e)
    ensures LastOpened(0, es + [e], |es| + 1) == if e.Open? then e.record.id else LastOpened(0, es, |es|)
  {
    PrefixHistory(es, e, |es|);
  }

  /** Every run of calls on the lock table is a history, and its memory is the one that recovery is compared with. */
  lemma {:induction false} CallsMakeHistory(comp: string -> int, calls: seq<Call>)
    requires forall i :: 0 <= i < |calls| && calls[i].Take? ==> calls[i].record.op == Write
    ensures var (t, es) := ServeCalls(comp, calls); History(0, es) && t == MemoryAt(comp, es, |es|)
    decreases |calls|
  {
    hide History, MemoryAt, ServeCall;
    if calls == [] {
      CallsFromEmpty(comp);
    } else {
      var before := calls[..|calls| - 1];
      CallsMakeHistory(comp, before);
      var (t, es) := ServeCalls(comp, before);
      CallContinues(comp, es, t, calls[|calls| - 1]);
    }
  }

  lemma CallContinues(comp: string -> int, es: seq<Event>, t: Table, call: Call)
    requires History(0, es) && t == MemoryAt(comp, es, |es|) && (call.Take? ==> call.record.op == Write)
    ensures var (t', e) := ServeCall(comp, t, call); History(0, es + e) && t' == MemoryAt(comp, es + e, |es + e|)
  {
    hide History, TableOf, MemoryAt, ActiveAt, LastOpened, Holds, ServeCall;
    var (t', e) := ServeCall(comp, t, call);
    MemoryIsTable(comp, es, |es|);
    HistoryIsPositive(es);
    ServeCallExtends(comp, ActiveAt(es, |es|), t, call);
    if e == [] {
      assert es + e == es;
    } else {
      EventContinues(comp, es, t', e[0]);
      assert e == [e[0]];
    }
  }

  lemma EventContinues(comp: string -> int, es: seq<Event>, t: Table, e: Event)
    requires History(0, es) && NextEvent(es, e) && TableOf(comp, After(ActiveAt(es, |es|), e), t)
    requires t.lastId == if e.Open? then e.record.id else LastOpened(0, es, |es|)
    ensures History(0, es + [e]) && t == MemoryAt(comp, es + [e], |es + [e]|)
  {
    hide History, TableOf, MemoryAt, ActiveAt, LastOpened, NextEvent, After;
    HistoryGoesOn(es, e);
    MemoryIsTable(comp, es + [e], |es| + 1);
    UniqueTable(comp, After(ActiveAt(es, |es|), e), t, MemoryAt(comp, es + [e], |es| + 1));
  }

  lemma CallsFromEmpty(comp: string -> int)
    ensures History(0, []) && MemoryAt(comp, [], 0) == EMPTY
  {
  }

  lemma HistoryIsPositive(es: seq<Event>)
    requires History(0, es)
    ensures 0 <= LastOpened(0, es, |es|)
    ensures forall id :: id in ActiveAt(es, |es|) ==> 0 < id <= LastOpened(0, es, |es|)
  {
    HistoryIsProper(0, es, |es|);
  }
}