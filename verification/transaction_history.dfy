/** Histories of write locks, and what replaying a part of one on top of a later state rebuilds.

    The memory may be ahead of the journal, so a snapshot can hold locks that the file opens again behind
    it, and miss locks that the file still opens and closes.  The replay converges nevertheless. */
module TransactionHistory {
  import opened LockTable
  import opened OrderedKeys
  import opened LockInvariant
  import opened BulkTransaction

  datatype Event = Open(record: ActiveRecord) | Close(id: int)

  type Active = map<int, ActiveRecord>

  function After(active: Active, e: Event): Active {
    match e
    case Open(r) => active[r.id := r]
    case Close(id) => active - {id}
  }

  /** The locks held after the first `n` events. */
  function ActiveAt(es: seq<Event>, n: nat): Active
    requires n <= |es|
  {
    if n == 0 then map[] else After(ActiveAt(es, n - 1), es[n - 1])
  }

  /** The id of the last lock opened by the first `n` events. */
  function LastOpened(start: int, es: seq<Event>, n: nat): int
    requires n <= |es|
  {
    if n == 0 then start else if es[n - 1].Open? then es[n - 1].record.id else LastOpened(start, es, n - 1)
  }

  // What the lock table lets happen: ids grow, an opened object is free, a closed lock is held.
  ghost predicate Admissible(start: int, es: seq<Event>, n: nat)
    requires n < |es|
  {
    match es[n]
    case Open(r) =>
      r.op == Write && r.id > LastOpened(start, es, n) && !Holds(ActiveAt(es, n), r.name)
      && |ActiveAt(es, n)| <= 1000000
    case Close(id) => id in ActiveAt(es, n)
  }

  ghost predicate History(start: int, es: seq<Event>) {
    0 <= start && forall n :: 0 <= n < |es| ==> Admissible(start, es, n)
  }

  // ----- Facts about histories

  ghost predicate ProperAt(start: int, es: seq<Event>, n: nat)
    requires n <= |es|
  {
    && start <= LastOpened(start, es, n)
    && (forall id :: id in ActiveAt(es, n) ==>
          && start < id <= LastOpened(start, es, n)
          && ActiveAt(es, n)[id].id == id && ActiveAt(es, n)[id].op == Write)
    && (forall i, j :: i in ActiveAt(es, n) && j in ActiveAt(es, n) && i != j ==>
          ActiveAt(es, n)[i].name != ActiveAt(es, n)[j].name)
    && |ActiveAt(es, n)| <= 1000001
  }

  lemma {:induction false} HistoryIsProper(start: int, es: seq<Event>, n: nat)
    requires History(start, es) && n <= |es|
    ensures ProperAt(start, es, n)
  {
    hide Holds, ProperAt, Admissible;
    if n == 0 {
      EmptyIsProper(start, es);
    } else {
      HistoryIsProper(start, es, n - 1);
      assert Admissible(start, es, n - 1);
      if es[n - 1].Open? {
        OpenIsProper(start, es, n - 1);
      } else {
        CloseIsProper(start, es, n - 1);
      }
    }
  }

  lemma EmptyIsProper(start: int, es: seq<Event>)
    ensures ProperAt(start, es, 0)
  {
  }

  lemma OpenIsProper(start: int, es: seq<Event>, n: nat)
    requires n < |es| && es[n].Open? && ProperAt(start, es, n) && Admissible(start, es, n)
    ensures ProperAt(start, es, n + 1)
  {
    var before := ActiveAt(es, n);
    assert forall id :: id in before ==> Holds(before, before[id].name);
  }

  lemma CloseIsProper(start: int, es: seq<Event>, n: nat)
    requires n < |es| && es[n].Close? && ProperAt(start, es, n) && Admissible(start, es, n)
    ensures ProperAt(start, es, n + 1)
  {
    assert |ActiveAt(es, n) - {es[n].id}| <= |ActiveAt(es, n)|;
  }

  lemma {:induction false} LastOpenedGrows(start: int, es: seq<Event>, m: nat, n: nat)
    requires History(start, es) && m <= n <= |es|
    ensures LastOpened(start, es, m) <= LastOpened(start, es, n)
  {
    if m < n {
      LastOpenedGrows(start, es, m, n - 1);
      assert Admissible(start, es, n - 1);
    }
  }

  lemma HeldIdBounds(start: int, es: seq<Event>, n: nat, id: int)
    requires History(start, es) && n <= |es| && id in ActiveAt(es, n)
    ensures start < id <= LastOpened(start, es, n)
  {
    HistoryIsProper(start, es, n);
  }

  /** A lock held at `n` was held, with the same record, since it was opened. */
  lemma {:induction false} HeldSinceOpened(start: int, es: seq<Event>, m: nat, n: nat, id: int)
    requires History(start, es) && m <= n <= |es| && id in ActiveAt(es, n)
    ensures id <= LastOpened(start, es, m) <==> id in ActiveAt(es, m)
    ensures id in ActiveAt(es, m) ==> ActiveAt(es, m)[id] == ActiveAt(es, n)[id]
    decreases n - m
  {
    if m == n {
      HeldIdBounds(start, es, n, id);
    } else {
      hide History, ActiveAt, LastOpened;
      HeldSinceOpened(start, es, m + 1, n, id);
      if id in ActiveAt(es, m) {
        HeldIdBounds(start, es, m, id);
      }
      match es[m]
      case Open(r) => OpenGrows(start, es, m);
      case Close(k) =>
        FreshlyClosed(start, es, m);
        HeldIdBounds(start, es, m, k);
    }
  }

  lemma OpenGrows(start: int, es: seq<Event>, m: nat)
    requires History(start, es) && m < |es| && es[m].Open?
    ensures var r := es[m].record;
            && ActiveAt(es, m + 1) == ActiveAt(es, m)[r.id := r]
            && LastOpened(start, es, m) < r.id == LastOpened(start, es, m + 1)
  {
    assert Admissible(start, es, m);
  }

  /** Objects held at the same time are distinct. */
  lemma OneHolder(start: int, es: seq<Event>, n: nat, i: int, j: int)
    requires History(start, es) && n <= |es| && i in ActiveAt(es, n) && j in ActiveAt(es, n)
    ensures ActiveAt(es, n)[i].name == ActiveAt(es, n)[j].name ==> i == j
    ensures ActiveAt(es, n)[i].id == i && ActiveAt(es, n)[i].op == Write
    ensures |ActiveAt(es, n)| <= 1000001
  {
    HistoryIsProper(start, es, n);
  }

  // ----- Replay

  function ReplayEvent(comp: string -> int, t: Table, e: Event): Table {
    match e
    case Open(r) => AcquireLock(comp, t, r).0
    case Close(id) => Release(t, id).0
  }

  function Replay(comp: string -> int, t: Table, es: seq<Event>): Table
    decreases |es|
  {
    if es == [] then t else ReplayEvent(comp, Replay(comp, t, es[..|es| - 1]), es[|es| - 1])
  }

  // What replaying an open or a close does to the set of locks.
  ghost function ReplayedOpen(held: Active, r: ActiveRecord): Active {
    if Holds(held, r.name) || |held| > 1000000 then held else held[r.id := r]
  }

  /** `t` is the table of exactly the locks in `held`. */
  ghost predicate TableOf(comp: string -> int, held: Active, t: Table) {
    Extends(comp, EMPTY, held, t)
  }

  lemma TableSize(comp: string -> int, held: Active, t: Table)
    requires TableOf(comp, held, t)
    ensures t.comps.Keys == held.Keys && |t.comps| == |held|
  {
    assert forall id :: id in t.comps.Keys <==> id in held.Keys;
    assert t.comps.Keys == held.Keys;
    assert |t.comps| == |t.comps.Keys| && |held| == |held.Keys|;
  }

  lemma TableNames(comp: string -> int, held: Active, t: Table, name: string)
    requires TableOf(comp, held, t)
    ensures name in t.names <==> Holds(held, name)
  {
  }

  lemma ReplayOpen(comp: string -> int, held: Active, t: Table, r: ActiveRecord)
    requires TableOf(comp, held, t) && r.op == Write && r.id > 0
    requires r.id in held ==> held[r.id] == r
    ensures var t' := AcquireLock(comp, t, r).0;
            && TableOf(comp, ReplayedOpen(held, r), t')
            && t'.lastId == if ReplayedOpen(held, r) == held then t.lastId else if t.lastId < r.id then r.id else t.lastId
  {
    hide Extends, WellFormed, Exclusive, NothingEmpty, Acquire, Fresh;
    EmptyIsWellFormed(comp);
    TableSize(comp, held, t);
    TableNames(comp, held, t, r.name);
    if |t.comps| <= 1000000 {
      if r.id in held {
        assert Holds(held, r.name);
        HeldIsConflict(comp, held, t, r);
      } else {
        AcquireExtends(comp, EMPTY, held, t, r);
        assert r.(id := r.id) == r;
      }
    }
  }

  lemma HeldIsConflict(comp: string -> int, held: Active, t: Table, r: ActiveRecord)
    requires TableOf(comp, held, t) && r.op == Write && Holds(held, r.name)
    ensures Acquire(comp, t, r) == (t, Conflict)
  {
    EmptyIsWellFormed(comp);
    HeldIsBlocked(comp, EMPTY, held, t, r);
  }

  lemma ReplayClose(comp: string -> int, held: Active, t: Table, id: int)
    requires TableOf(comp, held, t)
    ensures TableOf(comp, held - {id}, Release(t, id).0) && Release(t, id).0.lastId == t.lastId
  {
    EmptyIsWellFormed(comp);
    if id in held {
      ReleaseExtends(comp, EMPTY, held, t, id);
    } else {
      TableSize(comp, held, t);
      assert id !in t.comps;
      assert held - {id} == held;
    }
  }

  // ----- Convergence: replaying events `from`.. on top of locks held at the later time `upTo`

  ghost predicate HeldAt(es: seq<Event>, n: nat, id: int, r: ActiveRecord)
    requires n <= |es|
  {
    id in ActiveAt(es, n) && ActiveAt(es, n)[id] == r
  }

  // Room for the locks that are open in the replay but already closed at `upTo`.
  ghost predicate Roomy(es: seq<Event>, from: nat, upTo: nat)
    requires from <= upTo <= |es|
  {
    upTo <= from + 1 || |ActiveAt(es, upTo)| + (upTo - from) <= 1000001
  }

  // `dropped` are locks held at `upTo` and opened before `from` that the replay does not start with.
  ghost predicate Droppable(start: int, es: seq<Event>, from: nat, upTo: nat, dropped: set<int>)
    requires from <= upTo <= |es|
  {
    forall id :: id in dropped ==> id in ActiveAt(es, upTo) && id <= LastOpened(start, es, from)
  }

  ghost predicate OnlyKnown(es: seq<Event>, upTo: nat, dropped: set<int>, i: nat, held: Active)
    requires i <= upTo <= |es|
  {
    forall id :: id in held ==> id !in dropped && (HeldAt(es, upTo, id, held[id]) || HeldAt(es, i, id, held[id]))
  }

  ghost predicate AllOpened(start: int, es: seq<Event>, upTo: nat, dropped: set<int>, i: nat, held: Active)
    requires i <= upTo <= |es|
  {
    forall id :: id in ActiveAt(es, upTo) && id <= LastOpened(start, es, i) && id !in dropped ==> id in held
  }

  ghost predicate FewExtra(es: seq<Event>, from: nat, upTo: nat, i: nat, held: Active)
    requires from <= i <= upTo <= |es|
  {
    |held.Keys + ActiveAt(es, upTo).Keys| <= |ActiveAt(es, upTo)| + (i - from)
  }

  /** What the replay holds before event `i`: locks of the history at `i` or at `upTo`, and among them
      all those of `upTo` that are already open at `i`, but for the dropped ones. */
  ghost predicate Converging(start: int, es: seq<Event>, from: nat, upTo: nat, dropped: set<int>, i: nat, held: Active)
    requires from <= i <= upTo <= |es|
  {
    && OnlyKnown(es, upTo, dropped, i, held)
    && AllOpened(start, es, upTo, dropped, i, held)
    && FewExtra(es, from, upTo, i, held)
  }

  ghost function ReplayedEvent(held: Active, e: Event): Active {
    match e
    case Open(r) => ReplayedOpen(held, r)
    case Close(id) => held - {id}
  }

  lemma FreshlyOpened(start: int, es: seq<Event>, i: nat)
    requires History(start, es) && i < |es| && es[i].Open?
    ensures var r := es[i].record;
            && r.op == Write && r.id > LastOpened(start, es, i) >= start >= 0
            && (forall id :: id in ActiveAt(es, i) ==> ActiveAt(es, i)[id].name != r.name)
            && |ActiveAt(es, i)| <= 1000000
            && ActiveAt(es, i + 1) == ActiveAt(es, i)[r.id := r]
            && LastOpened(start, es, i + 1) == r.id
  {
    assert Admissible(start, es, i);
    LastOpenedGrows(start, es, 0, i);
  }

  lemma FreshlyClosed(start: int, es: seq<Event>, i: nat)
    requires History(start, es) && i < |es| && es[i].Close?
    ensures es[i].id in ActiveAt(es, i) && ActiveAt(es, i + 1) == ActiveAt(es, i) - {es[i].id}
    ensures LastOpened(start, es, i + 1) == LastOpened(start, es, i)
  {
    assert Admissible(start, es, i);
  }

  lemma OpenedNow(start: int, es: seq<Event>, i: nat, n: nat, id: int)
    requires History(start, es) && i < n <= |es| && es[i].Open? && id in ActiveAt(es, n)
    ensures id <= LastOpened(start, es, i + 1) ==> id <= LastOpened(start, es, i) || id == es[i].record.id
    ensures id == es[i].record.id ==> ActiveAt(es, n)[id] == es[i].record
    ensures id <= LastOpened(start, es, i) ==> id != es[i].record.id
  {
    hide History, ActiveAt, LastOpened;
    HeldSinceOpened(start, es, i, n, id);
    HeldSinceOpened(start, es, i + 1, n, id);
    FreshlyOpened(start, es, i);
  }

  lemma ClosedStaysClosed(start: int, es: seq<Event>, i: nat, n: nat)
    requires History(start, es) && i < n <= |es| && es[i].Close?
    ensures es[i].id !in ActiveAt(es, n)
  {
    hide History, ActiveAt, LastOpened;
    var id := es[i].id;
    FreshlyClosed(start, es, i);
    HeldIdBounds(start, es, i, id);
    if id in ActiveAt(es, n) {
      HeldSinceOpened(start, es, i + 1, n, id);
    }
  }

  /** An object that the replay finds taken is held by the very lock that is being opened, or by one
      that is opened later and still held at `upTo`. */
  lemma TakenByLater(start: int, es: seq<Event>, from: nat, upTo: nat, dropped: set<int>, i: nat, held: Active, id: int)
    requires History(start, es) && from <= i < upTo <= |es| && es[i].Open?
    requires Converging(start, es, from, upTo, dropped, i, held)
    requires id in held && held[id].name == es[i].record.name
    ensures HeldAt(es, upTo, id, held[id]) && id >= es[i].record.id
  {
    hide History, ActiveAt, LastOpened;
    FreshlyOpened(start, es, i);
    assert !HeldAt(es, i, id, held[id]);
    HeldSinceOpened(start, es, i, upTo, id);
    HeldSinceOpened(start, es, i + 1, upTo, id);
  }

  lemma OpenIsHeldOrFits(start: int, es: seq<Event>, from: nat, upTo: nat, dropped: set<int>, i: nat, held: Active)
    requires History(start, es) && from <= i < upTo <= |es| && es[i].Open? && Roomy(es, from, upTo)
    requires Converging(start, es, from, upTo, dropped, i, held)
    ensures var r := es[i].record;
            && (Holds(held, r.name) && r.id in ActiveAt(es, upTo) ==> r.id in held)
            && (r.id in held ==> held[r.id] == r)
            && (!Holds(held, r.name) ==> r.id !in held && |held| <= 1000000)
  {
    hide History, ActiveAt, LastOpened;
    var r := es[i].record;
    var last := ActiveAt(es, upTo);
    FreshlyOpened(start, es, i);
    if r.id in ActiveAt(es, i) {
      HeldIdBounds(start, es, i, r.id);
    }
    if r.id in last {
      OpenedNow(start, es, i, upTo, r.id);
      if Holds(held, r.name) {
        var k :| k in held && held[k].name == r.name;
        TakenByLater(start, es, from, upTo, dropped, i, held, k);
        OneHolder(start, es, upTo, k, r.id);
      }
    }
    if !Holds(held, r.name) {
      LastSize(start, es, from, upTo, i);
      RoomInUnion(held, last, r.id);
    }
  }

  lemma LastSize(start: int, es: seq<Event>, from: nat, upTo: nat, i: nat)
    requires History(start, es) && from <= i < upTo <= |es| && es[i].Open?
    ensures |ActiveAt(es, upTo)| <= 1000001
    ensures upTo <= from + 1 ==> es[i].record.id in ActiveAt(es, upTo)
  {
    HistoryIsProper(start, es, upTo);
  }

  lemma RoomInUnion(held: Active, last: Active, id: int)
    ensures |held| <= |held.Keys + last.Keys|
    ensures id in last && id !in held ==> |held| + 1 <= |held.Keys + last.Keys|
  {
    SubsetSize(held.Keys, held.Keys + last.Keys);
    if id in last && id !in held {
      SubsetSize(held.Keys + {id}, held.Keys + last.Keys);
    }
  }

  lemma {:induction false} SubsetSize(a: set<int>, b: set<int>)
    requires a <= b
    ensures |a| <= |b|
    decreases |a|
  {
    if a != {} {
      HasElement(a);
      var x :| x in a;
      SubsetSize(a - {x}, b - {x});
    }
  }

  lemma ConvergesByOpen(start: int, es: seq<Event>, from: nat, upTo: nat, dropped: set<int>, i: nat, held: Active)
    requires History(start, es) && from <= i < upTo <= |es| && es[i].Open? && Roomy(es, from, upTo)
    requires Droppable(start, es, from, upTo, dropped)
    requires Converging(start, es, from, upTo, dropped, i, held)
    ensures Converging(start, es, from, upTo, dropped, i + 1, ReplayedOpen(held, es[i].record))
  {
    hide History, ActiveAt, LastOpened, OnlyKnown, AllOpened, FewExtra;
    var r := es[i].record;
    OpenIsHeldOrFits(start, es, from, upTo, dropped, i, held);
    OnlyKnownByOpen(start, es, from, upTo, dropped, i, held);
    AllOpenedByOpen(start, es, upTo, dropped, i, held, ReplayedOpen(held, r));
    FewExtraByOpen(es, from, upTo, i, held, ReplayedOpen(held, r), r.id);
  }

  lemma OnlyKnownByOpen(start: int, es: seq<Event>, from: nat, upTo: nat, dropped: set<int>, i: nat, held: Active)
    requires History(start, es) && from <= i < upTo <= |es| && es[i].Open?
    requires Droppable(start, es, from, upTo, dropped) && OnlyKnown(es, upTo, dropped, i, held)
    ensures OnlyKnown(es, upTo, dropped, i + 1, ReplayedOpen(held, es[i].record))
  {
    hide History, ActiveAt, LastOpened;
    var held' := ReplayedOpen(held, es[i].record);
    FreshlyOpened(start, es, i);
    LastOpenedGrows(start, es, from, i);
    forall id | id in held'
      ensures id !in dropped && (HeldAt(es, upTo, id, held'[id]) || HeldAt(es, i + 1, id, held'[id]))
    {
      if id in held && HeldAt(es, i, id, held[id]) {
        HeldIdBounds(start, es, i, id);
      }
    }
  }

  lemma AllOpenedByOpen(start: int, es: seq<Event>, upTo: nat, dropped: set<int>, i: nat, held: Active, held': Active)
    requires History(start, es) && i < upTo <= |es| && es[i].Open?
    requires AllOpened(start, es, upTo, dropped, i, held) && held.Keys <= held'.Keys
    requires es[i].record.id in ActiveAt(es, upTo) ==> es[i].record.id in held'
    ensures AllOpened(start, es, upTo, dropped, i + 1, held')
  {
    hide History, ActiveAt, LastOpened;
    forall id | id in ActiveAt(es, upTo) && id <= LastOpened(start, es, i + 1) && id !in dropped ensures id in held' {
      OpenedNow(start, es, i, upTo, id);
      assert id in held.Keys || id == es[i].record.id;
    }
  }

  lemma FewExtraByOpen(es: seq<Event>, from: nat, upTo: nat, i: nat, held: Active, held': Active, id: int)
    requires from <= i < upTo <= |es| && FewExtra(es, from, upTo, i, held) && held'.Keys <= held.Keys + {id}
    ensures FewExtra(es, from, upTo, i + 1, held')
  {
    var last := ActiveAt(es, upTo);
    SubsetSize(held'.Keys + last.Keys, held.Keys + last.Keys + {id});
  }

  lemma ConvergesByClose(start: int, es: seq<Event>, from: nat, upTo: nat, dropped: set<int>, i: nat, held: Active)
    requires History(start, es) && from <= i < upTo <= |es| && es[i].Close?
    requires Converging(start, es, from, upTo, dropped, i, held)
    ensures Converging(start, es, from, upTo, dropped, i + 1, held - {es[i].id})
  {
    hide History, ActiveAt, LastOpened, FewExtra;
    var id := es[i].id;
    FreshlyClosed(start, es, i);
    ClosedStaysClosed(start, es, i, upTo);
    assert OnlyKnown(es, upTo, dropped, i + 1, held - {id});
    assert AllOpened(start, es, upTo, dropped, i + 1, held - {id});
    FewExtraByClose(es, from, upTo, i, held, held - {id});
  }

  lemma FewExtraByClose(es: seq<Event>, from: nat, upTo: nat, i: nat, held: Active, held': Active)
    requires from <= i < upTo <= |es| && FewExtra(es, from, upTo, i, held) && held'.Keys <= held.Keys
    ensures FewExtra(es, from, upTo, i + 1, held')
  {
    SubsetSize(held'.Keys + ActiveAt(es, upTo).Keys, held.Keys + ActiveAt(es, upTo).Keys);
  }

  // ----- The table while the replay converges

  ghost predicate InStep(start: int, es: seq<Event>, upTo: nat, i: nat, held: Active, t: Table)
    requires i <= upTo <= |es|
  {
    && LastOpened(start, es, i) <= t.lastId <= LastOpened(start, es, upTo)
    && (forall id :: id in held ==> id <= t.lastId)
  }

  lemma OpenConverges(comp: string -> int, start: int, es: seq<Event>, from: nat, upTo: nat, dropped: set<int>, i: nat,
                      held: Active, t: Table)
    requires History(start, es) && from <= i < upTo <= |es| && Roomy(es, from, upTo) && es[i].Open?
    requires Droppable(start, es, from, upTo, dropped) && Converging(start, es, from, upTo, dropped, i, held)
    requires TableOf(comp, held, t) && InStep(start, es, upTo, i, held, t)
    ensures var held', t' := ReplayedEvent(held, es[i]), ReplayEvent(comp, t, es[i]);
            && Converging(start, es, from, upTo, dropped, i + 1, held')
            && TableOf(comp, held', t') && InStep(start, es, upTo, i + 1, held', t')
  {
    hide History, ActiveAt, LastOpened, Converging, TableOf, Roomy, AcquireLock;
    var r := es[i].record;
    OpenIsHeldOrFits(start, es, from, upTo, dropped, i, held);
    FreshlyOpened(start, es, i);
    LastOpenedGrows(start, es, i + 1, upTo);
    ReplayOpen(comp, held, t, r);
    ConvergesByOpen(start, es, from, upTo, dropped, i, held);
    if Holds(held, r.name) {
      var k :| k in held && held[k].name == r.name;
      TakenByLater(start, es, from, upTo, dropped, i, held, k);
    }
  }

  lemma CloseConverges(comp: string -> int, start: int, es: seq<Event>, from: nat, upTo: nat, dropped: set<int>, i: nat,
                       held: Active, t: Table)
    requires History(start, es) && from <= i < upTo <= |es| && es[i].Close?
    requires Converging(start, es, from, upTo, dropped, i, held)
    requires TableOf(comp, held, t) && InStep(start, es, upTo, i, held, t)
    ensures var held', t' := ReplayedEvent(held, es[i]), ReplayEvent(comp, t, es[i]);
            && Converging(start, es, from, upTo, dropped, i + 1, held')
            && TableOf(comp, held', t') && InStep(start, es, upTo, i + 1, held', t')
  {
    hide History, ActiveAt, LastOpened, Converging, TableOf, Release;
    FreshlyClosed(start, es, i);
    ReplayClose(comp, held, t, es[i].id);
    ConvergesByClose(start, es, from, upTo, dropped, i, held);
  }

  lemma ReplayLast(comp: string -> int, t: Table, es: seq<Event>, from: nat, i: nat)
    requires from <= i < |es|
    ensures Replay(comp, t, es[from..i + 1]) == ReplayEvent(comp, Replay(comp, t, es[from..i]), es[i])
  {
    var part := es[from..i + 1];
    assert part[..|part| - 1] == es[from..i] && part[|part| - 1] == es[i];
  }

  lemma {:induction false} ReplayConverges(comp: string -> int, start: int, es: seq<Event>, from: nat, upTo: nat,
                                           dropped: set<int>, i: nat, held: Active, t: Table)
      returns (held': Active)
    requires History(start, es) && from <= i <= upTo <= |es| && Roomy(es, from, upTo)
    requires Droppable(start, es, from, upTo, dropped)
    requires Converging(start, es, from, upTo, dropped, from, held)
    requires TableOf(comp, held, t) && InStep(start, es, upTo, from, held, t)
    ensures Converging(start, es, from, upTo, dropped, i, held')
    ensures var t' := Replay(comp, t, es[from..i]); TableOf(comp, held', t') && InStep(start, es, upTo, i, held', t')
    decreases i
  {
    hide History, Converging, TableOf, Roomy, Droppable, InStep, ReplayEvent, ReplayedEvent;
    if i == from {
      assert es[from..i] == [];
      held' := held;
    } else {
      var before := ReplayConverges(comp, start, es, from, upTo, dropped, i - 1, held, t);
      var t' := Replay(comp, t, es[from..i - 1]);
      ReplayLast(comp, t, es, from, i - 1);
      held' := ReplayedEvent(before, es[i - 1]);
      if es[i - 1].Open? {
        OpenConverges(comp, start, es, from, upTo, dropped, i - 1, before, t');
      } else {
        CloseConverges(comp, start, es, from, upTo, dropped, i - 1, before, t');
      }
    }
  }

  lemma Converged(start: int, es: seq<Event>, from: nat, upTo: nat, dropped: set<int>, held: Active)
    requires History(start, es) && from <= upTo <= |es|
    requires Converging(start, es, from, upTo, dropped, upTo, held)
    ensures held == ActiveAt(es, upTo) - dropped
  {
    hide History, ActiveAt, LastOpened, FewExtra;
    var rest := ActiveAt(es, upTo) - dropped;
    forall id ensures id in held <==> id in rest {
      if id in rest {
        HeldIdBounds(start, es, upTo, id);
      }
    }
    forall id | id in held ensures held[id] == rest[id] {
      assert HeldAt(es, upTo, id, held[id]);
    }
    SameMap(held, rest);
  }

  lemma EventFollows(comp: string -> int, start: int, es: seq<Event>, n: nat, dropped: set<int>, t: Table)
    requires History(start, es) && n < |es|
    requires forall id :: id in dropped ==> id <= LastOpened(start, es, n)
    requires TableOf(comp, ActiveAt(es, n) - dropped, t) && t.lastId == LastOpened(start, es, n)
    ensures var t' := ReplayEvent(comp, t, es[n]);
            TableOf(comp, ActiveAt(es, n + 1) - dropped, t') && t'.lastId == LastOpened(start, es, n + 1)
  {
    hide History, ActiveAt, LastOpened, TableOf, AcquireLock, Release;
    var held := ActiveAt(es, n) - dropped;
    if es[n].Open? {
      var r := es[n].record;
      FreshlyOpened(start, es, n);
      OpenFits(start, es, n, dropped);
      ReplayOpen(comp, held, t, r);
      assert r.id !in dropped;
      OpenWithoutDropped(ActiveAt(es, n), dropped, r);
    } else {
      FreshlyClosed(start, es, n);
      ReplayClose(comp, held, t, es[n].id);
      CloseWithoutDropped(ActiveAt(es, n), dropped, es[n].id);
    }
  }

  lemma OpenWithoutDropped(active: Active, dropped: set<int>, r: ActiveRecord)
    requires r.id !in dropped
    ensures (active - dropped)[r.id := r] == active[r.id := r] - dropped
  {
  }

  lemma CloseWithoutDropped(active: Active, dropped: set<int>, id: int)
    ensures (active - dropped) - {id} == active - {id} - dropped
  {
  }

  /** From the converged state on, the replay follows the history, without the dropped locks. */
  lemma {:induction false} ReplayFollows(comp: string -> int, start: int, es: seq<Event>, upTo: nat, dropped: set<int>,
                                         n: nat, t: Table)
    requires History(start, es) && upTo <= n <= |es|
    requires forall id :: id in dropped ==> id <= LastOpened(start, es, upTo)
    requires TableOf(comp, ActiveAt(es, upTo) - dropped, t) && t.lastId == LastOpened(start, es, upTo)
    ensures var t' := Replay(comp, t, es[upTo..n]);
            TableOf(comp, ActiveAt(es, n) - dropped, t') && t'.lastId == LastOpened(start, es, n)
    decreases n
  {
    hide History, ActiveAt, LastOpened, TableOf, ReplayEvent;
    if n == upTo {
      assert es[upTo..n] == [];
    } else {
      ReplayFollows(comp, start, es, upTo, dropped, n - 1, t);
      LastOpenedGrows(start, es, upTo, n - 1);
      EventFollows(comp, start, es, n - 1, dropped, Replay(comp, t, es[upTo..n - 1]));
      ReplayLast(comp, t, es, upTo, n - 1);
    }
  }

  lemma OpenFits(start: int, es: seq<Event>, n: nat, dropped: set<int>)
    requires History(start, es) && n < |es| && es[n].Open?
    ensures var r, held := es[n].record, ActiveAt(es, n) - dropped;
            r.id !in held && ReplayedOpen(held, r) == held[r.id := r]
  {
    hide History, ActiveAt, LastOpened;
    var r, held := es[n].record, ActiveAt(es, n) - dropped;
    FreshlyOpened(start, es, n);
    SubsetSize(held.Keys, ActiveAt(es, n).Keys);
    if r.id in ActiveAt(es, n) {
      HeldIdBounds(start, es, n, r.id);
    }
  }

  /** Replaying the events from `from` on, on top of locks held at the later time `upTo`, ends in the table
      of the whole history, without the dropped locks. */
  lemma ReplayRebuilds(comp: string -> int, start: int, es: seq<Event>, from: nat, upTo: nat, dropped: set<int>,
                       held: Active, t: Table)
    requires History(start, es) && from <= upTo <= |es| && Roomy(es, from, upTo)
    requires Droppable(start, es, from, upTo, dropped)
    requires Converging(start, es, from, upTo, dropped, from, held)
    requires TableOf(comp, held, t) && InStep(start, es, upTo, from, held, t)
    ensures var t' := Replay(comp, t, es[from..]);
            TableOf(comp, ActiveAt(es, |es|) - dropped, t') && t'.lastId == LastOpened(start, es, |es|)
  {
    hide History, TableOf, Converging, Roomy, ActiveAt, LastOpened, Replay;
    var held' := ReplayConverges(comp, start, es, from, upTo, dropped, upTo, held, t);
    Converged(start, es, from, upTo, dropped, held');
    LastOpenedGrows(start, es, from, upTo);
    ReplayFollows(comp, start, es, upTo, dropped, |es|, Replay(comp, t, es[from..upTo]));
    assert es[from..] == es[from..upTo] + es[upTo..|es|];
    ReplayAppend(comp, t, es[from..upTo], es[upTo..|es|]);
  }

  lemma {:induction false} ReplayAppend(comp: string -> int, t: Table, a: seq<Event>, b: seq<Event>)
    ensures Replay(comp, t, a + b) == Replay(comp, Replay(comp, t, a), b)
    decreases |b|
  {
    if b == [] {
      assert a + b == a;
    } else {
      assert (a + b)[..|a + b| - 1] == a + b[..|b| - 1] && (a + b)[|a + b| - 1] == b[|b| - 1];
      ReplayAppend(comp, t, a, b[..|b| - 1]);
    }
  }
}
