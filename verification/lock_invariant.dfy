/** What every operation on the lock table keeps. */
module LockInvariant {
  import opened LockTable
  import opened OrderedKeys

  ghost predicate In(t: Table, c: int, id: int) {
    c in t.mem && id in t.mem[c].records
  }

  ghost function Rec(t: Table, c: int, id: int): ActiveRecord
    requires In(t, c, id)
  {
    t.mem[c].records[id]
  }

  ghost predicate Lists(t: Table, name: string, e: Element) {
    name in t.names && e in t.names[name]
  }

  ghost predicate DistinctIds(list: seq<Element>) {
    forall i, j :: 0 <= i < j < |list| ==> list[i].id != list[j].id
  }

  // Records sit under their own id, in the component of their object, and in no other.
  ghost predicate Placed(comp: string -> int, t: Table) {
    && (forall c, id :: In(t, c, id) ==> Rec(t, c, id).id == id && comp(Rec(t, c, id).name) == c)
    && (forall c, d, id :: In(t, c, id) && In(t, d, id) ==> c == d)
  }

  ghost predicate NothingEmpty(t: Table) {
    && (forall c :: c in t.mem ==> exists id :: In(t, c, id))
    && (forall n :: n in t.names ==> exists e :: Lists(t, n, e))
  }

  // `comps` and `names` list the same ids, and each names a record of its object.
  ghost predicate SameIds(t: Table) {
    && (forall id :: id in t.comps ==> In(t, t.comps[id], id) && ListsRecord(t, Rec(t, t.comps[id], id)))
    && (forall n, e :: Lists(t, n, e) ==> NamesRecord(t, n, e))
    && (forall n :: n in t.names ==> DistinctIds(t.names[n]))
  }

  ghost predicate ListsRecord(t: Table, r: ActiveRecord) {
    Lists(t, r.name, Element(r.id, r.op))
  }

  ghost predicate NamesRecord(t: Table, name: string, e: Element) {
    && e.id in t.comps
    && In(t, t.comps[e.id], e.id)
    && Rec(t, t.comps[e.id], e.id).name == name
    && Rec(t, t.comps[e.id], e.id).op == e.op
  }

  ghost predicate OwnedListed(t: Table) {
    forall c, id :: In(t, c, id) && t.mem[c].owned ==> id in t.comps
  }

  ghost predicate Sound(comp: string -> int, t: Table) {
    Placed(comp, t) && NothingEmpty(t) && SameIds(t)
  }

  ghost predicate WellFormed(comp: string -> int, t: Table) {
    Sound(comp, t) && OwnedListed(t)
  }

  ghost predicate Fresh(t: Table, id: int) {
    forall c :: !In(t, c, id)
  }

  // ----- Growing: a record is put into a component, then it is listed

  function Put(t: Table, c: int, r: ActiveRecord, owned: bool): Table {
    var held := if c in t.mem then t.mem[c] else Component(map[], owned);
    t.(mem := t.mem[c := held.(records := held.records[r.id := r])])
  }

  function Enlist(t: Table, c: int, r: ActiveRecord): Table {
    t.(names := ListLock(t.names, r.name, Element(r.id, r.op)), comps := t.comps[r.id := c])
  }

  lemma PutKeeps(comp: string -> int, t: Table, r: ActiveRecord, owned: bool)
    requires Sound(comp, t) && Fresh(t, r.id)
    ensures Sound(comp, Put(t, comp(r.name), r, owned))
    ensures r.id !in t.comps
  {
    var c := comp(r.name);
    var t' := Put(t, c, r, owned);
    assert forall d, k :: In(t', d, k) <==> In(t, d, k) || (d == c && k == r.id);
    assert forall d, k :: In(t, d, k) ==> Rec(t', d, k) == Rec(t, d, k);
    assert NothingEmpty(t') by {
      assert In(t', c, r.id);
      assert forall n, e :: Lists(t', n, e) <==> Lists(t, n, e);
    }
    assert SameIds(t') by {
      assert forall n, e :: Lists(t', n, e) <==> Lists(t, n, e);
      assert forall n, e :: NamesRecord(t, n, e) ==> NamesRecord(t', n, e);
    }
  }

  lemma EnlistKeeps(comp: string -> int, t: Table, c: int, id: int)
    requires Sound(comp, t) && In(t, c, id) && id !in t.comps
    ensures Sound(comp, Enlist(t, c, Rec(t, c, id)))
  {
    hide SameIds, NothingEmpty, ListLock;
    var t' := Enlist(t, c, Rec(t, c, id));
    EnlistKeepsIds(t, c, id);
    EnlistLeavesNothingEmpty(t, c, id);
    assert forall d, k :: In(t', d, k) <==> In(t, d, k);
  }

  lemma EnlistLists(t: Table, c: int, r: ActiveRecord)
    ensures var t', e := Enlist(t, c, r), Element(r.id, r.op);
            && (forall n, x :: Lists(t', n, x) <==> Lists(t, n, x) || (n == r.name && x == e))
            && t'.names.Keys == t.names.Keys + {r.name}
            && (forall n :: n in t.names && n != r.name ==> t'.names[n] == t.names[n])
            && t'.names[r.name] == (if r.name in t.names then t.names[r.name] else []) + [e]
            && t'.comps == t.comps[r.id := c] && t'.mem == t.mem
  {
    var t', e := Enlist(t, c, r), Element(r.id, r.op);
    assert e in t'.names[r.name];
  }

  lemma OneMoreDistinct(list: seq<Element>, e: Element)
    requires DistinctIds(list) && forall x :: x in list ==> x.id != e.id
    ensures DistinctIds(list + [e])
  {
  }

  lemma EnlistKeepsIds(t: Table, c: int, id: int)
    requires SameIds(t) && In(t, c, id) && Rec(t, c, id).id == id && id !in t.comps
    ensures SameIds(Enlist(t, c, Rec(t, c, id)))
  {
    hide DistinctIds, Enlist, Lists;
    var r := Rec(t, c, id);
    var t' := Enlist(t, c, r);
    EnlistLists(t, c, r);
    EnlistKeepsDistinct(t, c, id);
    forall n, x | Lists(t', n, x) ensures NamesRecord(t', n, x) {
      assert In(t', c, id);
      if Lists(t, n, x) {
        assert NamesRecord(t, n, x) && In(t', t.comps[x.id], x.id);
      }
    }
    forall k | k in t'.comps ensures In(t', t'.comps[k], k) && ListsRecord(t', Rec(t', t'.comps[k], k)) {
      assert In(t', c, id);
      if k != id {
        assert In(t, t.comps[k], k) && ListsRecord(t, Rec(t, t.comps[k], k));
      }
    }
  }

  lemma EnlistKeepsDistinct(t: Table, c: int, id: int)
    requires SameIds(t) && In(t, c, id) && Rec(t, c, id).id == id && id !in t.comps
    ensures var t' := Enlist(t, c, Rec(t, c, id)); forall n :: n in t'.names ==> DistinctIds(t'.names[n])
  {
    hide DistinctIds, ListLock;
    var r := Rec(t, c, id);
    var t' := Enlist(t, c, r);
    EnlistLists(t, c, r);
    forall n | n in t'.names ensures DistinctIds(t'.names[n]) {
      if n == r.name {
        var list := if n in t.names then t.names[n] else [];
        forall x | x in list ensures x.id != id {
          assert Lists(t, n, x);
        }
        NoneDistinct();
        OneMoreDistinct(list, Element(id, r.op));
      }
    }
  }

  lemma NoneDistinct()
    ensures DistinctIds([])
  {
  }

  lemma EnlistLeavesNothingEmpty(t: Table, c: int, id: int)
    requires NothingEmpty(t) && In(t, c, id)
    ensures NothingEmpty(Enlist(t, c, Rec(t, c, id)))
  {
    hide ListLock;
    var r := Rec(t, c, id);
    var t' := Enlist(t, c, r);
    EnlistLists(t, c, r);
    assert Lists(t', r.name, Element(r.id, r.op));
    assert forall d, k :: In(t, d, k) ==> In(t', d, k);
  }

  lemma AcquireIsPutThenEnlist(comp: string -> int, t: Table, r: ActiveRecord)
    requires !Blocked(t, r)
    requires var r' := r.(id := IdFor(t, r)); !In(t, comp(r.name), r'.id) && r'.id !in t.comps
    ensures var (t', outcome) := Acquire(comp, t, r);
            var c, r' := comp(r.name), r.(id := IdFor(t, r));
            outcome == Granted(r'.id) && t' == Enlist(Put(t, c, r', true), c, r').(lastId := t'.lastId)
  {
  }

  function IdFor(t: Table, r: ActiveRecord): int {
    if r.id != 0 then r.id else t.lastId + 1
  }

  /** A fresh id is granted unless the object is blocked, and the table stays well-formed. */
  lemma AcquireKeeps(comp: string -> int, t: Table, r: ActiveRecord)
    requires WellFormed(comp, t) && Fresh(t, IdFor(t, r))
    ensures WellFormed(comp, Acquire(comp, t, r).0)
    ensures Acquire(comp, t, r).1.Granted? <==> !Blocked(t, r)
  {
    if !Blocked(t, r) {
      hide Sound, OwnedListed, Acquire, Put, Enlist;
      var c, r' := comp(r.name), r.(id := IdFor(t, r));
      assert !In(t, c, r'.id);
      PutKeeps(comp, t, r', true);
      var p := Put(t, c, r', true);
      PutIn(t, c, r', true);
      EnlistKeeps(comp, p, c, r'.id);
      AcquireIsPutThenEnlist(comp, t, r);
      SoundWithoutLastId(comp, Enlist(p, c, r'), Acquire(comp, t, r).0.lastId);
      OwnedListedAfterEnlist(t, p, c, r');
    }
  }

  lemma PutIn(t: Table, c: int, r: ActiveRecord, owned: bool)
    ensures var p := Put(t, c, r, owned); In(p, c, r.id) && Rec(p, c, r.id) == r && p.comps == t.comps
  {
  }

  lemma SoundWithoutLastId(comp: string -> int, t: Table, lastId: int)
    ensures Sound(comp, t) == Sound(comp, t.(lastId := lastId))
    ensures OwnedListed(t) == OwnedListed(t.(lastId := lastId))
  {
    var t' := t.(lastId := lastId);
    assert forall c, id :: In(t, c, id) == In(t', c, id);
    assert forall c, id :: In(t, c, id) ==> Rec(t, c, id) == Rec(t', c, id);
    assert forall n, e :: Lists(t, n, e) == Lists(t', n, e);
    assert forall n, e :: NamesRecord(t, n, e) == NamesRecord(t', n, e);
    assert forall r :: ListsRecord(t, r) == ListsRecord(t', r);
  }

  lemma OwnedListedAfterEnlist(t: Table, p: Table, c: int, r: ActiveRecord)
    requires OwnedListed(t) && p == Put(t, c, r, true)
    ensures OwnedListed(Enlist(p, c, r))
  {
    var t' := Enlist(p, c, r);
    forall d, id | In(t', d, id) && t'.mem[d].owned ensures id in t'.comps {
      if d != c || id != r.id {
        assert In(t, d, id);
      }
    }
  }

  // ----- Shrinking: records in `gone` leave the table, locks in `unlisted` leave the lists

  ghost predicate Shrinks(t: Table, t': Table, gone: set<int>, unlisted: set<int>) {
    && gone <= unlisted
    && (forall c, id :: In(t', c, id) <==> In(t, c, id) && id !in gone)
    && (forall c, id :: In(t', c, id) ==> Rec(t', c, id) == Rec(t, c, id))
    && (forall c, id :: In(t', c, id) && t'.mem[c].owned ==> t.mem[c].owned && id !in unlisted)
    && t'.comps == t.comps - unlisted
    && (forall n, e :: Lists(t', n, e) <==> Lists(t, n, e) && e.id !in unlisted)
    && (forall n :: n in t'.names ==> DistinctIds(t'.names[n]))
  }

  lemma ShrinkKeeps(comp: string -> int, t: Table, t': Table, gone: set<int>, unlisted: set<int>)
    requires WellFormed(comp, t) && Shrinks(t, t', gone, unlisted) && NothingEmpty(t')
    ensures WellFormed(comp, t')
  {
    assert Placed(comp, t');
    assert SameIds(t') by {
      ShrinkKeepsSameIds(comp, t, t', gone, unlisted);
    }
    assert OwnedListed(t');
  }

  lemma ShrinkKeepsSameIds(comp: string -> int, t: Table, t': Table, gone: set<int>, unlisted: set<int>)
    requires Placed(comp, t) && SameIds(t) && Shrinks(t, t', gone, unlisted)
    ensures SameIds(t')
  {
    forall id | id in t'.comps
      ensures In(t', t'.comps[id], id) && ListsRecord(t', Rec(t', t'.comps[id], id))
    {
      assert In(t, t.comps[id], id) && ListsRecord(t, Rec(t, t.comps[id], id));
    }
    forall n, e | Lists(t', n, e) ensures NamesRecord(t', n, e) {
      assert NamesRecord(t, n, e);
    }
  }

  lemma {:induction false} EraseElementRemoves(list: seq<Element>, e: Element)
    requires DistinctIds(list) && e in list
    ensures var rest := EraseElement(list, e.id);
            DistinctIds(rest) && forall x :: x in rest <==> x in list && x.id != e.id
    decreases |list|
  {
    hide DistinctIds;
    assert list == [list[0]] + list[1..];
    DistinctFront(list[0], list[1..]);
    if list[0].id != e.id {
      EraseElementRemoves(list[1..], e);
      DistinctFront(list[0], EraseElement(list[1..], e.id));
    }
  }

  lemma DistinctFront(e: Element, list: seq<Element>)
    ensures DistinctIds([e] + list) <==> DistinctIds(list) && forall x :: x in list ==> x.id != e.id
  {
    var longer := [e] + list;
    assert longer[0] == e && forall i :: 0 <= i < |list| ==> longer[i + 1] == list[i];
  }

  lemma UnlistRemoves(t: Table, name: string, e: Element)
    requires SameIds(t) && Lists(t, name, e)
    ensures var names := Unlist(t.names, name, e.id);
            (forall n, x :: n in names && x in names[n] <==> Lists(t, n, x) && !(n == name && x.id == e.id))
            && (forall n :: n in names ==> DistinctIds(names[n]))
            && ((forall n :: n in t.names ==> t.names[n] != []) ==> forall n :: n in names ==> names[n] != [])
  {
    hide DistinctIds, EraseElement, Unlist, SameIds;
    var list, names := t.names[name], Unlist(t.names, name, e.id);
    ListsDistinct(t);
    EraseElementRemoves(list, e);
    assert e in list;
    UnlistAt(t.names, name, e.id);
    var rest := EraseElement(list, e.id);
    forall n, x ensures n in names && x in names[n] <==> Lists(t, n, x) && !(n == name && x.id == e.id) {
      if n == name {
        assert n in names && x in names[n] <==> x in rest;
      }
    }
  }

  lemma ListsDistinct(t: Table)
    requires SameIds(t)
    ensures forall n :: n in t.names ==> DistinctIds(t.names[n])
  {
  }

  lemma UnlistAt(names: map<string, seq<Element>>, name: string, id: int)
    requires name in names && names[name] != []
    ensures var names', rest := Unlist(names, name, id), EraseElement(names[name], id);
            && (name in names' <==> rest != []) && (name in names' ==> names'[name] == rest)
            && (forall n :: n != name ==> (n in names' <==> n in names) && (n in names' ==> names'[n] == names[n]))
  {
    hide EraseElement;
  }

  lemma ReleaseKeeps(comp: string -> int, t: Table, id: int)
    requires WellFormed(comp, t)
    ensures WellFormed(comp, Release(t, id).0)
  {
    if Located(t, id) {
      var t' := Release(t, id).0;
      ReleaseShrinks(comp, t, id);
      ReleaseLeavesNothingEmpty(comp, t, id);
      ShrinkKeeps(comp, t, t', {id}, {id});
    }
  }

  lemma ReleaseShrinks(comp: string -> int, t: Table, id: int)
    requires WellFormed(comp, t) && Located(t, id)
    ensures Shrinks(t, Release(t, id).0, {id}, {id})
  {
    var t' := Release(t, id).0;
    var r := RecordOf(t, id);
    assert In(t, t.comps[id], id) && ListsRecord(t, r);
    UnlistRemoves(t, r.name, Element(id, r.op));
    forall c, k ensures In(t', c, k) <==> In(t, c, k) && k != id {
      RecordErased(t, t.comps[id], id, c, k);
    }
    forall n, e ensures Lists(t', n, e) <==> Lists(t, n, e) && e.id !in {id} {
      if Lists(t, n, e) && e.id == id {
        assert NamesRecord(t, n, e);
      }
    }
  }

  lemma RecordErased(t: Table, c: int, id: int, d: int, k: int)
    requires In(t, c, id)
    ensures var mem := EraseRecord(t.mem, c, id);
            d in mem && k in mem[d].records <==> In(t, d, k) && !(d == c && k == id)
  {
    var records := t.mem[c].records - {id};
    assert k in records <==> k in t.mem[c].records && k != id;
  }

  lemma ReleaseLeavesNothingEmpty(comp: string -> int, t: Table, id: int)
    requires WellFormed(comp, t) && Located(t, id)
    ensures NothingEmpty(Release(t, id).0)
  {
    var t' := Release(t, id).0;
    var r, c := RecordOf(t, id), t.comps[id];
    assert In(t, c, id) && ListsRecord(t, r);
    UnlistRemoves(t, r.name, Element(id, r.op));
    assert forall n :: n in t.names ==> t.names[n] != [] by {
      forall n | n in t.names ensures t.names[n] != [] {
        var e :| Lists(t, n, e);
      }
    }
    forall n | n in t'.names ensures exists e :: Lists(t', n, e) {
      assert Lists(t', n, t'.names[n][0]);
    }
    forall d | d in t'.mem ensures exists k :: In(t', d, k) {
      if d == c {
        RecordsHaveElement(t'.mem[d].records);
        var k :| k in t'.mem[d].records;
        assert In(t', d, k);
      } else {
        var k :| In(t, d, k);
        assert In(t', d, k);
      }
    }
  }

  lemma RecordsHaveElement(records: map<int, ActiveRecord>)
    ensures records == map[] || exists id :: id in records
  {
    if forall id :: id !in records {
      assert records == map[];
    }
  }

  // ----- Marking and extraction

  /** The objects of a set of components list only locks of those components. */
  lemma NamesOfComponents(comp: string -> int, t: Table, cs: set<int>, n: string, e: Element)
    requires WellFormed(comp, t) && Lists(t, n, e)
    ensures n in NamesIn(t, cs) <==> e.id in IdsIn(t, cs)
  {
    assert NamesRecord(t, n, e);
    var c := t.comps[e.id];
    assert In(t, c, e.id);
    if n in NamesIn(t, cs) {
      var d, k :| d in cs && d in t.mem && k in t.mem[d].records && t.mem[d].records[k].name == n;
      assert In(t, d, k) && Rec(t, d, k).name == n;
      assert d == c;
    }
    if e.id in IdsIn(t, cs) {
      var d, k :| d in cs && d in t.mem && k in t.mem[d].records && k == e.id;
      assert In(t, d, e.id);
    }
  }

  lemma IdsOfComponents(comp: string -> int, t: Table, cs: set<int>, c: int, id: int)
    requires WellFormed(comp, t) && In(t, c, id)
    ensures id in IdsIn(t, cs) <==> c in cs
  {
    if id in IdsIn(t, cs) {
      var d, k :| d in cs && d in t.mem && k in t.mem[d].records && k == id;
      assert In(t, d, id);
    }
  }

  lemma ListsAfterComponents(comp: string -> int, t: Table, t': Table, cs: set<int>)
    requires WellFormed(comp, t)
    requires t'.names == t.names - NamesIn(t, cs)
    ensures forall n, e :: Lists(t', n, e) <==> Lists(t, n, e) && e.id !in IdsIn(t, cs)
    ensures forall n :: n in t'.names ==> DistinctIds(t'.names[n]) && exists e :: Lists(t', n, e)
  {
    forall n, e ensures Lists(t', n, e) <==> Lists(t, n, e) && e.id !in IdsIn(t, cs) {
      if Lists(t, n, e) {
        NamesOfComponents(comp, t, cs, n, e);
      }
    }
    forall n | n in t'.names ensures exists e :: Lists(t', n, e) {
      var e :| Lists(t, n, e);
      assert Lists(t', n, e);
    }
  }

  lemma ExtractKeeps(comp: string -> int, t: Table, cs: set<int>)
    requires WellFormed(comp, t)
    ensures WellFormed(comp, Extract(t, cs))
  {
    var t' := Extract(t, cs);
    var ids := IdsIn(t, cs);
    ListsAfterComponents(comp, t, t', cs);
    forall c, id ensures In(t', c, id) <==> In(t, c, id) && id !in ids {
      if In(t, c, id) {
        IdsOfComponents(comp, t, cs, c, id);
      }
    }
    forall c | c in t'.mem ensures exists id :: In(t', c, id) {
      var id :| In(t, c, id);
      IdsOfComponents(comp, t, cs, c, id);
    }
    ShrinkKeeps(comp, t, t', ids, ids);
  }

  lemma MarkUnknownKeeps(comp: string -> int, t: Table, kept: seq<int>)
    requires WellFormed(comp, t)
    ensures WellFormed(comp, MarkUnknown(t, kept))
  {
    var t' := MarkUnknown(t, kept);
    var lost := set c | c in t.mem && c !in kept;
    var ids := IdsIn(t, lost);
    ListsAfterComponents(comp, t, t', lost);
    assert forall c, id :: In(t', c, id) <==> In(t, c, id);
    forall c, id | In(t', c, id) && t'.mem[c].owned ensures t.mem[c].owned && id !in ids {
      IdsOfComponents(comp, t, lost, c, id);
    }
    forall c | c in t'.mem ensures exists id :: In(t', c, id) {
      var id :| In(t, c, id);
      assert In(t', c, id);
    }
    ShrinkKeeps(comp, t, t', {}, ids);
  }

  // ----- Bulk removal

  ghost predicate Alone(t: Table, id: int) {
    Located(t, id) && RecordOf(t, id).request == BULK_DELETE ==>
      RecordOf(t, id).name in t.names && |t.names[RecordOf(t, id).name]| == 1
  }

  /** Removing a bulk entry drops the whole list of its object, so it is a release exactly when the
      entry is alone in that list; otherwise the other locks of the object lose their listing. */
  lemma RemoveBulkEntryKeepsIff(comp: string -> int, t: Table, id: int)
    requires WellFormed(comp, t)
    ensures WellFormed(comp, RemoveBulkEntry(t, id)) <==> Alone(t, id)
    ensures Alone(t, id) ==> RemoveBulkEntry(t, id) == t || RemoveBulkEntry(t, id) == Release(t, id).0
  {
    if Located(t, id) && RecordOf(t, id).request == BULK_DELETE {
      var r, c := RecordOf(t, id), t.comps[id];
      assert In(t, c, id) && ListsRecord(t, r);
      var list := t.names[r.name];
      if |list| == 1 {
        assert list == [Element(id, r.op)];
        assert t.names - {r.name} == Unlist(t.names, r.name, id);
        ReleaseKeeps(comp, t, id);
      } else {
        OtherElement(list, id);
        var other :| other in list && other.id != id;
        assert Lists(t, r.name, other) && NamesRecord(t, r.name, other);
        var t' := RemoveBulkEntry(t, id);
        assert other.id in t'.comps;
        RecordErased(t, c, id, t.comps[other.id], other.id);
        assert !ListsRecord(t', Rec(t', t'.comps[other.id], other.id));
      }
    }
  }

  lemma OtherElement(list: seq<Element>, id: int)
    requires |list| >= 2 && DistinctIds(list)
    ensures exists other :: other in list && other.id != id
  {
    assert list[0] in list && list[1] in list && list[0].id != list[1].id;
  }

  // ----- Addition of recovered records

  /** A recovered record keeps the table well-formed exactly when it is not added unlisted to a
      component that is already owned. */
  lemma AddRecordKeepsIff(comp: string -> int, t: Table, r: ActiveRecord, owned: bool)
    requires WellFormed(comp, t) && Fresh(t, r.id)
    ensures Sound(comp, AddRecord(comp, t, r, owned))
    ensures var c := comp(r.name);
            WellFormed(comp, AddRecord(comp, t, r, owned)) <==> owned || c !in t.mem || !t.mem[c].owned
  {
    var c := comp(r.name);
    assert !In(t, c, r.id);
    PutKeeps(comp, t, r, owned);
    var p := Put(t, c, r, owned);
    PutIn(t, c, r, owned);
    if owned {
      EnlistKeeps(comp, p, c, r.id);
      assert AddRecord(comp, t, r, owned) == Enlist(p, c, r);
      OwnedListedAfterEnlist(t, p, c, r);
    } else {
      assert AddRecord(comp, t, r, owned) == p;
      if c !in t.mem || !t.mem[c].owned {
        forall d, id | In(p, d, id) && p.mem[d].owned ensures id in p.comps {
          assert In(t, d, id);
        }
      } else {
        assert In(p, c, r.id) && p.mem[c].owned && r.id !in p.comps;
      }
    }
  }

  ghost predicate Addable(comp: string -> int, t: Table, rs: seq<ActiveRecord>, owned: bool) {
    && (forall i :: 0 <= i < |rs| ==> Fresh(t, rs[i].id))
    && (forall i, j :: 0 <= i < j < |rs| ==> rs[i].id != rs[j].id)
    && (!owned ==> forall i :: 0 <= i < |rs| && comp(rs[i].name) in t.mem ==> !t.mem[comp(rs[i].name)].owned)
  }

  lemma {:induction false} AddRecordsKeep(comp: string -> int, t: Table, rs: seq<ActiveRecord>, owned: bool)
    requires WellFormed(comp, t) && Addable(comp, t, rs, owned)
    ensures WellFormed(comp, AddRecords(comp, t, rs, owned))
    decreases |rs|
  {
    hide WellFormed;
    if rs != [] {
      assert Fresh(t, rs[0].id);
      AddRecordKeepsIff(comp, t, rs[0], owned);
      StillAddable(comp, t, rs, owned);
      AddRecordsKeep(comp, AddRecord(comp, t, rs[0], owned), rs[1..], owned);
    }
  }

  lemma StillAddable(comp: string -> int, t: Table, rs: seq<ActiveRecord>, owned: bool)
    requires rs != [] && Addable(comp, t, rs, owned)
    ensures Addable(comp, AddRecord(comp, t, rs[0], owned), rs[1..], owned)
  {
    var t' := AddRecord(comp, t, rs[0], owned);
    forall i | 0 <= i < |rs[1..]| ensures Fresh(t', rs[1..][i].id) {
      var id := rs[i + 1].id;
      assert Fresh(t, id) && rs[0].id != id;
      assert forall c :: In(t', c, id) ==> In(t, c, id);
    }
  }

  // ----- Commit of recovered components

  lemma HasIdIffListed(comp: string -> int, t: Table, c: int, id: int)
    requires Sound(comp, t) && In(t, c, id)
    ensures var r := Rec(t, c, id);
            r.id == id && (id in t.comps <==> r.name in t.names && HasId(t.names[r.name], id))
  {
    var r := Rec(t, c, id);
    if id in t.comps {
      assert In(t, t.comps[id], id) && ListsRecord(t, Rec(t, t.comps[id], id));
      assert t.comps[id] == c;
    }
    if r.name in t.names && HasId(t.names[r.name], id) {
      var e :| e in t.names[r.name] && e.id == id;
      assert Lists(t, r.name, e) && NamesRecord(t, r.name, e);
    }
  }

  lemma CommitRecordKeeps(comp: string -> int, t: Table, c: int, id: int)
    requires Sound(comp, t) && In(t, c, id)
    ensures var t' := CommitRecord(t, c, id);
            Sound(comp, t') && t'.mem == t.mem && t'.comps.Keys == t.comps.Keys + {id}
  {
    var r := Rec(t, c, id);
    HasIdIffListed(comp, t, c, id);
    if r.name in t.names {
      var e :| Lists(t, r.name, e);
    }
    if id in t.comps {
      assert CommitRecord(t, c, id) == t;
    } else {
      EnlistKeeps(comp, t, c, id);
      assert CommitRecord(t, c, id) == Enlist(t, c, r);
    }
  }

  lemma {:induction false} CommitRecordsKeep(comp: string -> int, t: Table, c: int, ids: seq<int>)
    requires Sound(comp, t) && c in t.mem && forall id :: id in ids ==> In(t, c, id)
    ensures var t' := CommitRecords(t, c, ids);
            Sound(comp, t') && t'.mem == t.mem && t'.comps.Keys == t.comps.Keys + (set id | id in ids)
    decreases |ids|
  {
    hide Sound;
    if ids != [] {
      var n := |ids| - 1;
      CommitRecordsKeep(comp, t, c, ids[..n]);
      var before := CommitRecords(t, c, ids[..n]);
      assert In(t, c, ids[n]) && In(before, c, ids[n]);
      CommitRecordKeeps(comp, before, c, ids[n]);
      assert ids == ids[..n] + [ids[n]];
      assert (set id | id in ids) == (set id | id in ids[..n]) + {ids[n]};
    }
  }

  lemma CommitComponentKeeps(comp: string -> int, t: Table, c: int)
    requires WellFormed(comp, t)
    ensures WellFormed(comp, CommitComponent(t, c))
  {
    hide Sound;
    if c in t.mem && !t.mem[c].owned {
      var o := t.(mem := t.mem[c := t.mem[c].(owned := true)]);
      SoundWithoutOwned(comp, t, c);
      var ids := Ascending(t.mem[c].records.Keys);
      CommitRecordsKeep(comp, o, c, ids);
      var t' := CommitComponent(t, c);
      forall d, id | In(t', d, id) && t'.mem[d].owned ensures id in t'.comps {
        assert In(t, d, id);
        if d == c {
          assert id in ids;
        }
      }
    }
  }

  lemma SoundWithoutOwned(comp: string -> int, t: Table, c: int)
    requires Sound(comp, t) && c in t.mem
    ensures var o := t.(mem := t.mem[c := t.mem[c].(owned := true)]);
            Sound(comp, o) && forall id :: In(t, c, id) ==> In(o, c, id)
  {
    var o := t.(mem := t.mem[c := t.mem[c].(owned := true)]);
    assert forall d, id :: In(t, d, id) == In(o, d, id);
    assert forall d, id :: In(t, d, id) ==> Rec(t, d, id) == Rec(o, d, id);
    assert forall n, e :: Lists(t, n, e) == Lists(o, n, e);
    assert forall n, e :: NamesRecord(t, n, e) == NamesRecord(o, n, e);
    assert forall r :: ListsRecord(t, r) == ListsRecord(o, r);
  }

  lemma {:induction false} CommitComponentsKeep(comp: string -> int, t: Table, cs: seq<int>, chosen: seq<int>)
    requires WellFormed(comp, t)
    ensures WellFormed(comp, CommitComponents(t, cs, chosen))
    decreases |cs|
  {
    if cs != [] {
      var n := |cs| - 1;
      CommitComponentsKeep(comp, t, cs[..n], chosen);
      CommitComponentKeeps(comp, CommitComponents(t, cs[..n], chosen), cs[n]);
    }
  }

  // ----- Runs

  datatype Request =
    | Lock(record: ActiveRecord)
    | Unlock(id: int)
    | RollBack(bulkIds: seq<int>)
    | Mark(kept: seq<int>)
    | Transfer(leaving: set<int>)
    | Receive(records: seq<ActiveRecord>, owned: bool)
    | CommitReceived(chosen: seq<int>)

  function Serve(comp: string -> int, t: Table, q: Request): Table {
    match q
    case Lock(r) => AcquireLock(comp, t, r).0
    case Unlock(id) => Release(t, id).0
    case RollBack(ids) => RemoveBulk(t, ids)
    case Mark(kept) => MarkUnknown(t, kept)
    case Transfer(cs) => Extract(t, cs)
    case Receive(rs, owned) => AddRecords(comp, t, rs, owned)
    case CommitReceived(cs) => Commit(t, cs)
  }

  // What the operations expect: new locks have ids that the table does not hold yet, a bulk entry is
  // the only lock on its object, and received records match the state of their component.
  ghost predicate Expected(comp: string -> int, t: Table, q: Request) {
    match q
    case Lock(r) => Fresh(t, IdFor(t, r))
    case RollBack(ids) => forall id :: id in ids ==> Alone(t, id)
    case Receive(rs, owned) => Addable(comp, t, rs, owned)
    case _ => true
  }

  function Run(comp: string -> int, t: Table, qs: seq<Request>): Table
    decreases |qs|
  {
    if qs == [] then t else Serve(comp, Run(comp, t, qs[..|qs| - 1]), qs[|qs| - 1])
  }

  ghost predicate AllExpected(comp: string -> int, t: Table, qs: seq<Request>) {
    forall i :: 0 <= i < |qs| ==> Expected(comp, Run(comp, t, qs[..i]), qs[i])
  }

  lemma ServeKeeps(comp: string -> int, t: Table, q: Request)
    requires WellFormed(comp, t) && Expected(comp, t, q)
    ensures WellFormed(comp, Serve(comp, t, q))
  {
    match q
    case Lock(r) => AcquireKeeps(comp, t, r);
    case Unlock(id) => ReleaseKeeps(comp, t, id);
    case RollBack(ids) => RemoveBulkKeeps(comp, t, ids);
    case Mark(kept) => MarkUnknownKeeps(comp, t, kept);
    case Transfer(cs) => ExtractKeeps(comp, t, cs);
    case Receive(rs, owned) => AddRecordsKeep(comp, t, rs, owned);
    case CommitReceived(cs) => CommitComponentsKeep(comp, t, Ascending(t.mem.Keys), cs);
  }

  lemma {:induction false} RemoveBulkKeeps(comp: string -> int, t: Table, ids: seq<int>)
    requires WellFormed(comp, t) && forall id :: id in ids ==> Alone(t, id)
    ensures WellFormed(comp, RemoveBulk(t, ids))
    decreases |ids|
  {
    if ids != [] {
      RemoveBulkEntryKeepsIff(comp, t, ids[0]);
      var t' := RemoveBulkEntry(t, ids[0]);
      forall id | id in ids[1..] ensures Alone(t', id) {
        AloneAfterRelease(comp, t, ids[0], id);
      }
      RemoveBulkKeeps(comp, t', ids[1..]);
    }
  }

  lemma AloneAfterRelease(comp: string -> int, t: Table, gone: int, id: int)
    requires WellFormed(comp, t) && Alone(t, id)
    ensures Alone(Release(t, gone).0, id)
  {
    if Located(t, gone) {
      hide Release, Placed, NothingEmpty, OwnedListed, DistinctIds;
      var t' := Release(t, gone).0;
      ReleaseShrinks(comp, t, gone);
      if Located(t', id) && RecordOf(t', id).request == BULK_DELETE {
        assert In(t', t'.comps[id], id) && In(t, t.comps[id], id);
        BothListed(comp, t, gone, id);
        ReleasedElsewhere(t, gone, RecordOf(t, id).name);
      }
    }
  }

  // Two locks of one object are two elements of its list.
  lemma BothListed(comp: string -> int, t: Table, id: int, other: int)
    requires WellFormed(comp, t) && Located(t, id) && Located(t, other) && id != other
    ensures RecordOf(t, id).name == RecordOf(t, other).name ==> |t.names[RecordOf(t, id).name]| > 1
  {
    hide NothingEmpty, OwnedListed, DistinctIds;
    assert In(t, t.comps[id], id) && In(t, t.comps[other], other);
    assert ListsRecord(t, RecordOf(t, id)) && ListsRecord(t, RecordOf(t, other));
  }

  lemma ReleasedElsewhere(t: Table, id: int, name: string)
    requires Located(t, id) && name != RecordOf(t, id).name
    ensures var t' := Release(t, id).0;
            (name in t'.names <==> name in t.names) && (name in t'.names ==> t'.names[name] == t.names[name])
  {
    hide EraseElement, EraseRecord;
  }

  /** Starting from an empty table, every run of expected requests keeps the table well-formed. */
  lemma {:induction false} RunKeeps(comp: string -> int, t: Table, qs: seq<Request>)
    requires WellFormed(comp, t) && AllExpected(comp, t, qs)
    ensures WellFormed(comp, Run(comp, t, qs))
    decreases |qs|
  {
    hide WellFormed, Expected, Serve;
    if qs != [] {
      var n := |qs| - 1;
      forall i | 0 <= i < n ensures Expected(comp, Run(comp, t, qs[..n][..i]), qs[..n][i]) {
        assert qs[..n][..i] == qs[..i];
      }
      RunKeeps(comp, t, qs[..n]);
      assert Expected(comp, Run(comp, t, qs[..n]), qs[n]);
      ServeKeeps(comp, Run(comp, t, qs[..n]), qs[n]);
    }
  }

  /** In a well-formed table the two indexes list the same ids. */
  lemma SameIdsListed(comp: string -> int, t: Table, id: int)
    requires WellFormed(comp, t)
    ensures id in t.comps <==> exists n :: n in t.names && HasId(t.names[n], id)
  {
    if id in t.comps {
      assert In(t, t.comps[id], id) && ListsRecord(t, Rec(t, t.comps[id], id));
      HasIdIffListed(comp, t, t.comps[id], id);
    }
    if n :| n in t.names && HasId(t.names[n], id) {
      var e :| e in t.names[n] && e.id == id;
      assert Lists(t, n, e) && NamesRecord(t, n, e);
    }
  }

  // ----- Exclusion: one writer or only readers on each object

  ghost predicate ExclusiveList(list: seq<Element>) {
    (|list| == 1 && list[0].op == Write) || (forall e :: e in list ==> e.op == Read)
  }

  ghost predicate Exclusive(t: Table) {
    forall n :: n in t.names ==> ExclusiveList(t.names[n])
  }

  /** In an exclusive table, looking at the first lock of an object decides whether any of its locks
      conflicts with the incoming one. */
  lemma FrontDecides(t: Table, r: ActiveRecord)
    requires Exclusive(t)
    ensures Blocked(t, r) <==> r.name in t.names && exists e :: e in t.names[r.name] && Conflicts(e.op, r.op)
  {
    if Blocked(t, r) {
      assert t.names[r.name][0] in t.names[r.name];
    }
  }

  /** Acquiring keeps exclusion exactly when it is refused or the lock is for reading or writing: a
      READ_WRITE lock conflicts with nothing. */
  lemma AcquireExclusiveIff(comp: string -> int, t: Table, r: ActiveRecord)
    requires WellFormed(comp, t) && Exclusive(t)
    ensures Exclusive(Acquire(comp, t, r).0) <==> Blocked(t, r) || r.op != ReadWrite
  {
    if !Blocked(t, r) {
      hide Acquire;
      var before := if r.name in t.names then t.names[r.name] else [];
      var e := Element(IdFor(t, r), r.op);
      var t' := Acquire(comp, t, r).0;
      AcquiredNames(comp, t, r);
      if r.name in t.names {
        var x :| Lists(t, r.name, x);
      }
      ExclusiveOneMore(before, e);
      assert r.name in t'.names && t'.names[r.name] == before + [e];
      assert forall n :: n != r.name ==> (n in t'.names <==> n in t.names) && (n in t'.names ==> t'.names[n] == t.names[n]);
    }
  }

  lemma AcquiredNames(comp: string -> int, t: Table, r: ActiveRecord)
    requires !Blocked(t, r)
    ensures Acquire(comp, t, r).0.names
         == t.names[r.name := (if r.name in t.names then t.names[r.name] else []) + [Element(IdFor(t, r), r.op)]]
  {
  }

  lemma ExclusiveOneMore(list: seq<Element>, e: Element)
    requires list != [] ==> ExclusiveList(list) && !Conflicts(list[0].op, e.op)
    ensures ExclusiveList(list + [e]) <==> e.op != ReadWrite
  {
    var longer := list + [e];
    assert longer[|list|] == e && e in longer;
    assert list != [] ==> longer[0] == list[0] && list[0] in longer && list[0] in list;
  }

  lemma ReleaseExclusive(t: Table, id: int)
    requires Exclusive(t)
    ensures Exclusive(Release(t, id).0)
    ensures Exclusive(RemoveBulkEntry(t, id))
  {
    if Located(t, id) && RecordOf(t, id).name in t.names {
      EraseElementSubset(t.names[RecordOf(t, id).name], id);
    }
  }

  lemma {:induction false} EraseElementSubset(list: seq<Element>, id: int)
    ensures forall e :: e in EraseElement(list, id) ==> e in list
    ensures |EraseElement(list, id)| <= |list|
  {
    if list != [] {
      EraseElementSubset(list[1..], id);
    }
  }

  // ----- Exclusion over runs

  predicate AcquiresOrReleases(q: Request) {
    q.Lock? || q.Unlock? || q.RollBack?
  }

  predicate GrantsReadWrite(comp: string -> int, t: Table, q: Request) {
    q.Lock? && q.record.op == ReadWrite && AcquireLock(comp, t, q.record).1.Granted?
  }

  lemma {:induction false} RollBackExclusive(t: Table, ids: seq<int>)
    requires Exclusive(t)
    ensures Exclusive(RemoveBulk(t, ids))
    decreases |ids|
  {
    hide Exclusive;
    if ids != [] {
      ReleaseExclusive(t, ids[0]);
      RollBackExclusive(RemoveBulkEntry(t, ids[0]), ids[1..]);
    }
  }

  lemma ServeExclusiveIff(comp: string -> int, t: Table, q: Request)
    requires WellFormed(comp, t) && Exclusive(t) && AcquiresOrReleases(q) && Expected(comp, t, q)
    ensures Exclusive(Serve(comp, t, q)) <==> !GrantsReadWrite(comp, t, q)
  {
    hide WellFormed, Exclusive, Acquire, Blocked;
    match q
    case Lock(r) =>
      if !IsFull(t) {
        AcquireExclusiveIff(comp, t, r);
        AcquireKeeps(comp, t, r);
      }
    case Unlock(id) => ReleaseExclusive(t, id);
    case RollBack(ids) => RollBackExclusive(t, ids);
  }

  lemma RunStep(comp: string -> int, t: Table, qs: seq<Request>, n: nat)
    requires n < |qs| && WellFormed(comp, t) && AllExpected(comp, t, qs)
    ensures Run(comp, t, qs[..n + 1]) == Serve(comp, Run(comp, t, qs[..n]), qs[n])
    ensures WellFormed(comp, Run(comp, t, qs[..n])) && Expected(comp, Run(comp, t, qs[..n]), qs[n])
  {
    hide WellFormed, Expected, Serve;
    assert qs[..n + 1][..n] == qs[..n];
    forall i | 0 <= i < n ensures Expected(comp, Run(comp, t, qs[..n][..i]), qs[..n][i]) {
      assert qs[..n][..i] == qs[..i];
    }
    RunKeeps(comp, t, qs[..n]);
  }

  lemma {:induction false} RunExclusive(comp: string -> int, t: Table, qs: seq<Request>, n: nat)
    requires WellFormed(comp, t) && Exclusive(t) && AllExpected(comp, t, qs) && n <= |qs|
    requires forall i :: 0 <= i < |qs| ==> AcquiresOrReleases(qs[i])
    requires forall i :: 0 <= i < n ==> !GrantsReadWrite(comp, Run(comp, t, qs[..i]), qs[i])
    ensures Exclusive(Run(comp, t, qs[..n]))
    decreases n
  {
    hide WellFormed, Exclusive, AllExpected, GrantsReadWrite, Expected, Serve;
    if n > 0 {
      RunExclusive(comp, t, qs, n - 1);
      RunStep(comp, t, qs, n - 1);
      ServeExclusiveIff(comp, Run(comp, t, qs[..n - 1]), qs[n - 1]);
    }
  }

  /** Over every run of acquires, releases and roll-backs: each object always has one writer or only readers
      exactly when no READ_WRITE lock is ever granted. */
  lemma RunExclusiveIff(comp: string -> int, t: Table, qs: seq<Request>)
    requires WellFormed(comp, t) && Exclusive(t) && AllExpected(comp, t, qs)
    requires forall i :: 0 <= i < |qs| ==> AcquiresOrReleases(qs[i])
    ensures (forall n :: 0 <= n <= |qs| ==> Exclusive(Run(comp, t, qs[..n])))
       <==> (forall i :: 0 <= i < |qs| ==> !GrantsReadWrite(comp, Run(comp, t, qs[..i]), qs[i]))
  {
    hide WellFormed, Exclusive, AllExpected, GrantsReadWrite, Expected, Serve;
    if forall n :: 0 <= n <= |qs| ==> Exclusive(Run(comp, t, qs[..n])) {
      forall i | 0 <= i < |qs| ensures !GrantsReadWrite(comp, Run(comp, t, qs[..i]), qs[i]) {
        RunStep(comp, t, qs, i);
        assert Exclusive(Run(comp, t, qs[..i])) && Exclusive(Run(comp, t, qs[..i + 1]));
        ServeExclusiveIff(comp, Run(comp, t, qs[..i]), qs[i]);
      }
    }
    if forall i :: 0 <= i < |qs| ==> !GrantsReadWrite(comp, Run(comp, t, qs[..i]), qs[i]) {
      forall n | 0 <= n <= |qs| ensures Exclusive(Run(comp, t, qs[..n])) {
        RunExclusive(comp, t, qs, n);
      }
    }
  }

  lemma MapMinusOne(m: map<int, int>, id: int)
    ensures |m - {id}| <= |m|
  {
    assert (m - {id}).Keys == m.Keys - {id};
  }

  lemma {:induction false} RollBackShrinks(t: Table, ids: seq<int>)
    ensures |RemoveBulk(t, ids).comps| <= |t.comps|
    decreases |ids|
  {
    if ids != [] {
      MapMinusOne(t.comps, ids[0]);
      RollBackShrinks(RemoveBulkEntry(t, ids[0]), ids[1..]);
    }
  }

  // A request adds at most one lock.
  lemma ServeAddsOne(comp: string -> int, t: Table, q: Request)
    requires AcquiresOrReleases(q)
    ensures |Serve(comp, t, q).comps| <= |t.comps| + 1
  {
    match q
    case Lock(r) => AcquireAddsOne(comp, t, r);
    case Unlock(id) => MapMinusOne(t.comps, id);
    case RollBack(ids) => RollBackShrinks(t, ids);
  }

  lemma AcquireAddsOne(comp: string -> int, t: Table, r: ActiveRecord)
    ensures |AcquireLock(comp, t, r).0.comps| <= |t.comps| + 1
  {
    var id := if r.id != 0 then r.id else t.lastId + 1;
    if id !in t.comps {
      assert t.comps[id := comp(r.name)].Keys == t.comps.Keys + {id};
    }
  }

  lemma {:induction false} RunAddsFew(comp: string -> int, t: Table, qs: seq<Request>)
    requires forall i :: 0 <= i < |qs| ==> AcquiresOrReleases(qs[i])
    ensures |Run(comp, t, qs).comps| <= |t.comps| + |qs|
    decreases |qs|
  {
    hide Serve, AcquiresOrReleases;
    if qs != [] {
      var n := |qs| - 1;
      RunAddsFew(comp, t, qs[..n]);
      ServeAddsOne(comp, Run(comp, t, qs[..n]), qs[n]);
    }
  }

  // No lock conflicts with a READ_WRITE lock in the eyes of the code.
  lemma ReadWriteIsGranted(comp: string -> int, t: Table, q: Request)
    requires Expected(comp, t, q) && !IsFull(t)
    ensures GrantsReadWrite(comp, t, q) <==> q.Lock? && q.record.op == ReadWrite
  {
    if q.Lock? && q.record.op == ReadWrite {
      assert !Blocked(t, q.record);
      assert !In(t, comp(q.record.name), IdFor(t, q.record));
    }
  }

  /** The same in terms of what is asked for, when the table does not fill up: each object always has one
      writer or only readers exactly when no READ_WRITE lock is asked for. */
  lemma RunExclusiveIffNotRequested(comp: string -> int, t: Table, qs: seq<Request>)
    requires WellFormed(comp, t) && Exclusive(t) && AllExpected(comp, t, qs) && |t.comps| + |qs| <= 1000001
    requires forall i :: 0 <= i < |qs| ==> AcquiresOrReleases(qs[i])
    ensures (forall n :: 0 <= n <= |qs| ==> Exclusive(Run(comp, t, qs[..n])))
       <==> (forall i :: 0 <= i < |qs| && qs[i].Lock? ==> qs[i].record.op != ReadWrite)
  {
    hide WellFormed, Exclusive, GrantsReadWrite, Expected, Serve, AcquiresOrReleases, Run;
    RunExclusiveIff(comp, t, qs);
    forall i | 0 <= i < |qs|
      ensures GrantsReadWrite(comp, Run(comp, t, qs[..i]), qs[i]) <==> qs[i].Lock? && qs[i].record.op == ReadWrite
    {
      RunAddsFew(comp, t, qs[..i]);
      ReadWriteIsGranted(comp, Run(comp, t, qs[..i]), qs[i]);
    }
  }

  /** From the empty table, and without a READ_WRITE lock, comparing with the first lock of an object is at
      every moment comparing with all of them. */
  lemma FrontAlwaysDecides(comp: string -> int, qs: seq<Request>, n: nat, r: ActiveRecord)
    requires AllExpected(comp, EMPTY, qs) && n <= |qs|
    requires forall i :: 0 <= i < |qs| ==> AcquiresOrReleases(qs[i])
    requires forall i :: 0 <= i < n ==> !GrantsReadWrite(comp, Run(comp, EMPTY, qs[..i]), qs[i])
    ensures var t := Run(comp, EMPTY, qs[..n]);
            Blocked(t, r) <==> r.name in t.names && exists e :: e in t.names[r.name] && Conflicts(e.op, r.op)
  {
    hide AllExpected, GrantsReadWrite, Run, Blocked, Conflicts;
    EmptyIsWellFormed(comp);
    RunExclusive(comp, EMPTY, qs, n);
    FrontDecides(Run(comp, EMPTY, qs[..n]), r);
  }

  lemma EmptyIsWellFormed(comp: string -> int)
    ensures WellFormed(comp, EMPTY) && Exclusive(EMPTY) && NothingEmpty(EMPTY)
    ensures forall id :: Fresh(EMPTY, id)
  {
  }
}
