/** The lock manager as the service runs it.

    Each method updates the three maps in place, and is proved to compute the operation of LockTable.  Where
    the code loops over a map, in the order of its keys, the operation speaks of the whole map at once; the
    lemmas here take the loops one component or one record at a time. */
module TransactionMemory {
  import opened LockTable
  import opened OrderedKeys

  class TransactionLockManager {
    const comp: string -> int
    var nameMap: map<string, seq<Element>>
    var compMap: map<int, int>
    var memMap: map<int, Component>
    var lastId: int

    ghost function Model(): Table
      reads this
    {
      Table(nameMap, compMap, memMap, lastId)
    }

    constructor (comp: string -> int, lastId: int)
      ensures this.comp == comp && Model() == EMPTY.(lastId := lastId)
    {
      this.comp := comp;
      nameMap, compMap, memMap, this.lastId := map[], map[], map[], lastId;
    }

    method SetLastTransactionId(id: int)
      modifies this
      ensures Model() == SetLastId(old(Model()), id)
    {
      if lastId < id {
        lastId := id;
      }
    }

    method AcquireTransactionLock(record: ActiveRecord) returns (outcome: Outcome)
      modifies this
      ensures (Model(), outcome) == Acquire(comp, old(Model()), record)
    {
      var name := record.name;
      if name in nameMap {
        var list := nameMap[name];
        if list != [] && Conflicts(list[0].op, record.op) {
          return Conflict;
        }
      } else {
        nameMap := nameMap[name := []];
      }
      var id: int;
      if record.id != 0 {
        id := record.id;
        SetLastTransactionId(id);
      } else {
        lastId := lastId + 1;
        id := lastId;
      }
      nameMap := nameMap[name := nameMap[name] + [Element(id, record.op)]];
      assert nameMap == ListLock(old(nameMap), name, Element(id, record.op));
      var c := comp(name);
      var stored := record.(id := id);
      if c in memMap {
        if id in memMap[c].records {
          return Conflict;
        }
        memMap := memMap[c := memMap[c].(records := memMap[c].records[id := stored])];
      } else {
        memMap := memMap[c := Component(map[id := stored], true)];
      }
      if id !in compMap {
        compMap := compMap[id := c];
      }
      return Granted(id);
    }

    method AcquireLock(record: ActiveRecord) returns (outcome: Outcome)
      modifies this
      ensures (Model(), outcome) == LockTable.AcquireLock(comp, old(Model()), record)
    {
      if |compMap| > 1000000 {
        return Full;
      }
      outcome := AcquireTransactionLock(record);
    }

    // Takes the first element with the id out of the list of the object.
    method UnlistLock(name: string, id: int)
      modifies this`nameMap
      ensures nameMap == Unlist(old(nameMap), name, id)
    {
      hide EraseElement;
      if name in nameMap {
        var list := nameMap[name];
        var k := 0;
        while k < |list| && list[k].id != id
          modifies {}
          invariant 0 <= k <= |list| && forall j :: 0 <= j < k ==> list[j].id != id
        {
          k := k + 1;
        }
        EraseAt(list, id, k);
        if k < |list| {
          nameMap := nameMap[name := list[..k] + list[k + 1..]];
          if nameMap[name] == [] {
            nameMap := nameMap - {name};
          }
        } else {
          assert nameMap[name := list] == nameMap;
        }
      }
    }

    method ReleaseLockById(id: int) returns (released: bool)
      modifies this
      ensures (Model(), released) == Release(old(Model()), id)
    {
      if id !in compMap {
        return false;
      }
      var c := compMap[id];
      if c !in memMap || id !in memMap[c].records {
        return false;
      }
      UnlistLock(memMap[c].records[id].name, id);
      EraseFromComponent(c, id);
      compMap := compMap - {id};
      return true;
    }

    method EraseFromComponent(c: int, id: int)
      requires c in memMap
      modifies this`memMap
      ensures memMap == EraseRecord(old(memMap), c, id)
    {
      memMap := memMap[c := memMap[c].(records := memMap[c].records - {id})];
      if |memMap[c].records| == 0 {
        memMap := memMap - {c};
      }
    }

    method RemoveBulkDeleteEntry(ids: seq<int>)
      modifies this
      ensures Model() == RemoveBulk(old(Model()), ids)
    {
      for i := 0 to |ids|
        invariant RemoveBulk(Model(), ids[i..]) == RemoveBulk(old(Model()), ids)
      {
        assert ids[i..][1..] == ids[i + 1..];
        var id := ids[i];
        if id in compMap {
          var c := compMap[id];
          if c in memMap && id in memMap[c].records && memMap[c].records[id].request == BULK_DELETE {
            nameMap := nameMap - {memMap[c].records[id].name};
            EraseFromComponent(c, id);
            compMap := compMap - {id};
          }
        }
      }
    }

    method AddRecordsInMemory(entries: seq<ActiveRecord>, owned: bool)
      modifies this
      ensures Model() == AddRecords(comp, old(Model()), entries, owned)
    {
      for i := 0 to |entries|
        invariant AddRecords(comp, Model(), entries[i..], owned) == AddRecords(comp, old(Model()), entries, owned)
      {
        assert entries[i..][1..] == entries[i + 1..];
        AddRecordInMemory(entries[i], owned);
      }
    }

    method AddRecordInMemory(r: ActiveRecord, owned: bool)
      modifies this
      ensures Model() == AddRecord(comp, old(Model()), r, owned)
    {
      var c := comp(r.name);
      if c in memMap {
        if r.id !in memMap[c].records {
          memMap := memMap[c := memMap[c].(records := memMap[c].records[r.id := r])];
        } else {
          assert memMap == memMap[c := memMap[c].(records := memMap[c].records)];
        }
      } else {
        memMap := memMap[c := Component(map[r.id := r], owned)];
      }
      if owned {
        var list := if r.name in nameMap then nameMap[r.name] else [];
        nameMap := nameMap[r.name := list + [Element(r.id, r.op)]];
        if r.id !in compMap {
          compMap := compMap[r.id := c];
        }
      }
    }

    method MarkUnknownMemory(kept: seq<int>)
      modifies this
      ensures Model() == MarkUnknown(old(Model()), kept)
    {
      hide Ascending, MarkUnknown, WithoutListings;
      var cs := Ascending(memMap.Keys);
      for i := 0 to |cs|
        invariant DisownEach(Model(), cs[i..], kept) == DisownEach(old(Model()), cs, kept)
      {
        assert cs[i..][1..] == cs[i + 1..];
        var c := cs[i];
        if c !in kept && c in memMap {
          memMap := memMap[c := memMap[c].(owned := false)];
          UnlistRecords(memMap[c].records);
        }
      }
      DisownEachIsMarkUnknown(old(Model()), kept);
    }

    // Erases the listings of all records of one component.
    method UnlistRecords(records: map<int, ActiveRecord>)
      modifies this`nameMap, this`compMap
      ensures Model() == WithoutListings(old(Model()), records)
    {
      hide UnlistAll, WithoutListings, Ascending;
      var ids := Ascending(records.Keys);
      assert ids[0..] == ids;
      for i := 0 to |ids|
        invariant UnlistAll(Model(), records, ids[i..]) == UnlistAll(old(Model()), records, ids)
      {
        UnlistNext(Model(), records, ids, i);
        var id := ids[i];
        WithoutAbsent(nameMap, records[id].name);
        WithoutAbsent(compMap, id);
        if records[id].name in nameMap {
          nameMap := nameMap - {records[id].name};
        }
        if id in compMap {
          compMap := compMap - {id};
        }
      }
      assert ids[|ids|..] == [];
      UnlistNone(Model(), records);
      UnlistAllIsWithoutListings(old(Model()), records);
    }

    method GetComponentTransactionMap(names: seq<int>) returns (taken: map<int, seq<ActiveRecord>>)
      modifies this
      ensures Model() == Extract(old(Model()), Elements(names))
      ensures forall c :: c in taken <==> c in old(memMap) && c in names && old(memMap)[c].records != map[]
      ensures forall c :: c in taken ==> taken[c] == RecordList(old(memMap)[c].records)
    {
      hide RecordList, WithoutListings, RecordNames;
      ghost var t := Model();
      ghost var done: set<int> := {};
      taken := map[];
      ExtractNothing(t);
      for i := 0 to |names|
        invariant done == Elements(names[..i])
        invariant Model() == Extract(t, done)
        invariant forall c :: c in taken <==> c in t.mem && c in done && t.mem[c].records != map[]
        invariant forall c :: c in taken ==> taken[c] == RecordList(t.mem[c].records)
      {
        var c := names[i];
        if c in memMap {
          ExtractStep(t, done, c);
          if memMap[c].records != map[] {
            taken := taken[c := RecordList(memMap[c].records)];
          }
          UnlistRecords(memMap[c].records);
          memMap := memMap - {c};
        } else {
          ExtractAgain(t, done, c);
        }
        OneMoreElement(names, i);
        done := done + {c};
      }
      assert names[..|names|] == names;
    }

    method CommitRecoveredData(chosen: seq<int>)
      modifies this
      ensures Model() == Commit(old(Model()), chosen)
    {
      ghost var t := Model();
      var cs := Ascending(memMap.Keys);
      for i := 0 to |cs|
        invariant Model() == CommitComponents(t, cs[..i], chosen)
      {
        var c := cs[i];
        assert cs[..i + 1][..i] == cs[..i];
        if c in chosen {
          if c in memMap && !memMap[c].owned {
            CommitOne(c);
          }
        }
      }
      assert cs[..|cs|] == cs;
    }

    method CommitOne(c: int)
      requires c in memMap && !memMap[c].owned
      modifies this
      ensures Model() == CommitComponent(old(Model()), c)
    {
      memMap := memMap[c := memMap[c].(owned := true)];
      ghost var o := Model();
      var ids := Ascending(memMap[c].records.Keys);
      for i := 0 to |ids|
        invariant Model() == CommitRecords(o, c, ids[..i])
      {
        assert ids[..i + 1][..i] == ids[..i];
        CommitListing(c, ids[i]);
      }
      assert ids[..|ids|] == ids;
    }

    method CommitListing(c: int, id: int)
      requires c in memMap && id in memMap[c].records
      modifies this`nameMap, this`compMap
      ensures Model() == CommitRecord(old(Model()), c, id)
    {
      var r := memMap[c].records[id];
      if r.name in nameMap {
        var list := nameMap[r.name];
        if list != [] {
          var k := 0;
          while k < |list| && list[k].id != r.id
            invariant 0 <= k <= |list|
            invariant forall j :: 0 <= j < k ==> list[j].id != r.id
          {
            k := k + 1;
          }
          assert HasId(list, r.id) <==> k < |list|;
          if k == |list| {
            nameMap := nameMap[r.name := list + [Element(r.id, r.op)]];
          }
        }
      } else {
        nameMap := nameMap[r.name := [Element(r.id, r.op)]];
        assert [] + [Element(r.id, r.op)] == [Element(r.id, r.op)];
      }
      if r.id !in compMap {
        compMap := compMap[r.id := c];
      }
    }

    method GetActiveIdList() returns (ids: seq<int>)
      ensures Elements(ids) == ActiveIds(Model())
    {
      if |compMap| <= 1 {
        return [];
      }
      return Ascending(compMap.Keys);
    }
  }

  ghost function Elements(s: seq<int>): set<int> {
    set x | x in s
  }

  lemma {:induction false} EraseAt(list: seq<Element>, id: int, k: nat)
    requires k <= |list| && (forall j :: 0 <= j < k ==> list[j].id != id) && (k < |list| ==> list[k].id == id)
    ensures EraseElement(list, id) == if k < |list| then list[..k] + list[k + 1..] else list
    decreases |list|
  {
    if k > 0 {
      EraseAt(list[1..], id, k - 1);
      assert list == [list[0]] + list[1..];
    }
  }

  lemma OneMoreElement(s: seq<int>, i: nat)
    requires i < |s|
    ensures Elements(s[..i + 1]) == Elements(s[..i]) + {s[i]}
  {
    assert s[..i + 1] == s[..i] + [s[i]];
    forall x ensures x in Elements(s[..i + 1]) <==> x in Elements(s[..i]) + {s[i]} {
    }
    SameElements(Elements(s[..i + 1]), Elements(s[..i]) + {s[i]});
  }

  lemma SameElements<T>(a: set<T>, b: set<T>)
    requires forall x :: x in a <==> x in b
    ensures a == b
  {
  }

  function Collect(records: map<int, ActiveRecord>, ids: seq<int>): seq<ActiveRecord>
    requires forall i :: 0 <= i < |ids| ==> ids[i] in records
  {
    if ids == [] then [] else [records[ids[0]]] + Collect(records, ids[1..])
  }

  // The records of a component in ascending order of their ids.
  function RecordList(records: map<int, ActiveRecord>): seq<ActiveRecord> {
    Collect(records, Ascending(records.Keys))
  }

  ghost function RecordNames(records: map<int, ActiveRecord>): set<string> {
    set id | id in records :: records[id].name
  }

  ghost function WithoutListings(t: Table, records: map<int, ActiveRecord>): Table {
    t.(names := t.names - RecordNames(records), comps := t.comps - records.Keys)
  }

  ghost function UnlistAll(t: Table, records: map<int, ActiveRecord>, ids: seq<int>): Table
    decreases |ids|
  {
    if ids == [] || ids[0] !in records then t else
      var t' := t.(names := t.names - {records[ids[0]].name}, comps := t.comps - {ids[0]});
      UnlistAll(t', records, ids[1..])
  }

  lemma WithoutAbsent<K, V>(m: map<K, V>, k: K)
    ensures k !in m ==> m - {k} == m
  {
  }

  lemma WithoutListingsStep(t: Table, records: map<int, ActiveRecord>, id: int)
    requires id in records
    ensures var t' := t.(names := t.names - {records[id].name}, comps := t.comps - {id});
            WithoutListings(t, records) == WithoutListings(t', records - {id})
  {
    RecordNamesSplit(records, id);
    assert records.Keys == {id} + (records - {id}).Keys;
    DropTwo(t.names, {records[id].name}, RecordNames(records - {id}));
    DropTwo(t.comps, {id}, (records - {id}).Keys);
  }

  lemma UnlistNext(t: Table, records: map<int, ActiveRecord>, ids: seq<int>, i: nat)
    requires i < |ids| && ids[i] in records
    ensures UnlistAll(t, records, ids[i..])
         == UnlistAll(t.(names := t.names - {records[ids[i]].name}, comps := t.comps - {ids[i]}), records, ids[i + 1..])
  {
    assert ids[i..][1..] == ids[i + 1..];
  }

  lemma UnlistNone(t: Table, records: map<int, ActiveRecord>)
    ensures UnlistAll(t, records, []) == t
  {
  }

  lemma UnlistAllIsWithoutListings(t: Table, records: map<int, ActiveRecord>)
    ensures UnlistAll(t, records, Ascending(records.Keys)) == WithoutListings(t, records)
  {
    UnlistAllOf(t, records, records, Ascending(records.Keys));
  }

  lemma {:induction false} UnlistAllOf(t: Table, all: map<int, ActiveRecord>, rest: map<int, ActiveRecord>, ids: seq<int>)
    requires forall id :: id in rest <==> id in ids
    requires forall id :: id in rest ==> id in all && all[id] == rest[id]
    requires forall i, j :: 0 <= i < j < |ids| ==> ids[i] < ids[j]
    ensures UnlistAll(t, all, ids) == WithoutListings(t, rest)
    decreases |ids|
  {
    if ids == [] {
      assert forall id :: id !in rest;
      WithoutNoListings(t);
    } else {
      var id := ids[0];
      assert id in rest;
      WithoutListingsStep(t, rest, id);
      assert ids == [id] + ids[1..];
      forall k ensures k in rest - {id} <==> k in ids[1..] {
        if k in ids[1..] {
          var i :| 0 <= i < |ids[1..]| && ids[1..][i] == k;
          assert ids[0] < ids[i + 1];
        }
      }
      UnlistAllOf(t.(names := t.names - {rest[id].name}, comps := t.comps - {id}), all, rest - {id}, ids[1..]);
    }
  }

  ghost function DisownOne(t: Table, c: int): Table {
    if c !in t.mem then t else
      WithoutListings(t.(mem := t.mem[c := t.mem[c].(owned := false)]), t.mem[c].records)
  }

  ghost function DisownEach(t: Table, cs: seq<int>, kept: seq<int>): Table
    decreases |cs|
  {
    if cs == [] then t else DisownEach(if cs[0] in kept then t else DisownOne(t, cs[0]), cs[1..], kept)
  }

  lemma DisownEachIsMarkUnknown(t: Table, kept: seq<int>)
    ensures DisownEach(t, Ascending(t.mem.Keys), kept) == MarkUnknown(t, kept)
  {
    hide Disown;
    var cs := Ascending(t.mem.Keys);
    DisownNothing(t);
    DisownEachFrom(t, {}, cs, kept);
    NotKept(t, cs, kept);
    var lost := set c | c in t.mem && c !in kept;
    assert {} + lost == lost;
  }

  lemma NotKept(t: Table, cs: seq<int>, kept: seq<int>)
    requires forall c :: c in cs <==> c in t.mem.Keys
    ensures (set c | c in cs && c !in kept) == (set c | c in t.mem && c !in kept)
  {
    var inside, outside := (set c | c in cs && c !in kept), (set c | c in t.mem && c !in kept);
    assert forall c :: c in inside <==> c in outside;
  }

  lemma {:induction false} DisownEachFrom(t: Table, lost: set<int>, cs: seq<int>, kept: seq<int>)
    requires forall i :: 0 <= i < |cs| ==> cs[i] in t.mem && cs[i] !in lost
    requires forall i, j :: 0 <= i < j < |cs| ==> cs[i] < cs[j]
    ensures DisownEach(Disown(t, lost), cs, kept) == Disown(t, lost + set c | c in cs && c !in kept)
    decreases |cs|
  {
    hide Disown, DisownOne;
    var more := set c | c in cs && c !in kept;
    if cs == [] {
      assert lost + more == lost;
    } else {
      var c, rest := cs[0], set c | c in cs[1..] && c !in kept;
      assert cs == [c] + cs[1..];
      if c in kept {
        DisownEachFrom(t, lost, cs[1..], kept);
        SameElements(lost + more, lost + rest);
      } else {
        DisownOneMore(t, lost, c);
        forall i | 0 <= i < |cs[1..]| ensures cs[1..][i] !in lost + {c} {
          assert cs[0] < cs[i + 1];
        }
        DisownEachFrom(t, lost + {c}, cs[1..], kept);
        SameElements(lost + more, lost + {c} + rest);
      }
    }
  }

  lemma RecordNamesSplit(records: map<int, ActiveRecord>, id: int)
    requires id in records
    ensures RecordNames(records) == {records[id].name} + RecordNames(records - {id})
  {
    forall n ensures n in RecordNames(records) <==> n == records[id].name || n in RecordNames(records - {id}) {
      if n in RecordNames(records) && n != records[id].name {
        var k :| k in records && records[k].name == n;
        assert k in records - {id};
      }
    }
  }

  lemma WithoutNoListings(t: Table)
    ensures WithoutListings(t, map[]) == t
  {
  }

  lemma DropTwo<K, V>(m: map<K, V>, s: set<K>, s': set<K>)
    ensures (m - s) - s' == m - (s + s')
  {
  }

  lemma ComponentsUnion(t: Table, cs: set<int>, c: int)
    ensures c in t.mem ==> NamesIn(t, cs + {c}) == NamesIn(t, cs) + RecordNames(t.mem[c].records)
    ensures c in t.mem ==> IdsIn(t, cs + {c}) == IdsIn(t, cs) + t.mem[c].records.Keys
    ensures c !in t.mem || c in cs ==> NamesIn(t, cs + {c}) == NamesIn(t, cs) && IdsIn(t, cs + {c}) == IdsIn(t, cs)
  {
    if c in t.mem {
      forall id | id in t.mem[c].records
        ensures id in IdsIn(t, cs + {c}) && t.mem[c].records[id].name in NamesIn(t, cs + {c})
      {
      }
    }
  }

  lemma DisownNothing(t: Table)
    ensures Disown(t, {}) == t
  {
  }

  lemma DisownStep(t: Table, lost: set<int>, c: int)
    requires c in t.mem && c !in lost
    ensures var before := Disown(t, lost);
            var disowned := before.(mem := before.mem[c := before.mem[c].(owned := false)]);
            Disown(t, lost + {c}) == WithoutListings(disowned, t.mem[c].records)
  {
    ComponentsUnion(t, lost, c);
    DropTwo(t.names, NamesIn(t, lost), RecordNames(t.mem[c].records));
    DropTwo(t.comps, IdsIn(t, lost), t.mem[c].records.Keys);
  }

  lemma DisownOneMore(t: Table, lost: set<int>, c: int)
    requires c in t.mem && c !in lost
    ensures DisownOne(Disown(t, lost), c) == Disown(t, lost + {c})
  {
    hide WithoutListings;
    DisownStep(t, lost, c);
  }

  lemma ExtractNothing(t: Table)
    ensures Extract(t, {}) == t
  {
  }

  lemma ExtractStep(t: Table, done: set<int>, c: int)
    requires c in Extract(t, done).mem
    ensures var before := Extract(t, done);
            Extract(t, done + {c}) == WithoutListings(before, t.mem[c].records).(mem := before.mem - {c})
  {
    ComponentsUnion(t, done, c);
    DropTwo(t.mem, done, {c});
    DropTwo(t.names, NamesIn(t, done), RecordNames(t.mem[c].records));
    DropTwo(t.comps, IdsIn(t, done), t.mem[c].records.Keys);
  }

  lemma ExtractAgain(t: Table, done: set<int>, c: int)
    requires c !in Extract(t, done).mem
    ensures Extract(t, done + {c}) == Extract(t, done)
  {
    ComponentsUnion(t, done, c);
    assert t.mem - (done + {c}) == t.mem - done;
  }
}
