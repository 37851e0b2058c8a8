/** Bulk acquisition: when a lock of a batch cannot be taken, those taken before it are removed again. */
module BulkTransaction {
  import opened LockTable
  import opened LockInvariant
  import TransactionMemory

  // ----- A table extended by write locks on objects that it does not list

  ghost predicate Apart(base: Table, added: map<int, ActiveRecord>) {
    && (forall id :: id in added ==>
          && added[id].id == id && added[id].op == Write
          && added[id].name !in base.names && id !in base.comps && Fresh(base, id))
    && (forall i, j :: i in added && j in added && i != j ==> added[i].name != added[j].name)
  }

  ghost predicate Holds(added: map<int, ActiveRecord>, name: string) {
    exists id :: id in added && added[id].name == name
  }

  ghost predicate NamesExtended(base: Table, added: map<int, ActiveRecord>, t: Table) {
    && (forall n :: n in t.names <==> n in base.names || Holds(added, n))
    && (forall n :: n in base.names ==> t.names[n] == base.names[n])
    && (forall id :: id in added ==> t.names[added[id].name] == [Element(id, Write)])
  }

  ghost predicate CompsExtended(comp: string -> int, base: Table, added: map<int, ActiveRecord>, t: Table) {
    && (forall id :: id in t.comps <==> id in base.comps || id in added)
    && (forall id :: id in base.comps ==> t.comps[id] == base.comps[id])
    && (forall id :: id in added ==> t.comps[id] == comp(added[id].name))
  }

  datatype Option<T> = None | Some(value: T)

  ghost function Entry(t: Table, c: int, id: int): Option<ActiveRecord> {
    if In(t, c, id) then Some(Rec(t, c, id)) else None
  }

  ghost predicate MemExtended(comp: string -> int, base: Table, added: map<int, ActiveRecord>, t: Table) {
    && (forall c :: c in t.mem ==> exists id :: In(t, c, id))
    && (forall c :: c in t.mem ==> t.mem[c].owned == (c in base.mem ==> base.mem[c].owned))
    && (forall c, id :: Entry(t, c, id) == EntryOf(comp, base, added, c, id))
  }

  ghost function EntryOf(comp: string -> int, base: Table, added: map<int, ActiveRecord>, c: int, id: int)
    : Option<ActiveRecord>
  {
    if id in added && comp(added[id].name) == c then Some(added[id]) else Entry(base, c, id)
  }

  /** `t` holds what `base` holds and the locks in `added`. */
  ghost predicate Extends(comp: string -> int, base: Table, added: map<int, ActiveRecord>, t: Table) {
    && Apart(base, added)
    && NamesExtended(base, added, t)
    && CompsExtended(comp, base, added, t)
    && MemExtended(comp, base, added, t)
  }

  lemma SameMap<K, V>(m: map<K, V>, m': map<K, V>)
    requires forall k :: k in m <==> k in m'
    requires forall k :: k in m ==> m[k] == m'[k]
    ensures m == m'
  {
  }

  /** The extension is determined by the base and the added locks. */
  lemma ExtensionUnique(comp: string -> int, base: Table, added: map<int, ActiveRecord>, t: Table, u: Table)
    requires Extends(comp, base, added, t) && Extends(comp, base, added, u)
    ensures t.names == u.names && t.comps == u.comps && t.mem == u.mem
  {
    forall n | n in t.names ensures t.names[n] == u.names[n] {
    }
    SameMap(t.names, u.names);
    forall id ensures id in t.comps <==> id in u.comps {
    }
    forall id | id in t.comps ensures t.comps[id] == u.comps[id] {
    }
    SameMap(t.comps, u.comps);
    forall c ensures c in t.mem <==> c in u.mem {
      if c in t.mem {
        var id :| In(t, c, id);
        assert Entry(t, c, id) == Entry(u, c, id);
      }
      if c in u.mem {
        var id :| In(u, c, id);
        assert Entry(t, c, id) == Entry(u, c, id);
      }
    }
    forall c | c in t.mem ensures t.mem[c] == u.mem[c] {
      SameComponent(comp, base, added, t, u, c);
    }
    SameMap(t.mem, u.mem);
  }

  lemma SameComponent(comp: string -> int, base: Table, added: map<int, ActiveRecord>, t: Table, u: Table, c: int)
    requires MemExtended(comp, base, added, t) && MemExtended(comp, base, added, u) && c in t.mem && c in u.mem
    ensures t.mem[c] == u.mem[c]
  {
    forall id ensures id in t.mem[c].records <==> id in u.mem[c].records {
      assert Entry(t, c, id) == Entry(u, c, id);
    }
    forall id | id in t.mem[c].records ensures t.mem[c].records[id] == u.mem[c].records[id] {
      assert Entry(t, c, id) == Entry(u, c, id);
    }
    SameMap(t.mem[c].records, u.mem[c].records);
  }

  lemma ExtendsItself(comp: string -> int, base: Table, lastId: int)
    requires NothingEmpty(base)
    ensures Extends(comp, base, map[], base.(lastId := lastId))
  {
    var t := base.(lastId := lastId);
    assert forall c, id :: In(t, c, id) <==> In(base, c, id);
    assert forall c, id :: Entry(t, c, id) == Entry(base, c, id);
  }

  /** On free objects, acquiring extends the table; on the others it is refused. */
  lemma AcquireExtends(comp: string -> int, base: Table, added: map<int, ActiveRecord>, t: Table, r: ActiveRecord)
    requires WellFormed(comp, base) && Exclusive(base) && Extends(comp, base, added, t)
    requires r.op == Write && IdFor(t, r) !in added && Fresh(base, IdFor(t, r))
    ensures r.name in t.names ==> Acquire(comp, t, r) == (t, Conflict)
    ensures r.name !in t.names ==>
              var id := IdFor(t, r);
              var (t', outcome) := Acquire(comp, t, r);
              && outcome == Granted(id) && Extends(comp, base, added[id := r.(id := id)], t')
              && |t'.comps| == |t.comps| + 1
              && t'.lastId == if r.id != 0 && t.lastId >= r.id then t.lastId else id
  {
    if r.name in t.names {
      HeldIsBlocked(comp, base, added, t, r);
    } else {
      hide Extends, Apart, NamesExtended, MemExtended;
      var id := IdFor(t, r);
      ListedIsNotFresh(comp, base, id);
      IdsOfExtension(comp, base, added, t, id);
      AcquireIsPutThenEnlist(comp, t, r);
      FreeLockExtends(comp, base, added, t, r.(id := id), Acquire(comp, t, r).0);
    }
  }

  lemma HeldIsBlocked(comp: string -> int, base: Table, added: map<int, ActiveRecord>, t: Table, r: ActiveRecord)
    requires NothingEmpty(base) && Exclusive(base) && Extends(comp, base, added, t)
    requires r.op == Write && r.name in t.names
    ensures Blocked(t, r)
  {
    if r.name in base.names {
      var e :| Lists(base, r.name, e);
      assert base.names[r.name][0] in base.names[r.name];
    } else {
      var k :| k in added && added[k].name == r.name;
    }
  }

  lemma IdsOfExtension(comp: string -> int, base: Table, added: map<int, ActiveRecord>, t: Table, id: int)
    requires Extends(comp, base, added, t)
    ensures id in t.comps <==> id in base.comps || id in added
    ensures Fresh(base, id) && id !in added ==> forall c :: !In(t, c, id)
  {
    assert forall c :: In(t, c, id) <==> Entry(t, c, id).Some?;
    assert forall c :: In(base, c, id) <==> Entry(base, c, id).Some?;
  }

  lemma ListedIsNotFresh(comp: string -> int, base: Table, id: int)
    requires WellFormed(comp, base)
    ensures id in base.comps ==> !Fresh(base, id)
  {
    if id in base.comps {
      assert In(base, base.comps[id], id);
    }
  }

  lemma FreeLockExtends(comp: string -> int, base: Table, added: map<int, ActiveRecord>, t: Table, r: ActiveRecord,
                        t': Table)
    requires NothingEmpty(base) && Extends(comp, base, added, t) && r.op == Write
    requires r.name !in t.names && r.id !in t.comps && Fresh(base, r.id)
    requires t' == Enlist(Put(t, comp(r.name), r, true), comp(r.name), r).(lastId := t'.lastId)
    ensures Extends(comp, base, added[r.id := r], t')
  {
    hide Apart, NamesExtended, MemExtended, Fresh;
    assert r.id !in base.comps && r.id !in added;
    FreeLockApart(base, added, t, r);
    FreeLockComps(comp, base, added, t, r, t');
    assert [] + [Element(r.id, r.op)] == [Element(r.id, r.op)];
    FreeLockNames(base, added, t, r, t');
    FreeLockMem(comp, base, added, t, r, t');
  }

  lemma FreeLockApart(base: Table, added: map<int, ActiveRecord>, t: Table, r: ActiveRecord)
    requires Apart(base, added) && NamesExtended(base, added, t) && r.op == Write
    requires r.name !in t.names && r.id !in base.comps && Fresh(base, r.id)
    ensures Apart(base, added[r.id := r])
  {
    assert forall id :: id in added ==> Holds(added, added[id].name);
  }

  lemma FreeLockComps(comp: string -> int, base: Table, added: map<int, ActiveRecord>, t: Table, r: ActiveRecord,
                      t': Table)
    requires CompsExtended(comp, base, added, t) && r.id !in t.comps
    requires t'.comps == t.comps[r.id := comp(r.name)]
    ensures CompsExtended(comp, base, added[r.id := r], t')
  {
  }

  lemma FreeLockNames(base: Table, added: map<int, ActiveRecord>, t: Table, r: ActiveRecord, t': Table)
    requires NamesExtended(base, added, t) && r.name !in t.names && r.op == Write && r.id !in added
    requires t'.names == t.names[r.name := [Element(r.id, r.op)]]
    ensures NamesExtended(base, added[r.id := r], t')
  {
    var more := added[r.id := r];
    forall n ensures Holds(more, n) <==> Holds(added, n) || n == r.name {
      if k :| k in added && added[k].name == n {
        assert more[k].name == n;
      }
      assert more[r.id].name == r.name;
    }
    forall id | id in more ensures t'.names[more[id].name] == [Element(id, Write)] {
      if id != r.id {
        assert Holds(added, added[id].name);
      }
    }
  }

  // What putting a record into a component, or erasing it (r is None), changes.
  ghost predicate Changes(t: Table, t': Table, c: int, id: int, r: Option<ActiveRecord>) {
    && (forall d :: d in t'.mem ==> exists k :: In(t', d, k))
    && (forall d :: d in t'.mem ==> t'.mem[d].owned == (d in t.mem ==> t.mem[d].owned))
    && (forall d :: d in t'.mem ==> d in t.mem || d == c)
    && (forall d, k :: Entry(t', d, k) == if d == c && k == id then r else Entry(t, d, k))
  }

  lemma PutChanges(t: Table, t': Table, c: int, r: ActiveRecord)
    requires forall d :: d in t.mem ==> exists k :: In(t, d, k)
    requires t'.mem == Put(t, c, r, true).mem
    ensures Changes(t, t', c, r.id, Some(r))
  {
    assert In(t', c, r.id);
    forall d | d in t'.mem ensures exists k :: In(t', d, k) {
      if d != c {
        assert d in t.mem;
        var k :| In(t, d, k);
        assert In(t', d, k);
      }
    }
    assert forall d, k :: (d != c || k != r.id) ==> Entry(t', d, k) == Entry(t, d, k);
  }

  lemma EraseChanges(t: Table, t': Table, c: int, id: int)
    requires forall d :: d in t.mem ==> exists k :: In(t, d, k)
    requires In(t, c, id) && t'.mem == EraseRecord(t.mem, c, id)
    ensures Changes(t, t', c, id, None)
  {
    forall d, k ensures Entry(t', d, k) == if d == c && k == id then None else Entry(t, d, k) {
      RecordErased(t, c, id, d, k);
    }
    forall d | d in t'.mem ensures exists k :: In(t', d, k) {
      if d == c {
        RecordsHaveElement(t'.mem[c].records);
        var k :| k in t'.mem[c].records;
        assert In(t', c, k);
      } else {
        var k :| In(t, d, k);
        assert In(t', d, k);
      }
    }
  }

  lemma FreeLockMem(comp: string -> int, base: Table, added: map<int, ActiveRecord>, t: Table, r: ActiveRecord,
                    t': Table)
    requires MemExtended(comp, base, added, t) && NothingEmpty(base) && r.id !in added && Fresh(base, r.id)
    requires t'.mem == Put(t, comp(r.name), r, true).mem
    ensures MemExtended(comp, base, added[r.id := r], t')
  {
    hide Put;
    var c, more := comp(r.name), added[r.id := r];
    PutChanges(t, t', c, r);
    if c in base.mem {
      var k :| In(base, c, k);
      assert Entry(t, c, k) == EntryOf(comp, base, added, c, k);
    }
    forall d, k ensures Entry(t', d, k) == EntryOf(comp, base, more, d, k) {
      assert Entry(t, d, k) == EntryOf(comp, base, added, d, k);
      if k == r.id {
        assert !In(base, d, k);
      }
    }
  }

  // ----- Releasing an added lock

  /** Releasing an added lock takes it out of the extension; the bulk removal does the same. */
  lemma ReleaseExtends(comp: string -> int, base: Table, added: map<int, ActiveRecord>, t: Table, id: int)
    requires NothingEmpty(base) && Extends(comp, base, added, t) && id in added
    ensures Release(t, id).1 && Extends(comp, base, added - {id}, Release(t, id).0)
    ensures Release(t, id).0.lastId == t.lastId
    ensures RemoveBulkEntry(t, id) == if added[id].request == BULK_DELETE then Release(t, id).0 else t
  {
    var r, t' := added[id], Release(t, id).0;
    assert Entry(t, comp(r.name), id) == EntryOf(comp, base, added, comp(r.name), id);
    assert Located(t, id) && RecordOf(t, id) == r;
    assert t.names[r.name] == [Element(id, Write)];
    assert EraseElement([Element(id, Write)], id) == [];
    assert t'.names == t.names - {r.name};
    LockGoneApart(base, added, id);
    LockGoneNames(base, added, t, t', id);
    LockGoneMem(comp, base, added, t, t', id);
    assert CompsExtended(comp, base, added - {id}, t');
  }

  lemma LockGoneApart(base: Table, added: map<int, ActiveRecord>, id: int)
    requires Apart(base, added)
    ensures Apart(base, added - {id})
  {
  }

  lemma LockGoneNames(base: Table, added: map<int, ActiveRecord>, t: Table, t': Table, id: int)
    requires Apart(base, added) && NamesExtended(base, added, t) && id in added
    requires t'.names == t.names - {added[id].name}
    ensures NamesExtended(base, added - {id}, t')
  {
    var fewer := added - {id};
    forall n ensures Holds(fewer, n) <==> Holds(added, n) && n != added[id].name {
      if k :| k in added && added[k].name == n && n != added[id].name {
        assert fewer[k].name == n;
      }
      if k :| k in fewer && fewer[k].name == n {
        assert added[k].name == n;
      }
    }
  }

  lemma LockGoneMem(comp: string -> int, base: Table, added: map<int, ActiveRecord>, t: Table, t': Table, id: int)
    requires Apart(base, added) && MemExtended(comp, base, added, t) && id in added
    requires In(t, comp(added[id].name), id) && t'.mem == EraseRecord(t.mem, comp(added[id].name), id)
    ensures MemExtended(comp, base, added - {id}, t')
  {
    hide EraseRecord;
    var c, fewer := comp(added[id].name), added - {id};
    EraseChanges(t, t', c, id);
    forall d, k ensures Entry(t', d, k) == EntryOf(comp, base, fewer, d, k) {
      assert Entry(t, d, k) == EntryOf(comp, base, added, d, k);
      if k == id {
        assert Fresh(base, id) && !In(base, d, k);
      }
    }
  }

  // ----- The bulk operation

  datatype Result = Taken | Refused(outcome: Outcome)

  /** Takes the locks of a batch one after the other; `ids` are those taken so far. */
  function TakeAll(comp: string -> int, t: Table, entries: seq<ActiveRecord>, ids: seq<int>): (Table, Result)
    decreases |entries|
  {
    if entries == [] then (t, Taken) else
      var (t', outcome) := AcquireLock(comp, t, entries[0]);
      if outcome.Granted? then TakeAll(comp, t', entries[1..], ids + [outcome.id])
      else (RemoveBulk(t', ids), Refused(outcome))
  }

  function AddBulk(comp: string -> int, t: Table, entries: seq<ActiveRecord>): (Table, Result) {
    if |t.mem| + |entries| > 1000000 then (t, Refused(Full)) else TakeAll(comp, t, entries, [])
  }

  class TransactionImpl {
    const memory: TransactionMemory.TransactionLockManager

    constructor (memory: TransactionMemory.TransactionLockManager)
      ensures this.memory == memory
    {
      this.memory := memory;
    }

    method AddBulkDeleteTransaction(entries: seq<ActiveRecord>) returns (result: Result)
      modifies memory
      ensures (memory.Model(), result) == AddBulk(memory.comp, old(memory.Model()), entries)
    {
      if |memory.memMap| + |entries| > 1000000 {
        return Refused(Full);
      }
      var ids: seq<int> := [];
      for i := 0 to |entries|
        invariant TakeAll(memory.comp, memory.Model(), entries[i..], ids)
               == TakeAll(memory.comp, old(memory.Model()), entries, [])
      {
        assert entries[i..][1..] == entries[i + 1..];
        var outcome := memory.AcquireLock(entries[i]);
        if !outcome.Granted? {
          if |ids| > 0 {
            memory.RemoveBulkDeleteEntry(ids);
          }
          return Refused(outcome);
        }
        ids := ids + [outcome.id];
      }
      return Taken;
    }

    /** Releases every lock listed on an object. */
    method ReleaseLockByName(name: string) returns (released: bool)
      modifies memory
      ensures released == (name in old(memory.nameMap))
      ensures memory.Model() == ReleaseAll(old(memory.Model()), if released then old(memory.nameMap)[name] else [])
    {
      if name !in memory.nameMap {
        return false;
      }
      var list := memory.nameMap[name];
      for i := 0 to |list|
        invariant ReleaseAll(memory.Model(), list[i..]) == ReleaseAll(old(memory.Model()), list)
      {
        assert list[i..][1..] == list[i + 1..];
        var _ := memory.ReleaseLockById(list[i].id);
      }
      return true;
    }
  }

  function ReleaseAll(t: Table, list: seq<Element>): Table
    decreases |list|
  {
    if list == [] then t else ReleaseAll(Release(t, list[0].id).0, list[1..])
  }

  // The ids a batch may be given are not in use.
  ghost predicate IdsAhead(t: Table, n: nat) {
    forall id :: t.lastId < id <= t.lastId + n ==> Fresh(t, id)
  }

  ghost predicate WriteBatch(entries: seq<ActiveRecord>) {
    forall i :: 0 <= i < |entries| ==> entries[i].op == Write && entries[i].id == 0
  }

  /** The records of the first `n` entries with the consecutive ids that they are given. */
  ghost function GrantedTo(lastId: int, entries: seq<ActiveRecord>, n: nat): map<int, ActiveRecord>
    requires n <= |entries|
  {
    if n == 0 then map[] else GrantedTo(lastId, entries, n - 1)[lastId + n := entries[n - 1].(id := lastId + n)]
  }

  // What remains of `added` after the bulk removal of `ids`.
  ghost function Left(added: map<int, ActiveRecord>, ids: seq<int>): map<int, ActiveRecord> {
    map id | id in added && (id !in ids || added[id].request != BULK_DELETE) :: added[id]
  }

  lemma LeftStep(added: map<int, ActiveRecord>, ids: seq<int>)
    ensures Left(added, []) == added
    ensures ids != [] && ids[0] in added ==>
              Left(added, ids) == Left(if added[ids[0]].request == BULK_DELETE then added - {ids[0]} else added, ids[1..])
  {
    SameMap(Left(added, []), added);
    if ids != [] && ids[0] in added {
      var fewer := if added[ids[0]].request == BULK_DELETE then added - {ids[0]} else added;
      assert ids == [ids[0]] + ids[1..];
      forall id ensures id in Left(added, ids) <==> id in Left(fewer, ids[1..]) {
      }
      SameMap(Left(added, ids), Left(fewer, ids[1..]));
    }
  }

  /** The bulk removal takes back exactly the BULK_DELETE locks among those it is given. */
  lemma {:induction false} RemoveBulkTakesBack(comp: string -> int, base: Table, added: map<int, ActiveRecord>, t: Table,
                                               ids: seq<int>)
    requires WellFormed(comp, base) && Extends(comp, base, added, t)
    requires forall i :: 0 <= i < |ids| ==> ids[i] in added
    requires forall i, j :: 0 <= i < j < |ids| ==> ids[i] != ids[j]
    ensures Extends(comp, base, Left(added, ids), RemoveBulk(t, ids)) && RemoveBulk(t, ids).lastId == t.lastId
    decreases |ids|
  {
    hide Extends, Left;
    LeftStep(added, ids);
    if ids != [] {
      ReleaseExtends(comp, base, added, t, ids[0]);
      var fewer := if added[ids[0]].request == BULK_DELETE then added - {ids[0]} else added;
      RemoveBulkTakesBack(comp, base, fewer, RemoveBulkEntry(t, ids[0]), ids[1..]);
    }
  }

  // ----- All or nothing

  ghost predicate IsRange(ids: seq<int>, first: int) {
    forall i :: 0 <= i < |ids| ==> ids[i] == first + i
  }

  lemma {:induction false} GrantedIds(lastId: int, entries: seq<ActiveRecord>, n: nat)
    requires n <= |entries|
    ensures var granted := GrantedTo(lastId, entries, n);
            (forall id :: id in granted <==> lastId < id <= lastId + n)
            && (forall i :: 0 <= i < n ==> granted[lastId + 1 + i] == entries[i].(id := lastId + 1 + i))
  {
    if n > 0 {
      GrantedIds(lastId, entries, n - 1);
    }
  }

  ghost predicate NameTaken(base: Table, entries: seq<ActiveRecord>, n: nat)
    requires n < |entries|
  {
    entries[n].name in base.names || exists i :: 0 <= i < n && entries[i].name == entries[n].name
  }

  // There is room for lock number `n` of the batch and its object is free.
  ghost predicate Takeable(base: Table, entries: seq<ActiveRecord>, n: nat)
    requires n < |entries|
  {
    !NameTaken(base, entries, n) && |base.comps| + n <= 1000000
  }

  /** How a batch ends after `taken` locks: they are all taken, or the next one is refused and the
      table keeps only those that the bulk removal does not cover. */
  ghost predicate BatchOutcome(comp: string -> int, base: Table, entries: seq<ActiveRecord>, taken: nat, t: Table,
                               result: Result)
    requires taken <= |entries|
  {
    && t.lastId == base.lastId + taken
    && (forall i :: 0 <= i < taken ==> Takeable(base, entries, i))
    && match result
       case Taken =>
         taken == |entries| && Extends(comp, base, GrantedTo(base.lastId, entries, taken), t)
       case Refused(outcome) =>
         && taken < |entries|
         && Extends(comp, base, Kept(GrantedTo(base.lastId, entries, taken)), t)
         && !Takeable(base, entries, taken)
         && outcome == if |base.comps| + taken > 1000000 then Full else Conflict
  }

  lemma {:induction false} TakeRest(comp: string -> int, base: Table, entries: seq<ActiveRecord>, n: nat, t: Table,
                                    ids: seq<int>) returns (taken: nat)
    requires WellFormed(comp, base) && Exclusive(base)
    requires WriteBatch(entries) && IdsAhead(base, |entries|) && n <= |entries|
    requires Extends(comp, base, GrantedTo(base.lastId, entries, n), t)
    requires t.lastId == base.lastId + n && |t.comps| == |base.comps| + n
    requires |ids| == n && IsRange(ids, base.lastId + 1)
    requires forall i :: 0 <= i < n ==> Takeable(base, entries, i)
    ensures n <= taken <= |entries|
    ensures var (t', result) := TakeAll(comp, t, entries[n..], ids); BatchOutcome(comp, base, entries, taken, t', result)
    decreases |entries| - n
  {
    hide Extends, WellFormed, Exclusive, Kept, Left, AcquireLock, RemoveBulk, Takeable, BatchOutcome, GrantedTo, WriteBatch;
    if n == |entries| {
      BatchEnds(comp, base, entries, n, t, Taken);
      return n;
    }
    var (t', outcome) := AcquireLock(comp, t, entries[n]);
    assert entries[n..][0] == entries[n] && entries[n..][1..] == entries[n + 1..];
    TakeOne(comp, base, entries, n, t);
    if outcome.Granted? {
      taken := TakeRest(comp, base, entries, n + 1, t', ids + [outcome.id]);
    } else {
      taken := n;
      TakeNone(comp, base, entries, n, t, ids);
      BatchEnds(comp, base, entries, n, RemoveBulk(t, ids), Refused(outcome));
    }
  }

  // The next lock of the batch is taken exactly if it can be.
  lemma TakeOne(comp: string -> int, base: Table, entries: seq<ActiveRecord>, n: nat, t: Table)
    requires WellFormed(comp, base) && Exclusive(base)
    requires WriteBatch(entries) && IdsAhead(base, |entries|) && n < |entries|
    requires Extends(comp, base, GrantedTo(base.lastId, entries, n), t)
    requires t.lastId == base.lastId + n && |t.comps| == |base.comps| + n
    ensures var (t', outcome) := AcquireLock(comp, t, entries[n]);
            && (outcome.Granted? <==> Takeable(base, entries, n))
            && (outcome.Granted? ==>
                  && outcome.id == base.lastId + n + 1 && t'.lastId == base.lastId + n + 1
                  && |t'.comps| == |base.comps| + n + 1
                  && Extends(comp, base, GrantedTo(base.lastId, entries, n + 1), t'))
            && (!outcome.Granted? ==>
                  && t' == t
                  && (|base.comps| + n > 1000000 ==> outcome == Full)
                  && (|base.comps| + n <= 1000000 ==> outcome == Conflict && NameTaken(base, entries, n)))
  {
    hide Extends, WellFormed, Exclusive, Acquire, NameTaken;
    GrantedIds(base.lastId, entries, n);
    HeldNames(comp, base, entries, n, t);
    AcquireExtends(comp, base, GrantedTo(base.lastId, entries, n), t, entries[n]);
  }

  // What the bulk removal leaves after a refusal.
  lemma TakeNone(comp: string -> int, base: Table, entries: seq<ActiveRecord>, n: nat, t: Table, ids: seq<int>)
    requires WellFormed(comp, base) && Exclusive(base) && n <= |entries|
    requires Extends(comp, base, GrantedTo(base.lastId, entries, n), t)
    requires |ids| == n && IsRange(ids, base.lastId + 1)
    ensures Extends(comp, base, Kept(GrantedTo(base.lastId, entries, n)), RemoveBulk(t, ids))
    ensures RemoveBulk(t, ids).lastId == t.lastId
  {
    hide Extends, Exclusive, Kept, Left, RemoveBulk;
    var granted := GrantedTo(base.lastId, entries, n);
    GrantedIds(base.lastId, entries, n);
    RemoveBulkTakesBack(comp, base, granted, t, ids);
    LeftOfGranted(base.lastId, entries, n, ids);
  }

  lemma BatchEnds(comp: string -> int, base: Table, entries: seq<ActiveRecord>, n: nat, t: Table, result: Result)
    requires n <= |entries| && t.lastId == base.lastId + n
    requires forall i :: 0 <= i < n ==> Takeable(base, entries, i)
    requires result == Taken ==> n == |entries| && Extends(comp, base, GrantedTo(base.lastId, entries, n), t)
    requires result != Taken ==> n < |entries| && Extends(comp, base, Kept(GrantedTo(base.lastId, entries, n)), t)
    requires result != Taken && |base.comps| + n > 1000000 ==> result == Refused(Full)
    requires result != Taken && |base.comps| + n <= 1000000 ==> result == Refused(Conflict) && NameTaken(base, entries, n)
    ensures BatchOutcome(comp, base, entries, n, t, result)
  {
  }

  // The locks that the bulk removal leaves in place.
  ghost function Kept(added: map<int, ActiveRecord>): map<int, ActiveRecord> {
    map id | id in added && added[id].request != BULK_DELETE :: added[id]
  }

  lemma LeftOfGranted(lastId: int, entries: seq<ActiveRecord>, n: nat, ids: seq<int>)
    requires n <= |entries| && |ids| == n && IsRange(ids, lastId + 1)
    ensures Left(GrantedTo(lastId, entries, n), ids) == Kept(GrantedTo(lastId, entries, n))
  {
    var granted := GrantedTo(lastId, entries, n);
    GrantedIds(lastId, entries, n);
    forall id | id in granted ensures id in ids {
      assert ids[id - lastId - 1] == id;
    }
    forall id ensures id in Left(granted, ids) <==> id in Kept(granted) {
    }
    SameMap(Left(granted, ids), Kept(granted));
  }

  lemma HeldNames(comp: string -> int, base: Table, entries: seq<ActiveRecord>, n: nat, t: Table)
    requires n < |entries| && Extends(comp, base, GrantedTo(base.lastId, entries, n), t)
    ensures entries[n].name in t.names <==> NameTaken(base, entries, n)
  {
    hide GrantedTo, Apart, CompsExtended, MemExtended;
    var granted, name := GrantedTo(base.lastId, entries, n), entries[n].name;
    GrantedIds(base.lastId, entries, n);
    if Holds(granted, name) {
      var id :| id in granted && granted[id].name == name;
      assert entries[id - base.lastId - 1].name == name;
    }
    if i :| 0 <= i < n && entries[i].name == name {
      assert granted[base.lastId + 1 + i].name == name;
    }
  }

  predicate HasRoom(base: Table, entries: seq<ActiveRecord>) {
    |base.mem| + |entries| <= 1000000
  }

  // The first lock of the batch from number `n` on that cannot be taken.
  ghost function FirstRefused(base: Table, entries: seq<ActiveRecord>, n: nat): (k: nat)
    requires n <= |entries|
    ensures n <= k <= |entries| && (forall i :: n <= i < k ==> Takeable(base, entries, i))
    ensures k < |entries| ==> !Takeable(base, entries, k)
    decreases |entries| - n
  {
    if n == |entries| || !Takeable(base, entries, n) then n else FirstRefused(base, entries, n + 1)
  }

  /** How many locks a batch takes, from the table before the call. */
  ghost function TakenOf(base: Table, entries: seq<ActiveRecord>): nat {
    if HasRoom(base, entries) then FirstRefused(base, entries, 0) else 0
  }

  /** A batch is taken exactly when there is room and its objects are free and distinct; a refused batch is
      told which of the two failed, and leaves the three maps as they were exactly when all the locks before
      the first that cannot be taken are BULK_DELETE locks. */
  lemma BulkAllOrNothing(comp: string -> int, base: Table, entries: seq<ActiveRecord>)
    requires WellFormed(comp, base) && Exclusive(base)
    requires WriteBatch(entries) && IdsAhead(base, |entries|)
    ensures var (t, result) := AddBulk(comp, base, entries);
            var n := TakenOf(base, entries);
            && t.lastId == base.lastId + n
            && (result == Taken <==> HasRoom(base, entries) && forall i :: 0 <= i < |entries| ==> Takeable(base, entries, i))
            && (result == Taken ==> Extends(comp, base, GrantedTo(base.lastId, entries, |entries|), t))
            && (result != Taken ==>
                  && result == Refused(if !HasRoom(base, entries) || |base.comps| + n > 1000000 then Full else Conflict)
                  && (t == base.(lastId := t.lastId) <==> forall i :: 0 <= i < n ==> entries[i].request == BULK_DELETE))
  {
    hide Extends, TakeAll, Takeable, Kept, GrantedTo;
    if HasRoom(base, entries) {
      var (t, result) := AddBulk(comp, base, entries);
      ExtendsItself(comp, base, base.lastId);
      NoneGranted(base.lastId, entries);
      assert entries[0..] == entries && base == base.(lastId := base.lastId);
      var taken := TakeRest(comp, base, entries, 0, base, []);
      var n := TakenOf(base, entries);
      FirstRefusedIs(base, entries, taken);
      if result != Taken {
        RestoredIf(comp, base, entries, n, t);
        NotRestoredIf(comp, base, entries, n, t);
      }
    }
  }

  lemma FirstRefusedIs(base: Table, entries: seq<ActiveRecord>, k: nat)
    requires k <= |entries| && forall i :: 0 <= i < k ==> Takeable(base, entries, i)
    requires k < |entries| ==> !Takeable(base, entries, k)
    ensures FirstRefused(base, entries, 0) == k
  {
    hide Takeable;
  }

  lemma NoneGranted(lastId: int, entries: seq<ActiveRecord>)
    ensures GrantedTo(lastId, entries, 0) == map[]
  {
  }

  lemma RestoredIf(comp: string -> int, base: Table, entries: seq<ActiveRecord>, n: nat, t: Table)
    requires NothingEmpty(base) && n <= |entries|
    requires Extends(comp, base, Kept(GrantedTo(base.lastId, entries, n)), t)
    ensures (forall i :: 0 <= i < n ==> entries[i].request == BULK_DELETE) ==> t == base.(lastId := t.lastId)
  {
    hide Extends, NothingEmpty;
    var granted := GrantedTo(base.lastId, entries, n);
    GrantedIds(base.lastId, entries, n);
    if forall i :: 0 <= i < n ==> entries[i].request == BULK_DELETE {
      forall id | id in granted ensures granted[id].request == BULK_DELETE {
        assert granted[id] == entries[id - base.lastId - 1].(id := id);
      }
      NothingKept(granted);
      ExtendsItself(comp, base, t.lastId);
      ExtensionUnique(comp, base, map[], t, base.(lastId := t.lastId));
    }
  }

  lemma NothingKept(granted: map<int, ActiveRecord>)
    requires forall id :: id in granted ==> granted[id].request == BULK_DELETE
    ensures Kept(granted) == map[]
  {
    assert forall id :: id !in Kept(granted);
  }

  lemma NotRestoredIf(comp: string -> int, base: Table, entries: seq<ActiveRecord>, n: nat, t: Table)
    requires n <= |entries|
    requires Extends(comp, base, Kept(GrantedTo(base.lastId, entries, n)), t)
    ensures t == base.(lastId := t.lastId) ==> forall i :: 0 <= i < n ==> entries[i].request == BULK_DELETE
  {
    hide NamesExtended, MemExtended, GrantedTo;
    var granted := GrantedTo(base.lastId, entries, n);
    GrantedIds(base.lastId, entries, n);
    forall i | 0 <= i < n && entries[i].request != BULK_DELETE ensures t.comps != base.comps {
      var id := base.lastId + 1 + i;
      assert granted[id].request == entries[i].request;
      assert id in Kept(granted);
    }
  }
}
