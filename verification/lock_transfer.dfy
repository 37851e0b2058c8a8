/** What the transfer of components does to the lock table, said of records, owners and listings alone. */
module LockTransfer {
  import opened OrderedKeys
  import opened LockTable
  import opened LockInvariant

  // The same records in the same components.
  ghost predicate SameRecords(t: Table, t': Table) {
    t'.mem.Keys == t.mem.Keys && forall c :: c in t.mem ==> t'.mem[c].records == t.mem[c].records
  }

  // A component that satisfies the condition holds a lock under the id.
  ghost predicate HoldsId(t: Table, cs: set<int>, id: int) {
    exists c :: c in cs && In(t, c, id)
  }

  ghost predicate HoldsName(t: Table, cs: set<int>, name: string) {
    exists c, id :: c in cs && In(t, c, id) && Rec(t, c, id).name == name
  }

  // ----- Commit

  lemma {:induction false} CommitRecordsIs(t: Table, c: int, ids: seq<int>)
    requires c in t.mem && forall id :: id in ids ==> id in t.mem[c].records && t.mem[c].records[id].id == id
    ensures var t' := CommitRecords(t, c, ids);
            && t'.lastId == t.lastId && forall id :: id in t'.comps <==> id in t.comps || id in ids
    decreases |ids|
  {
    if ids != [] {
      var n := |ids| - 1;
      CommitRecordsIs(t, c, ids[..n]);
      assert ids == ids[..n] + [ids[n]];
    }
  }

  lemma KeptUnderId(comp: string -> int, t: Table, c: int)
    requires WellFormed(comp, t) && c in t.mem
    ensures forall id :: id in t.mem[c].records ==> t.mem[c].records[id].id == id && (t.mem[c].owned ==> id in t.comps)
  {
    forall id | id in t.mem[c].records ensures t.mem[c].records[id].id == id && (t.mem[c].owned ==> id in t.comps) {
      assert In(t, c, id) && Rec(t, c, id).id == id;
    }
  }

  lemma CommitUnowned(t: Table, c: int)
    requires c in t.mem && !t.mem[c].owned && forall id :: id in t.mem[c].records ==> t.mem[c].records[id].id == id
    ensures var t' := CommitComponent(t, c);
            && t'.mem == t.mem[c := t.mem[c].(owned := true)] && t'.lastId == t.lastId
            && forall id :: id in t'.comps <==> id in t.comps || id in t.mem[c].records
  {
    CommitRecordsIs(t.(mem := t.mem[c := t.mem[c].(owned := true)]), c, Ascending(t.mem[c].records.Keys));
  }

  lemma CommitComponentIs(comp: string -> int, t: Table, c: int)
    requires WellFormed(comp, t)
    ensures var t' := CommitComponent(t, c);
            && SameRecords(t, t') && t'.lastId == t.lastId
            && (forall d :: d in t.mem ==> t'.mem[d].owned == (t.mem[d].owned || d == c))
            && (forall id :: id in t'.comps <==> id in t.comps || In(t, c, id))
  {
    hide WellFormed;
    if c in t.mem {
      KeptUnderId(comp, t, c);
      if !t.mem[c].owned {
        CommitUnowned(t, c);
        hide CommitComponent;
      }
    }
  }

  lemma {:induction false} CommitComponentsIs(comp: string -> int, t: Table, cs: seq<int>, chosen: seq<int>)
    requires WellFormed(comp, t)
    ensures var t' := CommitComponents(t, cs, chosen);
            && WellFormed(comp, t') && SameRecords(t, t') && t'.lastId == t.lastId
            && (forall d :: d in t.mem ==> t'.mem[d].owned == (t.mem[d].owned || (d in cs && d in chosen)))
            && (forall id :: id in t'.comps <==> id in t.comps || exists c :: c in cs && c in chosen && In(t, c, id))
    decreases |cs|
  {
    hide WellFormed, CommitComponent;
    if cs != [] {
      var n := |cs| - 1;
      var before, c := CommitComponents(t, cs[..n], chosen), cs[n];
      CommitComponentsIs(comp, t, cs[..n], chosen);
      CommitComponentIs(comp, before, c);
      CommitComponentKeeps(comp, before, c);
      assert cs == cs[..n] + [c];
      assert forall d, id :: In(before, d, id) == In(t, d, id);
    }
  }

  /** A commit makes exactly the chosen components owned, keeps every record, and lists, besides what is listed
      already, every lock of a chosen component. */
  lemma CommitIs(comp: string -> int, t: Table, chosen: seq<int>)
    requires WellFormed(comp, t)
    ensures var t' := Commit(t, chosen);
            && SameRecords(t, t') && t'.lastId == t.lastId
            && (forall c :: c in t.mem ==> t'.mem[c].owned == (t.mem[c].owned || c in chosen))
            && (forall id :: id in t'.comps <==> id in t.comps || exists c :: c in chosen && In(t, c, id))
  {
    hide WellFormed, CommitComponents;
    var cs := Ascending(t.mem.Keys);
    CommitComponentsIs(comp, t, cs, chosen);
    forall c, id | c in chosen && In(t, c, id) ensures c in cs {
    }
  }

  // ----- Giving up components

  /** Giving up components keeps every record; a component stays owned iff it was and is named, the ids and the
      names of the locks of all others are listed no more, and every other list stays as it is. */
  lemma MarkUnknownIs(t: Table, kept: seq<int>)
    ensures var t', lost := MarkUnknown(t, kept), set c | c in t.mem && c !in kept;
            && SameRecords(t, t') && t'.lastId == t.lastId
            && (forall c :: c in t.mem ==> t'.mem[c].owned == (t.mem[c].owned && c in kept))
            && (forall id :: id in t'.comps <==> id in t.comps && !HoldsId(t, lost, id))
            && (forall id :: id in t'.comps ==> t'.comps[id] == t.comps[id])
            && (forall name :: name in t'.names <==> name in t.names && !HoldsName(t, lost, name))
            && (forall name :: name in t'.names ==> t'.names[name] == t.names[name])
  {
    var lost := set c | c in t.mem && c !in kept;
    IdsAndNames(t, lost);
  }

  lemma IdsAndNames(t: Table, cs: set<int>)
    ensures forall id :: id in IdsIn(t, cs) <==> HoldsId(t, cs, id)
    ensures forall name :: name in NamesIn(t, cs) <==> HoldsName(t, cs, name)
  {
    forall id ensures id in IdsIn(t, cs) <==> HoldsId(t, cs, id) {
      if HoldsId(t, cs, id) {
        var c :| c in cs && In(t, c, id);
      }
    }
    forall name ensures name in NamesIn(t, cs) <==> HoldsName(t, cs, name) {
      if HoldsName(t, cs, name) {
        var c, id :| c in cs && In(t, c, id) && Rec(t, c, id).name == name;
      }
      if name in NamesIn(t, cs) {
        var c, id :| c in cs && c in t.mem && id in t.mem[c].records && t.mem[c].records[id].name == name;
        assert In(t, c, id);
      }
    }
  }

  /** Handing components over takes them out with all their records, ids and lists, and leaves the rest. */
  lemma ExtractIs(t: Table, cs: set<int>)
    ensures var t' := Extract(t, cs);
            && t'.lastId == t.lastId && (forall c :: c in t'.mem <==> c in t.mem && c !in cs)
            && (forall c :: c in t'.mem ==> t'.mem[c] == t.mem[c])
            && (forall id :: id in t'.comps <==> id in t.comps && !HoldsId(t, cs, id))
            && (forall id :: id in t'.comps ==> t'.comps[id] == t.comps[id])
            && (forall name :: name in t'.names <==> name in t.names && !HoldsName(t, cs, name))
            && (forall name :: name in t'.names ==> t'.names[name] == t.names[name])
  {
    IdsAndNames(t, cs);
  }

  // ----- Receiving records

  // One of the records goes to this component under this id.
  ghost predicate Brings(comp: string -> int, rs: seq<ActiveRecord>, c: int, id: int, r: ActiveRecord) {
    r in rs && comp(r.name) == c && r.id == id
  }

  ghost predicate Keeps(t: Table, c: int, id: int, r: ActiveRecord) {
    In(t, c, id) && Rec(t, c, id) == r
  }

  // What has come of the records: they are kept, and listed iff the sender owned them.
  ghost predicate Received(comp: string -> int, t: Table, rs: seq<ActiveRecord>, owned: bool, t': Table) {
    && t'.lastId == t.lastId
    && (forall c, id, r :: Keeps(t', c, id, r) <==> Keeps(t, c, id, r) || Brings(comp, rs, c, id, r))
    && (forall c :: c in t'.mem <==> c in t.mem || exists r :: r in rs && comp(r.name) == c)
    && (forall c :: c in t'.mem ==> t'.mem[c].owned == if c in t.mem then t.mem[c].owned else owned)
    && (forall id :: id in t'.comps <==> id in t.comps || (owned && exists r :: r in rs && r.id == id))
  }

  lemma ReceivedOne(comp: string -> int, t: Table, r: ActiveRecord, owned: bool)
    requires Fresh(t, r.id)
    ensures Received(comp, t, [r], owned, AddRecord(comp, t, r, owned))
  {
    assert !In(t, comp(r.name), r.id);
    var t' := AddRecord(comp, t, r, owned);
    forall c, id, s ensures Keeps(t', c, id, s) <==> Keeps(t, c, id, s) || Brings(comp, [r], c, id, s) {
    }
    assert r in [r];
  }

  lemma ReceivedThen(comp: string -> int, t: Table, r: ActiveRecord, rest: seq<ActiveRecord>, owned: bool, t1: Table, t2: Table)
    requires Received(comp, t, [r], owned, t1) && Received(comp, t1, rest, owned, t2)
    ensures Received(comp, t, [r] + rest, owned, t2)
  {
    hide Keeps;
    var rs := [r] + rest;
    assert r in [r];
    forall s ensures s in rs <==> s == r || s in rest {
    }
    forall c, id, s ensures Brings(comp, rs, c, id, s) <==> Brings(comp, [r], c, id, s) || Brings(comp, rest, c, id, s) {
    }
  }

  /** Received records with fresh, distinct ids enter the components of their objects, and nothing else does; a
      component that is there keeps its owner, a new one gets the sender's; and the ids are listed iff the
      sender owned them. */
  lemma {:induction false} ReceiveIs(comp: string -> int, t: Table, rs: seq<ActiveRecord>, owned: bool)
    requires Addable(comp, t, rs, owned)
    ensures Received(comp, t, rs, owned, AddRecords(comp, t, rs, owned))
    decreases |rs|
  {
    hide AddRecord, Received;
    if rs == [] {
      NothingReceived(comp, t, owned);
    } else {
      var t1 := AddRecord(comp, t, rs[0], owned);
      ReceivedOne(comp, t, rs[0], owned);
      StillAddable(comp, t, rs, owned);
      ReceiveIs(comp, t1, rs[1..], owned);
      ReceivedThen(comp, t, rs[0], rs[1..], owned, t1, AddRecords(comp, t1, rs[1..], owned));
      assert rs == [rs[0]] + rs[1..];
    }
  }

  lemma NothingReceived(comp: string -> int, t: Table, owned: bool)
    ensures Received(comp, t, [], owned, t)
  {
  }
}
