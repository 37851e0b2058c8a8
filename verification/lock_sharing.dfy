/** Which locks are granted, said of requests and lists alone: readers share an object, writers do not. */
module LockSharing {
  import opened OrderedKeys
  import opened LockTable
  import opened LockInvariant

  // The operation of the lock that was taken first on an object.
  datatype First = Free | Held(op: Op)

  function FirstOn(t: Table, name: string): First {
    if name in t.names && t.names[name] != [] then Held(t.names[name][0].op) else Free
  }

  /** With room in the table and a fresh id, a READ is granted unless the first lock is a WRITE, a WRITE iff
      there is no lock or the first one is a READ_WRITE, and a READ_WRITE always; otherwise the answer is a
      conflict and the table stays as it was. */
  lemma GrantedIff(comp: string -> int, t: Table, r: ActiveRecord)
    requires Fresh(t, IdFor(t, r)) && !IsFull(t)
    ensures var (t', answer) := AcquireLock(comp, t, r);
            && (answer.Granted? <==>
                  match r.op
                  case Read => FirstOn(t, r.name) != Held(Write)
                  case Write => FirstOn(t, r.name) == Free || FirstOn(t, r.name) == Held(ReadWrite)
                  case ReadWrite => true)
            && (!answer.Granted? ==> answer == Conflict && t' == t)
  {
    assert !In(t, comp(r.name), IdFor(t, r));
  }

  lemma FullIff(comp: string -> int, t: Table, r: ActiveRecord)
    ensures AcquireLock(comp, t, r).1 == Full <==> |t.comps| > 1000000
    ensures AcquireLock(comp, t, r).1 == Full ==> AcquireLock(comp, t, r).0 == t
  {
  }

  function ListOn(t: Table, name: string): seq<Element> {
    if name in t.names then t.names[name] else []
  }

  // The record of a lock, if there is one under this id and component.
  ghost predicate Keeps(t: Table, c: int, id: int, r: ActiveRecord) {
    In(t, c, id) && Rec(t, c, id) == r
  }

  /** What a granted lock changes: it comes last in the list of its object, its id leads to its component,
      the component keeps the record under the id, and the counter is at least the id; nothing else changes. */
  lemma GrantedChanges(comp: string -> int, t: Table, r: ActiveRecord)
    requires Fresh(t, IdFor(t, r)) && AcquireLock(comp, t, r).1.Granted?
    ensures var (t', answer) := AcquireLock(comp, t, r);
            var id, c := if r.id != 0 then r.id else t.lastId + 1, comp(r.name);
            && answer == Granted(id)
            && (forall name :: ListOn(t', name) == ListOn(t, name) + (if name == r.name then [Element(id, r.op)] else []))
            && (forall k :: k in t'.comps <==> k in t.comps || k == id)
            && (forall k :: k in t.comps ==> t'.comps[k] == t.comps[k]) && (id !in t.comps ==> t'.comps[id] == c)
            && (forall d, k, s :: Keeps(t', d, k, s) <==> Keeps(t, d, k, s) || (d == c && k == id && s == r.(id := id)))
            && (forall d :: d in t'.mem <==> d in t.mem || d == c)
            && (forall d :: d in t.mem ==> t'.mem[d].owned == t.mem[d].owned) && (c !in t.mem ==> t'.mem[c].owned)
            && t'.lastId == if t.lastId < id then id else t.lastId
  {
    hide Blocked;
    assert !In(t, comp(r.name), IdFor(t, r));
  }

  // ----- Readers of one object

  predicate ReadOf(q: Request, name: string) {
    q.Lock? && q.record.name == name && q.record.op == Read && q.record.id == 0
  }

  // How many of `n` readers find room.
  function Admitted(n: nat): nat {
    if n <= 1000001 then n else 1000001
  }

  /** Ids 1 to `k` are READ locks on the object, in this order, and there is no other lock. */
  ghost predicate SharedBy(t: Table, name: string, k: nat) {
    && ListOn(t, name) == seq(k, i => Element(i + 1, Read))
    && t.lastId == k && (forall id :: id in t.comps <==> 1 <= id <= k) && (forall c, id :: In(t, c, id) ==> 1 <= id <= k)
  }

  lemma {:induction false} CountUpTo(s: set<int>, k: nat)
    requires forall x :: x in s <==> 1 <= x <= k
    ensures |s| == k
    decreases k
  {
    if k > 0 {
      CountUpTo(s - {k}, k - 1);
    } else {
      HasElement(s);
    }
  }

  lemma OneMoreReader(comp: string -> int, t: Table, name: string, k: nat, r: ActiveRecord)
    requires SharedBy(t, name, k) && r.name == name && r.op == Read && r.id == 0
    ensures k <= 1000000 ==>
              AcquireLock(comp, t, r).1 == Granted(k + 1) && SharedBy(AcquireLock(comp, t, r).0, name, k + 1)
    ensures k > 1000000 ==> AcquireLock(comp, t, r) == (t, Full)
  {
    CountUpTo(t.comps.Keys, k);
    FullIff(comp, t, r);
    if k <= 1000000 {
      FirstIsRead(t, name, k);
      GrantedIff(comp, t, r);
      var t' := AcquireLock(comp, t, r).0;
      ReaderIsLast(comp, t, name, k, r);
    }
  }

  lemma FirstIsRead(t: Table, name: string, k: nat)
    requires SharedBy(t, name, k)
    ensures FirstOn(t, name) == if k == 0 then Free else Held(Read)
    ensures Fresh(t, k + 1)
  {
    if k > 0 {
      assert ListOn(t, name)[0] == Element(1, Read);
    }
  }

  lemma ReaderIsLast(comp: string -> int, t: Table, name: string, k: nat, r: ActiveRecord)
    requires SharedBy(t, name, k) && r.name == name && r.op == Read && r.id == 0 && AcquireLock(comp, t, r).1.Granted?
    ensures AcquireLock(comp, t, r).1 == Granted(k + 1) && SharedBy(AcquireLock(comp, t, r).0, name, k + 1)
  {
    hide AcquireLock;
    FirstIsRead(t, name, k);
    GrantedChanges(comp, t, r);
    var t' := AcquireLock(comp, t, r).0;
    assert ListOn(t', name) == seq(k, i => Element(i + 1, Read)) + [Element(k + 1, Read)];
    assert ListOn(t', name) == seq(k + 1, i => Element(i + 1, Read));
    forall c, id | In(t', c, id) ensures 1 <= id <= k + 1 {
      assert Keeps(t', c, id, Rec(t', c, id));
    }
  }

  /** However many readers ask for one object, all of them are granted up to the limit of the table, and all
      are listed; the others are told that it is full. */
  lemma {:induction false} ReadersShare(comp: string -> int, qs: seq<Request>, name: string)
    requires forall i :: 0 <= i < |qs| ==> ReadOf(qs[i], name)
    ensures ListOn(Run(comp, EMPTY, qs), name) == seq(Admitted(|qs|), i => Element(i + 1, Read))
    ensures forall i :: 0 <= i < |qs| ==>
              && qs[i].Lock?
              && AcquireLock(comp, Run(comp, EMPTY, qs[..i]), qs[i].record).1 == if i <= 1000000 then Granted(i + 1) else Full
    ensures SharedBy(Run(comp, EMPTY, qs), name, Admitted(|qs|))
    decreases |qs|
  {
    hide AcquireLock, SharedBy;
    if qs == [] {
      NoReaders(name);
    } else {
      var n := |qs| - 1;
      ReadersShare(comp, qs[..n], name);
      LastReader(comp, qs, name);
      forall i | 0 <= i < n ensures qs[..n][..i] == qs[..i] && qs[..n][i] == qs[i] {
      }
    }
    ListShared(Run(comp, EMPTY, qs), name, Admitted(|qs|));
  }

  lemma LastReader(comp: string -> int, qs: seq<Request>, name: string)
    requires qs != [] && forall i :: 0 <= i < |qs| ==> ReadOf(qs[i], name)
    requires SharedBy(Run(comp, EMPTY, qs[..|qs| - 1]), name, Admitted(|qs| - 1))
    ensures var n := |qs| - 1;
            && qs[n].Lock?
            && AcquireLock(comp, Run(comp, EMPTY, qs[..n]), qs[n].record).1 == if n <= 1000000 then Granted(n + 1) else Full
    ensures SharedBy(Run(comp, EMPTY, qs), name, Admitted(|qs|))
  {
    hide AcquireLock, SharedBy;
    var n := |qs| - 1;
    assert ReadOf(qs[n], name);
    OneMoreReader(comp, Run(comp, EMPTY, qs[..n]), name, Admitted(n), qs[n].record);
  }

  lemma NoReaders(name: string)
    ensures SharedBy(EMPTY, name, 0)
  {
  }

  lemma ListShared(t: Table, name: string, k: nat)
    requires SharedBy(t, name, k)
    ensures ListOn(t, name) == seq(k, i => Element(i + 1, Read))
  {
  }
}
