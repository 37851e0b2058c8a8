/** The transaction lock table: three redundant maps over the same locks.

    `names` lists the locks held on each object, `comps` sends the id of a lock to its component, and
    `mem` keeps the active records of each component by id.  The component of an object is computed
    from its name; `comp` stands for that computation. */
module LockTable {
  import opened OrderedKeys

  datatype Op = Write | Read | ReadWrite

  const BULK_DELETE := "BULK_DELETE"

  datatype ActiveRecord = ActiveRecord(name: string, op: Op, request: string, objectId: string, id: int)

  datatype Element = Element(id: int, op: Op)

  // `owned` is false for records recovered from another node that are not yet committed.
  datatype Component = Component(records: map<int, ActiveRecord>, owned: bool)

  datatype Table = Table(names: map<string, seq<Element>>, comps: map<int, int>, mem: map<int, Component>, lastId: int)

  datatype Outcome = Granted(id: int) | Conflict | Full

  const EMPTY: Table := Table(map[], map[], map[], 0)

  // ----- The operations

  /** Whether the code rejects `incoming` on an object whose first lock is `held`. */
  predicate Conflicts(held: Op, incoming: Op) {
    || (held == Read && incoming == Write)
    || (held == Write && incoming == Write)
    || (held == Write && incoming == Read)
  }

  function SetLastId(t: Table, id: int): Table {
    if t.lastId < id then t.(lastId := id) else t
  }

  function ListLock(names: map<string, seq<Element>>, name: string, e: Element): map<string, seq<Element>> {
    names[name := (if name in names then names[name] else []) + [e]]
  }

  predicate Blocked(t: Table, r: ActiveRecord) {
    r.name in t.names && t.names[r.name] != [] && Conflicts(t.names[r.name][0].op, r.op)
  }

  function Insert<K, V>(m: map<K, V>, k: K, v: V): map<K, V> {
    if k in m then m else m[k := v]
  }

  function Acquire(comp: string -> int, t: Table, r: ActiveRecord): (Table, Outcome) {
    if Blocked(t, r) then (t, Conflict) else
      var id := if r.id != 0 then r.id else t.lastId + 1;
      var lastId := if r.id != 0 && t.lastId >= r.id then t.lastId else id;
      var names := ListLock(t.names, r.name, Element(id, r.op));
      var c := comp(r.name);
      if c in t.mem && id in t.mem[c].records then (Table(names, t.comps, t.mem, lastId), Conflict)
      else
        var held := if c in t.mem then t.mem[c] else Component(map[], true);
        var mem := t.mem[c := held.(records := held.records[id := r.(id := id)])];
        (Table(names, Insert(t.comps, id, c), mem, lastId), Granted(id))
  }

  predicate IsFull(t: Table) {
    |t.comps| > 1000000
  }

  function AcquireLock(comp: string -> int, t: Table, r: ActiveRecord): (Table, Outcome) {
    if IsFull(t) then (t, Full) else Acquire(comp, t, r)
  }

  function EraseElement(list: seq<Element>, id: int): seq<Element> {
    if list == [] then [] else if list[0].id == id then list[1..] else [list[0]] + EraseElement(list[1..], id)
  }

  function Unlist(names: map<string, seq<Element>>, name: string, id: int): map<string, seq<Element>> {
    if name !in names then names else
      var rest := EraseElement(names[name], id);
      if rest == [] && names[name] != [] then names - {name} else names[name := rest]
  }

  function EraseRecord(mem: map<int, Component>, c: int, id: int): map<int, Component>
    requires c in mem
  {
    var records := mem[c].records - {id};
    if records == map[] then mem - {c} else mem[c := mem[c].(records := records)]
  }

  predicate Located(t: Table, id: int) {
    id in t.comps && t.comps[id] in t.mem && id in t.mem[t.comps[id]].records
  }

  function RecordOf(t: Table, id: int): ActiveRecord
    requires Located(t, id)
  {
    t.mem[t.comps[id]].records[id]
  }

  function Release(t: Table, id: int): (Table, bool) {
    if !Located(t, id) then (t, false) else
      (Table(Unlist(t.names, RecordOf(t, id).name, id), t.comps - {id}, EraseRecord(t.mem, t.comps[id], id), t.lastId),
       true)
  }

  function RemoveBulkEntry(t: Table, id: int): Table {
    if Located(t, id) && RecordOf(t, id).request == BULK_DELETE then
      Table(t.names - {RecordOf(t, id).name}, t.comps - {id}, EraseRecord(t.mem, t.comps[id], id), t.lastId)
    else t
  }

  function RemoveBulk(t: Table, ids: seq<int>): Table
    decreases |ids|
  {
    if ids == [] then t else RemoveBulk(RemoveBulkEntry(t, ids[0]), ids[1..])
  }

  function NamesIn(t: Table, cs: set<int>): set<string> {
    set c, id | c in cs && c in t.mem && id in t.mem[c].records :: t.mem[c].records[id].name
  }

  function IdsIn(t: Table, cs: set<int>): set<int> {
    set c, id | c in cs && c in t.mem && id in t.mem[c].records :: id
  }

  /** The components in `lost` stop being owned and their locks are no longer listed. */
  function Disown(t: Table, lost: set<int>): Table {
    Table(t.names - NamesIn(t, lost), t.comps - IdsIn(t, lost),
          map c | c in t.mem :: if c in lost then t.mem[c].(owned := false) else t.mem[c], t.lastId)
  }

  function MarkUnknown(t: Table, kept: seq<int>): Table {
    Disown(t, set c | c in t.mem && c !in kept)
  }

  /** The components in `cs` leave the table with all their locks. */
  function Extract(t: Table, cs: set<int>): Table {
    Table(t.names - NamesIn(t, cs), t.comps - IdsIn(t, cs), t.mem - cs, t.lastId)
  }

  /** Records recovered from another node enter the table; they are listed when `owned`. */
  function AddRecord(comp: string -> int, t: Table, r: ActiveRecord, owned: bool): Table {
    var c := comp(r.name);
    var held := if c in t.mem then t.mem[c] else Component(map[], owned);
    var mem := t.mem[c := held.(records := Insert(held.records, r.id, r))];
    if owned then Table(ListLock(t.names, r.name, Element(r.id, r.op)), Insert(t.comps, r.id, c), mem, t.lastId)
    else t.(mem := mem)
  }

  function AddRecords(comp: string -> int, t: Table, rs: seq<ActiveRecord>, owned: bool): Table
    decreases |rs|
  {
    if rs == [] then t else AddRecords(comp, AddRecord(comp, t, rs[0], owned), rs[1..], owned)
  }

  predicate HasId(list: seq<Element>, id: int) {
    exists e :: e in list && e.id == id
  }

  /** Lists one record of component `c`, unless its object already lists its id. */
  function CommitRecord(t: Table, c: int, id: int): Table
    requires c in t.mem && id in t.mem[c].records
  {
    var r := t.mem[c].records[id];
    var names :=
      if r.name in t.names && (t.names[r.name] == [] || HasId(t.names[r.name], r.id)) then t.names
      else ListLock(t.names, r.name, Element(r.id, r.op));
    t.(names := names, comps := Insert(t.comps, r.id, c))
  }

  function CommitRecords(t: Table, c: int, ids: seq<int>): (t': Table)
    requires c in t.mem && forall id :: id in ids ==> id in t.mem[c].records
    ensures t'.mem == t.mem
    decreases |ids|
  {
    if ids == [] then t else
      var before := CommitRecords(t, c, ids[..|ids| - 1]);
      CommitRecord(before, c, ids[|ids| - 1])
  }

  function CommitComponent(t: Table, c: int): Table {
    if c !in t.mem || t.mem[c].owned then t else
      CommitRecords(t.(mem := t.mem[c := t.mem[c].(owned := true)]), c, Ascending(t.mem[c].records.Keys))
  }

  /** Commits the components of `cs` that are listed in `chosen`. */
  function CommitComponents(t: Table, cs: seq<int>, chosen: seq<int>): Table
    decreases |cs|
  {
    if cs == [] then t else
      var before := CommitComponents(t, cs[..|cs| - 1], chosen);
      var c := cs[|cs| - 1];
      if c in chosen then CommitComponent(before, c) else before
  }

  function Commit(t: Table, chosen: seq<int>): Table {
    CommitComponents(t, Ascending(t.mem.Keys), chosen)
  }

  function ActiveIds(t: Table): set<int> {
    if |t.comps| <= 1 then {} else t.comps.Keys
  }
}
