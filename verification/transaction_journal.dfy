/** The transaction journal: what the writer puts into the newest file, and what recovery makes of it.
    Locks are taken and released in memory first and reach the journal in the same order, possibly
    later.  The writer may put a checkpoint before any record, or start a new file with a snapshot of the
    memory of that moment; recovery reads the newest file only. */
module TransactionJournal {
  import opened LockTable
  import opened OrderedKeys
  import opened LockInvariant
  import opened BulkTransaction
  import opened TransactionHistory
  import TransactionMemory

  datatype Entry = SnapshotHeader(lastId: int) | Record(event: Event) | Checkpoint(lastId: int, ids: set<int>)

  datatype Kind = Plain | AtCheckpoint | Rotated

  // ----- The writer

  // All records of the table, component by component, in ascending order of ids.
  function RecordsOf(mem: map<int, Component>, cs: seq<int>): seq<ActiveRecord> {
    if cs == [] then [] else
      RecordsOf(mem, cs[..|cs| - 1])
      + (if cs[|cs| - 1] in mem then TransactionMemory.RecordList(mem[cs[|cs| - 1]].records) else [])
  }

  function SnapshotRecords(t: Table): seq<ActiveRecord> {
    RecordsOf(t.mem, Ascending(t.mem.Keys))
  }

  function Opens(rs: seq<ActiveRecord>): seq<Entry> {
    seq(|rs|, i requires 0 <= i < |rs| => Record(Open(rs[i])))
  }

  lemma OpensAppend(a: seq<ActiveRecord>, b: seq<ActiveRecord>)
    ensures Opens(a + b) == Opens(a) + Opens(b)
  {
  }

  lemma NoRecords(mem: map<int, Component>)
    ensures RecordsOf(mem, []) == [] && Opens([]) == []
  {
  }

  lemma RecordsStep(mem: map<int, Component>, cs: seq<int>, i: nat)
    requires i < |cs| && cs[i] in mem
    ensures RecordsOf(mem, cs[..i + 1]) == RecordsOf(mem, cs[..i]) + TransactionMemory.RecordList(mem[cs[i]].records)
  {
    assert cs[..i + 1][..i] == cs[..i];
  }

  function Snapshot(t: Table, lastWritten: int): seq<Entry> {
    [SnapshotHeader(lastWritten)] + Opens(SnapshotRecords(t))
  }

  /** The file after one more record, where `t` is the memory of that moment. */
  function Appended(file: seq<Entry>, t: Table, lastWritten: int, e: Event, kind: Kind): seq<Entry> {
    match kind
    case Plain => file + [Record(e)]
    case AtCheckpoint => file + [Checkpoint(lastWritten, ActiveIds(t)), Record(e)]
    case Rotated => Snapshot(t, lastWritten) + [Record(e)]
  }

  class TransactionWriteHandler {
    const memory: TransactionMemory.TransactionLockManager
    var file: seq<Entry>
    var lastTransactionId: int

    constructor (memory: TransactionMemory.TransactionLockManager)
      ensures this.memory == memory && file == [] && lastTransactionId == 0
    {
      this.memory, file, lastTransactionId := memory, [], 0;
    }

    /** Writes one record; the choice between the three kinds is the journal's, by its offsets. */
    method Write(e: Event, kind: Kind)
      modifies this
      ensures file == Appended(old(file), memory.Model(), old(lastTransactionId), e, kind)
      ensures lastTransactionId == if e.Open? then e.record.id else old(lastTransactionId)
    {
      hide Snapshot, ActiveIds;
      match kind {
        case Plain =>
        case AtCheckpoint => ProcessCheckpoint();
        case Rotated =>
          file := [];
          ProcessSnapshot();
      }
      ProcessWrite(Record(e));
    }

    method ProcessWrite(entry: Entry)
      modifies this
      ensures file == old(file) + [entry]
      ensures lastTransactionId == if entry.Record? && entry.event.Open? then entry.event.record.id else old(lastTransactionId)
    {
      if entry.Record? && entry.event.Open? {
        lastTransactionId := entry.event.record.id;
      }
      file := file + [entry];
    }

    method ProcessCheckpoint()
      modifies this
      ensures file == old(file) + [Checkpoint(lastTransactionId, ActiveIds(memory.Model()))]
      ensures lastTransactionId == old(lastTransactionId)
    {
      var ids := memory.GetActiveIdList();
      ProcessWrite(Checkpoint(lastTransactionId, set id | id in ids));
    }

    static method AppendRecords(start: seq<Entry>, rs: seq<ActiveRecord>) returns (buffer: seq<Entry>)
      ensures buffer == start + Opens(rs)
    {
      buffer := start;
      for j := 0 to |rs|
        invariant buffer == start + Opens(rs[..j])
      {
        OpensAppend(rs[..j], [rs[j]]);
        assert rs[..j + 1] == rs[..j] + [rs[j]];
        buffer := buffer + [Record(Open(rs[j]))];
      }
      assert rs[..|rs|] == rs;
    }

    method ProcessSnapshot()
      modifies this
      ensures file == old(file) + Snapshot(memory.Model(), lastTransactionId)
      ensures lastTransactionId == old(lastTransactionId)
    {
      hide Opens, RecordsOf, TransactionMemory.RecordList;
      var mem := memory.memMap;
      var cs := Ascending(mem.Keys);
      var buffer := [SnapshotHeader(lastTransactionId)];
      NoRecords(mem);
      for i := 0 to |cs|
        modifies {}
        invariant buffer == [SnapshotHeader(lastTransactionId)] + Opens(RecordsOf(mem, cs[..i]))
      {
        var rs := TransactionMemory.RecordList(mem[cs[i]].records);
        buffer := AppendRecords(buffer, rs);
        OpensAppend(RecordsOf(mem, cs[..i]), rs);
        RecordsStep(mem, cs, i);
      }
      assert cs[..|cs|] == cs;
      file := file + buffer;
    }
  }

  // ----- The reader

  /** The index of the last checkpoint, or -1. */
  function LastCheckpoint(file: seq<Entry>): (k: int)
    ensures -1 <= k < |file|
    ensures k >= 0 ==> file[k].Checkpoint?
  {
    if file == [] then -1
    else if file[|file| - 1].Checkpoint? then |file| - 1
    else LastCheckpoint(file[..|file| - 1])
  }

  datatype Reader = Reader(table: Table, ids: set<int>)

  /** Recovers one entry; opens that precede the checkpoint only count when it lists their id. */
  function RecoverEntry(comp: string -> int, r: Reader, entry: Entry, before: bool): Reader {
    match entry
    case SnapshotHeader(lastId) => r.(table := SetLastId(r.table, lastId))
    case Checkpoint(_, _) => r
    case Record(Close(id)) => r.(table := Release(r.table, id).0)
    case Record(Open(record)) =>
      if !before then r.(table := AcquireLock(comp, r.table, record).0)
      else if record.id in r.ids then Reader(AcquireLock(comp, r.table, record).0, r.ids - {record.id})
      else r
  }

  function RecoverEntries(comp: string -> int, r: Reader, file: seq<Entry>, before: bool): Reader
    decreases |file|
  {
    if file == [] then r
    else RecoverEntry(comp, RecoverEntries(comp, r, file[..|file| - 1], before), file[|file| - 1], before)
  }

  function Recover(comp: string -> int, t: Table, file: seq<Entry>): Table {
    var k := LastCheckpoint(file);
    if k < 0 then RecoverEntries(comp, Reader(t, {}), file, false).table
    else
      var r := Reader(SetLastId(t, file[k].lastId), file[k].ids);
      RecoverEntries(comp, RecoverEntries(comp, r, file[..k], true), file[k..], false).table
  }

  class TransactionReadHandler {
    const memory: TransactionMemory.TransactionLockManager
    var activeIdList: set<int>

    ghost function State(): Reader
      reads this, memory
    {
      Reader(memory.Model(), activeIdList)
    }

    constructor (memory: TransactionMemory.TransactionLockManager)
      ensures this.memory == memory && activeIdList == {}
    {
      this.memory, activeIdList := memory, {};
    }

    method RecoverObjects(entry: Entry, before: bool)
      modifies this, memory
      ensures State() == RecoverEntry(memory.comp, old(State()), entry, before)
    {
      match entry {
        case SnapshotHeader(lastId) => memory.SetLastTransactionId(lastId);
        case Checkpoint(_, _) =>
        case Record(Close(id)) => var _ := memory.ReleaseLockById(id);
        case Record(Open(record)) =>
          if before {
            if record.id in activeIdList {
              var _ := memory.AcquireLock(record);
              activeIdList := activeIdList - {record.id};
            }
          } else {
            var _ := memory.AcquireLock(record);
          }
      }
    }

    method ProcessLastCheckpoint(file: seq<Entry>, k: nat)
      requires k < |file| && file[k].Checkpoint?
      modifies this, memory
      ensures State() == Reader(SetLastId(old(memory.Model()), file[k].lastId), file[k].ids)
    {
      memory.SetLastTransactionId(file[k].lastId);
      activeIdList := file[k].ids;
    }

    method PerformRecovery(file: seq<Entry>)
      modifies this, memory
      ensures memory.Model() == Recover(memory.comp, old(memory.Model()), file)
    {
      hide RecoverEntry, SetLastId;
      var k := LastCheckpoint(file);
      activeIdList := {};
      if k >= 0 {
        ProcessLastCheckpoint(file, k);
      }
      ghost var start := State();
      var split := if k < 0 then 0 else k;
      for i := 0 to |file|
        invariant i <= split ==> State() == RecoverEntries(memory.comp, start, file[..i], true)
        invariant i > split ==>
                    State() == RecoverEntries(memory.comp, RecoverEntries(memory.comp, start, file[..split], true),
                                              file[split..i], false)
      {
        assert i < split ==> file[..i + 1][..i] == file[..i];
        assert i >= split ==> file[split..i + 1][..i - split] == file[split..i];
        RecoverObjects(file[i], i < split);
      }
      assert file[split..|file|] == file[split..];
      assert k < 0 ==> file[..0] == [] && file[0..] == file;
    }
  }
}
