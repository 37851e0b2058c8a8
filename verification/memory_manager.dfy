/** The memory of all containers, grouped by component, its interface to the journal and the flush, and what
    becomes of records that are taken out of it and given back. */
module MemoryManagement {
  import opened ContainerMemory
  import opened OrderedKeys

  // `owned` is false for records that another node has to take over.
  datatype Component = Component(containers: map<string, Held>, owned: bool)

  type Memory = map<int, Component>

  // A record together with the path of its container.
  datatype FinalRecord = FinalRecord(path: string, record: ObjectRecord)

  // The records of one request; `owned` says to which side of the memory they go.
  datatype Job = Job(owned: bool, records: seq<FinalRecord>)

  const NO_OFFSET := Offset(0xFFFF_FFFF_FFFF_FFFF, 0)

  predicate Has(comp: string -> int, m: Memory, path: string) {
    comp(path) in m && path in m[comp(path)].containers
  }

  function HeldFor(comp: string -> int, m: Memory, path: string): Held
    requires Has(comp, m, path)
  {
    m[comp(path)].containers[path]
  }

  function Put(comp: string -> int, m: Memory, path: string, h: Held, owned: bool): Memory {
    var c := comp(path);
    var held := if c in m then m[c] else Component(map[], owned);
    m[c := held.(containers := held.containers[path := h])]
  }

  function AddOne(comp: string -> int, m: Memory, r: FinalRecord, prev: Offset, sync: Offset, owned: bool): Memory {
    var p := Pending(sync, r.record);
    Put(comp, m, r.path, if Has(comp, m, r.path) then Added(HeldFor(comp, m, r.path), p) else NewHeld(p, prev), owned)
  }

  function AddRecords(comp: string -> int, m: Memory, rs: seq<FinalRecord>, prev: Offset, sync: Offset, owned: bool)
    : Memory
    decreases |rs|
  {
    if rs == [] then m else AddRecords(comp, AddOne(comp, m, rs[0], prev, sync, owned), rs[1..], prev, sync, owned)
  }

  function AddJobs(comp: string -> int, m: Memory, jobs: seq<Job>, prev: Offset, sync: Offset): Memory
    decreases |jobs|
  {
    if jobs == [] then m else
      AddJobs(comp, AddRecords(comp, m, jobs[0].records, prev, sync, jobs[0].owned), jobs[1..], prev, sync)
  }

  function Erase(comp: string -> int, m: Memory, path: string): Memory
    requires comp(path) in m
  {
    m[comp(path) := m[comp(path)].(containers := m[comp(path)].containers - {path})]
  }

  function EraseOrDrop(comp: string -> int, m: Memory, path: string): Memory
    requires comp(path) in m
  {
    if m[comp(path)].containers - {path} == map[] then m - {comp(path)} else Erase(comp, m, path)
  }

  function StartFlush(comp: string -> int, m: Memory, path: string): Memory {
    if Has(comp, m, path) then Put(comp, m, path, Swapped(HeldFor(comp, m, path)), true) else m
  }

  function Release(comp: string -> int, m: Memory, path: string): Memory
    requires Has(comp, m, path) ==> HeldFor(comp, m, path).flushing != []
  {
    if !Has(comp, m, path) then m
    else if HeldFor(comp, m, path).records == [] then EraseOrDrop(comp, m, path)
    else Put(comp, m, path, Released(HeldFor(comp, m, path)), true)
  }

  // The release after a flush sees what the flush has left in the list.
  function Freed(comp: string -> int, m: Memory, path: string, trailer: Offset): Memory
    requires Has(comp, m, path)
  {
    var h := Skipped(HeldFor(comp, m, path), trailer);
    var left := Put(comp, m, path, h, true);
    if h.flushing != [] then Release(comp, left, path) else EraseOrDrop(comp, left, path)
  }

  function WithoutBelow(comp: string -> int, m: Memory, path: string, offset: Offset): Memory {
    if !Has(comp, m, path) then m else
      var h := Removed(HeldFor(comp, m, path), offset);
      if h.records == [] then Erase(comp, m, path) else Put(comp, m, path, h, true)
  }

  function Revert(comp: string -> int, m: Memory, r: FinalRecord, offset: Offset, owned: bool): Memory {
    if comp(r.path) !in m then m else
      var m' :=
        if Has(comp, m, r.path) then
          Put(comp, m, r.path, Reverted(HeldFor(comp, m, r.path), Pending(offset, r.record)), owned)
        else m;
      m'[comp(r.path) := m'[comp(r.path)].(owned := owned)]
  }

  // The number of records of a container that are in memory.
  function InMemory(comp: string -> int, m: Memory, path: string): nat {
    if Has(comp, m, path) then |HeldFor(comp, m, path).flushing| + |HeldFor(comp, m, path).records| else 0
  }

  // Every container is in the component of its path.
  ghost predicate Placed(comp: string -> int, m: Memory) {
    forall c, path :: c in m && path in m[c].containers ==> comp(path) == c
  }

  /** `offset` is the least commit offset of the containers in memory, or stands for none. */
  ghost predicate IsLastCommit(m: Memory, offset: Offset) {
    && (forall c :: c in m ==> NoneBelow(m[c], offset))
    && (offset == NO_OFFSET || Attained(m, offset))
  }

  ghost predicate NoneBelow(c: Component, offset: Offset) {
    forall path :: path in c.containers ==> AtMost(offset, c.containers[path].commit)
  }

  ghost predicate Attained(m: Memory, offset: Offset) {
    exists c, path :: c in m && path in m[c].containers && m[c].containers[path].commit == offset
  }

  lemma LastCommitAtMost(comp: string -> int, m: Memory, offset: Offset, path: string)
    requires IsLastCommit(m, offset) && Has(comp, m, path)
    ensures AtMost(offset, HeldFor(comp, m, path).commit)
  {
    var c := comp(path);
    assert c in m && NoneBelow(m[c], offset);
  }

  lemma {:induction false} LeastOffset(s: set<Offset>, before: Offset) returns (least: Offset)
    ensures least == before || least in s
    ensures AtMost(least, before) && forall x :: x in s ==> AtMost(least, x)
    decreases |s|
  {
    if s == {} {
      least := before;
    } else {
      var x :| x in s;
      least := LeastOffset(s - {x}, if Less(x, before) then x else before);
    }
  }

  /** There always is such an offset. */
  lemma LastCommitExists(m: Memory)
    ensures exists offset :: IsLastCommit(m, offset)
  {
    var commits := set c, path | c in m && path in m[c].containers :: m[c].containers[path].commit;
    var least := LeastOffset(commits, NO_OFFSET);
    forall c | c in m ensures NoneBelow(m[c], least) {
      forall path | path in m[c].containers ensures AtMost(least, m[c].containers[path].commit) {
        assert m[c].containers[path].commit in commits;
      }
    }
    if least != NO_OFFSET {
      assert Attained(m, least);
    }
    assert IsLastCommit(m, least);
  }

  lemma NoneBelowLess(c: Component, before: Offset, offset: Offset)
    requires NoneBelow(c, before) && AtMost(offset, before)
    ensures NoneBelow(c, offset)
  {
  }

  lemma MinimumOfOne(m: Memory, c: int, before: Offset, offset: Offset)
    requires c in m && forall path :: path in m[c].containers ==> AtMost(offset, m[c].containers[path].commit)
    requires offset == before || exists path :: path in m[c].containers && m[c].containers[path].commit == offset
    ensures NoneBelow(m[c], offset) && (offset == before || Attained(m, offset))
  {
  }

  class MemoryManager {
    const comp: string -> int
    var memoryMap: Memory

    constructor (comp: string -> int)
      ensures this.comp == comp && memoryMap == map[]
    {
      this.comp, memoryMap := comp, map[];
    }

    method AddRecordInMap(r: FinalRecord, prev: Offset, sync: Offset, owned: bool)
      modifies this
      ensures memoryMap == AddOne(comp, old(memoryMap), r, prev, sync, owned)
    {
      var c := comp(r.path);
      if c in memoryMap {
        if r.path in memoryMap[c].containers {
          var held := new SecureObjectRecord.Copy(memoryMap[c].containers[r.path]);
          held.AddRecord(r.record, sync);
          Store(r.path, held, owned);
        } else {
          var held := new SecureObjectRecord(r.record, prev, sync);
          Store(r.path, held, owned);
        }
      } else {
        var held := new SecureObjectRecord(r.record, prev, sync);
        Store(r.path, held, owned);
      }
    }

    // The map keeps its values, not references to them.
    method Store(path: string, held: SecureObjectRecord, owned: bool)
      modifies this
      ensures memoryMap == Put(comp, old(memoryMap), path, held.Model(), owned)
    {
      var c := comp(path);
      var component := if c in memoryMap then memoryMap[c] else Component(map[], owned);
      var value := Held(held.recordList, held.tmpRecordList, held.lastCommitOffset, held.stat);
      memoryMap := memoryMap[c := component.(containers := component.containers[path := value])];
    }

    method AddEntries(jobs: seq<Job>, prev: Offset, sync: Offset)
      modifies this
      ensures memoryMap == AddJobs(comp, old(memoryMap), jobs, prev, sync)
    {
      for i := 0 to |jobs|
        invariant AddJobs(comp, memoryMap, jobs[i..], prev, sync) == AddJobs(comp, old(memoryMap), jobs, prev, sync)
      {
        AddJob(jobs[i], prev, sync);
        assert jobs[i..][1..] == jobs[i + 1..];
      }
    }

    method AddJob(job: Job, prev: Offset, sync: Offset)
      modifies this
      ensures memoryMap == AddRecords(comp, old(memoryMap), job.records, prev, sync, job.owned)
    {
      for i := 0 to |job.records|
        invariant AddRecords(comp, memoryMap, job.records[i..], prev, sync, job.owned)
               == AddRecords(comp, old(memoryMap), job.records, prev, sync, job.owned)
      {
        AddRecordInMap(job.records[i], prev, sync, job.owned);
        assert job.records[i..][1..] == job.records[i + 1..];
      }
    }

    /** The records to flush, or none when the container is absent or already being flushed. */
    method GetFlushRecords(path: string) returns (started: bool)
      modifies this
      ensures memoryMap == StartFlush(comp, old(memoryMap), path)
      ensures started <==> Has(comp, old(memoryMap), path) && HeldFor(comp, old(memoryMap), path).flushing == []
    {
      var c := comp(path);
      if c in memoryMap && path in memoryMap[c].containers {
        var held := new SecureObjectRecord.Copy(memoryMap[c].containers[path]);
        started := held.GetFlushRecords();
        Store(path, held, true);
      } else {
        started := false;
      }
    }

    method ReleaseFlushRecords(path: string)
      requires Has(comp, memoryMap, path) ==> HeldFor(comp, memoryMap, path).flushing != []
      modifies this
      ensures memoryMap == Release(comp, old(memoryMap), path)
    {
      var c := comp(path);
      if c in memoryMap && path in memoryMap[c].containers {
        var held := new SecureObjectRecord.Copy(memoryMap[c].containers[path]);
        var empty := held.ReleaseFlushRecords();
        if empty {
          var containers := memoryMap[c].containers - {path};
          if containers == map[] {
            memoryMap := memoryMap - {c};
          } else {
            memoryMap := memoryMap[c := memoryMap[c].(containers := containers)];
          }
        } else {
          Store(path, held, true);
        }
      }
    }

    method RemoveEntry(path: string, offset: Offset)
      modifies this
      ensures memoryMap == WithoutBelow(comp, old(memoryMap), path, offset)
    {
      hide Removed;
      var c := comp(path);
      if c in memoryMap && path in memoryMap[c].containers {
        var held := new SecureObjectRecord.Copy(memoryMap[c].containers[path]);
        var empty := held.RemoveRecord(offset);
        if empty {
          memoryMap := memoryMap[c := memoryMap[c].(containers := memoryMap[c].containers - {path})];
        } else {
          Store(path, held, true);
        }
      }
    }

    method RevertBackContData(r: FinalRecord, offset: Offset, owned: bool)
      modifies this
      ensures memoryMap == Revert(comp, old(memoryMap), r, offset, owned)
    {
      var c := comp(r.path);
      if c in memoryMap {
        if r.path in memoryMap[c].containers {
          var held := new SecureObjectRecord.Copy(memoryMap[c].containers[r.path]);
          held.RevertRecord(r.record, offset);
          Store(r.path, held, owned);
        }
        memoryMap := memoryMap[c := memoryMap[c].(owned := owned)];
      }
    }

    method GetLastCommitOffset() returns (offset: Offset)
      ensures IsLastCommit(memoryMap, offset)
    {
      hide NoneBelow, Attained, AtMost;
      offset := NO_OFFSET;
      var cs := Ascending(memoryMap.Keys);
      for i := 0 to |cs|
        invariant forall j :: 0 <= j < i ==> NoneBelow(memoryMap[cs[j]], offset)
        invariant offset == NO_OFFSET || Attained(memoryMap, offset)
      {
        ghost var before := offset;
        offset := MinimumIn(memoryMap[cs[i]].containers, offset);
        MinimumOfOne(memoryMap, cs[i], before, offset);
        forall j | 0 <= j < i ensures NoneBelow(memoryMap[cs[j]], offset) {
          NoneBelowLess(memoryMap[cs[j]], before, offset);
        }
      }
      forall c | c in memoryMap ensures NoneBelow(memoryMap[c], offset) {
        assert c in cs;
      }
    }

    static method MinimumIn(containers: map<string, Held>, before: Offset) returns (offset: Offset)
      ensures AtMost(offset, before)
      ensures forall path :: path in containers ==> AtMost(offset, containers[path].commit)
      ensures offset == before || exists path :: path in containers && containers[path].commit == offset
    {
      offset := before;
      var paths := containers.Keys;
      while paths != {}
        invariant paths <= containers.Keys && AtMost(offset, before)
        invariant forall path :: path in containers && path !in paths ==> AtMost(offset, containers[path].commit)
        invariant offset == before || exists path :: path in containers && containers[path].commit == offset
        decreases |paths|
      {
        var path :| path in paths;
        if Less(containers[path].commit, offset) {
          offset := containers[path].commit;
        }
        paths := paths - {path};
      }
    }
  }

  // ----- One container at a time

  lemma PutAt(comp: string -> int, m: Memory, path: string, h: Held, owned: bool, other: string)
    ensures var m' := Put(comp, m, path, h, owned);
            && Has(comp, m', path) && HeldFor(comp, m', path) == h
            && (other != path ==> Has(comp, m', other) == Has(comp, m, other))
            && (other != path && Has(comp, m, other) ==> HeldFor(comp, m', other) == HeldFor(comp, m, other))
  {
  }

  lemma ReleaseAt(comp: string -> int, m: Memory, path: string, other: string)
    requires Has(comp, m, path) && HeldFor(comp, m, path).flushing != []
    ensures var h, m' := HeldFor(comp, m, path), Release(comp, m, path);
            && Has(comp, m', path) == (h.records != [])
            && (h.records != [] ==> HeldFor(comp, m', path) == Released(h))
            && (other != path ==> Has(comp, m', other) == Has(comp, m, other))
            && (other != path && Has(comp, m, other) ==> HeldFor(comp, m', other) == HeldFor(comp, m, other))
  {
    if HeldFor(comp, m, path).records == [] {
      DroppedAlone(comp, m, path, other);
    }
  }

  lemma DroppedAlone(comp: string -> int, m: Memory, path: string, other: string)
    requires Has(comp, m, path)
    ensures var m' := EraseOrDrop(comp, m, path);
            && !Has(comp, m', path)
            && (other != path ==> Has(comp, m', other) == Has(comp, m, other))
            && (other != path && Has(comp, m, other) ==> HeldFor(comp, m', other) == HeldFor(comp, m, other))
  {
    var containers := m[comp(path)].containers;
    assert other != path && other in containers ==> other in containers - {path};
  }

  lemma FreedAt(comp: string -> int, m: Memory, path: string, trailer: Offset, other: string)
    requires Has(comp, m, path) && HeldFor(comp, m, path).flushing != []
    requires HeldFor(comp, m, path).records == [] || Skipped(HeldFor(comp, m, path), trailer).flushing != []
    ensures var h, m' := HeldFor(comp, m, path), Freed(comp, m, path, trailer);
            && Has(comp, m', path) == (h.records != [])
            && (h.records != [] ==>
                  && HeldFor(comp, m', path).flushing == [] && HeldFor(comp, m', path).records == h.records
                  && HeldFor(comp, m', path).commit == h.flushing[|h.flushing| - 1].offset)
            && (other != path ==> Has(comp, m', other) == Has(comp, m, other))
            && (other != path && Has(comp, m, other) ==> HeldFor(comp, m', other) == HeldFor(comp, m, other))
  {
    hide Put, Has, HeldFor, Release, EraseOrDrop;
    var h := Skipped(HeldFor(comp, m, path), trailer);
    var left := Put(comp, m, path, h, true);
    PutAt(comp, m, path, h, true, other);
    if h.flushing != [] {
      ReleaseAt(comp, left, path, other);
    } else {
      DroppedAlone(comp, left, path, other);
    }
  }

  lemma WithoutAt(comp: string -> int, m: Memory, path: string, other: string)
    ensures var m' := WithoutContainer(comp, m, path);
            && (other != path ==> Has(comp, m', other) == Has(comp, m, other))
            && (other != path && Has(comp, m, other) ==> HeldFor(comp, m', other) == HeldFor(comp, m, other))
            && (Has(comp, m, path) && HeldFor(comp, m, path).flushing == [] ==> !Has(comp, m', path))
            && (!Has(comp, m, path) || HeldFor(comp, m, path).flushing != [] ==> m' == m)
  {
    if Has(comp, m, path) {
      DroppedAlone(comp, m, path, other);
    }
  }

  lemma WithoutBelowAt(comp: string -> int, m: Memory, path: string, offset: Offset, other: string)
    ensures var m' := WithoutBelow(comp, m, path, offset);
            && (Has(comp, m, path) ==>
                  var h := Removed(HeldFor(comp, m, path), offset);
                  && Has(comp, m', path) == (h.records != [])
                  && (h.records != [] ==> HeldFor(comp, m', path) == h))
            && (!Has(comp, m, path) ==> !Has(comp, m', path))
            && (other != path ==> Has(comp, m', other) == Has(comp, m, other))
            && (other != path && Has(comp, m, other) ==> HeldFor(comp, m', other) == HeldFor(comp, m, other))
  {
    hide Removed;
  }

  lemma PutPlaced(comp: string -> int, m: Memory, path: string, h: Held)
    requires Placed(comp, m)
    ensures Placed(comp, Put(comp, m, path, h, true))
  {
  }

  lemma FreedPlaced(comp: string -> int, m: Memory, path: string, trailer: Offset)
    requires Placed(comp, m) && Has(comp, m, path)
    ensures Placed(comp, Freed(comp, m, path, trailer))
  {
    hide Skipped;
    PutPlaced(comp, m, path, Skipped(HeldFor(comp, m, path), trailer));
  }

  lemma WithoutPlaced(comp: string -> int, m: Memory, path: string)
    requires Placed(comp, m)
    ensures Placed(comp, WithoutContainer(comp, m, path))
  {
  }

  // ----- Giving an extracted record back

  datatype MemOp =
    | AddOp(record: FinalRecord, prev: Offset, sync: Offset, owned: bool)
    | StartFlushOp(path: string)
    | EndFlushOp(path: string)
    | RemoveOp(path: string, below: Offset)
    | DeleteOp(path: string)
    | ExtractOp(path: string)
    | RevertOp(record: FinalRecord, offset: Offset, owned: bool)
    | ForgetOp(components: set<int>)

  // A container that is being flushed is not deleted.
  function WithoutContainer(comp: string -> int, m: Memory, path: string): Memory {
    if Has(comp, m, path) && HeldFor(comp, m, path).flushing == [] then EraseOrDrop(comp, m, path) else m
  }

  function TakenOut(comp: string -> int, m: Memory, path: string): Memory {
    if Has(comp, m, path) then Put(comp, m, path, Extracted(HeldFor(comp, m, path)), true) else m
  }

  // A flush that ends has records to release.
  predicate CanDo(comp: string -> int, m: Memory, op: MemOp) {
    op.EndFlushOp? && Has(comp, m, op.path) ==> HeldFor(comp, m, op.path).flushing != []
  }

  function Do(comp: string -> int, m: Memory, op: MemOp): Memory
    requires CanDo(comp, m, op)
  {
    match op
    case AddOp(r, prev, sync, owned) => AddOne(comp, m, r, prev, sync, owned)
    case StartFlushOp(path) => StartFlush(comp, m, path)
    case EndFlushOp(path) => Release(comp, m, path)
    case RemoveOp(path, below) => WithoutBelow(comp, m, path, below)
    case DeleteOp(path) => WithoutContainer(comp, m, path)
    case ExtractOp(path) => TakenOut(comp, m, path)
    case RevertOp(r, offset, owned) => Revert(comp, m, r, offset, owned)
    case ForgetOp(cs) => m - cs
  }

  predicate CanDoAll(comp: string -> int, m: Memory, ops: seq<MemOp>)
    decreases |ops|, 0
  {
    ops != [] ==>
      var n := |ops| - 1;
      CanDoAll(comp, m, ops[..n]) && CanDo(comp, DoAll(comp, m, ops[..n]), ops[n])
  }

  function DoAll(comp: string -> int, m: Memory, ops: seq<MemOp>): Memory
    requires CanDoAll(comp, m, ops)
    decreases |ops|, 1
  {
    if ops == [] then m else Do(comp, DoAll(comp, m, ops[..|ops| - 1]), ops[|ops| - 1])
  }

  /** The operation takes the container out of memory; of the flushes that end, only one that leaves no
      pending records does. */
  predicate Erases(comp: string -> int, m: Memory, op: MemOp, path: string) {
    match op
    case EndFlushOp(p) => p == path && Has(comp, m, path) && HeldFor(comp, m, path).records == []
    case RemoveOp(p, below) => p == path && Has(comp, m, path) && Removed(HeldFor(comp, m, path), below).records == []
    case DeleteOp(p) => p == path && Has(comp, m, path) && HeldFor(comp, m, path).flushing == []
    case ForgetOp(cs) => comp(path) in cs
    case _ => false
  }

  predicate AddsTo(op: MemOp, path: string) {
    op.AddOp? && op.record.path == path
  }

  lemma DoneIsPresentIff(comp: string -> int, m: Memory, op: MemOp, path: string)
    requires CanDo(comp, m, op)
    ensures Has(comp, Do(comp, m, op), path) <==> AddsTo(op, path) || (Has(comp, m, path) && !Erases(comp, m, op, path))
  {
    hide Removed, Added, Swapped, Reverted, Released;
    match op
    case AddOp(r, prev, sync, owned) =>
    case StartFlushOp(p) =>
    case EndFlushOp(p) => if Has(comp, m, p) { ReleaseAt(comp, m, p, path); }
    case RemoveOp(p, below) => WithoutBelowAt(comp, m, p, below, path);
    case DeleteOp(p) => if Has(comp, m, p) { DroppedAlone(comp, m, p, path); }
    case ExtractOp(p) =>
    case RevertOp(r, offset, owned) =>
    case ForgetOp(cs) =>
  }

  // Nothing erases the container from operation `from` on.
  ghost predicate Undisturbed(comp: string -> int, m: Memory, ops: seq<MemOp>, path: string, from: int)
    requires CanDoAll(comp, m, ops)
  {
    forall j :: 0 <= j < |ops| && from <= j ==> CanDoAll(comp, m, ops[..j]) && !Erases(comp, DoAll(comp, m, ops[..j]), ops[j], path)
  }

  /** The container was there to begin with, or something was added to it, and nothing has erased it since. */
  ghost predicate StillThere(comp: string -> int, m: Memory, ops: seq<MemOp>, path: string)
    requires CanDoAll(comp, m, ops)
  {
    || (Has(comp, m, path) && Undisturbed(comp, m, ops, path, 0))
    || (exists i :: 0 <= i < |ops| && AddsTo(ops[i], path) && Undisturbed(comp, m, ops, path, i + 1))
  }

  lemma {:induction false} CanDoPrefix(comp: string -> int, m: Memory, ops: seq<MemOp>, j: nat)
    requires CanDoAll(comp, m, ops) && j <= |ops|
    ensures CanDoAll(comp, m, ops[..j])
    decreases |ops|
  {
    if j < |ops| {
      CanDoPrefix(comp, m, ops[..|ops| - 1], j);
      assert ops[..|ops| - 1][..j] == ops[..j];
    } else {
      assert ops[..j] == ops;
    }
  }

  lemma UndisturbedStep(comp: string -> int, m: Memory, ops: seq<MemOp>, path: string, from: int)
    requires ops != [] && CanDoAll(comp, m, ops) && from <= |ops| - 1
    ensures var n := |ops| - 1;
            && CanDoAll(comp, m, ops[..n])
            && (Undisturbed(comp, m, ops, path, from) ==
                (Undisturbed(comp, m, ops[..n], path, from) && !Erases(comp, DoAll(comp, m, ops[..n]), ops[n], path)))
  {
    hide CanDoAll, Erases, DoAll, CanDo;
    var n := |ops| - 1;
    CanDoPrefix(comp, m, ops, n);
    forall j | 0 <= j < n ensures CanDoAll(comp, m, ops[..j]) && ops[..n][..j] == ops[..j] && ops[..n][j] == ops[j] {
      CanDoPrefix(comp, m, ops, j);
    }
  }

  lemma StillThereStep(comp: string -> int, m: Memory, ops: seq<MemOp>, path: string)
    requires ops != [] && CanDoAll(comp, m, ops)
    ensures var n := |ops| - 1;
            && CanDoAll(comp, m, ops[..n])
            && (StillThere(comp, m, ops, path) ==
                (AddsTo(ops[n], path)
                 || (StillThere(comp, m, ops[..n], path) && !Erases(comp, DoAll(comp, m, ops[..n]), ops[n], path))))
  {
    hide Has, CanDoAll, DoAll, Erases, AddsTo, Undisturbed, CanDo;
    var n := |ops| - 1;
    CanDoPrefix(comp, m, ops, n);
    LastUndisturbed(comp, m, ops, path);
    UndisturbedStep(comp, m, ops, path, 0);
    if StillThere(comp, m, ops[..n], path) && !(Has(comp, m, path) && Undisturbed(comp, m, ops[..n], path, 0)) {
      var i :| 0 <= i < n && AddsTo(ops[..n][i], path) && Undisturbed(comp, m, ops[..n], path, i + 1);
      UndisturbedStep(comp, m, ops, path, i + 1);
      assert AddsTo(ops[i], path);
    }
    if StillThere(comp, m, ops, path) && !AddsTo(ops[n], path) && !(Has(comp, m, path) && Undisturbed(comp, m, ops, path, 0)) {
      var i :| 0 <= i < |ops| && AddsTo(ops[i], path) && Undisturbed(comp, m, ops, path, i + 1);
      UndisturbedStep(comp, m, ops, path, i + 1);
      assert AddsTo(ops[..n][i], path);
    }
  }

  lemma {:induction false} PresentIff(comp: string -> int, m: Memory, ops: seq<MemOp>, path: string)
    requires CanDoAll(comp, m, ops)
    ensures Has(comp, DoAll(comp, m, ops), path) <==> StillThere(comp, m, ops, path)
    decreases |ops|
  {
    hide Has, Do, Erases, AddsTo, CanDo;
    if ops != [] {
      hide StillThere;
      var n := |ops| - 1;
      PresentIff(comp, m, ops[..n], path);
      DoneIsPresentIff(comp, DoAll(comp, m, ops[..n]), ops[n], path);
      StillThereStep(comp, m, ops, path);
    }
  }

  lemma LastUndisturbed(comp: string -> int, m: Memory, ops: seq<MemOp>, path: string)
    requires CanDoAll(comp, m, ops)
    ensures Undisturbed(comp, m, ops, path, |ops|)
  {
  }

  ghost predicate EndsWith(comp: string -> int, m: Memory, path: string, p: Pending) {
    Has(comp, m, path) && exists before :: HeldFor(comp, m, path).records == before + [p]
  }

  lemma RevertedIff(comp: string -> int, m: Memory, r: FinalRecord, offset: Offset, owned: bool)
    ensures EndsWith(comp, Revert(comp, m, r, offset, owned), r.path, Pending(offset, r.record)) <==> Has(comp, m, r.path)
  {
    if Has(comp, m, r.path) {
      var records := HeldFor(comp, m, r.path).records;
      assert HeldFor(comp, Revert(comp, m, r, offset, owned), r.path).records == records + [Pending(offset, r.record)];
    }
  }

  /** Giving a record back puts it last in its container, uncounted, if the container is there; the component, if
      it is there, goes to the side that the caller names; everything else stays. */
  lemma RevertAt(comp: string -> int, m: Memory, r: FinalRecord, offset: Offset, owned: bool, other: string)
    ensures var m' := Revert(comp, m, r, offset, owned);
            && m'.Keys == m.Keys && (forall c :: c in m ==> m'[c].owned == if c == comp(r.path) then owned else m[c].owned)
            && (Has(comp, m', other) <==> Has(comp, m, other))
            && (Has(comp, m, other) ==>
                  var h, h' := HeldFor(comp, m, other), HeldFor(comp, m', other);
                  && h'.records == h.records + (if other == r.path then [Pending(offset, r.record)] else [])
                  && h'.flushing == h.flushing && h'.commit == h.commit && h'.stat == h.stat)
  {
  }

  /** A reverted record is in memory again exactly when its container is, that is: whatever happened since
      the extraction, in particular any flush that ended, has left the container in memory, or something
      has been added to it after the last time that it was erased. */
  lemma RevertKeepsIff(comp: string -> int, m: Memory, ops: seq<MemOp>, r: FinalRecord, offset: Offset, owned: bool)
    requires CanDoAll(comp, m, ops)
    ensures EndsWith(comp, Revert(comp, DoAll(comp, m, ops), r, offset, owned), r.path, Pending(offset, r.record))
       <==> StillThere(comp, m, ops, r.path)
  {
    hide Has, Revert, EndsWith, StillThere, DoAll, CanDoAll;
    PresentIff(comp, m, ops, r.path);
    RevertedIff(comp, DoAll(comp, m, ops), r, offset, owned);
  }

  // The operations among which only the end of a flush can erase the container or matters to it.
  predicate FlushesOnly(ops: seq<MemOp>, path: string) {
    forall i :: 0 <= i < |ops| ==>
      !ops[i].RemoveOp? && !ops[i].DeleteOp? && !ops[i].ForgetOp? && !AddsTo(ops[i], path)
  }

  ghost predicate LeavesPending(comp: string -> int, m: Memory, ops: seq<MemOp>, path: string, j: nat)
    requires CanDoAll(comp, m, ops) && j < |ops|
  {
    CanDoAll(comp, m, ops[..j])
    && var before := DoAll(comp, m, ops[..j]); Has(comp, before, path) ==> HeldFor(comp, before, path).records != []
  }

  /** Between extraction and giving back, with nothing new for the container: the record is kept exactly when
      every flush of the container that ends in between leaves pending records. */
  lemma RevertAfterFlushesIff(comp: string -> int, m: Memory, ops: seq<MemOp>, r: FinalRecord, offset: Offset, owned: bool)
    requires CanDoAll(comp, m, ops) && Has(comp, m, r.path) && FlushesOnly(ops, r.path)
    ensures EndsWith(comp, Revert(comp, DoAll(comp, m, ops), r, offset, owned), r.path, Pending(offset, r.record))
       <==> forall j :: 0 <= j < |ops| && ops[j] == EndFlushOp(r.path) ==> LeavesPending(comp, m, ops, r.path, j)
  {
    hide Has, HeldFor, Revert, EndsWith, DoAll, CanDoAll, CanDo;
    RevertKeepsIff(comp, m, ops, r, offset, owned);
    forall j | 0 <= j < |ops| ensures CanDoAll(comp, m, ops[..j]) {
      CanDoPrefix(comp, m, ops, j);
    }
    forall j | 0 <= j < |ops|
      ensures Erases(comp, DoAll(comp, m, ops[..j]), ops[j], r.path)
         <==> ops[j] == EndFlushOp(r.path) && !LeavesPending(comp, m, ops, r.path, j)
    {
    }
  }

  /** A record that is extracted while its container is being flushed has nowhere to go back to once that
      flush has released the container: reverting it loses it. */
  lemma RevertAfterReleaseLoses(comp: string -> int, m: Memory, r: FinalRecord, offset: Offset, owned: bool)
    requires Has(comp, m, r.path) && HeldFor(comp, m, r.path).flushing != []
    ensures var extracted := Put(comp, m, r.path, Extracted(HeldFor(comp, m, r.path)), owned);
            !Has(comp, Revert(comp, Release(comp, extracted, r.path), r, offset, owned), r.path)
  {
    var extracted := Put(comp, m, r.path, Extracted(HeldFor(comp, m, r.path)), owned);
    ReleaseAt(comp, extracted, r.path, r.path);
  }
}
