/** The in-memory part of the container service: for every container the records that are journaled but
    not yet in its info file, with the statistic they add up to. */
module ContainerMemory {

  // A place in the journal: a file and a position in it, ordered lexicographically.
  datatype Offset = Offset(file: nat, pos: nat)

  predicate Less(a: Offset, b: Offset) {
    a.file < b.file || (a.file == b.file && a.pos < b.pos)
  }

  predicate AtMost(a: Offset, b: Offset) {
    !Less(b, a)
  }

  datatype Flag = Add | Delete | Modify | UnknownAdd | UnknownDelete

  datatype ObjectRecord = ObjectRecord(name: string, flag: Flag, size: nat, oldSize: nat)

  datatype Stat = Stat(bytes: int, count: int)

  const NO_STAT := Stat(0, 0)

  function Plus(a: Stat, b: Stat): Stat {
    Stat(a.bytes + b.bytes, a.count + b.count)
  }

  function Minus(a: Stat, b: Stat): Stat {
    Stat(a.bytes - b.bytes, a.count - b.count)
  }

  /** What one record changes. */
  function Delta(r: ObjectRecord): Stat {
    match r.flag
    case Add => Stat(r.size, 1)
    case Delete => Stat(0 - r.size, -1)
    case Modify => Stat(r.size - r.oldSize, 0)
    case _ => NO_STAT
  }

  datatype Pending = Pending(offset: Offset, record: ObjectRecord)

  function Total(q: seq<Pending>): Stat {
    if q == [] then NO_STAT else Plus(Delta(q[0].record), Total(q[1..]))
  }

  lemma {:induction false} TotalAppend(a: seq<Pending>, b: seq<Pending>)
    ensures Total(a + b) == Plus(Total(a), Total(b))
    decreases |a|
  {
    if a == [] {
      assert a + b == b;
    } else {
      assert (a + b)[1..] == a[1..] + b;
      TotalAppend(a[1..], b);
    }
  }

  lemma TotalSplit(q: seq<Pending>, n: nat)
    requires n <= |q|
    ensures Total(q) == Plus(Total(q[..n]), Total(q[n..]))
  {
    TotalAppend(q[..n], q[n..]);
    assert q == q[..n] + q[n..];
  }

  lemma TotalNone()
    ensures Total([]) == NO_STAT
  {
  }

  lemma TotalOne(p: Pending)
    ensures Total([p]) == Delta(p.record)
  {
    assert [p][1..] == [];
  }

  // ----- One container

  datatype Held = Held(records: seq<Pending>, flushing: seq<Pending>, commit: Offset, stat: Stat)

  function Added(h: Held, p: Pending): Held {
    h.(records := h.records + [p], stat := Plus(h.stat, Delta(p.record)))
  }

  function NewHeld(p: Pending, prev: Offset): Held {
    Added(Held([], [], prev, NO_STAT), p)
  }

  function Reverted(h: Held, p: Pending): Held {
    h.(records := h.records + [p])
  }

  // The number of leading records whose key is below `offset`.
  function CountBelow(q: seq<Pending>, offset: Offset): (n: nat)
    ensures n <= |q|
    ensures forall i :: 0 <= i < n ==> Less(q[i].offset, offset)
    ensures n < |q| ==> !Less(q[n].offset, offset)
  {
    if q == [] || !Less(q[0].offset, offset) then 0 else 1 + CountBelow(q[1..], offset)
  }

  // The number of leading records whose key is at most `offset`.
  function CountUpTo(q: seq<Pending>, offset: Offset): (n: nat)
    ensures n <= |q|
    ensures forall i :: 0 <= i < n ==> AtMost(q[i].offset, offset)
    ensures n < |q| ==> !AtMost(q[n].offset, offset)
  {
    if q == [] || !AtMost(q[0].offset, offset) then 0 else 1 + CountUpTo(q[1..], offset)
  }

  function Removed(h: Held, offset: Offset): Held {
    var n := CountBelow(h.records, offset);
    h.(records := h.records[n..], stat := Minus(h.stat, Total(h.records[..n])))
  }

  function Swapped(h: Held): Held {
    if h.flushing == [] then h.(records := [], flushing := h.records) else h
  }

  /** The flush drops what the info file already holds; it does so in the very list that is being flushed. */
  function Skipped(h: Held, offset: Offset): Held {
    h.(flushing := h.flushing[CountUpTo(h.flushing, offset)..])
  }

  function Released(h: Held): Held
    requires h.flushing != []
  {
    h.(flushing := [], commit := h.flushing[|h.flushing| - 1].offset, stat := Minus(h.stat, Total(h.flushing)))
  }

  function Extracted(h: Held): Held {
    h.(records := [])
  }

  class SecureObjectRecord {
    var recordList: seq<Pending>
    var tmpRecordList: seq<Pending>
    var lastCommitOffset: Offset
    var stat: Stat

    ghost function Model(): Held
      reads this
    {
      Held(recordList, tmpRecordList, lastCommitOffset, stat)
    }

    constructor (record: ObjectRecord, prev: Offset, sync: Offset)
      ensures Model() == NewHeld(Pending(sync, record), prev)
    {
      recordList, tmpRecordList, lastCommitOffset, stat := [], [], prev, NO_STAT;
      new;
      AddRecord(record, sync);
    }

    constructor Copy(h: Held)
      ensures Model() == h
    {
      recordList, tmpRecordList, lastCommitOffset, stat := h.records, h.flushing, h.commit, h.stat;
    }

    method RevertRecord(record: ObjectRecord, offset: Offset)
      modifies this
      ensures Model() == Reverted(old(Model()), Pending(offset, record))
    {
      recordList := recordList + [Pending(offset, record)];
    }

    method AddRecord(record: ObjectRecord, sync: Offset)
      modifies this
      ensures Model() == Added(old(Model()), Pending(sync, record))
    {
      match record.flag {
        case Delete => stat := Stat(stat.bytes - record.size, stat.count - 1);
        case Add => stat := Stat(stat.bytes + record.size, stat.count + 1);
        case Modify => stat := stat.(bytes := stat.bytes + (record.size - record.oldSize));
        case _ =>
      }
      recordList := recordList + [Pending(sync, record)];
    }

    // Takes the contribution of a record out of the statistic.
    method Undo(record: ObjectRecord)
      modifies this`stat
      ensures stat == Minus(old(stat), Delta(record))
    {
      match record.flag {
        case Delete => stat := Stat(stat.bytes + record.size, stat.count + 1);
        case Add => stat := Stat(stat.bytes - record.size, stat.count - 1);
        case Modify => stat := stat.(bytes := stat.bytes - (record.size - record.oldSize));
        case _ =>
      }
    }

    method RemoveRecord(offset: Offset) returns (empty: bool)
      modifies this
      ensures Model() == Removed(old(Model()), offset)
      ensures empty <==> recordList == []
    {
      ghost var before := Model();
      while recordList != []
        invariant Removed(Model(), offset) == Removed(before, offset)
        decreases |recordList|
      {
        if !Less(recordList[0].offset, offset) {
          return false;
        }
        RemoveFirst(Model(), offset);
        Undo(recordList[0].record);
        recordList := recordList[1..];
      }
      return true;
    }

    method GetFlushRecords() returns (started: bool)
      modifies this
      ensures Model() == Swapped(old(Model()))
      ensures started <==> old(tmpRecordList) == []
    {
      if tmpRecordList != [] {
        return false;
      }
      tmpRecordList, recordList := recordList, tmpRecordList;
      return true;
    }

    method ReleaseFlushRecords() returns (empty: bool)
      requires tmpRecordList != []
      modifies this
      ensures Model() == Released(old(Model()))
      ensures empty <==> recordList == []
    {
      lastCommitOffset := tmpRecordList[|tmpRecordList| - 1].offset;
      for i := 0 to |tmpRecordList|
        modifies this`stat
        invariant stat == Minus(old(stat), Total(tmpRecordList[..i]))
      {
        TotalAppend(tmpRecordList[..i], [tmpRecordList[i]]);
        TotalOne(tmpRecordList[i]);
        assert tmpRecordList[..i + 1] == tmpRecordList[..i] + [tmpRecordList[i]];
        Undo(tmpRecordList[i].record);
      }
      assert tmpRecordList[..|tmpRecordList|] == tmpRecordList;
      tmpRecordList := [];
      return recordList == [];
    }

    method GetUnscheduledRecords() returns (taken: seq<Pending>)
      modifies this
      ensures taken == old(recordList) && Model() == Extracted(old(Model()))
    {
      taken := recordList;
      recordList := [];
    }

    method GetListRecords() returns (all: seq<ObjectRecord>)
      ensures |all| == |tmpRecordList| + |recordList|
      ensures forall i :: 0 <= i < |all| ==> all[i] == (tmpRecordList + recordList)[i].record
    {
      all := [];
      for i := 0 to |tmpRecordList|
        invariant |all| == i && forall j :: 0 <= j < i ==> all[j] == tmpRecordList[j].record
      {
        all := all + [tmpRecordList[i].record];
      }
      for i := 0 to |recordList|
        invariant |all| == |tmpRecordList| + i
        invariant forall j :: 0 <= j < |all| ==> all[j] == (tmpRecordList + recordList)[j].record
      {
        all := all + [recordList[i].record];
      }
    }
  }

  lemma RemoveFirst(h: Held, offset: Offset)
    requires h.records != [] && Less(h.records[0].offset, offset)
    ensures Removed(h, offset)
         == Removed(h.(records := h.records[1..], stat := Minus(h.stat, Delta(h.records[0].record))), offset)
  {
    var n := CountBelow(h.records, offset);
    assert h.records[..n][1..] == h.records[1..][..n - 1];
  }

  // ----- The statistic is conserved

  /** A container together with the records that were extracted and not reverted, and those that a flush
      dropped from its list. */
  datatype Life = Life(held: Held, out: seq<Pending>, skipped: seq<Pending>)

  datatype Op =
    | AddOp(added: Pending)
    | StartFlushOp
    | SkipOp(upTo: Offset)
    | ReleaseOp
    | RemoveOp(below: Offset)
    | ExtractOp
    | RevertOp(index: nat)

  // Releasing needs a record to be flushed, reverting one that was extracted.
  predicate CanApply(l: Life, op: Op) {
    match op
    case ReleaseOp => l.held.flushing != []
    case RevertOp(i) => i < |l.out|
    case _ => true
  }

  function Apply(l: Life, op: Op): Life
    requires CanApply(l, op)
  {
    match op
    case AddOp(p) => l.(held := Added(l.held, p))
    case StartFlushOp => l.(held := Swapped(l.held))
    case SkipOp(offset) =>
      l.(held := Skipped(l.held, offset), skipped := l.skipped + l.held.flushing[..CountUpTo(l.held.flushing, offset)])
    case ReleaseOp => l.(held := Released(l.held))
    case RemoveOp(offset) => l.(held := Removed(l.held, offset))
    case ExtractOp => l.(held := Extracted(l.held), out := l.out + l.held.records)
    case RevertOp(i) => l.(held := Reverted(l.held, l.out[i]), out := l.out[..i] + l.out[i + 1..])
  }

  predicate CanApplyAll(l: Life, ops: seq<Op>)
    decreases |ops|
  {
    ops != [] ==> CanApply(l, ops[0]) && CanApplyAll(Apply(l, ops[0]), ops[1..])
  }

  function RunOps(l: Life, ops: seq<Op>): Life
    requires CanApplyAll(l, ops)
    decreases |ops|
  {
    if ops == [] then l else RunOps(Apply(l, ops[0]), ops[1..])
  }

  function Owed(l: Life): Stat {
    Plus(Plus(Total(l.held.records), Total(l.held.flushing)), Plus(Total(l.out), Total(l.skipped)))
  }

  lemma ApplyKeepsStat(l: Life, op: Op)
    requires CanApply(l, op) && l.held.stat == Owed(l)
    ensures Apply(l, op).held.stat == Owed(Apply(l, op))
  {
    hide Total, Delta, CountUpTo, CountBelow;
    var h := l.held;
    TotalNone();
    match op
    case AddOp(p) =>
      TotalAppend(h.records, [p]);
      TotalOne(p);
    case StartFlushOp =>
    case SkipOp(offset) =>
      TotalSplit(h.flushing, CountUpTo(h.flushing, offset));
      TotalAppend(l.skipped, h.flushing[..CountUpTo(h.flushing, offset)]);
    case ReleaseOp =>
    case RemoveOp(offset) => TotalSplit(h.records, CountBelow(h.records, offset));
    case ExtractOp => TotalAppend(l.out, h.records);
    case RevertOp(i) =>
      TotalAppend(h.records, [l.out[i]]);
      TotalOne(l.out[i]);
      TotalWithout(l.out, i);
  }

  lemma TotalWithout(q: seq<Pending>, i: nat)
    requires i < |q|
    ensures Total(q) == Plus(Total(q[..i] + q[i + 1..]), Delta(q[i].record))
  {
    hide Total, Delta;
    TotalOne(q[i]);
    TotalAppend(q[..i], q[i + 1..]);
    TotalSplit(q, i);
    TotalSplit(q[i..], 1);
    assert q[i..][..1] == [q[i]] && q[i..][1..] == q[i + 1..];
  }

  /** After every run the statistic is the sum over the records that are pending, being flushed, extracted
      and not reverted, or dropped by a flush. */
  lemma {:induction false} RunKeepsStat(l: Life, ops: seq<Op>)
    requires l.held.stat == Owed(l) && CanApplyAll(l, ops)
    ensures RunOps(l, ops).held.stat == Owed(RunOps(l, ops))
    decreases |ops|
  {
    if ops != [] {
      ApplyKeepsStat(l, ops[0]);
      RunKeepsStat(Apply(l, ops[0]), ops[1..]);
    }
  }

  /** A new container starts in balance. */
  lemma NewHeldIsBalanced(p: Pending, prev: Offset)
    ensures var l := Life(NewHeld(p, prev), [], []); l.held.stat == Owed(l)
  {
    hide Total, Delta;
    TotalNone();
    ApplyKeepsStat(Life(Held([], [], prev, NO_STAT), [], []), AddOp(p));
  }

  /** What the statistic is meant to be: the sum over what is pending, being flushed, or extracted. */
  function Meant(l: Life): Stat {
    Plus(Plus(Total(l.held.records), Total(l.held.flushing)), Total(l.out))
  }

  /** The statistic is off by exactly what the flushes have dropped, so it is what it is meant to be exactly
      when the dropped records cancel out. */
  lemma StatIsMeantIff(l: Life, ops: seq<Op>)
    requires l.held.stat == Owed(l) && CanApplyAll(l, ops)
    ensures var l' := RunOps(l, ops);
            && l'.held.stat == Plus(Meant(l'), Total(l'.skipped))
            && (l'.held.stat == Meant(l') <==> Total(l'.skipped) == NO_STAT)
  {
    hide Total, RunOps, CanApplyAll;
    RunKeepsStat(l, ops);
  }

  predicate Ascends(q: seq<Pending>) {
    forall i, j :: 0 <= i < j < |q| ==> AtMost(q[i].offset, q[j].offset)
  }

  /** A flush whose records are all in the info file already leaves nothing to release, although it releases. */
  lemma NothingToReleaseIff(h: Held, offset: Offset)
    requires h.flushing != [] && Ascends(h.flushing)
    ensures Skipped(h, offset).flushing == [] <==> AtMost(h.flushing[|h.flushing| - 1].offset, offset)
  {
    var n := CountUpTo(h.flushing, offset);
    if n < |h.flushing| {
      assert AtMost(h.flushing[n].offset, h.flushing[|h.flushing| - 1].offset) || n == |h.flushing| - 1;
    }
  }
}
