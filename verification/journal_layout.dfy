/** The layout of a journal file, and why one division gives the reader the offset of its last checkpoint. */
module JournalLayout {

  datatype Kind = Snapshot | Checkpoint | Record | Padding

  datatype Piece = Piece(kind: Kind, size: nat)

  // The sizes that one write may need; the snapshot and the checkpoint depend on the memory.
  datatype Sizes = Sizes(record: nat, snapshot: nat, checkpoint: nat)

  // A file that the writer has left, under its id.
  datatype Closed = Closed(fileId: nat, file: seq<Piece>)

  datatype Writer = Writer(file: seq<Piece>, nextCheckpoint: int, fileId: nat, closed: seq<Closed>)

  function Length(file: seq<Piece>): nat {
    if file == [] then 0 else Length(file[..|file| - 1]) + file[|file| - 1].size
  }

  function StartOf(file: seq<Piece>, i: nat): nat
    requires i < |file|
  {
    Length(file[..i])
  }

  // Inserting a negative amount of padding does nothing.
  function Padded(file: seq<Piece>, bytes: int): seq<Piece> {
    if bytes < 0 then file else file + [Piece(Padding, bytes)]
  }

  predicate MustRotate(file: seq<Piece>, size: nat, max: int) {
    file != [] && Length(file) > 0 && max - Length(file) < size
  }

  predicate MustCheckpoint(w: Writer, size: nat, max: int) {
    Length(w.file) > 0 && !MustRotate(w.file, size, max) && w.nextCheckpoint - Length(w.file) <= size
  }

  function Written(w: Writer, s: Sizes, interval: nat, max: int): Writer {
    if Length(w.file) == 0 then
      w.(file := w.file + [Piece(Snapshot, s.snapshot), Piece(Record, s.record)], nextCheckpoint := interval)
    else if MustRotate(w.file, s.record, max) then
      Writer([Piece(Snapshot, s.snapshot), Piece(Record, s.record)], interval, w.fileId + 1,
             w.closed + [Closed(w.fileId, Padded(w.file, max - Length(w.file)))])
    else if MustCheckpoint(w, s.record, max) then
      w.(file := Padded(w.file, w.nextCheckpoint - Length(w.file)) + [Piece(Checkpoint, s.checkpoint), Piece(Record, s.record)],
         nextCheckpoint := w.nextCheckpoint + interval)
    else w.(file := w.file + [Piece(Record, s.record)])
  }

  class JournalWriteHandler {
    const checkpointInterval: nat
    const maxFileLength: int
    var file: seq<Piece>
    var currentOffset: nat
    var nextCheckpointOffset: int
    var activeFileId: nat
    var closedFiles: seq<Closed>

    ghost predicate Valid()
      reads this
    {
      currentOffset == Length(file)
    }

    ghost function Model(): Writer
      reads this
    {
      Writer(file, nextCheckpointOffset, activeFileId, closedFiles)
    }

    constructor (interval: nat, maxLength: int)
      ensures Valid() && checkpointInterval == interval && maxFileLength == maxLength
      ensures Model() == Writer([], interval, 0, [])
    {
      checkpointInterval, maxFileLength := interval, maxLength;
      file, currentOffset, nextCheckpointOffset, activeFileId, closedFiles := [], 0, interval, 0, [];
    }

    method Append(kind: Kind, size: nat)
      requires Valid()
      modifies this`file, this`currentOffset
      ensures Valid() && file == old(file) + [Piece(kind, size)]
    {
      LengthOneMore(file, Piece(kind, size));
      file := file + [Piece(kind, size)];
      currentOffset := currentOffset + size;
    }

    method AddPaddingBytes(bytes: int)
      requires Valid()
      modifies this`file, this`currentOffset
      ensures Valid() && file == Padded(old(file), bytes)
    {
      if bytes >= 0 {
        Append(Padding, bytes);
      }
    }

    method ProcessSnapshot(size: nat)
      requires Valid()
      modifies this`file, this`currentOffset, this`nextCheckpointOffset
      ensures Valid() && file == old(file) + [Piece(Snapshot, size)] && nextCheckpointOffset == checkpointInterval
    {
      Append(Snapshot, size);
      nextCheckpointOffset := checkpointInterval;
    }

    method Write(s: Sizes)
      requires Valid()
      modifies this
      ensures Valid() && Model() == Written(old(Model()), s, checkpointInterval, maxFileLength)
    {
      hide Length, Padded;
      EmptyLength();
      var offset := currentOffset;
      if offset == 0 {
        ProcessSnapshot(s.snapshot);
      } else if maxFileLength - offset < s.record {
        AddPaddingBytes(maxFileLength - offset);
        closedFiles := closedFiles + [Closed(activeFileId, file)];
        activeFileId, file, currentOffset := activeFileId + 1, [], 0;
        ProcessSnapshot(s.snapshot);
      } else if nextCheckpointOffset - offset <= s.record && offset > 0 {
        AddPaddingBytes(nextCheckpointOffset - offset);
        Append(Checkpoint, s.checkpoint);
        nextCheckpointOffset := nextCheckpointOffset + checkpointInterval;
      }
      Append(Record, s.record);
    }
  }

  // ----- The reader

  // Division as the code has it, towards zero.
  function Quotient(a: int, b: int): int
    requires b > 0
  {
    if a >= 0 then a / b else -((-a) / b)
  }

  /** Where the reader looks for the last checkpoint of a file of this length. */
  function CheckpointOffset(length: nat, interval: nat): int
    requires interval > 0
  {
    Quotient(length - 1, interval) * interval
  }

  /** Where the last checkpoint is; 0 if the file has none. */
  function LastCheckpoint(file: seq<Piece>): nat {
    if file == [] then 0
    else if file[|file| - 1].kind == Checkpoint then Length(file[..|file| - 1])
    else LastCheckpoint(file[..|file| - 1])
  }

  // ----- Arithmetic

  lemma LengthOneMore(file: seq<Piece>, p: Piece)
    ensures Length(file + [p]) == Length(file) + p.size
    ensures LastCheckpoint(file + [p]) == if p.kind == Checkpoint then Length(file) else LastCheckpoint(file)
  {
    assert (file + [p])[..|file|] == file;
  }

  lemma EmptyLength()
    ensures Length([]) == 0
  {
  }

  lemma LengthTwoMore(file: seq<Piece>, p: Piece, q: Piece)
    ensures Length(file + [p, q]) == Length(file) + p.size + q.size
    ensures q.kind != Checkpoint ==>
              LastCheckpoint(file + [p, q]) == if p.kind == Checkpoint then Length(file) else LastCheckpoint(file)
  {
    LengthOneMore(file, p);
    LengthOneMore(file + [p], q);
    assert file + [p, q] == file + [p] + [q];
  }

  lemma QuotientIs(x: nat, interval: nat, c: nat)
    requires interval > 0 && c * interval <= x < (c + 1) * interval
    ensures x / interval == c
  {
    if x / interval < c {
      Multiples(x / interval + 1, c, interval);
    } else if x / interval > c {
      Multiples(c + 1, x / interval, interval);
    }
  }

  lemma OffsetIs(length: nat, interval: nat, c: nat)
    requires interval > 0 && c * interval < length <= (c + 1) * interval
    ensures CheckpointOffset(length, interval) == c * interval
  {
    QuotientIs(length - 1, interval, c);
  }

  // ----- The layout

  /** A piece lies within one interval, and a checkpoint at its start. */
  ghost predicate WithinInterval(start: nat, p: Piece, interval: nat, k: nat) {
    && k * interval <= start && start + p.size <= (k + 1) * interval
    && (p.kind == Checkpoint ==> start == k * interval && 0 < k)
  }

  ghost predicate PieceFits(file: seq<Piece>, i: nat, interval: nat)
    requires i < |file|
  {
    file[i].kind == Padding || exists k :: WithinInterval(StartOf(file, i), file[i], interval, k)
  }

  ghost predicate AllFit(file: seq<Piece>, interval: nat) {
    forall i :: 0 <= i < |file| ==> PieceFits(file, i, interval)
  }

  /** The file ends inside interval `c`, at whose start its last checkpoint is. */
  ghost predicate InInterval(w: Writer, interval: nat, c: nat) {
    && c * interval < Length(w.file) < (c + 1) * interval
    && w.nextCheckpoint == (c + 1) * interval
    && LastCheckpoint(w.file) == c * interval
  }

  ghost predicate LaidOut(w: Writer, interval: nat) {
    w.file == [] || (AllFit(w.file, interval) && exists c: nat :: InInterval(w, interval, c))
  }

  predicate Small(s: Sizes, interval: nat) {
    0 < s.record && 0 < s.snapshot && 0 < s.checkpoint
    && s.snapshot + s.record < interval && s.checkpoint + s.record < interval
  }

  lemma FitOneMore(file: seq<Piece>, p: Piece, interval: nat, k: nat)
    requires AllFit(file, interval) && (p.kind == Padding || WithinInterval(Length(file), p, interval, k))
    ensures AllFit(file + [p], interval)
  {
    var file' := file + [p];
    forall i | 0 <= i < |file'| ensures PieceFits(file', i, interval) {
      assert file'[..i] == file[..i];
      if i < |file| {
        assert PieceFits(file, i, interval);
        if file[i].kind != Padding {
          var j :| WithinInterval(StartOf(file, i), file[i], interval, j);
          assert WithinInterval(StartOf(file', i), file'[i], interval, j);
        }
      } else {
        assert file[..i] == file;
        assert p.kind != Padding ==> WithinInterval(StartOf(file', i), p, interval, k);
      }
    }
  }

  lemma FirstFit(s: Sizes, interval: nat)
    requires Small(s, interval)
    ensures var w := Writer([Piece(Snapshot, s.snapshot), Piece(Record, s.record)], interval, 0, []);
            AllFit(w.file, interval) && InInterval(w, interval, 0)
  {
    var p, q := Piece(Snapshot, s.snapshot), Piece(Record, s.record);
    FitOneMore([], p, interval, 0);
    LengthOneMore([], p);
    FitOneMore([p], q, interval, 0);
    LengthTwoMore([], p, q);
    assert [] + [p] == [p] && [p] + [q] == [p, q] && [] + [p, q] == [p, q];
  }

  lemma PlainFits(w: Writer, size: nat, interval: nat, c: nat)
    requires AllFit(w.file, interval) && InInterval(w, interval, c) && w.nextCheckpoint - Length(w.file) > size
    ensures var file := w.file + [Piece(Record, size)]; AllFit(file, interval) && InInterval(w.(file := file), interval, c)
  {
    FitOneMore(w.file, Piece(Record, size), interval, c);
    LengthOneMore(w.file, Piece(Record, size));
  }

  lemma CheckpointFits(w: Writer, s: Sizes, interval: nat, c: nat)
    requires AllFit(w.file, interval) && InInterval(w, interval, c) && Small(s, interval)
    ensures var padded := Padded(w.file, w.nextCheckpoint - Length(w.file));
            var file := padded + [Piece(Checkpoint, s.checkpoint), Piece(Record, s.record)];
            && Length(padded) == w.nextCheckpoint
            && AllFit(file, interval) && InInterval(w.(file := file, nextCheckpoint := w.nextCheckpoint + interval), interval, c + 1)
            && Length(file) == w.nextCheckpoint + s.checkpoint + s.record
  {
    var gap := Piece(Padding, w.nextCheckpoint - Length(w.file));
    var padded := w.file + [gap];
    var p, q := Piece(Checkpoint, s.checkpoint), Piece(Record, s.record);
    LengthOneMore(w.file, gap);
    assert (c + 2) * interval == (c + 1) * interval + interval;
    FitOneMore(w.file, gap, interval, 0);
    FitOneMore(padded, p, interval, c + 1);
    LengthOneMore(padded, p);
    FitOneMore(padded + [p], q, interval, c + 1);
    LengthTwoMore(padded, p, q);
    assert padded + [p] + [q] == padded + [p, q];
  }

  /** Every write keeps the layout, and bounds the file by the maximal length, a checkpoint and a record. */
  lemma WriteKeepsLayout(w: Writer, s: Sizes, interval: nat, max: int)
    requires LaidOut(w, interval) && Small(s, interval)
    ensures var w' := Written(w, s, interval, max);
            && LaidOut(w', interval) && w'.file != []
            && (Length(w'.file) <= max + s.checkpoint + s.record || Length(w'.file) < interval)
  {
    hide AllFit, InInterval;
    FirstFit(s, interval);
    var first := Writer([Piece(Snapshot, s.snapshot), Piece(Record, s.record)], interval, 0, []);
    if w.file == [] {
      assert w.file + first.file == first.file;
      NewFile(first, Written(w, s, interval, max), interval);
    } else {
      var c: nat :| InInterval(w, interval, c);
      InsideInterval(w, interval, c);
      if MustRotate(w.file, s.record, max) {
        NewFile(first, Written(w, s, interval, max), interval);
      } else {
        LengthOneMore(w.file, Piece(Record, s.record));
        if MustCheckpoint(w, s.record, max) {
          CheckpointFits(w, s, interval, c);
        } else {
          PlainFits(w, s.record, interval, c);
        }
      }
    }
  }

  lemma NewFile(first: Writer, w: Writer, interval: nat)
    requires AllFit(first.file, interval) && InInterval(first, interval, 0)
    requires w.file == first.file && w.nextCheckpoint == first.nextCheckpoint
    ensures LaidOut(w, interval) && 0 < Length(first.file) < interval
  {
    assert InInterval(w, interval, 0);
  }

  lemma InsideInterval(w: Writer, interval: nat, c: nat)
    requires InInterval(w, interval, c)
    ensures 0 < Length(w.file) < w.nextCheckpoint
  {
  }

  // ----- Runs

  function RunWrites(w: Writer, writes: seq<Sizes>, interval: nat, max: int): Writer
    decreases |writes|
  {
    if writes == [] then w else RunWrites(Written(w, writes[0], interval, max), writes[1..], interval, max)
  }

  lemma {:induction false} RunKeepsLayout(w: Writer, writes: seq<Sizes>, interval: nat, max: int)
    requires LaidOut(w, interval) && forall i :: 0 <= i < |writes| ==> Small(writes[i], interval)
    ensures LaidOut(RunWrites(w, writes, interval, max), interval)
    decreases |writes|
  {
    hide LaidOut, Written, Small;
    if writes != [] {
      WriteKeepsLayout(w, writes[0], interval, max);
      RunKeepsLayout(Written(w, writes[0], interval, max), writes[1..], interval, max);
    }
  }

  /** After any run of writes the division finds the last checkpoint, and no piece crosses an interval. */
  lemma ReaderFindsCheckpoint(writes: seq<Sizes>, interval: nat, max: int)
    requires interval > 1 && forall i :: 0 <= i < |writes| ==> Small(writes[i], interval)
    ensures var file := RunWrites(Writer([], interval, 0, []), writes, interval, max).file;
            && AllFit(file, interval)
            && CheckpointOffset(Length(file), interval) == LastCheckpoint(file)
  {
    hide AllFit;
    var w := RunWrites(Writer([], interval, 0, []), writes, interval, max);
    RunKeepsLayout(Writer([], interval, 0, []), writes, interval, max);
    NothingFits(interval);
    if w.file != [] {
      var c: nat :| InInterval(w, interval, c);
      OffsetIs(Length(w.file), interval, c);
    }
  }

  lemma NothingFits(interval: nat)
    ensures AllFit([], interval)
  {
  }

  // ----- Crashes inside a write

  /** A crash inside a write that puts a checkpoint: the padding alone, or the checkpoint without the record. */
  lemma CrashAtCheckpoint(w: Writer, s: Sizes, interval: nat, max: int)
    requires LaidOut(w, interval) && w.file != [] && Small(s, interval) && MustCheckpoint(w, s.record, max)
    ensures var padded := Padded(w.file, w.nextCheckpoint - Length(w.file));
            var marked := padded + [Piece(Checkpoint, s.checkpoint)];
            && CheckpointOffset(Length(padded), interval) == LastCheckpoint(padded) == LastCheckpoint(w.file)
            && CheckpointOffset(Length(marked), interval) == LastCheckpoint(marked) == w.nextCheckpoint
  {
    hide AllFit;
    var c: nat :| InInterval(w, interval, c);
    var gap := Piece(Padding, w.nextCheckpoint - Length(w.file));
    LengthOneMore(w.file, gap);
    LengthOneMore(w.file + [gap], Piece(Checkpoint, s.checkpoint));
    assert (c + 2) * interval == (c + 1) * interval + interval;
    OffsetIs((c + 1) * interval, interval, c);
    OffsetIs((c + 1) * interval + s.checkpoint, interval, c + 1);
  }

  /** A crash after the snapshot alone. */
  lemma CrashAtSnapshot(s: Sizes, interval: nat)
    requires Small(s, interval)
    ensures var file := [Piece(Snapshot, s.snapshot)];
            CheckpointOffset(Length(file), interval) == LastCheckpoint(file) == 0
  {
    LengthOneMore([], Piece(Snapshot, s.snapshot));
    assert [] + [Piece(Snapshot, s.snapshot)] == [Piece(Snapshot, s.snapshot)];
    OffsetIs(s.snapshot, interval, 0);
  }

  /** A crash after a rotation has padded the old file, while the new one is still empty: the reader then
      finds the last checkpoint exactly when the maximal length is not past the next checkpoint. */
  lemma CrashAtRotationIff(w: Writer, s: Sizes, interval: nat, max: int)
    requires LaidOut(w, interval) && w.file != [] && Small(s, interval) && MustRotate(w.file, s.record, max)
    ensures var padded := Padded(w.file, max - Length(w.file));
            CheckpointOffset(Length(padded), interval) == LastCheckpoint(padded) <==> max <= w.nextCheckpoint
  {
    hide AllFit;
    var c: nat :| InInterval(w, interval, c);
    if max < Length(w.file) {
      OffsetIs(Length(w.file), interval, c);
    } else {
      LengthOneMore(w.file, Piece(Padding, max - Length(w.file)));
      assert (c + 2) * interval == (c + 1) * interval + interval;
      if max <= w.nextCheckpoint {
        OffsetIs(max, interval, c);
      } else {
        OffsetIs(max, interval, c + 1);
      }
    }
  }

  /** With a maximal length that is a multiple of the interval this is always so. */
  lemma CrashAtRotation(w: Writer, s: Sizes, interval: nat, n: nat)
    requires LaidOut(w, interval) && w.file != [] && Small(s, interval) && MustRotate(w.file, s.record, n * interval)
    ensures var padded := Padded(w.file, n * interval - Length(w.file));
            CheckpointOffset(Length(padded), interval) == LastCheckpoint(padded)
  {
    hide AllFit;
    var c: nat :| InInterval(w, interval, c);
    NearestMultiple(Length(w.file), s.record, interval, n, c);
    Multiples(n, c + 1, interval);
    CrashAtRotationIff(w, s, interval, n * interval);
  }

  lemma NearestMultiple(length: nat, size: nat, interval: nat, n: nat, c: nat)
    requires length < (c + 1) * interval && n * interval - length < size < interval
    ensures n <= c + 1
  {
    if n >= c + 2 {
      Multiples(c + 2, n, interval);
    }
  }

  lemma Multiples(a: nat, b: nat, interval: nat)
    requires a <= b
    ensures a * interval <= b * interval
  {
  }

  /** With another maximal length the reader can look for a checkpoint in the middle of the padding. */
  lemma PaddingTakenForCheckpoint()
    ensures var w := Writer([Piece(Snapshot, 100), Piece(Record, 2895)], 3000, 0, []);
            var s := Sizes(100, 100, 100);
            && LaidOut(w, 3000) && Small(s, 3000) && MustRotate(w.file, s.record, 3040)
            && var padded := Padded(w.file, 3040 - Length(w.file));
               CheckpointOffset(Length(padded), 3000) == 3000 && LastCheckpoint(padded) == 0
  {
    var w := Writer([Piece(Snapshot, 100), Piece(Record, 2895)], 3000, 0, []);
    FirstFit(Sizes(2895, 100, 100), 3000);
    LengthTwoMore([], Piece(Snapshot, 100), Piece(Record, 2895));
    assert [] + w.file == w.file;
    LengthOneMore(w.file, Piece(Padding, 45));
  }

  // ----- The files that a run leaves

  /** A write goes on with the file, which then begins with what it held before; or it closes the file, padded
      up to the maximal length, and goes on with a new one under the next id. */
  lemma WriteGoesOnOrRotates(w: Writer, s: Sizes, interval: nat, max: int)
    ensures var w', full := Written(w, s, interval, max), 0 < Length(w.file) && max - Length(w.file) < s.record;
            && (!full ==> w'.fileId == w.fileId && w'.closed == w.closed && w.file < w'.file)
            && (full ==>
                  && w'.fileId == w.fileId + 1 && w'.file == [Piece(Snapshot, s.snapshot), Piece(Record, s.record)]
                  && |w'.closed| == |w.closed| + 1 && w'.closed[..|w.closed|] == w.closed
                  && w'.closed[|w.closed|].fileId == w.fileId && w.file <= w'.closed[|w.closed|].file
                  && Length(w'.closed[|w.closed|].file) == if max < Length(w.file) then Length(w.file) else max)
  {
    hide Length;
    EmptyLength();
    LengthOneMore(w.file, Piece(Padding, if max < Length(w.file) then 0 else max - Length(w.file)));
  }

  /** The id changes, by one, exactly when the old file is not the beginning of the new one. */
  lemma FileIdKeptIff(w: Writer, s: Sizes, interval: nat, max: int)
    requires |w.file| != 1
    ensures var w' := Written(w, s, interval, max);
            && (w'.fileId == w.fileId <==> w.file < w'.file)
            && (w'.fileId == w.fileId || w'.fileId == w.fileId + 1)
  {
    hide Length, Written;
    EmptyLength();
    WriteGoesOnOrRotates(w, s, interval, max);
  }

  /** The files that a run leaves have the ids from the first one on, one after the other, and the writer goes on
      with the id after them: the last id is the first one plus the number of rotations. */
  lemma {:induction false} RunNumbersFiles(w: Writer, writes: seq<Sizes>, interval: nat, max: int)
    ensures var w', n := RunWrites(w, writes, interval, max), |w.closed|;
            && |w'.closed| >= n && w'.closed[..n] == w.closed
            && (forall i :: n <= i < |w'.closed| ==> w'.closed[i].fileId == w.fileId + (i - n))
            && w'.fileId == w.fileId + (|w'.closed| - n)
    decreases |writes|
  {
    hide Written, Length;
    if writes != [] {
      var w1, n := Written(w, writes[0], interval, max), |w.closed|;
      WriteGoesOnOrRotates(w, writes[0], interval, max);
      RunNumbersFiles(w1, writes[1..], interval, max);
      var w' := RunWrites(w, writes, interval, max);
      assert w'.closed[..n] == w'.closed[..|w1.closed|][..n];
      if |w1.closed| > n {
        assert w'.closed[n] == w'.closed[..|w1.closed|][n];
      }
    }
  }

  /** No two of the files have the same id. */
  lemma FilesAreApart(writes: seq<Sizes>, interval: nat, max: int)
    ensures var w := RunWrites(Writer([], interval, 0, []), writes, interval, max);
            && (forall i, j :: 0 <= i < j < |w.closed| ==> w.closed[i].fileId != w.closed[j].fileId)
            && (forall i :: 0 <= i < |w.closed| ==> w.closed[i].fileId != w.fileId)
            && w.fileId == |w.closed|
  {
    RunNumbersFiles(Writer([], interval, 0, []), writes, interval, max);
  }

  // ----- A file that is reopened after a restart

  // A file as a run of writes or a crash inside a write leaves it; its end may be a multiple of the interval.
  ghost predicate Left(file: seq<Piece>, interval: nat, c: nat) {
    AllFit(file, interval) && c * interval < Length(file) <= (c + 1) * interval && LastCheckpoint(file) == c * interval
  }

  // The writer goes on with the file; it expects the next checkpoint after one interval again.
  function Reopened(file: seq<Piece>, id: nat, interval: nat): Writer {
    Writer(file, interval, id, [])
  }

  predicate Finds(file: seq<Piece>, interval: nat)
    requires interval > 0
  {
    CheckpointOffset(Length(file), interval) == LastCheckpoint(file)
  }

  predicate AllSmall(writes: seq<Sizes>, interval: nat) {
    forall i :: 0 <= i < |writes| ==> Small(writes[i], interval)
  }

  /** What a run of writes leaves is such a file, and so is what a crash leaves after the padding in front of
      a checkpoint. */
  lemma LaidOutIsLeft(w: Writer, interval: nat)
    requires LaidOut(w, interval) && w.file != []
    ensures exists c: nat :: Left(w.file, interval, c) && Left(Padded(w.file, w.nextCheckpoint - Length(w.file)), interval, c)
  {
    var c: nat :| InInterval(w, interval, c);
    var gap := Piece(Padding, w.nextCheckpoint - Length(w.file));
    LengthOneMore(w.file, gap);
    FitOneMore(w.file, gap, interval, c);
    hide AllFit;
    assert Left(w.file, interval, c) && Left(Padded(w.file, w.nextCheckpoint - Length(w.file)), interval, c);
  }

  // What the first write does when it puts a checkpoint at the very end of the file.
  lemma CheckpointAtEnd(file: seq<Piece>, id: nat, s: Sizes, interval: nat, max: int)
    requires interval <= Length(file) && 0 < Length(file) && !MustRotate(file, s.record, max)
    ensures var w' := Written(Reopened(file, id, interval), s, interval, max);
            && LastCheckpoint(w'.file) == Length(file) && Length(w'.file) == Length(file) + s.checkpoint + s.record
            && w'.nextCheckpoint == 2 * interval
  {
    var w := Reopened(file, id, interval);
    var padded := Padded(file, interval - Length(file));
    LengthOneMore(file, Piece(Padding, 0));
    LengthTwoMore(padded, Piece(Checkpoint, s.checkpoint), Piece(Record, s.record));
  }

  lemma OnlyMultiples(length: nat, size: nat, interval: nat)
    requires 0 < size < interval
    ensures CheckpointOffset(length + size, interval) == length <==> exists k: nat :: length == k * interval
  {
    var k := (length + size - 1) / interval;
    assert CheckpointOffset(length + size, interval) == k * interval;
    if j: nat :| length == j * interval {
      assert (j + 1) * interval == length + interval;
      OffsetIs(length + size, interval, j);
    }
  }

  /** The first write to a reopened file: the division still finds the last checkpoint exactly when the write
      goes to a new file, or the file was shorter than one interval or ended at a multiple of it. */
  lemma ReopenedFindsIff(file: seq<Piece>, id: nat, s: Sizes, interval: nat, max: int, c: nat)
    requires Left(file, interval, c) && Small(s, interval)
    ensures Finds(Written(Reopened(file, id, interval), s, interval, max).file, interval)
       <==> MustRotate(file, s.record, max) || Length(file) < interval || exists k: nat :: Length(file) == k * interval
  {
    hide AllFit, Written;
    if MustRotate(file, s.record, max) {
      WriteGoesOnOrRotates(Reopened(file, id, interval), s, interval, max);
      FirstFinds(s, interval);
    } else if Length(file) < interval {
      ShortGoesOn(file, id, s, interval, max, c);
    } else {
      CheckpointAtEnd(file, id, s, interval, max);
      OnlyMultiples(Length(file), s.checkpoint + s.record, interval);
    }
  }

  lemma FirstFinds(s: Sizes, interval: nat)
    requires Small(s, interval)
    ensures interval > 0 && Finds([Piece(Snapshot, s.snapshot), Piece(Record, s.record)], interval)
  {
    OffsetIs(s.snapshot + s.record, interval, 0);
    LengthTwoMore([], Piece(Snapshot, s.snapshot), Piece(Record, s.record));
    assert [] + [Piece(Snapshot, s.snapshot), Piece(Record, s.record)] == [Piece(Snapshot, s.snapshot), Piece(Record, s.record)];
  }

  // A file of at most one interval goes on as if it had not been reopened.
  lemma ShortGoesOn(file: seq<Piece>, id: nat, s: Sizes, interval: nat, max: int, c: nat)
    requires Left(file, interval, c) && Small(s, interval) && Length(file) <= interval
    ensures var w := Written(Reopened(file, id, interval), s, interval, max); LaidOut(w, interval) && Finds(w.file, interval)
  {
    hide AllFit;
    assert c == 0 by { if c > 0 { Multiples(1, c, interval); } }
    var w := Reopened(file, id, interval);
    if Length(file) < interval {
      assert InInterval(w, interval, 0);
      WriteKeepsLayout(w, s, interval, max);
    } else if MustRotate(file, s.record, max) {
      FirstFit(s, interval);
      NewFile(Writer([Piece(Snapshot, s.snapshot), Piece(Record, s.record)], interval, 0, []), Written(w, s, interval, max), interval);
    } else {
      FullIntervalGoesOn(file, id, s, interval, max);
    }
    LaidOutFinds(Written(w, s, interval, max), interval);
  }

  lemma LaidOutFinds(w: Writer, interval: nat)
    requires LaidOut(w, interval) && w.file != [] && interval > 0
    ensures Finds(w.file, interval)
  {
    hide AllFit;
    var c: nat :| InInterval(w, interval, c);
    OffsetIs(Length(w.file), interval, c);
  }

  lemma FullIntervalGoesOn(file: seq<Piece>, id: nat, s: Sizes, interval: nat, max: int)
    requires AllFit(file, interval) && Length(file) == interval && Small(s, interval) && !MustRotate(file, s.record, max)
    ensures LaidOut(Written(Reopened(file, id, interval), s, interval, max), interval)
  {
    var gap, p, q := Piece(Padding, 0), Piece(Checkpoint, s.checkpoint), Piece(Record, s.record);
    var padded := file + [gap];
    LengthOneMore(file, gap);
    FitOneMore(file, gap, interval, 0);
    FitOneMore(padded, p, interval, 1);
    LengthOneMore(padded, p);
    FitOneMore(padded + [p], q, interval, 1);
    LengthTwoMore(padded, p, q);
    assert padded + [p] + [q] == padded + [p, q];
    hide AllFit;
    var w := Written(Reopened(file, id, interval), s, interval, max);
    assert w.file == padded + [p, q] && InInterval(w, interval, 1);
  }

  /** The division finds the last checkpoint after every run of writes to a reopened file with some room left
      exactly when that file was no longer than one interval. */
  lemma ReopenedAlwaysFindsIff(file: seq<Piece>, id: nat, interval: nat, max: int, c: nat)
    requires Left(file, interval, c) && interval > 2 && Length(file) + 3 <= max
    ensures (forall writes :: writes != [] && AllSmall(writes, interval) ==>
               Finds(RunWrites(Reopened(file, id, interval), writes, interval, max).file, interval))
       <==> Length(file) <= interval
  {
    hide Left, Finds, AllSmall, RunWrites;
    if Length(file) <= interval {
      forall writes | writes != [] && AllSmall(writes, interval)
        ensures Finds(RunWrites(Reopened(file, id, interval), writes, interval, max).file, interval)
      {
        ShortAlwaysFinds(file, id, writes, interval, max, c);
      }
    } else {
      var writes := LongMisses(file, id, interval, max, c);
    }
  }

  lemma ShortAlwaysFinds(file: seq<Piece>, id: nat, writes: seq<Sizes>, interval: nat, max: int, c: nat)
    requires Left(file, interval, c) && Length(file) <= interval && writes != [] && AllSmall(writes, interval) && interval > 0
    ensures Finds(RunWrites(Reopened(file, id, interval), writes, interval, max).file, interval)
  {
    hide AllFit, LaidOut, Written, Finds, Small;
    var w := Written(Reopened(file, id, interval), writes[0], interval, max);
    ShortGoesOn(file, id, writes[0], interval, max, c);
    WrittenIsNotEmpty(Reopened(file, id, interval), writes[0], interval, max);
    RunKeepsLayout(w, writes[1..], interval, max);
    RunIsNotEmpty(w, writes[1..], interval, max);
    LaidOutFinds(RunWrites(w, writes[1..], interval, max), interval);
  }

  lemma WrittenIsNotEmpty(w: Writer, s: Sizes, interval: nat, max: int)
    ensures Written(w, s, interval, max).file != []
  {
  }

  lemma {:induction false} RunIsNotEmpty(w: Writer, writes: seq<Sizes>, interval: nat, max: int)
    requires w.file != []
    ensures RunWrites(w, writes, interval, max).file != []
    decreases |writes|
  {
    hide Written;
    if writes != [] {
      WrittenIsNotEmpty(w, writes[0], interval, max);
      RunIsNotEmpty(Written(w, writes[0], interval, max), writes[1..], interval, max);
    }
  }

  // One or two small writes are enough to mislead the reader.
  lemma LongMisses(file: seq<Piece>, id: nat, interval: nat, max: int, c: nat) returns (writes: seq<Sizes>)
    requires Left(file, interval, c) && interval > 2 && interval < Length(file) && Length(file) + 3 <= max
    ensures writes != [] && AllSmall(writes, interval)
    ensures !Finds(RunWrites(Reopened(file, id, interval), writes, interval, max).file, interval)
  {
    hide AllFit;
    var one := Sizes(1, 1, 1);
    var w := Reopened(file, id, interval);
    var w1 := Written(w, one, interval, max);
    CheckpointAtEnd(file, id, one, interval, max);
    OnlyMultiples(Length(file), 2, interval);
    assert RunWrites(w1, [], interval, max) == w1;
    if k: nat :| Length(file) == k * interval {
      Multiples(2, k, interval);
      var w2 := Written(w1, one, interval, max);
      SecondCheckpoint(w1, one, interval, max);
      OnlyMultiples(Length(w1.file), 2, interval);
      NotMultiple(k, interval);
      assert [one, one][1..] == [one] && [one][1..] == [];
      assert RunWrites(w2, [], interval, max) == w2 && RunWrites(w1, [one], interval, max) == w2;
      writes := [one, one];
    } else {
      assert [one][1..] == [];
      writes := [one];
    }
  }

  lemma SecondCheckpoint(w: Writer, s: Sizes, interval: nat, max: int)
    requires 0 <= w.nextCheckpoint < Length(w.file) && !MustRotate(w.file, s.record, max)
    ensures var w' := Written(w, s, interval, max);
            LastCheckpoint(w'.file) == Length(w.file) && Length(w'.file) == Length(w.file) + s.checkpoint + s.record
  {
    LengthTwoMore(w.file, Piece(Checkpoint, s.checkpoint), Piece(Record, s.record));
  }

  lemma NotMultiple(k: nat, interval: nat)
    requires interval > 2
    ensures forall j: nat :: j * interval != k * interval + 2
  {
    forall j: nat ensures j * interval != k * interval + 2 {
      if j > k {
        Multiples(k + 1, j, interval);
        assert (k + 1) * interval == k * interval + interval;
      } else {
        Multiples(j, k, interval);
      }
    }
  }

  // The file that two writes leave, the second with a checkpoint.
  lemma TwoWrites()
    ensures var file := RunWrites(Writer([], 3000, 0, []), [Sizes(2800, 100, 50), Sizes(2800, 100, 50)], 3000, 100000).file;
            file != [] && Length(file) == 5850
  {
    var s := Sizes(2800, 100, 50);
    var w1 := Written(Writer([], 3000, 0, []), s, 3000, 100000);
    LengthTwoMore([], Piece(Snapshot, 100), Piece(Record, 2800));
    assert Length(w1.file) == 2900;
    hide Length;
    LengthOneMore(w1.file, Piece(Padding, 100));
    var padded := w1.file + [Piece(Padding, 100)];
    LengthTwoMore(padded, Piece(Checkpoint, 50), Piece(Record, 2800));
    var w2 := Written(w1, s, 3000, 100000);
    assert w2.file == padded + [Piece(Checkpoint, 50), Piece(Record, 2800)];
    assert [s, s][1..] == [s] && [s][1..] == [];
    assert RunWrites(w2, [], 3000, 100000) == w2;
    assert RunWrites(w1, [s], 3000, 100000) == w2;
  }

  /** After a restart the reader can start inside a record. */
  lemma ReopenedReadsInsideRecord()
    ensures var file := RunWrites(Writer([], 3000, 0, []), [Sizes(2800, 100, 50), Sizes(2800, 100, 50)], 3000, 100000).file;
            var file' := Written(Reopened(file, 0, 3000), Sizes(200, 100, 50), 3000, 100000).file;
            && file' == file + [Piece(Checkpoint, 50), Piece(Record, 200)] && LastCheckpoint(file') == Length(file)
            && Length(file + [Piece(Checkpoint, 50)]) < CheckpointOffset(Length(file'), 3000) < Length(file')
  {
    hide RunWrites, Length;
    TwoWrites();
    var file := RunWrites(Writer([], 3000, 0, []), [Sizes(2800, 100, 50), Sizes(2800, 100, 50)], 3000, 100000).file;
    LengthOneMore(file, Piece(Checkpoint, 50));
    LengthTwoMore(file, Piece(Checkpoint, 50), Piece(Record, 200));
  }
}
