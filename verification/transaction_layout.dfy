/** Where the reader starts: the division finds the checkpoint that the records of the journal have. */
module TransactionLayout {
  import opened LockTable
  import opened TransactionHistory
  import opened TransactionJournal
  import TransactionRecovery
  import Layout = JournalLayout

  // One record to write, with the memory of that moment and the sizes that its pieces have.
  datatype Write = Write(event: Event, table: Table, lastWritten: int, sizes: Layout.Sizes)

  /** Which kind of write the offsets make it. */
  function KindOf(w: Layout.Writer, s: Layout.Sizes, max: int): Kind {
    if Layout.Length(w.file) == 0 || Layout.MustRotate(w.file, s.record, max) then Rotated
    else if Layout.MustCheckpoint(w, s.record, max) then AtCheckpoint
    else Plain
  }

  // The newest file as entries and as pieces.
  datatype Journal = Journal(entries: seq<Entry>, pieces: Layout.Writer)

  function Wrote(j: Journal, x: Write, interval: nat, max: int): Journal {
    Journal(Appended(j.entries, x.table, x.lastWritten, x.event, KindOf(j.pieces, x.sizes, max)),
            Layout.Written(j.pieces, x.sizes, interval, max))
  }

  function WroteAll(j: Journal, xs: seq<Write>, interval: nat, max: int): Journal
    decreases |xs|
  {
    if xs == [] then j else WroteAll(Wrote(j, xs[0], interval, max), xs[1..], interval, max)
  }

  // How many records are behind the last checkpoint; -1 without one.
  function EntriesBehind(entries: seq<Entry>): int {
    var k := LastCheckpoint(entries);
    if k < 0 then -1 else |entries| - 1 - k
  }

  function PiecesBehind(file: seq<Layout.Piece>): int {
    if file == [] then -1 else
      var before, kind := PiecesBehind(file[..|file| - 1]), file[|file| - 1].kind;
      if kind == Layout.Checkpoint then 0 else if before >= 0 && kind == Layout.Record then before + 1 else before
  }

  ghost predicate Agree(j: Journal) {
    && EntriesBehind(j.entries) == PiecesBehind(j.pieces.file)
    && (Layout.LastCheckpoint(j.pieces.file) > 0 <==> PiecesBehind(j.pieces.file) >= 0)
  }

  lemma OneMorePiece(file: seq<Layout.Piece>, p: Layout.Piece)
    ensures PiecesBehind(file + [p]) ==
              if p.kind == Layout.Checkpoint then 0
              else if PiecesBehind(file) >= 0 && p.kind == Layout.Record then PiecesBehind(file) + 1
              else PiecesBehind(file)
  {
    assert (file + [p])[..|file|] == file;
  }

  lemma OneMoreEntry(entries: seq<Entry>, e: Entry)
    ensures EntriesBehind(entries + [e]) ==
              if e.Checkpoint? then 0 else if EntriesBehind(entries) >= 0 then EntriesBehind(entries) + 1 else -1
    ensures EntriesBehind(entries) >= -1
  {
    assert (entries + [e])[..|entries|] == entries;
  }

  lemma SnapshotHasNone(t: Table, lastWritten: int, e: Event)
    ensures EntriesBehind(Snapshot(t, lastWritten) + [Record(e)]) == -1
  {
    var file := Snapshot(t, lastWritten) + [Record(e)];
    forall entry | entry in file ensures !entry.Checkpoint? {
    }
    TransactionRecovery.NoCheckpoint(file);
  }

  lemma FirstPieces(s: Layout.Sizes)
    ensures var file := [Layout.Piece(Layout.Snapshot, s.snapshot), Layout.Piece(Layout.Record, s.record)];
            PiecesBehind(file) == -1 && Layout.LastCheckpoint(file) == 0
  {
    var p, q := Layout.Piece(Layout.Snapshot, s.snapshot), Layout.Piece(Layout.Record, s.record);
    OneMorePiece([], p);
    OneMorePiece([p], q);
    Layout.LengthOneMore([], p);
    Layout.LengthOneMore([p], q);
    assert [] + [p] == [p] && [p] + [q] == [p, q];
  }

  lemma WroteAgrees(j: Journal, x: Write, interval: nat, max: int)
    requires Agree(j) && (j.pieces.file != [] ==> Layout.Length(j.pieces.file) > 0)
    ensures Agree(Wrote(j, x, interval, max))
  {
    hide Snapshot, LastCheckpoint, EntriesBehind, PiecesBehind, Layout.LastCheckpoint, Layout.Length;
    var w, s := j.pieces, x.sizes;
    match KindOf(w, s, max)
    case Rotated =>
      SnapshotHasNone(x.table, x.lastWritten, x.event);
      FirstPieces(s);
      Layout.EmptyLength();
      var pair := [Layout.Piece(Layout.Snapshot, s.snapshot), Layout.Piece(Layout.Record, s.record)];
      assert [] + pair == pair;
    case AtCheckpoint => CheckpointAgrees(j, x, interval, max);
    case Plain =>
      OneMoreEntry(j.entries, Record(x.event));
      OneMorePiece(w.file, Layout.Piece(Layout.Record, s.record));
      Layout.LengthOneMore(w.file, Layout.Piece(Layout.Record, s.record));
  }

  lemma CheckpointAgrees(j: Journal, x: Write, interval: nat, max: int)
    requires Agree(j) && KindOf(j.pieces, x.sizes, max) == AtCheckpoint
    ensures Agree(Wrote(j, x, interval, max))
  {
    hide LastCheckpoint, EntriesBehind, PiecesBehind, Layout.LastCheckpoint, Layout.Length, ActiveIds;
    var w, s, e := j.pieces, x.sizes, Checkpoint(x.lastWritten, ActiveIds(x.table));
    var padded := Layout.Padded(w.file, w.nextCheckpoint - Layout.Length(w.file));
    var p, q := Layout.Piece(Layout.Checkpoint, s.checkpoint), Layout.Piece(Layout.Record, s.record);
    OneMoreEntry(j.entries, e);
    OneMoreEntry(j.entries + [e], Record(x.event));
    assert j.entries + [e] + [Record(x.event)] == j.entries + [e, Record(x.event)];
    PaddedLength(w.file, w.nextCheckpoint - Layout.Length(w.file));
    OneMorePiece(padded, p);
    OneMorePiece(padded + [p], q);
    Layout.LengthTwoMore(padded, p, q);
    assert padded + [p] + [q] == padded + [p, q];
  }

  lemma PaddedLength(file: seq<Layout.Piece>, bytes: int)
    ensures Layout.Length(Layout.Padded(file, bytes)) >= Layout.Length(file)
  {
    if bytes >= 0 {
      Layout.LengthOneMore(file, Layout.Piece(Layout.Padding, bytes));
    }
  }

  lemma {:induction false} WroteAllAgrees(j: Journal, xs: seq<Write>, interval: nat, max: int)
    requires Agree(j) && Layout.LaidOut(j.pieces, interval)
    requires forall i :: 0 <= i < |xs| ==> Layout.Small(xs[i].sizes, interval)
    ensures var j' := WroteAll(j, xs, interval, max); Agree(j') && Layout.LaidOut(j'.pieces, interval)
    decreases |xs|
  {
    hide Agree, Layout.Small, Layout.AllFit, Layout.Written;
    if xs != [] {
      WroteAgrees(j, xs[0], interval, max);
      Layout.WriteKeepsLayout(j.pieces, xs[0].sizes, interval, max);
      WroteAllAgrees(Wrote(j, xs[0], interval, max), xs[1..], interval, max);
    }
  }

  /** After every run of writes from an empty file, whose kinds the offsets decide: the reader's division gives
      0 exactly when the file has no checkpoint, and otherwise the place behind which there are as many
      records as behind the last checkpoint. */
  lemma ReaderStartsAtCheckpoint(xs: seq<Write>, interval: nat, max: int)
    requires interval > 1 && forall i :: 0 <= i < |xs| ==> Layout.Small(xs[i].sizes, interval)
    ensures var j := WroteAll(Journal([], Layout.Writer([], interval, 0, [])), xs, interval, max);
            var offset := Layout.CheckpointOffset(Layout.Length(j.pieces.file), interval);
            && offset == Layout.LastCheckpoint(j.pieces.file)
            && (offset == 0 <==> LastCheckpoint(j.entries) == -1)
            && (offset > 0 ==> PiecesBehind(j.pieces.file) == |j.entries| - 1 - LastCheckpoint(j.entries))
  {
    hide Layout.Small, Layout.Length, Layout.LastCheckpoint, Layout.CheckpointOffset, Layout.AllFit;
    var start := Journal([], Layout.Writer([], interval, 0, []));
    Layout.EmptyLength();
    NothingWritten();
    WroteAllAgrees(start, xs, interval, max);
    var sizes := seq(|xs|, i requires 0 <= i < |xs| => xs[i].sizes);
    PiecesAre(start, xs, sizes, interval, max);
    Layout.ReaderFindsCheckpoint(sizes, interval, max);
  }

  lemma NothingWritten()
    ensures EntriesBehind([]) == -1 && PiecesBehind([]) == -1 && Layout.LastCheckpoint([]) == 0
  {
  }

  lemma {:induction false} PiecesAre(j: Journal, xs: seq<Write>, sizes: seq<Layout.Sizes>, interval: nat, max: int)
    requires |sizes| == |xs| && forall i :: 0 <= i < |xs| ==> sizes[i] == xs[i].sizes
    ensures WroteAll(j, xs, interval, max).pieces == Layout.RunWrites(j.pieces, sizes, interval, max)
    decreases |xs|
  {
    hide Appended, Layout.Written;
    if xs != [] {
      PiecesAre(Wrote(j, xs[0], interval, max), xs[1..], sizes[1..], interval, max);
    }
  }
}
