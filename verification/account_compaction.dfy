/** The compaction of an account goes through the same sorter as that of a container. */
module AccountCompaction {
  import opened Names
  import Account = AccountInfo
  import Info = ContainerInfo
  import opened ContainerMemory
  import opened InfoView
  import opened InfoFileSorting

  type Row = Account.Row

  // A row as the sorter sees it: its name, whether it is deleted, and here the row's number as its contents.
  function Seen(rows: seq<Row>, i: nat): Record
    requires i < |rows|
  {
    ObjectRecord(rows[i].name, if rows[i].deleted then Delete else Add, i, 0)
  }

  function SeenFrom(rows: seq<Row>, from: nat, n: nat): seq<Record>
    requires from <= n <= |rows|
  {
    seq(n - from, k requires 0 <= k < n - from => Seen(rows, from + k))
  }

  // The file as the sorter's iterators see it: `n` sorted rows and the tail.
  function SeenFile(rows: seq<Row>, n: nat): Info.InfoFile
    requires n <= |rows|
  {
    Info.InfoFile(SeenFrom(rows, 0, n), SeenFrom(rows, n, |rows|), NO_STAT, Offset(0, 0))
  }

  // The rows that stand behind records of the sorter.
  function Behind(rows: seq<Row>, q: seq<Record>): seq<Row>
    requires forall k :: 0 <= k < |q| ==> q[k].size < |rows|
  {
    seq(|q|, k requires 0 <= k < |q| => rows[q[k].size])
  }

  lemma SeenIsWellFormed(rows: seq<Row>, n: nat)
    requires n <= |rows| && Account.Ascending(rows[..n]) && forall i :: 0 <= i < |rows| ==> IsName(rows[i].name)
    ensures var f := SeenFile(rows, n); Info.WellFormed(f) && f.sorted + f.unsorted == SeenFrom(rows, 0, |rows|)
  {
    var f := SeenFile(rows, n);
    forall i, j | 0 <= i < j < n ensures Before(f.sorted[i].name, f.sorted[j].name) {
      assert rows[..n][i] == rows[i] && rows[..n][j] == rows[j];
    }
    assert f.sorted + f.unsorted == SeenFrom(rows, 0, |rows|) by {
      assert forall k :: 0 <= k < |rows| ==> (f.sorted + f.unsorted)[k] == Seen(rows, k);
    }
  }

  lemma SeenIsLiveIff(rows: seq<Row>, r: Record)
    requires Account.OnlyNewestLive(rows)
    ensures IsLive(SeenFrom(rows, 0, |rows|), r)
       <==> r.size < |rows| && r == Seen(rows, r.size) && !rows[r.size].deleted
  {
    var log := SeenFrom(rows, 0, |rows|);
    if IsLive(log, r) {
      var i :| 0 <= i < |log| && CurrentAt(log, i, r);
      assert r == Seen(rows, i);
    }
    if r.size < |rows| && r == Seen(rows, r.size) && !rows[r.size].deleted {
      assert CurrentAt(log, r.size, r);
    }
  }

  lemma {:induction false} AscendingRowsUnique(a: seq<Row>, b: seq<Row>)
    requires Account.Ascending(a) && Account.Ascending(b) && forall x :: x in a <==> x in b
    ensures a == b
    decreases |a|
  {
    HasFirstRow(a);
    HasFirstRow(b);
    if a != [] {
      FirstRowsSame(a, b);
      forall x ensures x in a[1..] <==> x in b[1..] {
        RestOfRows(a, x);
        RestOfRows(b, x);
      }
      AscendingRowsUnique(a[1..], b[1..]);
      assert a == [a[0]] + a[1..] && b == [b[0]] + b[1..];
    }
  }

  lemma HasFirstRow(a: seq<Row>)
    ensures a == [] || a[0] in a
  {
  }

  lemma FirstRowsSame(a: seq<Row>, b: seq<Row>)
    requires Account.Ascending(a) && Account.Ascending(b) && a != [] && b != [] && a[0] in b && b[0] in a
    ensures a[0] == b[0]
  {
    BeforeTotal(a[0].name, b[0].name);
  }

  lemma RestOfRows(a: seq<Row>, x: Row)
    requires Account.Ascending(a) && a != []
    ensures x in a[1..] <==> x in a && x != a[0]
  {
    BeforeIrreflexive(a[0].name);
    assert a == [a[0]] + a[1..];
    assert forall i :: 0 < i < |a| ==> a[i] != a[0];
  }

  /** What the sorter's merge leaves of the rows, without the deleted ones, are the rows that a compaction of
      the account keeps, in the same order. */
  lemma MergeIsCompaction(rows: seq<Row>, n: nat)
    requires n <= |rows| && Account.Ascending(rows[..n]) && Account.OnlyNewestLive(rows)
    requires forall i :: 0 <= i < |rows| ==> IsName(rows[i].name)
    ensures var q := Info.View(SeenFile(rows, n));
            && (forall k :: 0 <= k < |q| ==> q[k].size < |rows|)
            && Behind(rows, q) == Account.Compacted(rows)
  {
    hide Info.View, IsLive, Account.Compacted, Account.OnlyNewestLive;
    var f := SeenFile(rows, n);
    var q := Info.View(f);
    SeenIsWellFormed(rows, n);
    Info.ViewIsLive(f);
    forall r ensures r in q <==> r.size < |rows| && r == Seen(rows, r.size) && !rows[r.size].deleted {
      SeenIsLiveIff(rows, r);
    }
    assert forall k :: 0 <= k < |q| ==> q[k] in q;
    var kept, live := Behind(rows, q), Account.Compacted(rows);
    Account.CompactedIsLive(rows);
    BehindAscends(rows, q);
    forall x ensures x in kept <==> x in live {
      if x in rows && !x.deleted {
        var i :| 0 <= i < |rows| && rows[i] == x;
        assert Seen(rows, i) in q;
        var k :| 0 <= k < |q| && q[k] == Seen(rows, i);
        assert kept[k] == x;
      }
    }
    AscendingRowsUnique(kept, live);
  }

  lemma BehindAscends(rows: seq<Row>, q: seq<Record>)
    requires Ascending(q)
    requires forall k :: 0 <= k < |q| ==> q[k].size < |rows| && q[k] == Seen(rows, q[k].size)
    ensures Account.Ascending(Behind(rows, q))
  {
  }
}
