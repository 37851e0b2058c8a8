/** The info file of an account: a row for every container, in a sorted part and an unsorted tail, with a
    statistic over the live rows. */
module AccountInfo {
  import opened Names

  // A container's row; `deleted` rows stay until a compaction.
  datatype Row = Row(name: string, put: string, gone: string, objects: int, bytes: int, deleted: bool)

  datatype AccountStat = AccountStat(containers: int, objects: int, bytes: int)

  datatype Option<T> = None | Some(value: T)

  const NO_STAT := AccountStat(0, 0, 0)
  const MAX_UNSORTED := 5000
  const MAX_READ := 10000

  function Counted(stat: AccountStat, row: Row): AccountStat {
    if row.deleted then stat
    else AccountStat(stat.containers + 1, stat.objects + row.objects, stat.bytes + row.bytes)
  }

  /** The totals of the rows that are not deleted. */
  function Total(rows: seq<Row>): AccountStat {
    if rows == [] then NO_STAT else Counted(Total(rows[..|rows| - 1]), rows[|rows| - 1])
  }

  function Sum(a: AccountStat, b: AccountStat): AccountStat {
    AccountStat(a.containers + b.containers, a.objects + b.objects, a.bytes + b.bytes)
  }

  lemma TotalOneMore(rows: seq<Row>, row: Row)
    ensures Total(rows + [row]) == Counted(Total(rows), row)
  {
    assert (rows + [row])[..|rows|] == rows;
  }

  lemma CountedSum(a: AccountStat, b: AccountStat, row: Row)
    ensures Counted(Sum(a, b), row) == Sum(a, Counted(b, row))
  {
  }

  lemma SumNone(a: AccountStat)
    ensures Sum(NO_STAT, a) == a
  {
  }

  lemma TotalNone()
    ensures Total([]) == NO_STAT
  {
  }

  lemma TotalAppendNone(a: seq<Row>)
    ensures Total(a + []) == Sum(Total(a), Total([]))
  {
    assert a + [] == a;
  }

  lemma {:induction false} TotalAppend(a: seq<Row>, b: seq<Row>)
    ensures Total(a + b) == Sum(Total(a), Total(b))
    decreases |b|
  {
    hide Total, Sum, Counted;
    if b == [] {
      TotalAppendNone(a);
    } else {
      var rest, last := b[..|b| - 1], b[|b| - 1];
      TotalAppend(a, rest);
      TotalOneMore(a + rest, last);
      TotalOneMore(rest, last);
      CountedSum(Total(a), Total(rest), last);
      assert b == rest + [last] && a + b == a + rest + [last];
    }
  }

  // ----- The live view

  predicate HasRow(rows: seq<Row>, name: string) {
    exists i :: 0 <= i < |rows| && rows[i].name == name
  }

  /** Of several rows of a container only the newest may be live. */
  predicate OnlyNewestLive(rows: seq<Row>) {
    forall i, j :: 0 <= i < j < |rows| && rows[i].name == rows[j].name ==> rows[i].deleted
  }

  predicate Distinct(rows: seq<Row>) {
    forall i, j :: 0 <= i < j < |rows| ==> rows[i].name != rows[j].name
  }

  /** The live row of a container. */
  function LiveRow(rows: seq<Row>, name: string): Option<Row> {
    if rows == [] then None
    else
      var last := rows[|rows| - 1];
      if last.name == name && !last.deleted then Some(last) else LiveRow(rows[..|rows| - 1], name)
  }

  lemma {:induction false} LiveRowIs(rows: seq<Row>, name: string)
    ensures LiveRow(rows, name).Some? ==> exists i :: 0 <= i < |rows| && rows[i] == LiveRow(rows, name).value
    ensures LiveRow(rows, name).Some? ==> LiveRow(rows, name).value.name == name && !LiveRow(rows, name).value.deleted
    ensures LiveRow(rows, name).None? ==> forall i :: 0 <= i < |rows| && rows[i].name == name ==> rows[i].deleted
    decreases |rows|
  {
    if rows != [] {
      var n := |rows| - 1;
      LiveRowIs(rows[..n], name);
      if LiveRow(rows[..n], name).Some? {
        var i :| 0 <= i < n && rows[..n][i] == LiveRow(rows[..n], name).value;
        assert rows[i] == rows[..n][i];
      }
      if LiveRow(rows, name).None? {
        forall i | 0 <= i < |rows| && rows[i].name == name ensures rows[i].deleted {
          assert i < n ==> rows[..n][i] == rows[i];
        }
      }
    }
  }

  /** With only the newest rows live there is one live row of a name. */
  lemma LiveRowUnique(rows: seq<Row>, i: nat)
    requires OnlyNewestLive(rows) && i < |rows| && !rows[i].deleted
    ensures LiveRow(rows, rows[i].name) == Some(rows[i])
  {
    LiveRowIs(rows, rows[i].name);
  }

  // ----- What an update does to a row

  function LastIndex(rows: seq<Row>, name: string): (i: int)
    ensures -1 <= i < |rows|
    ensures i >= 0 ==> rows[i].name == name
    ensures forall j :: 0 <= j < |rows| && i < j ==> rows[j].name != name
  {
    if rows == [] then -1
    else if rows[|rows| - 1].name == name then |rows| - 1
    else LastIndex(rows[..|rows| - 1], name)
  }

  // A row that is deleted is not brought back; its container is added anew.
  predicate CanUpdate(source: Row, target: Row) {
    source.deleted || !target.deleted
  }

  function Overwritten(source: Row, target: Row): Row {
    target.(gone := source.gone, objects := source.objects, bytes := source.bytes, deleted := source.deleted)
  }

  // The request that a row takes: the row is the newest of its name and may be updated.
  predicate Takes(rows: seq<Row>, i: nat, source: Row)
    requires i < |rows|
  {
    source.name == rows[i].name && LastIndex(rows, source.name) == i && CanUpdate(source, rows[i])
  }

  predicate TakenUp(rows: seq<Row>, source: Row) {
    var i := LastIndex(rows, source.name);
    i >= 0 && CanUpdate(source, rows[i])
  }

  // Updates the rows in the order of the request; what no row takes is left over.
  function Updated(rows: seq<Row>, request: seq<Row>): (result: (seq<Row>, seq<Row>))
    ensures |result.0| == |rows| && |result.1| <= |request|
    decreases |request|
  {
    if request == [] then (rows, []) else
      var source := request[0];
      if TakenUp(rows, source) then
        var i := LastIndex(rows, source.name);
        Updated(rows[i := Overwritten(source, rows[i])], request[1..])
      else
        var (rows', left) := Updated(rows, request[1..]);
        (rows', [source] + left)
  }

  // The request for a name.
  function RequestFor(request: seq<Row>, name: string): Option<Row> {
    if request == [] then None
    else if request[0].name == name then Some(request[0])
    else RequestFor(request[1..], name)
  }

  /** The row at `i` after the request. */
  function After(rows: seq<Row>, i: nat, request: seq<Row>): Row
    requires i < |rows|
  {
    var r := RequestFor(request, rows[i].name);
    if r.Some? && Takes(rows, i, r.value) then Overwritten(r.value, rows[i]) else rows[i]
  }

  lemma {:induction false} RequestIn(request: seq<Row>, name: string)
    ensures RequestFor(request, name).Some? <==> HasRow(request, name)
    ensures RequestFor(request, name).Some? ==> RequestFor(request, name).value in request
    ensures RequestFor(request, name).Some? ==> RequestFor(request, name).value.name == name
    decreases |request|
  {
    if request != [] {
      RequestIn(request[1..], name);
      assert forall i :: 0 <= i < |request| - 1 ==> request[1..][i] == request[i + 1];
      if i :| 0 <= i < |request| && request[i].name == name {
        assert i > 0 ==> request[1..][i - 1].name == name;
      }
    }
  }

  lemma RequestIs(request: seq<Row>, r: Row)
    requires Distinct(request) && r in request
    ensures RequestFor(request, r.name) == Some(r)
  {
    RequestIn(request, r.name);
    assert HasRow(request, r.name);
    var i :| 0 <= i < |request| && request[i] == r;
    var j :| 0 <= j < |request| && request[j] == RequestFor(request, r.name).value;
  }

  lemma {:induction false} LastIndexSame(rows: seq<Row>, rows': seq<Row>, name: string)
    requires |rows| == |rows'| && forall i :: 0 <= i < |rows| ==> rows'[i].name == rows[i].name
    ensures LastIndex(rows', name) == LastIndex(rows, name)
    decreases |rows|
  {
    if rows != [] {
      LastIndexSame(rows[..|rows| - 1], rows'[..|rows| - 1], name);
    }
  }

  // ----- The rows and the rest of a request after the updates

  ghost predicate IsUpdated(rows: seq<Row>, request: seq<Row>, rows': seq<Row>, left: seq<Row>) {
    && |rows'| == |rows|
    && (forall i :: 0 <= i < |rows| ==> rows'[i] == After(rows, i, request))
    && (forall r :: r in left <==> r in request && !TakenUp(rows, r))
    && Distinct(left)
  }

  lemma {:induction false} UpdatedIs(rows: seq<Row>, request: seq<Row>)
    requires Distinct(request)
    ensures IsUpdated(rows, request, Updated(rows, request).0, Updated(rows, request).1)
    decreases |request|
  {
    if request != [] {
      var source, rest := request[0], request[1..];
      if TakenUp(rows, source) {
        var k := LastIndex(rows, source.name);
        var mid := rows[k := Overwritten(source, rows[k])];
        UpdatedIs(mid, rest);
        OverwriteFirst(rows, request);
        assert IsUpdated(rows, request, Updated(rows, request).0, Updated(rows, request).1);
      } else {
        UpdatedIs(rows, rest);
        LeaveFirst(rows, request);
      }
    }
  }

  lemma SourceOnlyFirst(request: seq<Row>, r: Row)
    requires Distinct(request) && request != []
    ensures r in request[1..] ==> r.name != request[0].name && r in request
    ensures r in request ==> r == request[0] || r in request[1..]
    ensures RequestFor(request[1..], request[0].name).None?
  {
    RequestIn(request[1..], request[0].name);
    if r in request[1..] {
      var i :| 0 <= i < |request| - 1 && request[1..][i] == r;
      assert request[i + 1] == r;
    }
    assert request == [request[0]] + request[1..];
    forall i | 0 <= i < |request| - 1 ensures request[1..][i].name != request[0].name {
      assert request[1..][i] == request[i + 1];
    }
  }

  lemma OverwriteFirst(rows: seq<Row>, request: seq<Row>)
    requires Distinct(request) && request != [] && TakenUp(rows, request[0])
    requires var k := LastIndex(rows, request[0].name);
             var mid := rows[k := Overwritten(request[0], rows[k])];
             IsUpdated(mid, request[1..], Updated(mid, request[1..]).0, Updated(mid, request[1..]).1)
    ensures IsUpdated(rows, request, Updated(rows, request).0, Updated(rows, request).1)
  {
    var source, rest := request[0], request[1..];
    var k := LastIndex(rows, source.name);
    var mid := rows[k := Overwritten(source, rows[k])];
    forall name ensures LastIndex(mid, name) == LastIndex(rows, name) {
      LastIndexSame(rows, mid, name);
    }
    forall i | 0 <= i < |rows| ensures After(mid, i, rest) == After(rows, i, request) {
      SourceOnlyFirst(request, source);
      RequestIn(rest, rows[i].name);
    }
    forall r ensures r in rest && !TakenUp(mid, r) <==> r in request && !TakenUp(rows, r) {
      SourceOnlyFirst(request, r);
    }
  }

  lemma LeaveFirst(rows: seq<Row>, request: seq<Row>)
    requires Distinct(request) && request != [] && !TakenUp(rows, request[0])
    requires IsUpdated(rows, request[1..], Updated(rows, request[1..]).0, Updated(rows, request[1..]).1)
    ensures IsUpdated(rows, request, Updated(rows, request).0, Updated(rows, request).1)
  {
    var source, rest := request[0], request[1..];
    var left := Updated(rows, rest).1;
    forall i | 0 <= i < |rows| ensures After(rows, i, rest) == After(rows, i, request) {
      SourceOnlyFirst(request, source);
      RequestIn(rest, rows[i].name);
    }
    forall r ensures r in [source] + left <==> r in request && !TakenUp(rows, r) {
      SourceOnlyFirst(request, r);
    }
    forall i | 0 <= i < |left| ensures left[i].name != source.name {
      SourceOnlyFirst(request, left[i]);
    }
  }

  // ----- Parts of a file

  lemma {:induction false} LastIndexOfBoth(a: seq<Row>, b: seq<Row>, name: string)
    ensures LastIndex(a + b, name) == if HasRow(b, name) then |a| + LastIndex(b, name) else LastIndex(a, name)
    ensures HasRow(b, name) <==> LastIndex(b, name) >= 0
    decreases |b|
  {
    if b == [] {
      assert a + b == a;
    } else {
      var n := |b| - 1;
      LastIndexOfBoth(a, b[..n], name);
      assert (a + b)[..|a| + n] == a + b[..n];
      assert forall i :: 0 <= i < n ==> b[..n][i] == b[i];
      if HasRow(b, name) {
        var i :| 0 <= i < |b| && b[i].name == name;
        assert i < n ==> b[..n][i].name == name;
      }
    }
  }

  /** Two parts of distinct rows, one after the other, are updated like their concatenation. */
  lemma PartsUpdated(a: seq<Row>, b: seq<Row>, request: seq<Row>, a': seq<Row>, left: seq<Row>, b': seq<Row>, left': seq<Row>)
    requires Distinct(a + b) && Distinct(request)
    requires IsUpdated(a, request, a', left) && IsUpdated(b, left, b', left')
    ensures IsUpdated(a + b, request, a' + b', left')
  {
    forall r: Row ensures TakenUp(a + b, r) <==> TakenUp(a, r) || TakenUp(b, r) {
      TakenByOne(a, b, r);
    }
    forall i | 0 <= i < |a + b| ensures (a' + b')[i] == After(a + b, i, request) {
      var name := (a + b)[i].name;
      TakenByOne(a, b, (a + b)[i]);
      LastIndexOfBoth(a, b, name);
      if i < |a| {
        NamedOnce(a, b, i);
      } else {
        LeftFor(a, request, left, b[i - |a|]);
        assert HasRow(b, name);
      }
    }
  }

  lemma NamedOnce(a: seq<Row>, b: seq<Row>, i: nat)
    requires Distinct(a + b) && i < |a|
    ensures !HasRow(b, a[i].name)
  {
    forall j | 0 <= j < |b| ensures b[j].name != a[i].name {
      assert (a + b)[|a| + j] == b[j] && (a + b)[i] == a[i];
    }
  }

  lemma TakenByOne(a: seq<Row>, b: seq<Row>, r: Row)
    requires Distinct(a + b)
    ensures TakenUp(a + b, r) <==> TakenUp(a, r) || TakenUp(b, r)
    ensures HasRow(b, r.name) ==> LastIndex(a, r.name) < 0
  {
    hide LastIndex;
    LastIndexOfBoth(a, b, r.name);
    if LastIndex(a, r.name) >= 0 {
      NamedOnce(a, b, LastIndex(a, r.name));
    }
  }

  // A row of the second part meets the request that the first part has left.
  lemma LeftFor(a: seq<Row>, request: seq<Row>, left: seq<Row>, row: Row)
    requires Distinct(request) && Distinct(left) && LastIndex(a, row.name) < 0
    requires forall r :: r in left <==> r in request && !TakenUp(a, r)
    ensures RequestFor(left, row.name) == RequestFor(request, row.name)
  {
    RequestIn(request, row.name);
    RequestIn(left, row.name);
    if RequestFor(request, row.name).Some? {
      var r := RequestFor(request, row.name).value;
      assert r in left;
      RequestIs(left, r);
    } else if RequestFor(left, row.name).Some? {
      var r := RequestFor(left, row.name).value;
      RequestIs(request, r);
    }
  }

  /** Updating the tail first and then, with what is left, the sorted part updates the newest row of every
      container: an older one in the sorted part is deleted and takes nothing. */
  lemma PassesUpdate(sorted: seq<Row>, tail: seq<Row>, request: seq<Row>, tail': seq<Row>, left: seq<Row>,
                     sorted': seq<Row>, left': seq<Row>)
    requires OnlyNewestLive(sorted + tail) && Distinct(request)
    requires IsUpdated(tail, request, tail', left) && IsUpdated(sorted, left, sorted', left')
    ensures IsUpdated(sorted + tail, request, sorted' + tail', left')
  {
    var rows := sorted + tail;
    forall r: Row ensures r in request ==> (TakenUp(rows, r) <==> TakenUp(tail, r) || (r in left && TakenUp(sorted, r))) {
      OlderTakesNothing(sorted, tail, r);
    }
    forall i | 0 <= i < |rows| ensures (sorted' + tail')[i] == After(rows, i, request) {
      var name := rows[i].name;
      LastIndexOfBoth(sorted, tail, name);
      RequestIn(request, name);
      RequestIn(left, name);
      if i >= |sorted| {
        assert rows[i] == tail[i - |sorted|];
        assert HasRow(tail, name);
      } else {
        OlderTakesNothing(sorted, tail, rows[i]);
        SortedRowAfter(sorted, tail, request, left, i);
      }
    }
  }

  lemma OlderTakesNothing(sorted: seq<Row>, tail: seq<Row>, r: Row)
    requires OnlyNewestLive(sorted + tail)
    ensures TakenUp(sorted + tail, r) <==> if HasRow(tail, r.name) then TakenUp(tail, r) else TakenUp(sorted, r)
    ensures HasRow(tail, r.name) && !TakenUp(tail, r) ==> !TakenUp(sorted, r)
  {
    var rows := sorted + tail;
    LastIndexOfBoth(sorted, tail, r.name);
    if HasRow(tail, r.name) {
      var i, j := LastIndex(sorted, r.name), LastIndex(tail, r.name);
      assert rows[|sorted| + j] == tail[j];
      if i >= 0 {
        assert rows[i] == sorted[i] && rows[i].name == rows[|sorted| + j].name;
      }
    }
  }

  lemma SortedRowAfter(sorted: seq<Row>, tail: seq<Row>, request: seq<Row>, left: seq<Row>, i: nat)
    requires OnlyNewestLive(sorted + tail) && Distinct(request) && Distinct(left) && i < |sorted|
    requires forall r :: r in left <==> r in request && !TakenUp(tail, r)
    ensures After(sorted, i, left) == After(sorted + tail, i, request)
  {
    var rows, name := sorted + tail, sorted[i].name;
    LastIndexOfBoth(sorted, tail, name);
    RequestIn(request, name);
    RequestIn(left, name);
    if LastIndex(tail, name) < 0 {
      LeftFor(tail, request, left, sorted[i]);
    } else if RequestFor(left, name).Some? {
      var r := RequestFor(left, name).value;
      OlderTakesNothing(sorted, tail, r);
      assert !Takes(sorted, i, r);
    }
  }

  // ----- The effect on the live rows

  /** The live row of a container after a request. */
  function Expected(live: Option<Row>, request: Option<Row>): Option<Row> {
    if request.None? then live
    else if request.value.deleted then None
    else if live.Some? then Some(Overwritten(request.value, live.value))
    else Some(request.value)
  }

  /** Field by field: a live row keeps its name and put time and takes the rest from the request; a row that is
      not live is replaced by the request, and a deletion leaves none. */
  lemma ExpectedFields(live: Option<Row>, request: Option<Row>)
    ensures request.None? ==> Expected(live, request) == live
    ensures request.Some? && request.value.deleted ==> Expected(live, request) == None
    ensures request.Some? && !request.value.deleted && live.None? ==> Expected(live, request) == request
    ensures request.Some? && !request.value.deleted && live.Some? ==>
              && Expected(live, request).Some?
              && var row, r := Expected(live, request).value, request.value;
                 && row.name == live.value.name && row.put == live.value.put && row.gone == r.gone
                 && row.objects == r.objects && row.bytes == r.bytes && !row.deleted
  {
  }

  // ----- The effect on the totals

  // What a request changes: the counts that it brings less those that its container had.
  function Change(live: Option<Row>, r: Row): AccountStat {
    if r.deleted then
      if live.Some? then AccountStat(-1, -live.value.objects, -live.value.bytes) else NO_STAT
    else if live.Some? then AccountStat(0, r.objects - live.value.objects, r.bytes - live.value.bytes)
    else AccountStat(1, r.objects, r.bytes)
  }

  function Changes(rows: seq<Row>, request: seq<Row>): AccountStat {
    if request == [] then NO_STAT
    else Sum(Change(LiveRow(rows, request[0].name), request[0]), Changes(rows, request[1..]))
  }

  // The rows without the live row of a name.
  function Silenced(rows: seq<Row>, name: string): seq<Row> {
    seq(|rows|, i requires 0 <= i < |rows| => if rows[i].name == name then rows[i].(deleted := true) else rows[i])
  }

  function CountOf(live: Option<Row>): AccountStat {
    if live.Some? then AccountStat(1, live.value.objects, live.value.bytes) else NO_STAT
  }

  lemma SilencedStep(rows: seq<Row>, name: string)
    requires rows != []
    ensures var n := |rows| - 1;
            && Silenced(rows, name)[..n] == Silenced(rows[..n], name)
            && Silenced(rows, name)[n] == if rows[n].name == name then rows[n].(deleted := true) else rows[n]
  {
  }

  lemma {:induction false} SilencedLive(rows: seq<Row>, name: string, other: string)
    ensures LiveRow(Silenced(rows, name), other) == if other == name then None else LiveRow(rows, other)
    decreases |rows|
  {
    hide Silenced;
    SilencedSize(rows, name);
    if rows != [] {
      SilencedStep(rows, name);
      SilencedLive(rows[..|rows| - 1], name, other);
    }
  }

  lemma SilencedSize(rows: seq<Row>, name: string)
    ensures |Silenced(rows, name)| == |rows| && (OnlyNewestLive(rows) ==> OnlyNewestLive(Silenced(rows, name)))
    ensures (forall i :: 0 <= i < |rows| && rows[i].name == name ==> rows[i].deleted) ==> Silenced(rows, name) == rows
  {
  }

  lemma NewestPrefix(rows: seq<Row>, n: nat)
    requires OnlyNewestLive(rows) && n <= |rows|
    ensures OnlyNewestLive(rows[..n])
  {
  }

  lemma {:induction false} SilencedTotal(rows: seq<Row>, name: string)
    requires OnlyNewestLive(rows)
    ensures Total(rows) == Sum(Total(Silenced(rows, name)), CountOf(LiveRow(rows, name)))
    decreases |rows|
  {
    hide Silenced, OnlyNewestLive, Total, LiveRow, Sum, Counted, CountOf;
    SilencedSize(rows, name);
    if rows == [] {
      NothingCounted(name);
    } else {
      var n := |rows| - 1;
      var rest, silent := rows[..n], Silenced(rows, name);
      SilencedStep(rows, name);
      NewestPrefix(rows, n);
      LiveRowStep(rows, name);
      TotalOneMore(rest, rows[n]);
      TotalOneMore(silent[..n], silent[n]);
      assert rest + [rows[n]] == rows && silent[..n] + [silent[n]] == silent;
      if rows[n].name == name && !rows[n].deleted {
        OlderAreDeleted(rows);
        SilencedSize(rest, name);
        CountedOne(Total(rest), rows[n]);
      } else {
        SilencedTotal(rest, name);
        CountedBeside(Total(silent[..n]), CountOf(LiveRow(rows, name)), rows[n]);
        CountedDeleted(Total(silent[..n]), silent[n]);
      }
    }
  }

  lemma NothingCounted(name: string)
    ensures Silenced([], name) == [] && LiveRow([], name) == None && Total([]) == Sum(Total([]), CountOf(None))
  {
  }

  lemma LiveRowStep(rows: seq<Row>, name: string)
    requires rows != []
    ensures var n := |rows| - 1;
            LiveRow(rows, name) == if rows[n].name == name && !rows[n].deleted then Some(rows[n]) else LiveRow(rows[..n], name)
  {
  }

  lemma CountedOne(a: AccountStat, row: Row)
    requires !row.deleted
    ensures Counted(a, row) == Sum(Counted(a, row.(deleted := true)), CountOf(Some(row)))
  {
  }

  lemma CountedBeside(a: AccountStat, b: AccountStat, row: Row)
    ensures Counted(Sum(a, b), row) == Sum(Counted(a, row), b)
  {
  }

  lemma CountedDeleted(a: AccountStat, row: Row)
    ensures row.deleted ==> Counted(a, row) == a && Counted(a, row.(deleted := true)) == a
  {
  }

  lemma OlderAreDeleted(rows: seq<Row>)
    requires OnlyNewestLive(rows) && rows != []
    ensures var n := |rows| - 1; forall i :: 0 <= i < n && rows[..n][i].name == rows[n].name ==> rows[..n][i].deleted
  {
  }

  lemma {:induction false} TotalOfDeleted(rows: seq<Row>)
    ensures Total(rows).containers >= 0
    ensures (forall i :: 0 <= i < |rows| ==> rows[i].deleted) ==> Total(rows) == NO_STAT
    ensures (exists i :: 0 <= i < |rows| && !rows[i].deleted) ==> Total(rows).containers > 0
    decreases |rows|
  {
    if rows != [] {
      var n := |rows| - 1;
      TotalOfDeleted(rows[..n]);
      assert forall i :: 0 <= i < n ==> rows[..n][i] == rows[i];
      if i :| 0 <= i < |rows| && !rows[i].deleted {
        assert i < n ==> !rows[..n][i].deleted;
      }
    }
  }

  /** The live rows alone decide the totals. */
  lemma {:induction false} SameLiveTotal(rows: seq<Row>, rows': seq<Row>)
    requires OnlyNewestLive(rows) && OnlyNewestLive(rows')
    requires forall name :: LiveRow(rows', name) == LiveRow(rows, name)
    ensures Total(rows') == Total(rows)
    decreases Total(rows).containers
  {
    hide LiveRow, Total, Silenced, OnlyNewestLive;
    TotalOfDeleted(rows);
    TotalOfDeleted(rows');
    if i :| 0 <= i < |rows| && !rows[i].deleted {
      var name := rows[i].name;
      LiveRowUnique(rows, i);
      SilencedTotal(rows, name);
      SilencedTotal(rows', name);
      SilencedSize(rows, name);
      SilencedSize(rows', name);
      forall other ensures LiveRow(Silenced(rows', name), other) == LiveRow(Silenced(rows, name), other) {
        SilencedLive(rows, name, other);
        SilencedLive(rows', name, other);
      }
      TotalOfDeleted(Silenced(rows, name));
      SameLiveTotal(Silenced(rows, name), Silenced(rows', name));
    } else {
      forall i | 0 <= i < |rows'| ensures rows'[i].deleted {
        if !rows'[i].deleted {
          LiveRowUnique(rows', i);
          LiveRowIs(rows, rows'[i].name);
        }
      }
    }
  }

  lemma {:induction false} SilencedChanges(rows: seq<Row>, name: string, request: seq<Row>)
    requires forall i :: 0 <= i < |request| ==> request[i].name != name
    ensures Changes(Silenced(rows, name), request) == Changes(rows, request)
    decreases |request|
  {
    hide Silenced, LiveRow, Change;
    if request != [] {
      SilencedLive(rows, name, request[0].name);
      SilencedChanges(rows, name, request[1..]);
    }
  }

  /** Rows that show what the requests demand differ in their totals by what the requests change. */
  lemma {:induction false} TotalsChange(rows: seq<Row>, rows': seq<Row>, request: seq<Row>)
    requires OnlyNewestLive(rows) && OnlyNewestLive(rows') && Distinct(request)
    requires forall name :: LiveRow(rows', name) == Expected(LiveRow(rows, name), RequestFor(request, name))
    ensures Total(rows') == Sum(Total(rows), Changes(rows, request))
    decreases |request|
  {
    hide LiveRow, Total, Silenced, OnlyNewestLive, Sum, CountOf, Change;
    if request == [] {
      SameLiveTotal(rows, rows');
      ChangeAddsUp(Total(rows), None, None, NO_STAT);
    } else {
      var r, rest := request[0], request[1..];
      SilencedSize(rows, r.name);
      SilencedSize(rows', r.name);
      SourceOnlyFirst(request, r);
      forall name
        ensures LiveRow(Silenced(rows', r.name), name) == Expected(LiveRow(Silenced(rows, r.name), name), RequestFor(rest, name))
      {
        SilencedLive(rows, r.name, name);
        SilencedLive(rows', r.name, name);
      }
      TotalsChange(Silenced(rows, r.name), Silenced(rows', r.name), rest);
      SilencedChanges(rows, r.name, rest);
      SilencedTotal(rows, r.name);
      SilencedTotal(rows', r.name);
      ChangeAddsUp(Total(Silenced(rows, r.name)), LiveRow(rows, r.name), Some(r), Changes(rows, rest));
    }
  }

  // Replacing the counts of a live row by those after a request is adding the change.
  lemma ChangeAddsUp(others: AccountStat, live: Option<Row>, request: Option<Row>, rest: AccountStat)
    ensures Sum(others, NO_STAT) == others
    ensures request.Some? ==>
              Sum(Sum(others, rest), CountOf(Expected(live, request)))
              == Sum(Sum(others, CountOf(live)), Sum(Change(live, request.value), rest))
  {
  }

  lemma {:induction false} NewestIsLast(rows: seq<Row>, name: string)
    requires OnlyNewestLive(rows)
    ensures LiveRow(rows, name) ==
              if LastIndex(rows, name) >= 0 && !rows[LastIndex(rows, name)].deleted then Some(rows[LastIndex(rows, name)])
              else None
    decreases |rows|
  {
    var k := LastIndex(rows, name);
    LiveRowIs(rows, name);
    if LiveRow(rows, name).Some? {
      var i :| 0 <= i < |rows| && rows[i] == LiveRow(rows, name).value;
      assert i <= k;
    }
  }

  lemma UpdatedKeepsNewest(rows: seq<Row>, request: seq<Row>, rows': seq<Row>, left: seq<Row>)
    requires OnlyNewestLive(rows) && IsUpdated(rows, request, rows', left)
    ensures OnlyNewestLive(rows')
  {
    forall i, j | 0 <= i < j < |rows'| && rows'[i].name == rows'[j].name ensures rows'[i].deleted {
      assert rows'[i] == After(rows, i, request) && rows'[j] == After(rows, j, request);
      assert rows[i].name == rows[j].name && rows[i].deleted;
      RequestIn(request, rows[i].name);
      assert LastIndex(rows, rows[i].name) >= j;
    }
  }

  lemma UpdatedLive(rows: seq<Row>, request: seq<Row>, rows': seq<Row>, left: seq<Row>, name: string)
    requires OnlyNewestLive(rows) && Distinct(request) && IsUpdated(rows, request, rows', left)
    ensures var live, r := LiveRow(rows, name), RequestFor(request, name);
            && LiveRow(rows', name) == (if live.None? then None else Expected(live, r))
            && (live.None? && r.Some? && !r.value.deleted <==> r.Some? && !r.value.deleted && r.value in left)
  {
    var k := LastIndex(rows, name);
    UpdatedKeepsNewest(rows, request, rows', left);
    NewestIsLast(rows, name);
    NewestIsLast(rows', name);
    forall i | 0 <= i < |rows| ensures rows'[i].name == rows[i].name {
      assert rows'[i] == After(rows, i, request);
    }
    LastIndexSame(rows, rows', name);
    RequestIn(request, name);
    if k >= 0 {
      assert rows'[k] == After(rows, k, request);
    }
  }

  // ----- Adding what is left

  function Additions(left: seq<Row>): (rows: seq<Row>)
    ensures (forall r :: r in rows <==> r in left && !r.deleted) && |rows| <= |left|
  {
    if left == [] then []
    else if left[0].deleted then Additions(left[1..])
    else [left[0]] + Additions(left[1..])
  }

  lemma NoAdditions()
    ensures Additions([]) == []
  {
  }

  lemma AdditionsStep(left: seq<Row>, i: nat)
    requires i < |left|
    ensures Additions(left[i..]) == (if left[i].deleted then [] else [left[i]]) + Additions(left[i + 1..])
  {
    assert left[i..][1..] == left[i + 1..];
  }

  lemma NoRequest()
    ensures forall name :: RequestFor([], name).None?
  {
  }

  lemma {:induction false} AdditionsDistinct(left: seq<Row>)
    requires Distinct(left)
    ensures Distinct(Additions(left))
    decreases |left|
  {
    if left != [] {
      AdditionsDistinct(left[1..]);
      forall i | 0 <= i < |Additions(left[1..])| ensures Additions(left[1..])[i].name != left[0].name {
        assert Additions(left[1..])[i] in Additions(left[1..]);
        SourceOnlyFirst(left, Additions(left[1..])[i]);
      }
    }
  }

  lemma AddedKeepsNewest(rows: seq<Row>, added: seq<Row>)
    requires OnlyNewestLive(rows) && Distinct(added) && forall i :: 0 <= i < |added| ==> LiveRow(rows, added[i].name).None?
    ensures OnlyNewestLive(rows + added)
  {
    var all := rows + added;
    forall i, j | 0 <= i < j < |all| && all[i].name == all[j].name ensures all[i].deleted {
      if j >= |rows| {
        LiveRowIs(rows, added[j - |rows|].name);
        if i < |rows| {
          assert all[i] == rows[i];
        }
      }
    }
  }

  lemma {:induction false} AddedLive(rows: seq<Row>, added: seq<Row>, name: string)
    requires Distinct(added) && forall i :: 0 <= i < |added| ==> !added[i].deleted
    ensures LiveRow(rows + added, name) ==
              if RequestFor(added, name).Some? then RequestFor(added, name) else LiveRow(rows, name)
    decreases |added|
  {
    if added == [] {
      assert rows + added == rows;
    } else {
      var n := |added| - 1;
      AddedLive(rows, added[..n], name);
      assert (rows + added)[..|rows| + n] == rows + added[..n];
      RequestIn(added, name);
      RequestIn(added[..n], name);
      assert forall i :: 0 <= i < n ==> added[..n][i] == added[i];
      if added[n].name == name {
        assert added[n] in added;
        RequestIs(added, added[n]);
      } else if RequestFor(added[..n], name).Some? {
        var r := RequestFor(added[..n], name).value;
        assert r in added;
        RequestIs(added, r);
      }
    }
  }

  // ----- Compaction

  predicate Ascending(rows: seq<Row>) {
    forall i, j :: 0 <= i < j < |rows| ==> Before(rows[i].name, rows[j].name)
  }

  // Puts a row at its place by name, over a row of the same name; a deletion only takes that row out.
  function Placed(m: seq<Row>, row: Row): seq<Row> {
    if m == [] then (if row.deleted then [] else [row])
    else if Before(m[0].name, row.name) then [m[0]] + Placed(m[1..], row)
    else (if row.deleted then [] else [row]) + (if m[0].name == row.name then m[1..] else m)
  }

  /** The live rows by name, each the newest of its container. */
  function Compacted(rows: seq<Row>): seq<Row> {
    if rows == [] then [] else Placed(Compacted(rows[..|rows| - 1]), rows[|rows| - 1])
  }

  lemma {:induction false} PlacedIn(m: seq<Row>, row: Row, x: Row)
    requires Ascending(m)
    ensures x in Placed(m, row) <==> (x == row && !row.deleted) || (x in m && x.name != row.name)
    decreases |m|
  {
    if m != [] {
      assert m == [m[0]] + m[1..];
      BeforeTotal(m[0].name, row.name);
      if Before(m[0].name, row.name) {
        PlacedIn(m[1..], row, x);
      } else if x in m[1..] {
        var i :| 0 <= i < |m[1..]| && m[1..][i] == x;
        assert Before(m[0].name, m[i + 1].name);
        BeforeTotal(m[0].name, x.name);
        BeforeOrSame(row.name, m[0].name, x.name);
        BeforeTotal(row.name, x.name);
      }
    }
  }

  lemma {:induction false} PlacedAscends(m: seq<Row>, row: Row)
    requires Ascending(m)
    ensures Ascending(Placed(m, row)) && |Placed(m, row)| <= |m| + 1
    decreases |m|
  {
    if m != [] {
      BeforeTotal(m[0].name, row.name);
      if Before(m[0].name, row.name) {
        PlacedAscends(m[1..], row);
        var rest := Placed(m[1..], row);
        forall i | 0 <= i < |rest| ensures Before(m[0].name, rest[i].name) {
          PlacedIn(m[1..], row, rest[i]);
          assert rest[i] in rest;
          if rest[i] in m[1..] {
            var j :| 0 <= j < |m[1..]| && m[1..][j] == rest[i];
            assert m[j + 1] == rest[i];
          }
        }
      } else {
        forall i | 0 < i < |m| ensures Before(row.name, m[i].name) {
          BeforeOrSame(row.name, m[0].name, m[i].name);
        }
      }
    }
  }

  lemma TotalFront(row: Row, rows: seq<Row>)
    ensures Total([row] + rows) == Counted(Total(rows), row)
  {
    TotalAppend([row], rows);
    TotalOneMore([], row);
    assert [] + [row] == [row];
  }

  lemma CountedSwap(total: AccountStat, a: Row, b: Row)
    ensures Counted(Counted(total, a), b) == Counted(Counted(total, b), a)
    ensures a.deleted ==> Counted(total, a) == total
  {
  }

  lemma PlacedStep(m: seq<Row>, row: Row)
    requires m != [] && !HasRow(m, row.name)
    ensures Placed(m, row) ==
              if Before(m[0].name, row.name) then [m[0]] + Placed(m[1..], row) else if row.deleted then m else [row] + m
    ensures !HasRow(m[1..], row.name)
  {
    assert forall i :: 0 <= i < |m| - 1 ==> m[1..][i] == m[i + 1];
    assert m[0].name != row.name;
  }

  // Placing a row whose name is not there adds it to the total.
  lemma {:induction false} PlacedTotal(m: seq<Row>, row: Row)
    requires !HasRow(m, row.name)
    ensures Total(Placed(m, row)) == Counted(Total(m), row)
    decreases |m|
  {
    if m == [] {
      TotalOneMore([], row);
      assert [] + [row] == [row];
    } else {
      hide Total, Counted, Placed, HasRow;
      assert m == [m[0]] + m[1..];
      TotalFront(m[0], m[1..]);
      TotalFront(row, m);
      PlacedStep(m, row);
      CountedSwap(Total(m), row, row);
      if Before(m[0].name, row.name) {
        PlacedTotal(m[1..], row);
        TotalFront(m[0], Placed(m[1..], row));
        CountedSwap(Total(m[1..]), m[0], row);
      }
    }
  }

  /** Compaction keeps exactly the live rows and their totals, in strictly ascending order. */
  lemma {:induction false} CompactedIsLive(rows: seq<Row>)
    requires OnlyNewestLive(rows)
    ensures Ascending(Compacted(rows)) && |Compacted(rows)| <= |rows| && Total(Compacted(rows)) == Total(rows)
    ensures forall x :: x in Compacted(rows) <==> x in rows && !x.deleted
    decreases |rows|
  {
    if rows != [] {
      var n := |rows| - 1;
      var before, last := Compacted(rows[..n]), rows[n];
      assert rows == rows[..n] + [last];
      CompactedIsLive(rows[..n]);
      PlacedAscends(before, last);
      NoneLiveBefore(rows, before);
      PlacedTotal(before, last);
      forall x ensures x in Compacted(rows) <==> x in rows && !x.deleted {
        PlacedIn(before, last, x);
        if x in before {
          assert HasRow(before, x.name) by {
            var i :| 0 <= i < |before| && before[i] == x;
          }
        }
      }
    }
  }

  lemma CompactedAllLive(rows: seq<Row>)
    requires OnlyNewestLive(rows)
    ensures forall i :: 0 <= i < |Compacted(rows)| ==> !Compacted(rows)[i].deleted
  {
    CompactedIsLive(rows);
    forall i | 0 <= i < |Compacted(rows)| ensures !Compacted(rows)[i].deleted {
      assert Compacted(rows)[i] in Compacted(rows);
    }
  }

  lemma NoneLiveBefore(rows: seq<Row>, before: seq<Row>)
    requires OnlyNewestLive(rows) && rows != []
    requires forall x :: x in before <==> x in rows[..|rows| - 1] && !x.deleted
    ensures !HasRow(before, rows[|rows| - 1].name)
  {
    forall i | 0 <= i < |before| ensures before[i].name != rows[|rows| - 1].name {
      assert before[i] in before;
      var j :| 0 <= j < |rows| - 1 && rows[..|rows| - 1][j] == before[i];
      assert rows[j] == before[i];
    }
  }

  lemma AscendingDistinct(rows: seq<Row>)
    requires Ascending(rows)
    ensures Distinct(rows) && OnlyNewestLive(rows)
  {
    forall i, j | 0 <= i < j < |rows| ensures rows[i].name != rows[j].name {
      BeforeTotal(rows[i].name, rows[j].name);
    }
  }

  lemma CompactedLiveRow(rows: seq<Row>, name: string)
    requires OnlyNewestLive(rows)
    ensures LiveRow(Compacted(rows), name) == LiveRow(rows, name)
  {
    var live := Compacted(rows);
    CompactedIsLive(rows);
    AscendingDistinct(live);
    LiveRowIs(live, name);
    LiveRowIs(rows, name);
    if LiveRow(rows, name).Some? {
      var row := LiveRow(rows, name).value;
      assert row in rows && row in live;
      var i :| 0 <= i < |live| && live[i] == row;
      LiveRowUnique(live, i);
    }
  }

  // ----- Regions of the file

  /** The offsets of the three regions, for the number of records that the file is made for. */
  class TrailerBlock {
    const capacity: nat
    const staticOffset: nat
    const nonStaticOffset: nat
    const statOffset: nat

    constructor (records: nat, staticSize: nat, nonStaticSize: nat)
      ensures capacity == RoundedUp(records)
      ensures staticOffset == 0 && nonStaticOffset == staticOffset + capacity * staticSize
      ensures statOffset == nonStaticOffset + nonStaticSize * capacity
    {
      var n := (records + 10000 - 1) / 10000 * 10000 + 10000;
      capacity := n;
      staticOffset := 0;
      nonStaticOffset := n * staticSize;
      statOffset := n * staticSize + nonStaticSize * n;
    }
  }

  function RoundedUp(records: nat): nat {
    (records + 9999) / 10000 * 10000 + 10000
  }

  lemma RoundedUpBounds(records: nat)
    ensures records + 10000 <= RoundedUp(records) < records + 20000
  {
  }

  // Room for `added` rows, in a file made for `total` records with a tail too short for a compaction.
  predicate HasRoom(added: nat, total: nat, sorted: nat, unsorted: nat) {
    sorted <= total && unsorted < MAX_UNSORTED ==> sorted + unsorted + added <= RoundedUp(total)
  }

  /** The rounded capacity has room for every call exactly up to 5001 rows. */
  lemma RoomForIff(added: nat)
    ensures added <= 5001 <==> forall total, sorted, unsorted :: HasRoom(added, total, sorted, unsorted)
  {
    if added <= 5001 {
      forall total, sorted, unsorted ensures HasRoom(added, total, sorted, unsorted) {
        RoundedUpBounds(total);
      }
    } else {
      assert !HasRoom(added, 10000, 10000, 4999);
    }
  }

  // ----- The file as the code works on it

  class AccountInfoFile {
    const staticSize: nat
    const nonStaticSize: nat
    const statSize: nat
    var sorted: seq<Row>
    var unsorted: seq<Row>
    var stat: AccountStat
    var trailer: TrailerBlock
    var length: nat

    function Rows(): seq<Row>
      reads this
    {
      sorted + unsorted
    }

    /** Ascending sorted rows, only newest rows live, the stored statistic is that of the live rows, the rows
        fit their regions, and the file ends with the statistic and the trailer. */
    ghost predicate Valid()
      reads this
    {
      && Ascending(sorted) && OnlyNewestLive(Rows()) && stat == Total(Rows())
      && |sorted| + 10000 <= trailer.capacity && |unsorted| <= 10000
      && LaidOut() && length == trailer.statOffset + statSize
    }

    ghost predicate LaidOut()
      reads this
    {
      && trailer.staticOffset == 0 && trailer.nonStaticOffset == trailer.capacity * staticSize
      && trailer.statOffset == trailer.nonStaticOffset + nonStaticSize * trailer.capacity
    }

    constructor (staticSize: nat, nonStaticSize: nat, statSize: nat)
      ensures Valid() && Rows() == []
      ensures this.staticSize == staticSize && this.nonStaticSize == nonStaticSize && this.statSize == statSize
    {
      this.staticSize, this.nonStaticSize, this.statSize := staticSize, nonStaticSize, statSize;
      sorted, unsorted, stat := [], [], NO_STAT;
      trailer := new TrailerBlock(0, staticSize, nonStaticSize);
      new;
      length := trailer.statOffset + statSize;
    }

    // A write at an offset makes the file longer if it goes over its end.
    method WriteAt(offset: nat, size: nat)
      modifies this`length
      ensures length == if old(length) < offset + size then offset + size else old(length)
    {
      if length < offset + size {
        length := offset + size;
      }
    }

    /** The static and the non-static rows end before the next region starts. */
    lemma RegionsApart()
      requires Valid()
      ensures trailer.staticOffset + staticSize * |Rows()| <= trailer.nonStaticOffset
      ensures trailer.nonStaticOffset + nonStaticSize * |Rows()| <= trailer.statOffset
      ensures trailer.statOffset + statSize == length
    {
      RowsFit(0, |Rows()|);
    }

    lemma RowsFit(start: nat, n: nat)
      requires LaidOut() && start + n <= trailer.capacity
      ensures trailer.staticOffset + staticSize * start + staticSize * n <= trailer.nonStaticOffset
      ensures trailer.nonStaticOffset + nonStaticSize * start + nonStaticSize * n <= trailer.statOffset
      ensures staticSize * (start + n) == staticSize * start + staticSize * n
      ensures nonStaticSize * (start + n) == nonStaticSize * start + nonStaticSize * n
    {
      Monotone(staticSize, start, n, trailer.capacity);
      Monotone(nonStaticSize, start, n, trailer.capacity);
    }

    // Writes `n` rows from row `start` on, and the statistic and the trailer after them.
    method WriteStaticDataBlock(start: nat, n: nat)
      requires LaidOut() && start + n <= trailer.capacity && length <= trailer.statOffset + statSize
      modifies this`length
      ensures trailer.staticOffset + staticSize * (start + n) <= trailer.nonStaticOffset
      ensures trailer.nonStaticOffset + nonStaticSize * (start + n) <= trailer.statOffset
      ensures length == trailer.statOffset + statSize
    {
      RowsFit(start, n);
      WriteAt(trailer.staticOffset + staticSize * start, staticSize * n);
      WriteAt(trailer.nonStaticOffset + nonStaticSize * start, nonStaticSize * n);
      WriteAt(trailer.statOffset, statSize);
    }

    // Writes the changed parts of `n` rows from row `start` on over the old ones.
    method WriteNonStaticDataBlock(start: nat, n: nat)
      requires LaidOut() && start + n <= trailer.capacity && length == trailer.statOffset + statSize
      modifies this`length
      ensures length == old(length)
    {
      RowsFit(start, n);
      WriteAt(trailer.nonStaticOffset + nonStaticSize * start, nonStaticSize * n);
    }

    method Compaction()
      requires Valid()
      modifies this
      ensures Valid() && sorted == Compacted(old(Rows())) && unsorted == []
    {
      hide Compacted, Total, RoundedUp, Distinct, OnlyNewestLive, Ascending, Sum;
      var rows := Rows();
      var live := LiveRows(rows);
      CompactedIsLive(rows);
      AscendingDistinct(live);
      RoundedUpBounds(|rows|);
      trailer := new TrailerBlock(|rows|, staticSize, nonStaticSize);
      assert live + [] == live;
      sorted, unsorted, stat, length := live, [], NO_STAT, 0;
      CompactedAllLive(rows);
      CountAdded(live);
      SumNone(Total(live));
      WriteStaticDataBlock(0, |live|);
    }

    static method LiveRows(rows: seq<Row>) returns (live: seq<Row>)
      ensures live == Compacted(rows)
    {
      live := [];
      for i := 0 to |rows|
        invariant live == Compacted(rows[..i])
      {
        assert rows[..i + 1][..i] == rows[..i];
        live := Placed(live, rows[i]);
      }
      assert rows[..|rows|] == rows;
    }

    // Searching from the back finds the newest row, from the front the only one.
    static method Find(rows: seq<Row>, name: string, fromBack: bool) returns (k: int)
      requires !fromBack ==> Distinct(rows)
      ensures k == LastIndex(rows, name)
    {
      if fromBack {
        k := |rows| - 1;
        while k >= 0 && rows[k].name != name
          invariant -1 <= k < |rows| && forall j :: k < j < |rows| ==> rows[j].name != name
        {
          k := k - 1;
        }
      } else {
        k := 0;
        while k < |rows| && rows[k].name != name
          invariant 0 <= k <= |rows| && forall j :: 0 <= j < k ==> rows[j].name != name
        {
          k := k + 1;
        }
        k := if k < |rows| then k else -1;
      }
      LastIndexOnly(rows, name, k);
    }

    /** Updates a block of rows in place; the requests that no row takes are left. */
    static method UpdateRows(rows: seq<Row>, request: seq<Row>, fromBack: bool) returns (blocks: seq<Row>, left: seq<Row>)
      requires !fromBack ==> Distinct(rows)
      ensures blocks == Updated(rows, request).0 && left == Updated(rows, request).1
    {
      hide LastIndex;
      assert request[0..] == request;
      blocks, left := rows, [];
      for i := 0 to |request|
        invariant !fromBack ==> Distinct(blocks)
        invariant Updated(rows, request).0 == Updated(blocks, request[i..]).0
        invariant Updated(rows, request).1 == left + Updated(blocks, request[i..]).1
      {
        var source := request[i];
        assert request[i..][0] == source && request[i..][1..] == request[i + 1..];
        var k := Find(blocks, source.name, fromBack);
        if k >= 0 && (source.deleted || !blocks[k].deleted) {
          blocks := blocks[k := Overwritten(source, blocks[k])];
        } else {
          left := left + [source];
        }
      }
    }

    // Counts the newest rows of the tail that are live, and collects the names.
    static method CountTail(rows: seq<Row>) returns (total: AccountStat, seen: set<string>)
      requires OnlyNewestLive(rows)
      ensures total == Total(rows) && forall name :: name in seen <==> HasRow(rows, name)
    {
      hide Total, Counted;
      TotalNone();
      total, seen := NO_STAT, {};
      var i := |rows|;
      assert rows[i..] == [];
      while i > 0
        invariant 0 <= i <= |rows| && total == Total(rows[i..])
        invariant forall name :: name in seen <==> exists j :: i <= j < |rows| && rows[j].name == name
      {
        i := i - 1;
        assert rows[i..] == [rows[i]] + rows[i + 1..];
        TotalFront(rows[i], rows[i + 1..]);
        CountedIs(total, rows[i]);
        if rows[i].name !in seen {
          seen := seen + {rows[i].name};
          if !rows[i].deleted {
            total := AccountStat(total.containers + 1, total.objects + rows[i].objects, total.bytes + rows[i].bytes);
          }
        }
      }
      assert rows[0..] == rows;
    }

    static method CountUnseen(rows: seq<Row>, seen: set<string>, start: AccountStat) returns (total: AccountStat)
      ensures total == Sum(start, TotalUnseen(rows, seen))
    {
      hide Counted;
      total := start;
      for i := 0 to |rows|
        invariant total == Sum(start, TotalUnseen(rows[..i], seen))
      {
        assert rows[..i + 1][..i] == rows[..i];
        if rows[i].name !in seen {
          CountedSum(start, TotalUnseen(rows[..i], seen), rows[i]);
          CountedIs(total, rows[i]);
          if !rows[i].deleted {
            total := AccountStat(total.containers + 1, total.objects + rows[i].objects, total.bytes + rows[i].bytes);
          }
        }
      }
      assert rows[..|rows|] == rows;
    }

    /** Updates the sorted rows block by block, counting as it goes. */
    method UpdateSorted(rows: seq<Row>, request: seq<Row>, seen: set<string>, start: AccountStat)
      returns (done: seq<Row>, left: seq<Row>, total: AccountStat)
      requires Distinct(rows)
      requires LaidOut() && |rows| <= trailer.capacity && length == trailer.statOffset + statSize
      modifies this`length
      ensures length == old(length)
      ensures done == Chunked(rows, request).0 && left == Chunked(rows, request).1
      ensures total == Sum(start, TotalUnseen(done, seen))
    {
      hide TotalUnseen, Updated, Sum;
      NothingUnseen(seen, start);
      var rest := rows;
      done, left, total := [], request, start;
      while rest != []
        invariant Distinct(rest) && |done| + |rest| == |rows| && length == old(length)
        invariant Chunked(rows, request).0 == done + Chunked(rest, left).0 && Chunked(rows, request).1 == Chunked(rest, left).1
        invariant total == Sum(start, TotalUnseen(done, seen))
        decreases |rest|
      {
        var n := if |rest| < MAX_READ then |rest| else MAX_READ;
        var blocks: seq<Row>;
        var before := |left|;
        blocks, left := UpdateRows(rest[..n], left, false);
        if |left| < before {
          WriteNonStaticDataBlock(|done|, n);
        }
        UnseenAppend(done, blocks, seen, start);
        total := CountUnseen(blocks, seen, total);
        done, rest := done + blocks, rest[n..];
      }
    }

    /** Updates, deletes and adds containers: a container's row becomes the requested one if it is live, a
        deleted or unknown one is added anew, a deletion leaves none; all other containers are untouched. */
    method UpdateContainer(request: seq<Row>)
      requires Valid() && Distinct(request) && |NewRows(Rows(), request)| <= 5001
      modifies this
      ensures Valid()
      ensures forall name :: LiveRow(Rows(), name) == Expected(LiveRow(old(Rows()), name), RequestFor(request, name))
      ensures stat == Sum(old(stat), Changes(old(Rows()), request))
    {
      hide Updated, Chunked, LiveRow, RequestFor, Total, TotalUnseen, Sum, OnlyNewestLive, Distinct, IsUpdated, Ascending, NewRows,
        Additions, Expected, Changes;
      ghost var before := Rows();
      AscendingDistinct(sorted);
      TailNewest(sorted, unsorted);
      var tail, left := UpdateRows(unsorted, request, true);
      UpdatedIs(unsorted, request);
      UpdatedKeepsNewest(unsorted, request, tail, left);
      if |left| < |request| {
        WriteNonStaticDataBlock(|sorted|, |unsorted|);
      }
      var counted, seen := CountTail(tail);
      LeftDistinct(unsorted, request, tail, left);
      var blocks, left', total := UpdateSorted(sorted, left, seen, counted);
      ChunkedIs(sorted, left);
      PassesUpdate(sorted, unsorted, request, tail, left, blocks, left');
      UpdatedKeepsNewest(before, request, blocks + tail, left');
      UpdatedSizes(unsorted, request, tail, left);
      UpdatedSizes(sorted, left, blocks, left');
      UnseenIsTotal(blocks, tail, seen);
      sorted, unsorted, stat := blocks, tail, total;
      WriteAt(trailer.statOffset, statSize);
      var rows := DropDeleted(left');
      AdditionsFit(before, request, blocks + tail, left');
      NoRequest();
      if rows != [] {
        AddContainerInternal(rows);
      }
      forall name ensures LiveRow(Rows(), name) == Expected(LiveRow(before, name), RequestFor(request, name)) {
        AdditionsComplete(before, request, blocks + tail, left', name);
      }
      TotalsChange(before, Rows(), request);
    }

    method DeleteContainer(row: Row)
      requires Valid()
      modifies this
      ensures Valid() && LiveRow(Rows(), row.name).None?
      ensures forall name :: name != row.name ==> LiveRow(Rows(), name) == LiveRow(old(Rows()), name)
    {
      hide LiveRow;
      var deletion := row.(objects := 0, bytes := 0, deleted := true);
      forall name ensures RequestFor([deletion], name) == if name == row.name then Some(deletion) else None {
        assert [deletion][1..] == [];
      }
      UpdateContainer([deletion]);
    }

    static method DropDeleted(left: seq<Row>) returns (rows: seq<Row>)
      ensures rows == Additions(left)
    {
      hide Additions;
      rows := [];
      NoAdditions();
      assert left[0..] == left;
      for i := 0 to |left|
        invariant Additions(left) == rows + Additions(left[i..])
      {
        AdditionsStep(left, i);
        if !left[i].deleted {
          rows := rows + [left[i]];
        }
      }
    }

    /** Appends rows, after a compaction if the tail is long. */
    method AddContainerInternal(rows: seq<Row>)
      requires Valid() && |rows| <= 5001 && Distinct(rows)
      requires forall i :: 0 <= i < |rows| ==> !rows[i].deleted && LiveRow(Rows(), rows[i].name).None?
      modifies this
      ensures Valid()
      ensures forall name :: LiveRow(Rows(), name) ==
                if RequestFor(rows, name).Some? then RequestFor(rows, name) else LiveRow(old(Rows()), name)
    {
      hide Compacted, Total, Distinct, OnlyNewestLive, LiveRow, RequestFor, Sum;
      ghost var before := Rows();
      if |unsorted| >= MAX_UNSORTED {
        Compaction();
        assert sorted + [] == sorted;
      }
      ghost var base := Rows();
      forall name ensures LiveRow(base, name) == LiveRow(before, name) {
        CompactedLiveRow(before, name);
      }
      AddedKeepsNewest(base, rows);
      forall name ensures LiveRow(base + rows, name) ==
                if RequestFor(rows, name).Some? then RequestFor(rows, name) else LiveRow(before, name)
      {
        AddedLive(base, rows, name);
      }
      TotalAppend(base, rows);
      CountAdded(rows);
      assert sorted + (unsorted + rows) == base + rows;
      unsorted := unsorted + rows;
      WriteStaticDataBlock(|Rows()| - |rows|, |rows|);
    }

    method CountAdded(rows: seq<Row>)
      requires forall i :: 0 <= i < |rows| ==> !rows[i].deleted
      modifies this`stat
      ensures stat == Sum(old(stat), Total(rows))
    {
      hide Total;
      TotalNone();
      for i := 0 to |rows|
        invariant stat == Sum(old(stat), Total(rows[..i]))
      {
        TotalOneMore(rows[..i], rows[i]);
        assert rows[..i + 1] == rows[..i] + [rows[i]];
        stat := AccountStat(stat.containers + 1, stat.objects + rows[i].objects, stat.bytes + rows[i].bytes);
      }
      assert rows[..|rows|] == rows;
    }
  }

  lemma LastIndexOnly(rows: seq<Row>, name: string, k: int)
    requires -1 <= k < |rows| && (k >= 0 ==> rows[k].name == name) && forall j :: 0 <= j < |rows| && k < j ==> rows[j].name != name
    ensures k == LastIndex(rows, name)
  {
  }

  lemma CountedIs(total: AccountStat, row: Row)
    ensures Counted(total, row) ==
              if row.deleted then total else AccountStat(total.containers + 1, total.objects + row.objects, total.bytes + row.bytes)
  {
  }

  // The live rows whose names are not in `seen`.
  function TotalUnseen(rows: seq<Row>, seen: set<string>): AccountStat {
    if rows == [] then NO_STAT
    else
      var before := TotalUnseen(rows[..|rows| - 1], seen);
      if rows[|rows| - 1].name in seen then before else Counted(before, rows[|rows| - 1])
  }

  function Chunked(rows: seq<Row>, request: seq<Row>): (result: (seq<Row>, seq<Row>))
    ensures |result.1| <= |request|
    decreases |rows|
  {
    if rows == [] then ([], request) else
      var n := if |rows| < MAX_READ then |rows| else MAX_READ;
      var (blocks, left) := Updated(rows[..n], request);
      var (rest, left') := Chunked(rows[n..], left);
      (blocks + rest, left')
  }

  predicate Requests(request: seq<Row>, name: string) {
    RequestFor(request, name).Some? && !RequestFor(request, name).value.deleted
  }

  lemma NothingUnseen(seen: set<string>, start: AccountStat)
    ensures Sum(start, TotalUnseen([], seen)) == start
  {
  }

  lemma UnseenOneMore(rows: seq<Row>, row: Row, seen: set<string>)
    ensures TotalUnseen(rows + [row], seen)
         == if row.name in seen then TotalUnseen(rows, seen) else Counted(TotalUnseen(rows, seen), row)
  {
    assert (rows + [row])[..|rows|] == rows;
  }

  lemma {:induction false} UnseenAppend(a: seq<Row>, b: seq<Row>, seen: set<string>, start: AccountStat)
    ensures Sum(Sum(start, TotalUnseen(a, seen)), TotalUnseen(b, seen)) == Sum(start, TotalUnseen(a + b, seen))
    decreases |b|
  {
    hide TotalUnseen, Sum, Counted;
    if b == [] {
      UnseenNone(Sum(start, TotalUnseen(a, seen)), seen);
      assert a + b == a;
    } else {
      var rest, last := b[..|b| - 1], b[|b| - 1];
      UnseenAppend(a, rest, seen, start);
      UnseenOneMore(a + rest, last, seen);
      UnseenOneMore(rest, last, seen);
      CountedSum(Sum(start, TotalUnseen(a, seen)), TotalUnseen(rest, seen), last);
      CountedSum(start, TotalUnseen(a + rest, seen), last);
      assert b == rest + [last] && a + b == a + rest + [last];
    }
  }

  lemma UnseenNone(start: AccountStat, seen: set<string>)
    ensures Sum(start, TotalUnseen([], seen)) == start
  {
  }

  lemma {:induction false} UnseenAreDeleted(rows: seq<Row>, seen: set<string>)
    requires forall i :: 0 <= i < |rows| && rows[i].name in seen ==> rows[i].deleted
    ensures TotalUnseen(rows, seen) == Total(rows)
    decreases |rows|
  {
    if rows != [] {
      UnseenAreDeleted(rows[..|rows| - 1], seen);
    }
  }

  lemma UnseenIsTotal(blocks: seq<Row>, tail: seq<Row>, seen: set<string>)
    requires OnlyNewestLive(blocks + tail) && forall name :: name in seen <==> HasRow(tail, name)
    ensures Sum(Total(tail), TotalUnseen(blocks, seen)) == Total(blocks + tail)
  {
    hide Total, TotalUnseen;
    forall i | 0 <= i < |blocks| && blocks[i].name in seen ensures blocks[i].deleted {
      var j :| 0 <= j < |tail| && tail[j].name == blocks[i].name;
      assert (blocks + tail)[i] == blocks[i] && (blocks + tail)[|blocks| + j] == tail[j];
    }
    UnseenAreDeleted(blocks, seen);
    TotalAppend(blocks, tail);
  }

  lemma TailNewest(sorted: seq<Row>, tail: seq<Row>)
    requires OnlyNewestLive(sorted + tail)
    ensures OnlyNewestLive(tail)
  {
    forall i, j | 0 <= i < j < |tail| && tail[i].name == tail[j].name ensures tail[i].deleted {
      assert (sorted + tail)[|sorted| + i] == tail[i] && (sorted + tail)[|sorted| + j] == tail[j];
    }
  }

  lemma LeftDistinct(rows: seq<Row>, request: seq<Row>, rows': seq<Row>, left: seq<Row>)
    requires IsUpdated(rows, request, rows', left)
    ensures Distinct(left) && forall r :: r in left <==> r in request && !TakenUp(rows, r)
  {
  }

  lemma UpdatedSizes(rows: seq<Row>, request: seq<Row>, rows': seq<Row>, left: seq<Row>)
    requires IsUpdated(rows, request, rows', left)
    ensures |rows'| == |rows| && (Distinct(rows) ==> Distinct(rows')) && (Ascending(rows) ==> Ascending(rows'))
  {
    forall i | 0 <= i < |rows| ensures rows'[i].name == rows[i].name {
      assert rows'[i] == After(rows, i, request);
    }
  }

  lemma {:induction false} ChunkedIs(rows: seq<Row>, request: seq<Row>)
    requires Distinct(rows) && Distinct(request)
    ensures IsUpdated(rows, request, Chunked(rows, request).0, Chunked(rows, request).1)
    decreases |rows|
  {
    if rows != [] {
      var n := if |rows| < MAX_READ then |rows| else MAX_READ;
      var (blocks, left) := Updated(rows[..n], request);
      UpdatedIs(rows[..n], request);
      ChunkedIs(rows[n..], left);
      assert rows[..n] + rows[n..] == rows;
      PartsUpdated(rows[..n], rows[n..], request, blocks, left, Chunked(rows[n..], left).0, Chunked(rows[n..], left).1);
    }
  }

  // What is added for a name: the request for it, if that brings a container without a live row.
  lemma AddedRequest(before: seq<Row>, request: seq<Row>, rows': seq<Row>, left: seq<Row>, name: string)
    requires OnlyNewestLive(before) && Distinct(request) && IsUpdated(before, request, rows', left)
    ensures RequestFor(Additions(left), name)
         == if LiveRow(before, name).None? && Requests(request, name) then RequestFor(request, name) else None
  {
    hide LiveRow, Additions;
    UpdatedLive(before, request, rows', left, name);
    AdditionsDistinct(left);
    RequestIn(Additions(left), name);
    RequestIn(request, name);
    if RequestFor(Additions(left), name).Some? {
      RequestIs(request, RequestFor(Additions(left), name).value);
    } else if RequestFor(request, name).Some? {
      var r := RequestFor(request, name).value;
      if r in Additions(left) {
        RequestIs(Additions(left), r);
      }
    }
  }

  /** The requests that bring a row to the file: those for containers that have no live row there. */
  function NewRows(rows: seq<Row>, request: seq<Row>): seq<Row> {
    if request == [] then [] else
      var r := request[0];
      (if !r.deleted && LiveRow(rows, r.name).None? then [r] else []) + NewRows(rows, request[1..])
  }

  lemma {:induction false} NewRowsIn(rows: seq<Row>, request: seq<Row>, r: Row)
    ensures r in NewRows(rows, request) <==> r in request && !r.deleted && LiveRow(rows, r.name).None?
    decreases |request|
  {
    hide LiveRow;
    if request != [] {
      NewRowsIn(rows, request[1..], r);
      assert r in request <==> r == request[0] || r in request[1..];
    }
  }

  lemma FewAdded(rows: seq<Row>, request: seq<Row>, left: seq<Row>)
    requires Distinct(left) && forall r :: r in left ==> r in request
    requires forall i :: 0 <= i < |Additions(left)| ==> LiveRow(rows, Additions(left)[i].name).None?
    ensures |Additions(left)| <= |NewRows(rows, request)|
  {
    hide LiveRow, Additions, NewRows;
    var added := Additions(left);
    AdditionsDistinct(left);
    forall i | 0 <= i < |added| ensures added[i] in NewRows(rows, request) {
      assert added[i] in left && !added[i].deleted;
      NewRowsIn(rows, request, added[i]);
    }
    DistinctWithin(added, NewRows(rows, request));
  }

  // Distinct rows of another sequence are no more than its length.
  lemma {:induction false} DistinctWithin(a: seq<Row>, b: seq<Row>)
    requires Distinct(a) && forall i :: 0 <= i < |a| ==> a[i] in b
    ensures |a| <= |b|
    decreases |a|
  {
    if a != [] {
      var n := |a| - 1;
      var k :| 0 <= k < |b| && b[k] == a[n];
      var rest := b[..k] + b[k + 1..];
      forall i | 0 <= i < n ensures a[i] in rest {
        var j :| 0 <= j < |b| && b[j] == a[i];
        assert a[i].name != a[n].name;
        assert if j < k then rest[j] == a[i] else rest[j - 1] == a[i];
      }
      DistinctWithin(a[..n], rest);
    }
  }

  // The rows that the two passes leave to be added: live, distinct, few enough, and without a live row so far.
  lemma AdditionsFit(before: seq<Row>, request: seq<Row>, rows': seq<Row>, left: seq<Row>)
    requires OnlyNewestLive(before) && Distinct(request) && IsUpdated(before, request, rows', left)
    ensures var rows := Additions(left);
            && Distinct(rows) && |rows| <= |NewRows(before, request)|
            && forall i :: 0 <= i < |rows| ==> !rows[i].deleted && LiveRow(rows', rows[i].name).None?
  {
    hide LiveRow, RequestFor, OnlyNewestLive, IsUpdated, Additions, NewRows;
    var rows := Additions(left);
    LeftDistinct(before, request, rows', left);
    AdditionsDistinct(left);
    forall name ensures RequestFor(rows, name).Some? ==> LiveRow(before, name).None? && LiveRow(rows', name).None? {
      AddedRequest(before, request, rows', left, name);
      UpdatedLive(before, request, rows', left, name);
    }
    AddedAbsent(before, request, rows);
    AddedAbsent(rows', request, rows);
    FewAdded(before, request, left);
  }

  // With the additions each container has the live row that the request demands.
  lemma AdditionsComplete(before: seq<Row>, request: seq<Row>, rows': seq<Row>, left: seq<Row>, name: string)
    requires OnlyNewestLive(before) && Distinct(request) && IsUpdated(before, request, rows', left)
    ensures Expected(LiveRow(before, name), RequestFor(request, name))
         == if RequestFor(Additions(left), name).Some? then RequestFor(Additions(left), name) else LiveRow(rows', name)
  {
    hide LiveRow, RequestFor, OnlyNewestLive, IsUpdated, Additions;
    AddedRequest(before, request, rows', left, name);
    UpdatedLive(before, request, rows', left, name);
  }

  lemma AddedAbsent(before: seq<Row>, request: seq<Row>, rows: seq<Row>)
    requires forall name :: RequestFor(rows, name).Some? ==> LiveRow(before, name).None?
    ensures forall i :: 0 <= i < |rows| ==> LiveRow(before, rows[i].name).None?
  {
    forall i | 0 <= i < |rows| ensures LiveRow(before, rows[i].name).None? {
      RequestIn(rows, rows[i].name);
      assert HasRow(rows, rows[i].name);
    }
  }

  lemma Monotone(size: nat, start: nat, n: nat, capacity: nat)
    requires start + n <= capacity
    ensures size * (start + n) == size * start + size * n <= capacity * size
  {
    assert size * start + size * n == size * (start + n);
    var rest := capacity - start - n;
    assert capacity * size == size * (start + n) + size * rest;
  }
}
