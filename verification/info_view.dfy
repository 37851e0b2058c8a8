/** What an info file shows: of the records with the same name only the last, and only if it is no deletion. */
module InfoView {
  import opened ContainerMemory
  import opened Names
  import opened InfoFileSorting

  predicate Deleted(r: Record) {
    r.flag == Delete || r.flag == UnknownDelete
  }

  predicate CurrentAt(log: seq<Record>, i: nat, r: Record)
    requires i < |log|
  {
    log[i] == r && forall j :: i < j < |log| ==> log[j].name != r.name
  }

  /** `r` is the last record of its name. */
  ghost predicate IsCurrent(log: seq<Record>, r: Record) {
    exists i :: 0 <= i < |log| && CurrentAt(log, i, r)
  }

  ghost predicate IsLive(log: seq<Record>, r: Record) {
    IsCurrent(log, r) && !Deleted(r)
  }

  lemma CurrentOneMore(log: seq<Record>, x: Record, r: Record)
    ensures IsCurrent(log + [x], r) <==> r == x || (IsCurrent(log, r) && r.name != x.name)
  {
    var all := log + [x];
    if i :| 0 <= i < |all| && CurrentAt(all, i, r) {
      if i < |log| {
        assert all[|log|].name != r.name;
        assert forall j :: 0 <= j < |log| ==> log[j] == all[j];
        assert CurrentAt(log, i, r);
      }
    }
    if i :| 0 <= i < |log| && CurrentAt(log, i, r) {
      if r.name != x.name {
        assert CurrentAt(all, i, r);
      }
    }
    if r == x {
      assert CurrentAt(all, |log|, r);
    }
  }

  lemma {:induction false} CurrentOfBoth(a: seq<Record>, b: seq<Record>, r: Record)
    ensures IsCurrent(a + b, r) <==> IsCurrent(b, r) || (IsCurrent(a, r) && !HasName(b, r.name))
    decreases |b|
  {
    if b == [] {
      assert a + b == a;
    } else {
      var n := |b| - 1;
      CurrentOfBoth(a, b[..n], r);
      CurrentOneMore(a + b[..n], b[n], r);
      CurrentOneMore(b[..n], b[n], r);
      assert a + b == a + b[..n] + [b[n]] && b == b[..n] + [b[n]];
      assert HasName(b, r.name) <==> HasName(b[..n], r.name) || b[n].name == r.name by {
        assert forall i :: 0 <= i < n ==> b[..n][i] == b[i];
        if i :| 0 <= i < |b| && b[i].name == r.name {
          assert i < n ==> b[..n][i].name == r.name;
        }
      }
    }
  }

  lemma CurrentHasName(log: seq<Record>, r: Record)
    ensures IsCurrent(log, r) ==> r in log && HasName(log, r.name)
  {
  }

  // ----- The map that the iterators build

  /** Puts a record at its place by name, over a record of the same name. */
  function Inserted(m: seq<Record>, r: Record): (m': seq<Record>) {
    if m == [] then [r]
    else if Before(m[0].name, r.name) then [m[0]] + Inserted(m[1..], r)
    else if m[0].name == r.name then [r] + m[1..]
    else [r] + m
  }

  lemma {:induction false} InsertedIn(m: seq<Record>, r: Record, x: Record)
    requires Ascending(m)
    ensures x in Inserted(m, r) <==> x == r || (x in m && x.name != r.name)
    decreases |m|
  {
    if m != [] {
      assert m == [m[0]] + m[1..];
      assert forall i :: 0 <= i < |m[1..]| ==> Before(m[0].name, m[1..][i].name);
      BeforeTotal(m[0].name, r.name);
      if Before(m[0].name, r.name) {
        InsertedIn(m[1..], r, x);
      } else if x in m[1..] {
        var i :| 0 <= i < |m[1..]| && m[1..][i] == x;
        BeforeTotal(m[0].name, x.name);
        BeforeOrSame(r.name, m[0].name, x.name);
        BeforeTotal(r.name, x.name);
      }
    }
  }

  lemma {:induction false} InsertedAscends(m: seq<Record>, r: Record)
    requires Ascending(m)
    ensures Ascending(Inserted(m, r))
    ensures Named(m) && IsName(r.name) ==> Named(Inserted(m, r))
    decreases |m|
  {
    if m != [] {
      BeforeTotal(m[0].name, r.name);
      if Before(m[0].name, r.name) {
        InsertedAscends(m[1..], r);
        var rest := Inserted(m[1..], r);
        forall i | 0 <= i < |rest| ensures Before(m[0].name, rest[i].name) {
          InsertedIn(m[1..], r, rest[i]);
        }
      } else {
        forall i | 0 < i < |m| ensures Before(r.name, m[i].name) {
          BeforeOrSame(r.name, m[0].name, m[i].name);
        }
      }
    }
  }

  /** The last record of every name, in ascending order. */
  function Latest(q: seq<Record>): seq<Record> {
    if q == [] then [] else Inserted(Latest(q[..|q| - 1]), q[|q| - 1])
  }

  lemma {:induction false} LatestIsCurrent(q: seq<Record>)
    ensures Ascending(Latest(q)) && (Named(q) ==> Named(Latest(q)))
    ensures forall r :: r in Latest(q) <==> IsCurrent(q, r)
    decreases |q|
  {
    if q != [] {
      var n := |q| - 1;
      LatestIsCurrent(q[..n]);
      assert q == q[..n] + [q[n]];
      InsertedAscends(Latest(q[..n]), q[n]);
      forall r ensures r in Latest(q) <==> IsCurrent(q, r) {
        InsertedIn(Latest(q[..n]), q[n], r);
        CurrentOneMore(q[..n], q[n], r);
      }
    }
  }

  lemma AscendingIsCurrent(q: seq<Record>, r: Record)
    requires Ascending(q)
    ensures IsCurrent(q, r) <==> r in q
  {
    if r in q {
      var i :| 0 <= i < |q| && q[i] == r;
      forall j | i < j < |q| ensures q[j].name != r.name {
        BeforeIrreflexive(r.name);
      }
      assert CurrentAt(q, i, r);
    }
  }

  lemma LatestNames(q: seq<Record>, name: string)
    ensures HasName(Latest(q), name) <==> HasName(q, name)
  {
    LatestIsCurrent(q);
    if HasName(q, name) {
      var r := LastOf(q, name);
      assert r in Latest(q);
    }
    if HasName(Latest(q), name) {
      var i :| 0 <= i < |Latest(q)| && Latest(q)[i].name == name;
      CurrentHasName(q, Latest(q)[i]);
      assert IsCurrent(q, Latest(q)[i]);
    }
  }

  lemma {:induction false} LastOf(q: seq<Record>, name: string) returns (r: Record)
    requires HasName(q, name)
    ensures r.name == name && IsCurrent(q, r)
    decreases |q|
  {
    var n := |q| - 1;
    assert q == q[..n] + [q[n]];
    if q[n].name == name {
      r := q[n];
      CurrentOneMore(q[..n], q[n], r);
    } else {
      var i :| 0 <= i < |q| && q[i].name == name;
      assert q[..n][i].name == name;
      r := LastOf(q[..n], name);
      CurrentOneMore(q[..n], q[n], r);
    }
  }

  // ----- Merging is viewing

  lemma WinsOfTwo(a: seq<Record>, b: seq<Record>, r: Record)
    requires Ascending(a)
    ensures Wins([a, Latest(b)], r) <==> IsCurrent(a + b, r)
  {
    LatestIsCurrent(b);
    LatestNames(b, r.name);
    CurrentOfBoth(a, b, r);
    AscendingIsCurrent(a, r);
    assert WinsFrom([a, Latest(b)], 1, r) <==> IsCurrent(b, r);
    assert WinsFrom([a, Latest(b)], 0, r) <==> IsCurrent(a, r) && !HasName(b, r.name);
  }

  lemma WinsOfThree(a: seq<Record>, b: seq<Record>, c: seq<Record>, r: Record)
    requires Ascending(a)
    ensures Wins([a, Latest(b), Latest(c)], r) <==> IsCurrent(a + b + c, r)
  {
    var lists := [a, Latest(b), Latest(c)];
    LatestIsCurrent(b);
    LatestIsCurrent(c);
    LatestNames(b, r.name);
    LatestNames(c, r.name);
    CurrentOfBoth(a, b, r);
    CurrentOfBoth(a + b, c, r);
    AscendingIsCurrent(a, r);
    assert WinsFrom(lists, 2, r) <==> IsCurrent(c, r);
    assert WinsFrom(lists, 1, r) <==> IsCurrent(b, r) && !HasName(c, r.name);
    assert WinsFrom(lists, 0, r) <==> IsCurrent(a, r) && !HasName(b, r.name) && !HasName(c, r.name);
  }

  // ----- What a listing is

  datatype Query = Query(count: nat, marker: string, endMarker: string, prefix: string)

  predicate InRange(q: Query, name: string) {
    q.prefix <= name && (q.marker == "" || Before(q.marker, name)) && BeforeEnd(name, q.endMarker)
  }

  ghost predicate Matches(log: seq<Record>, q: Query, r: Record) {
    IsLive(log, r) && InRange(q, r.name)
  }

  /** The first `count` matching records in ascending order of their names; all of them if `count` is 0. */
  ghost predicate IsListing(log: seq<Record>, q: Query, result: seq<Record>) {
    && Ascending(result)
    && (q.count != 0 ==> |result| <= q.count)
    && (forall r :: r in result ==> Matches(log, q, r))
    && (forall r :: Matches(log, q, r) ==> r in result || LeftOut(q, result, r))
  }

  predicate LeftOut(q: Query, result: seq<Record>, r: Record) {
    q.count != 0 && |result| == q.count && forall i :: 0 <= i < |result| ==> Before(result[i].name, r.name)
  }

  /** A listing by the flags and the names: it has only last records of their names that are added, modified, or
      added by a node that is not known to have finished; it has all of those whose names have the prefix, are
      behind the marker and before the end marker, unless it is full and they come later; and it has no record
      of a name whose last record is a deletion, known to have finished or not. */
  lemma ListedByFlag(log: seq<Record>, q: Query, result: seq<Record>)
    requires IsListing(log, q, result)
    ensures forall r :: r in result ==>
              && IsCurrent(log, r) && (r.flag == Add || r.flag == Modify || r.flag == UnknownAdd)
              && q.prefix <= r.name && (q.marker == "" || Before(q.marker, r.name))
              && (q.endMarker == "" || Before(r.name, q.endMarker))
    ensures forall r ::
              && IsCurrent(log, r) && (r.flag == Add || r.flag == Modify || r.flag == UnknownAdd)
              && q.prefix <= r.name && (q.marker == "" || Before(q.marker, r.name))
              && (q.endMarker == "" || Before(r.name, q.endMarker)) && r !in result ==>
              q.count != 0 && |result| == q.count && forall i :: 0 <= i < |result| ==> Before(result[i].name, r.name)
    ensures forall r :: IsCurrent(log, r) && (r.flag == Delete || r.flag == UnknownDelete) ==> !HasName(result, r.name)
  {
    forall r | r in result ensures Matches(log, q, r) {
    }
    forall r | IsCurrent(log, r) && HasName(result, r.name) ensures r in result {
      var k :| 0 <= k < |result| && result[k].name == r.name;
      assert Matches(log, q, result[k]);
      CurrentUnique(log, r, result[k]);
    }
  }

  // A name has one last record.
  lemma CurrentUnique(log: seq<Record>, a: Record, b: Record)
    requires IsCurrent(log, a) && IsCurrent(log, b) && a.name == b.name
    ensures a == b
  {
    var i :| 0 <= i < |log| && CurrentAt(log, i, a);
    var j :| 0 <= j < |log| && CurrentAt(log, j, b);
  }

  /** A query has one listing. */
  lemma ListingUnique(log: seq<Record>, q: Query, a: seq<Record>, b: seq<Record>)
    requires IsListing(log, q, a) && IsListing(log, q, b)
    ensures a == b
  {
    ListingWithin(log, q, a, b);
    ListingWithin(log, q, b, a);
    AscendingUnique(a, b);
  }

  lemma ListingWithin(log: seq<Record>, q: Query, a: seq<Record>, b: seq<Record>)
    requires IsListing(log, q, a) && IsListing(log, q, b)
    ensures forall r :: r in a ==> r in b
  {
    forall r | r in a ensures r in b {
      if LeftOut(q, b, r) {
        var k :| 0 <= k < |a| && a[k] == r;
        forall i | 0 <= i < |b| ensures b[i] in a[..k] {
          assert b[i] in b;
          EarlierIn(log, q, a, k, b[i]);
        }
        NoMoreThan(b, a[..k]);
      }
    }
  }

  lemma EarlierIn(log: seq<Record>, q: Query, a: seq<Record>, k: nat, r: Record)
    requires IsListing(log, q, a) && k < |a| && Matches(log, q, r) && Before(r.name, a[k].name)
    ensures r in a[..k]
  {
    BeforeTotal(r.name, a[k].name);
    assert !LeftOut(q, a, r);
    var j :| 0 <= j < |a| && a[j] == r;
    assert j < k;
    assert a[..k][j] == r;
  }

  // Distinct elements of another sequence are no more than its length.
  lemma {:induction false} NoMoreThan(b: seq<Record>, a: seq<Record>)
    requires Ascending(b) && forall i :: 0 <= i < |b| ==> b[i] in a
    ensures |b| <= |a|
    decreases |a|
  {
    if b != [] {
      var n := |b| - 1;
      var k :| 0 <= k < |a| && a[k] == b[n];
      var rest := a[..k] + a[k + 1..];
      forall i | 0 <= i < n ensures b[..n][i] in rest {
        BeforeTotal(b[i].name, b[n].name);
        var j :| 0 <= j < |a| && a[j] == b[i];
        assert j < k ==> rest[j] == b[i];
        assert j > k ==> rest[j - 1] == b[i];
      }
      NoMoreThan(b[..n], rest);
    }
  }
}
