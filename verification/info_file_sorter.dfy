/** The merge of ascending record lists in which a later list overrides an earlier one. */
module InfoFileSorting {
  import opened ContainerMemory
  import opened Names

  type Record = ObjectRecord

  datatype Option<T> = None | Some(value: T)

  // The width of a stored name, with its terminating character.
  const NAME_SIZE := 256

  predicate IsName(name: string) {
    0 < |name| < NAME_SIZE
  }

  predicate Named(q: seq<Record>) {
    forall i :: 0 <= i < |q| ==> IsName(q[i].name)
  }

  predicate Ascending(q: seq<Record>) {
    forall i, j :: 0 <= i < j < |q| ==> Before(q[i].name, q[j].name)
  }

  predicate Mergeable(lists: seq<seq<Record>>) {
    forall i :: 0 <= i < |lists| ==> Ascending(lists[i]) && Named(lists[i])
  }

  predicate HasName(q: seq<Record>, name: string) {
    exists i :: 0 <= i < |q| && q[i].name == name
  }

  // ----- One step of the merge

  // The head with the least name; of equal ones the last.
  function Best(lists: seq<seq<Record>>): (r: Option<Record>) {
    if lists == [] then None else
      var list := lists[|lists| - 1];
      var best := Best(lists[..|lists| - 1]);
      if list == [] then best
      else if best.None? || !Before(best.value.name, list[0].name) then Some(list[0])
      else best
  }

  // Every list whose head has the name moves on.
  function Passed(lists: seq<seq<Record>>, name: string): (rest: seq<seq<Record>>)
    ensures |rest| == |lists|
  {
    seq(|lists|, i requires 0 <= i < |lists| =>
      if lists[i] != [] && lists[i][0].name == name then lists[i][1..] else lists[i])
  }

  lemma {:induction false} BestIsLeast(lists: seq<seq<Record>>)
    ensures Best(lists).None? <==> forall i :: 0 <= i < |lists| ==> lists[i] == []
    ensures Best(lists).Some? ==> exists k :: 0 <= k < |lists| && lists[k] != [] && lists[k][0] == Best(lists).value
    ensures Best(lists).Some? ==> forall i :: 0 <= i < |lists| && lists[i] != [] ==>
                                    !Before(lists[i][0].name, Best(lists).value.name)
    decreases |lists|
  {
    if lists != [] {
      var n := |lists| - 1;
      BestIsLeast(lists[..n]);
      var best := Best(lists[..n]);
      forall i | 0 <= i < |lists| && lists[i] != []
        ensures Best(lists).Some? && !Before(lists[i][0].name, Best(lists).value.name)
      {
        if i == n {
          BeforeIrreflexive(lists[n][0].name);
          if best.Some? {
            BeforeTotal(best.value.name, lists[n][0].name);
          }
        } else {
          assert lists[..n][i] == lists[i];
          if lists[n] != [] {
            BeforeOrSame(lists[i][0].name, lists[n][0].name, best.value.name);
          }
        }
      }
      if best.Some? {
        var k :| 0 <= k < n && lists[..n][k] != [] && lists[..n][k][0] == best.value;
        assert lists[k][0] == best.value;
      }
      if best.None? && lists[n] == [] {
        assert forall i :: 0 <= i < n ==> lists[..n][i] == lists[i];
      }
    }
  }

  /** Of the heads with the least name the last one is taken. */
  lemma {:induction false} BestIsLast(lists: seq<seq<Record>>, i: nat)
    requires i < |lists| && lists[i] != [] && Best(lists).Some? && lists[i][0].name == Best(lists).value.name
    requires forall j :: i < j < |lists| && lists[j] != [] ==> lists[j][0].name != lists[i][0].name
    ensures Best(lists).value == lists[i][0]
    decreases |lists|
  {
    var n := |lists| - 1;
    BestIsLeast(lists[..n]);
    if i < n {
      assert lists[..n][i] == lists[i];
      BestIsLast(lists[..n], i);
    } else if Best(lists[..n]).Some? {
      BeforeTotal(Best(lists[..n]).value.name, lists[n][0].name);
    }
  }

  // ----- The whole merge

  function Total(lists: seq<seq<Record>>): nat {
    if lists == [] then 0 else Total(lists[..|lists| - 1]) + |lists[|lists| - 1]|
  }

  lemma {:induction false} PassedIsSmaller(lists: seq<seq<Record>>, name: string)
    ensures Total(Passed(lists, name)) <= Total(lists)
    ensures forall k :: 0 <= k < |lists| && lists[k] != [] && lists[k][0].name == name ==>
              Total(Passed(lists, name)) < Total(lists)
    decreases |lists|
  {
    if lists != [] {
      var n := |lists| - 1;
      PassedIsSmaller(lists[..n], name);
      assert Passed(lists, name)[..n] == Passed(lists[..n], name);
      assert forall k :: 0 <= k < n ==> lists[..n][k] == lists[k];
    }
  }

  function Merge(lists: seq<seq<Record>>): seq<Record>
    decreases Total(lists)
  {
    var best := Best(lists);
    if best.None? then [] else
      BestIsLeast(lists);
      PassedIsSmaller(lists, best.value.name);
      [best.value] + Merge(Passed(lists, best.value.name))
  }

  /** A record wins when its list is the last one that has its name. */
  ghost predicate Wins(lists: seq<seq<Record>>, r: Record) {
    exists i :: 0 <= i < |lists| && WinsFrom(lists, i, r)
  }

  ghost predicate WinsFrom(lists: seq<seq<Record>>, i: nat, r: Record)
    requires i < |lists|
  {
    r in lists[i] && forall j :: i < j < |lists| ==> !HasName(lists[j], r.name)
  }

  lemma PassedMergeable(lists: seq<seq<Record>>, name: string)
    requires Mergeable(lists)
    ensures Mergeable(Passed(lists, name))
  {
  }

  // The least head has the least name of all.
  lemma BestOfAll(lists: seq<seq<Record>>, i: nat, j: nat)
    requires Mergeable(lists) && Best(lists).Some? && i < |lists| && j < |lists[i]|
    ensures !Before(lists[i][j].name, Best(lists).value.name)
    ensures lists[i][j].name == Best(lists).value.name ==> j == 0
  {
    BestIsLeast(lists);
    var best := Best(lists).value.name;
    if j > 0 {
      BeforeOrSame(best, lists[i][0].name, lists[i][j].name);
      BeforeTotal(lists[i][0].name, best);
      BeforeTotal(lists[i][j].name, best);
      assert Before(lists[i][0].name, lists[i][j].name);
      BeforeOrSame(best, lists[i][0].name, lists[i][j].name);
    }
  }

  // What is left after the step are the records with other names.
  lemma PassedKeepsOthers(lists: seq<seq<Record>>, i: nat, r: Record)
    requires Mergeable(lists) && Best(lists).Some? && i < |lists|
    ensures var rest := Passed(lists, Best(lists).value.name);
            && (r in rest[i] <==> r in lists[i] && r.name != Best(lists).value.name)
            && (HasName(rest[i], r.name) <==> HasName(lists[i], r.name) && r.name != Best(lists).value.name)
  {
    hide Mergeable, Best;
    var best, list := Best(lists).value.name, lists[i];
    forall j | 0 <= j < |list| ensures list[j].name == best ==> j == 0 {
      BestOfAll(lists, i, j);
    }
    WithoutHead(list, best, r);
  }

  // A list in which only the head may have the name, without it.
  lemma WithoutHead(list: seq<Record>, name: string, r: Record)
    requires forall j :: 0 <= j < |list| ==> list[j].name == name ==> j == 0
    ensures var rest := if list != [] && list[0].name == name then list[1..] else list;
            && (r in rest <==> r in list && r.name != name)
            && (HasName(rest, r.name) <==> HasName(list, r.name) && r.name != name)
  {
    if list != [] && list[0].name == name {
      var rest := list[1..];
      assert list == [list[0]] + rest;
      assert forall j :: 0 <= j < |rest| ==> rest[j] == list[j + 1];
      if HasName(list, r.name) && r.name != name {
        var j :| 0 <= j < |list| && list[j].name == r.name;
        assert rest[j - 1].name == r.name;
      }
    }
  }

  lemma WinsStep(lists: seq<seq<Record>>, r: Record)
    requires Mergeable(lists) && Best(lists).Some?
    ensures var best := Best(lists).value;
            Wins(lists, r) <==> r == best || Wins(Passed(lists, best.name), r)
  {
    var best := Best(lists).value;
    var rest := Passed(lists, best.name);
    forall i | 0 <= i < |lists| ensures r.name != best.name ==> (WinsFrom(lists, i, r) <==> WinsFrom(rest, i, r)) {
      PassedKeepsOthers(lists, i, r);
      forall j | i < j < |lists| ensures r.name != best.name ==> (HasName(rest[j], r.name) <==> HasName(lists[j], r.name)) {
        PassedKeepsOthers(lists, j, r);
      }
    }
    if r.name == best.name {
      BestWins(lists, r);
      forall i | 0 <= i < |lists| ensures r !in rest[i] {
        PassedKeepsOthers(lists, i, r);
      }
    }
  }

  lemma BestWins(lists: seq<seq<Record>>, r: Record)
    requires Mergeable(lists) && Best(lists).Some? && r.name == Best(lists).value.name
    ensures Wins(lists, r) <==> r == Best(lists).value
  {
    BestIsLeast(lists);
    var best := Best(lists).value;
    var k := LastNamed(lists, best.name);
    BestIsLast(lists, k);
    forall j | k < j < |lists| ensures !HasName(lists[j], best.name) {
      HeadTells(lists, j);
    }
    assert WinsFrom(lists, k, best);
    if i :| 0 <= i < |lists| && WinsFrom(lists, i, r) {
      var p :| 0 <= p < |lists[i]| && lists[i][p] == r;
      BestOfAll(lists, i, p);
      assert HasName(lists[k], r.name);
    }
  }

  lemma HeadTells(lists: seq<seq<Record>>, j: nat)
    requires Mergeable(lists) && Best(lists).Some? && j < |lists|
    ensures HasName(lists[j], Best(lists).value.name) ==> lists[j] != [] && lists[j][0].name == Best(lists).value.name
  {
    forall i | 0 <= i < |lists[j]| ensures lists[j][i].name == Best(lists).value.name ==> i == 0 {
      BestOfAll(lists, j, i);
    }
  }

  // The last list whose head has the name.
  lemma {:induction false} LastNamed(lists: seq<seq<Record>>, name: string) returns (k: nat)
    requires exists i :: 0 <= i < |lists| && lists[i] != [] && lists[i][0].name == name
    ensures k < |lists| && lists[k] != [] && lists[k][0].name == name
    ensures forall j :: k < j < |lists| && lists[j] != [] ==> lists[j][0].name != name
    decreases |lists|
  {
    var n := |lists| - 1;
    if lists[n] != [] && lists[n][0].name == name {
      k := n;
    } else {
      var i :| 0 <= i < |lists| && lists[i] != [] && lists[i][0].name == name;
      assert lists[..n][i] == lists[i];
      k := LastNamed(lists[..n], name);
    }
  }

  /** The merge lists exactly the winning records, in ascending order of their names. */
  lemma {:induction false} MergeIsOverride(lists: seq<seq<Record>>)
    requires Mergeable(lists)
    ensures Ascending(Merge(lists)) && Named(Merge(lists))
    ensures forall r :: r in Merge(lists) <==> Wins(lists, r)
    decreases Total(lists)
  {
    hide Best, Passed;
    BestIsLeast(lists);
    if Best(lists).None? {
      assert forall r, i :: 0 <= i < |lists| ==> r !in lists[i];
    } else {
      var best := Best(lists).value;
      var rest := Passed(lists, best.name);
      PassedIsSmaller(lists, best.name);
      PassedMergeable(lists, best.name);
      MergeIsOverride(rest);
      forall r ensures r in Merge(lists) <==> Wins(lists, r) {
        WinsStep(lists, r);
      }
      forall j | 0 <= j < |Merge(rest)| ensures Before(best.name, Merge(rest)[j].name) {
        BestBeforeRest(lists, Merge(rest)[j]);
      }
    }
  }

  lemma BestBeforeRest(lists: seq<seq<Record>>, r: Record)
    requires Mergeable(lists) && Best(lists).Some? && Wins(Passed(lists, Best(lists).value.name), r)
    ensures Before(Best(lists).value.name, r.name)
  {
    var best := Best(lists).value;
    var rest := Passed(lists, best.name);
    var i :| 0 <= i < |rest| && WinsFrom(rest, i, r);
    PassedKeepsOthers(lists, i, r);
    var p :| 0 <= p < |lists[i]| && lists[i][p] == r;
    BestOfAll(lists, i, p);
    BeforeTotal(best.name, r.name);
  }

  /** An ascending sequence is determined by its elements. */
  lemma {:induction false} AscendingUnique(a: seq<Record>, b: seq<Record>)
    requires Ascending(a) && Ascending(b) && forall r :: r in a <==> r in b
    ensures a == b
    decreases |a|
  {
    HasFirst(a);
    HasFirst(b);
    if a != [] {
      FirstIsLeast(a, b);
      forall r ensures r in a[1..] <==> r in b[1..] {
        RestOf(a, r);
        RestOf(b, r);
      }
      AscendingUnique(a[1..], b[1..]);
      assert a == [a[0]] + a[1..] && b == [b[0]] + b[1..];
    }
  }

  lemma HasFirst(a: seq<Record>)
    ensures a == [] || a[0] in a
  {
  }

  lemma FirstIsLeast(a: seq<Record>, b: seq<Record>)
    requires Ascending(a) && Ascending(b) && a != [] && b != [] && a[0] in b && b[0] in a
    ensures a[0] == b[0]
  {
    BeforeTotal(a[0].name, b[0].name);
    var i :| 0 <= i < |a| && a[i] == b[0];
    var j :| 0 <= j < |b| && b[j] == a[0];
  }

  lemma RestOf(a: seq<Record>, r: Record)
    requires Ascending(a) && a != []
    ensures r in a[1..] <==> r in a && r != a[0]
  {
    BeforeIrreflexive(a[0].name);
    if r in a[1..] {
      var i :| 0 <= i < |a[1..]| && a[1..][i] == r;
      assert a[i + 1] == r;
    }
  }

  // ----- The sorter

  // A list from the first record on that the marker does not pass over.
  function FromMarker(list: seq<Record>, marker: string, prefix: bool): (rest: seq<Record>)
    ensures |rest| <= |list|
  {
    if list == [] then list
    else
      var c := Strncmp(marker, list[0].name, |marker|);
      if (prefix && c != 0) || (!prefix && c > 0) then FromMarker(list[1..], marker, prefix) else list
  }

  /** Where an iterator starts: at the first name with the prefix, or after the marker. */
  function Started(list: seq<Record>, marker: string, prefix: bool): seq<Record> {
    if marker == "" then list else
      var rest := FromMarker(list, marker, prefix);
      if !prefix && rest != [] && Strncmp(marker, rest[0].name, |marker|) == 0 && |rest[0].name| == |marker| then rest[1..]
      else rest
  }

  function AllStarted(lists: seq<seq<Record>>, marker: string, prefix: bool): seq<seq<Record>> {
    seq(|lists|, i requires 0 <= i < |lists| => Started(lists[i], marker, prefix))
  }

  // The records that a sorter with this end marker still gives out.
  predicate BeforeEnd(name: string, endMarker: string) {
    endMarker == "" || Before(name, endMarker)
  }

  class InfoFileSorter {
    const endMarker: string
    // Every iterator from its current record on.
    var ahead: seq<seq<Record>>
    var target: string

    function Pending(): seq<seq<Record>>
      reads this
    {
      if target == "" then ahead else Passed(ahead, target)
    }

    constructor (iterators: seq<seq<Record>>, marker: string, endMarker: string, prefix: bool)
      ensures this.endMarker == endMarker && target == "" && ahead == AllStarted(iterators, marker, prefix)
    {
      this.endMarker, target, ahead := endMarker, "", iterators;
      new;
      for i := 0 to |iterators|
        invariant |ahead| == |iterators| && target == ""
        invariant forall j :: 0 <= j < |iterators| ==>
                    ahead[j] == if j < i then Started(iterators[j], marker, prefix) else iterators[j]
      {
        var rest := iterators[i];
        if marker != "" {
          while rest != [] && ((prefix && Strncmp(marker, rest[0].name, |marker|) != 0)
                               || (!prefix && Strncmp(marker, rest[0].name, |marker|) > 0))
            invariant FromMarker(rest, marker, prefix) == FromMarker(iterators[i], marker, prefix)
            decreases |rest|
          {
            rest := rest[1..];
          }
          if !prefix && rest != [] && Strncmp(marker, rest[0].name, |marker|) == 0 && |rest[0].name| == |marker| {
            rest := rest[1..];
          }
        }
        ahead := ahead[i := rest];
      }
    }

    /** The next winning record, unless it is not before the end marker. */
    method Next() returns (record: Option<Record>)
      requires Mergeable(ahead)
      modifies this
      ensures Mergeable(ahead) && ahead == old(Pending())
      ensures target == if Best(ahead).Some? then Best(ahead).value.name else ""
      ensures record == if Best(ahead).Some? && BeforeEnd(target, endMarker) then Best(ahead) else None
    {
      if target != "" {
        AdvanceAll();
      }
      record := ChooseBest();
      if endMarker != "" && Strncmp(endMarker, target, NAME_SIZE) <= 0 {
        record := None;
      }
      TargetIsName(ahead, target);
      StrncmpOrders(endMarker, target, NAME_SIZE);
      BeforeTotal(endMarker, target);
    }

    method AdvanceAll()
      requires Mergeable(ahead)
      modifies this`ahead
      ensures Mergeable(ahead) && ahead == Passed(old(ahead), target)
    {
      ghost var lists := ahead;
      for i := 0 to |ahead|
        invariant |ahead| == |lists|
        invariant forall j :: 0 <= j < |lists| ==> ahead[j] == if j < i then Passed(lists, target)[j] else lists[j]
      {
        if ahead[i] != [] {
          StrncmpOrders(target, ahead[i][0].name, NAME_SIZE);
          if Strncmp(target, ahead[i][0].name, NAME_SIZE) == 0 {
            ahead := ahead[i := ahead[i][1..]];
          }
        }
      }
      PassedMergeable(lists, target);
    }

    method ChooseBest() returns (record: Option<Record>)
      requires Mergeable(ahead)
      modifies this`target
      ensures record == Best(ahead) && target == if record.Some? then record.value.name else ""
    {
      record, target := None, "";
      for i := 0 to |ahead|
        invariant record == Best(ahead[..i]) && target == if record.Some? then record.value.name else ""
        invariant record.Some? ==> IsName(target)
      {
        assert ahead[..i + 1][..i] == ahead[..i];
        if ahead[i] != [] {
          StrncmpOrders(target, ahead[i][0].name, NAME_SIZE);
          BeforeTotal(target, ahead[i][0].name);
          if target == "" || Strncmp(target, ahead[i][0].name, NAME_SIZE) >= 0 {
            target, record := ahead[i][0].name, Some(ahead[i][0]);
          }
        }
      }
      assert ahead[..|ahead|] == ahead;
    }
  }

  lemma TargetIsName(lists: seq<seq<Record>>, target: string)
    requires Mergeable(lists) && target == if Best(lists).Some? then Best(lists).value.name else ""
    ensures |target| < NAME_SIZE
  {
    BestIsLeast(lists);
  }
}
