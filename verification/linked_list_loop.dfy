/** Loop detection and removal on a singly linked list. */
module LinkedListLoop {
  // A heap of nodes is summarised by its links, a finite map from each node to its successor.
  // Walking a finite structure from its head visits a sequence of distinct nodes and then either
  // stops at null or goes back to the node at index `entry`: that sequence is the trace, and all
  // that the two pointers do is arithmetic on trace indices.

  class Node {
    var data: int
    var next: Node?

    constructor (data: int)
      ensures this.data == data && next == null
    {
      this.data, next := data, null;
    }
  }

  type Links = map<Node, Node?>

  ghost predicate Closed(links: Links, head: Node?) {
    && (head != null ==> head in links)
    && (forall n :: n in links && links[n] != null ==> links[n] in links)
  }

  /** The node reached from `n` by following `k` links; null stays null. */
  ghost function Walk(links: Links, n: Node?, k: nat): Node?
    requires Closed(links, n)
    decreases k
  {
    if k == 0 || n == null then n else Walk(links, links[n], k - 1)
  }

  ghost predicate Cyclic(links: Links, head: Node?)
    requires Closed(links, head)
  {
    forall k: nat :: Walk(links, head, k) != null
  }

  ghost predicate Distinct(order: seq<Node>) {
    forall i, j :: 0 <= i < j < |order| ==> order[i] != order[j]
  }

  /** `order` lists the nodes in the order in which a walk first visits them, and `entry` is the
      index to which the last one links back, or |order| when it links to null. */
  ghost predicate IsTrace(links: Links, head: Node?, order: seq<Node>, entry: nat) {
    && Closed(links, head)
    && Distinct(order)
    && entry <= |order|
    && (head == null <==> order == [])
    && (head != null ==> order[0] == head)
    && (forall i :: 0 <= i < |order| ==> order[i] in links)
    && (forall i :: 0 <= i < |order| - 1 ==> links[order[i]] == order[i + 1])
    && (order != [] ==> links[order[|order| - 1]] == if entry < |order| then order[entry] else null)
  }

  /** The trace index of step `t`, for a trace of `len` nodes that goes back to `entry`. */
  ghost function Pos(len: nat, entry: nat, t: nat): (p: nat)
    requires entry < len
    ensures p < len
    ensures t >= entry ==> p >= entry
  {
    if t < len then t else Pos(len, entry, t - (len - entry))
  }

  ghost function At(order: seq<Node>, entry: nat, t: nat): Node?
    requires entry <= |order|
  {
    if t < |order| then order[t]
    else if entry == |order| then null
    else order[Pos(|order|, entry, t)]
  }

  lemma {:induction false} PosNext(len: nat, entry: nat, t: nat)
    requires entry < len
    ensures var p := Pos(len, entry, t);
            Pos(len, entry, t + 1) == if p + 1 < len then p + 1 else entry
  {
    if t < len {
    } else {
      PosNext(len, entry, t - (len - entry));
    }
  }

  lemma {:induction false} PosPeriodic(len: nat, entry: nat, t: nat, n: nat)
    requires entry < len && entry <= t
    ensures Pos(len, entry, t + n * (len - entry)) == Pos(len, entry, t)
  {
    if n == 0 {
    } else {
      PosPeriodic(len, entry, t, n - 1);
      var d := len - entry;
      OneTurnMore(d, n);
      PosTurn(len, entry, t + (n - 1) * d);
    }
  }

  lemma OneTurnMore(d: nat, n: nat)
    requires n > 0
    ensures n * d == (n - 1) * d + d && (n - 1) * d >= 0
  {
  }

  lemma PosTurn(len: nat, entry: nat, u: nat)
    requires entry < len && entry <= u
    ensures Pos(len, entry, u + (len - entry)) == Pos(len, entry, u)
  {
  }

  lemma TraceStart(links: Links, head: Node?, order: seq<Node>, entry: nat)
    requires IsTrace(links, head, order, entry)
    ensures entry <= |order| && At(order, entry, 0) == head
    ensures entry == |order| ==> forall t: nat :: At(order, entry, t) != null <==> t < |order|
    ensures entry < |order| ==> forall t: nat :: At(order, entry, t) != null
    ensures forall t: nat :: t < |order| ==> At(order, entry, t) == order[t]
  {
  }

  lemma AtNext(links: Links, head: Node?, order: seq<Node>, entry: nat, t: nat)
    requires IsTrace(links, head, order, entry) && At(order, entry, t) != null
    ensures At(order, entry, t) in links
    ensures links[At(order, entry, t)] == At(order, entry, t + 1)
  {
    if entry < |order| {
      PosNext(|order|, entry, t);
    }
  }

  lemma WalkStep(links: Links, n: Node?, k: nat)
    requires Closed(links, n)
    ensures Walk(links, n, k) != null ==> Walk(links, n, k) in links
    ensures var m := Walk(links, n, k); Walk(links, n, k + 1) == if m == null then null else links[m]
    decreases k
  {
    if k == 0 || n == null {
    } else {
      WalkStep(links, links[n], k - 1);
    }
  }

  /** The trace is exactly the walk. */
  lemma {:induction false} WalkFollowsTrace(links: Links, head: Node?, order: seq<Node>, entry: nat, t: nat)
    requires IsTrace(links, head, order, entry)
    ensures Walk(links, head, t) == At(order, entry, t)
  {
    if t == 0 {
    } else {
      WalkFollowsTrace(links, head, order, entry, t - 1);
      WalkStep(links, head, t - 1);
      if At(order, entry, t - 1) != null {
        AtNext(links, head, order, entry, t - 1);
      }
    }
  }

  /** A list is cyclic exactly when its last newly visited node links back into the trace. */
  lemma TraceCharacterisesList(links: Links, head: Node?, order: seq<Node>, entry: nat)
    requires IsTrace(links, head, order, entry)
    ensures Cyclic(links, head) <==> entry < |order|
  {
    forall t: nat ensures Walk(links, head, t) == At(order, entry, t) {
      WalkFollowsTrace(links, head, order, entry, t);
    }
    if entry == |order| {
      assert Walk(links, head, |order|) == null;
    }
  }

  /** The nodes that a walk reaches are exactly those of the trace. */
  lemma ReachedIffInTrace(links: Links, head: Node?, order: seq<Node>, entry: nat, n: Node)
    requires IsTrace(links, head, order, entry)
    ensures n in order <==> exists t: nat :: Walk(links, head, t) == n
  {
    if n in order {
      var i: nat :| i < |order| && order[i] == n;
      WalkFollowsTrace(links, head, order, entry, i);
    }
    if t: nat :| Walk(links, head, t) == n {
      WalkFollowsTrace(links, head, order, entry, t);
    }
  }

  /** Every finite structure has a trace. */
  lemma BuildTrace(links: Links, head: Node?) returns (order: seq<Node>, entry: nat)
    requires Closed(links, head)
    ensures IsTrace(links, head, order, entry)
  {
    order := [];
    var cur := head;
    var visited: set<Node> := {};
    while cur != null && cur !in order
      invariant Distinct(order)
      invariant cur != null ==> cur in links
      invariant visited == (set n | n in order) && visited <= links.Keys
      invariant order == [] ==> cur == head
      invariant order != [] ==> head != null && order[0] == head && links[order[|order| - 1]] == cur
      invariant forall i :: 0 <= i < |order| - 1 ==> links[order[i]] == order[i + 1]
      decreases links.Keys - visited
    {
      var previous := order;
      order, visited := order + [cur], visited + {cur};
      assert forall i :: 0 <= i < |order| - 1 ==> order[i] == previous[i];
      cur := links[cur];
    }
    if cur == null {
      entry := |order|;
    } else {
      entry :| 0 <= entry < |order| && order[entry] == cur;
    }
  }

  lemma PosIsAt(order: seq<Node>, entry: nat, t: nat)
    requires entry < |order|
    ensures At(order, entry, t) == order[Pos(|order|, entry, t)]
  {
  }

  lemma MultipleIsAtLeast(period: nat, rounds: nat)
    requires 0 < period
    ensures period * rounds >= rounds && period * rounds == rounds * period
    ensures 2 * (period * rounds) == period * rounds + rounds * period
  {
  }

  /** Two pointers that are one cycle length apart differ before the first one reaches the entry of
      the cycle, and are equal when it does. */
  lemma OffsetPointersMeetAtEntry(links: Links, head: Node?, order: seq<Node>, entry: nat)
    requires IsTrace(links, head, order, entry) && entry < |order|
    ensures forall i :: 0 <= i < entry ==> At(order, entry, i) != At(order, entry, i + (|order| - entry))
    ensures At(order, entry, entry) == At(order, entry, entry + (|order| - entry)) == order[entry]
  {
    assert Pos(|order|, entry, |order|) == Pos(|order|, entry, entry) == entry;
  }

  /** The slow pointer after `t` steps and the fast one after `2 * t` coincide only in the cycle... */
  lemma PointersMeetInCycle(links: Links, head: Node?, order: seq<Node>, entry: nat, t: nat)
    requires IsTrace(links, head, order, entry) && 0 < t
    requires At(order, entry, t) != null && At(order, entry, t) == At(order, entry, 2 * t)
    ensures entry < |order| && entry <= t
  {
  }

  /** ... and do so at the latest after cycle length times (entry + 1) steps. */
  lemma PointersMeetInTime(order: seq<Node>, entry: nat)
    requires entry < |order|
    ensures var t := (|order| - entry) * (entry + 1);
            0 < t && At(order, entry, t) == At(order, entry, 2 * t)
  {
    var period, rounds := |order| - entry, entry + 1;
    MultipleIsAtLeast(period, rounds);
    PosPeriodic(|order|, entry, period * rounds, rounds);
    PosIsAt(order, entry, period * rounds);
    PosIsAt(order, entry, 2 * (period * rounds));
  }

  /** Cutting the link that closes the cycle leaves a list that visits the same nodes once each, in
      the same order, and then ends. */
  lemma CutStraightens(links: Links, head: Node?, order: seq<Node>, entry: nat)
    requires IsTrace(links, head, order, entry) && entry < |order|
    ensures var cut := links[order[|order| - 1] := null];
            IsTrace(cut, head, order, |order|)
            && !Cyclic(cut, head)
            && (forall t: nat :: Walk(cut, head, t) == if t < |order| then order[t] else null)
  {
    var cut := links[order[|order| - 1] := null];
    assert IsTrace(cut, head, order, |order|);
    TraceCharacterisesList(cut, head, order, |order|);
    forall t: nat ensures Walk(cut, head, t) == if t < |order| then order[t] else null {
      WalkFollowsTrace(cut, head, order, |order|, t);
    }
  }

  lemma CutIsClosed(links: Links, head: Node?, order: seq<Node>)
    requires order != [] && IsTrace(links[order[|order| - 1] := null], head, order, |order|)
    ensures Closed(links[order[|order| - 1] := null], head)
  {
  }

  class LinkedList {
    var head: Node?
    ghost var nodes: set<Node>  // any finite set that contains the head and is closed under next

    ghost function AllLinks(): Links
      reads this, nodes
    {
      map n | n in nodes :: n.next
    }

    ghost predicate Valid()
      reads this, nodes
    {
      Closed(AllLinks(), head)
    }

    constructor ()
      ensures Valid() && head == null && nodes == {}
    {
      head, nodes := null, {};
    }

    method Push(newData: int)
      requires Valid()
      modifies this
      ensures Valid() && head != null && fresh(head) && nodes == old(nodes) + {head}
      ensures head.data == newData && head.next == old(head)
    {
      var node := new Node(newData);
      node.next := head;
      head := node;
      nodes := nodes + {node};
      assert forall n :: n in old(nodes) ==> n.next == old(n.next) && AllLinks()[n] == old(AllLinks())[n];
    }

    lemma Follow(links: Links, order: seq<Node>, entry: nat, t: nat)
      requires links == AllLinks() && IsTrace(links, head, order, entry) && At(order, entry, t) != null
      ensures At(order, entry, t) in nodes && At(order, entry, t).next == At(order, entry, t + 1)
    {
      AtNext(links, head, order, entry, t);
    }

    /** Returns 1 exactly when the list is cyclic, and then cuts the cycle before its entry. */
    method DetectAndRemoveLoop() returns (r: int, ghost order: seq<Node>, ghost entry: nat)
      requires Valid()
      modifies nodes
      ensures Valid()
      ensures IsTrace(old(AllLinks()), head, order, entry)
      ensures r == if old(Cyclic(AllLinks(), head)) then 1 else 0
      ensures r == 0 ==> AllLinks() == old(AllLinks())
      ensures r == 1 ==> entry < |order| && AllLinks() == old(AllLinks())[order[|order| - 1] := null]
      ensures IsTrace(AllLinks(), head, order, |order|)
      ensures forall n :: n in nodes ==> n.data == old(n.data)
    {
      hide Closed, Distinct, IsTrace, At, Pos, Walk, Cyclic;
      ghost var links := AllLinks();
      order, entry := BuildTrace(links, head);
      TraceStart(links, head, order, entry);
      assert Cyclic(links, head) == (entry < |order|) by {
        TraceCharacterisesList(links, head, order, entry);
      }
      var slow, fast := head, head;
      ghost var t := 0;
      ghost var bound := (|order| - entry) * (entry + 1);
      if entry < |order| {
        PointersMeetInTime(order, entry);
      }
      while slow != null && fast != null && fast.next != null
        invariant slow == At(order, entry, t) && fast == At(order, entry, 2 * t)
        invariant entry < |order| ==> t < bound
        invariant unchanged(nodes)
        decreases if entry < |order| then bound - t else |order| - 2 * t
      {
        Follow(links, order, entry, t);
        Follow(links, order, entry, 2 * t);
        Follow(links, order, entry, 2 * t + 1);
        slow := slow.next;
        fast := fast.next.next;
        t := t + 1;
        if slow == fast {
          PointersMeetInCycle(links, head, order, entry, t);
          RemoveLoop(slow, order, entry, t);
          return 1, order, entry;
        }
      }
      assert entry == |order| by {
        if entry < |order| {
          Follow(links, order, entry, 2 * t);
        }
      }
      return 0, order, entry;
    }

    method RemoveLoop(loopNode: Node, ghost order: seq<Node>, ghost entry: nat, ghost meeting: nat)
      requires Valid() && IsTrace(AllLinks(), head, order, entry)
      requires entry < |order| && entry <= meeting && loopNode == At(order, entry, meeting)
      modifies nodes
      ensures Valid()
      ensures AllLinks() == old(AllLinks())[order[|order| - 1] := null]
      ensures IsTrace(AllLinks(), head, order, |order|)
      ensures forall n :: n in nodes ==> n.data == old(n.data)
    {
      hide Closed, Distinct, IsTrace, At, Pos, Walk, Cyclic;
      ghost var links := AllLinks();
      var k := CountLoopNodes(loopNode, order, entry, meeting);
      var first := FindLoopStart(k, order, entry);
      var last := FindLoopEnd(first, order, entry);
      CutStraightens(links, head, order, entry);
      CutIsClosed(links, head, order);
      last.next := null;
      assert AllLinks() == links[last := null];
    }

    // The three stages of the removal: the length of the cycle, its entry, its last node.

    method CountLoopNodes(loopNode: Node, ghost order: seq<Node>, ghost entry: nat, ghost meeting: nat)
      returns (k: nat)
      requires Valid() && IsTrace(AllLinks(), head, order, entry)
      requires entry < |order| && entry <= meeting && loopNode == At(order, entry, meeting)
      ensures k == |order| - entry
    {
      hide Closed, Distinct, IsTrace, At, Pos, Walk, Cyclic;
      TraceStart(AllLinks(), head, order, entry);
      ghost var links, start := AllLinks(), Pos(|order|, entry, meeting);
      PosIsAt(order, entry, meeting);
      var ptr1, ptr2 := loopNode, loopNode;
      k := 1;
      Follow(links, order, entry, start);
      while ptr1.next != ptr2
        invariant 1 <= k <= |order| - entry
        invariant ptr1 == At(order, entry, start + k - 1) && ptr1 in nodes
        invariant ptr1.next == At(order, entry, start + k)
        decreases |order| - entry - k
      {
        CycleLength(links, head, order, entry, start, k);
        ptr1 := ptr1.next;
        k := k + 1;
        Follow(links, order, entry, start + k - 1);
      }
      CycleLength(links, head, order, entry, start, k);
    }

    method FindLoopStart(k: nat, ghost order: seq<Node>, ghost entry: nat) returns (ptr1: Node)
      requires Valid() && IsTrace(AllLinks(), head, order, entry)
      requires entry < |order| && k == |order| - entry
      ensures ptr1 == order[entry]
    {
      hide Closed, Distinct, IsTrace, At, Pos, Walk, Cyclic;
      ghost var links := AllLinks();
      TraceStart(links, head, order, entry);
      ptr1 := head;
      var ptr2: Node := head;
      for i := 0 to k
        invariant ptr2 == At(order, entry, i)
      {
        Follow(links, order, entry, i);
        ptr2 := ptr2.next;
      }

      OffsetPointersMeetAtEntry(links, head, order, entry);
      ghost var i := 0;
      while ptr2 != ptr1
        invariant 0 <= i <= entry
        invariant ptr1 == At(order, entry, i) && ptr2 == At(order, entry, i + k)
        decreases entry - i
      {
        Follow(links, order, entry, i);
        Follow(links, order, entry, i + k);
        ptr1 := ptr1.next;
        ptr2 := ptr2.next;
        i := i + 1;
      }
    }

    method FindLoopEnd(ptr1: Node, ghost order: seq<Node>, ghost entry: nat) returns (ptr2: Node)
      requires Valid() && IsTrace(AllLinks(), head, order, entry)
      requires entry < |order| && ptr1 == order[entry]
      ensures ptr2 == order[|order| - 1] && ptr2 in nodes && ptr2.next == ptr1
    {
      hide Closed, Distinct, IsTrace, At, Pos, Walk, Cyclic;
      ghost var links := AllLinks();
      TraceStart(links, head, order, entry);
      OffsetPointersMeetAtEntry(links, head, order, entry);
      Follow(links, order, entry, entry);
      Follow(links, order, entry, entry + 1);
      ptr2 := ptr1.next;
      ghost var j := entry + 1;
      while ptr2.next != ptr1
        invariant entry < j <= |order|
        invariant ptr2 == At(order, entry, j) && ptr2 in nodes
        invariant j == |order| ==> entry + 1 == |order|
        decreases |order| - j
      {
        Follow(links, order, entry, j);
        Follow(links, order, entry, j + 1);
        ptr2 := ptr2.next;
        j := j + 1;
      }
      Follow(links, order, entry, j);
      if j < |order| {
        CycleLength(links, head, order, entry, entry, j + 1 - entry);
      }
    }
  }

  /** Walking round the cycle from any of its nodes returns to it after a whole period, not before. */
  lemma CycleLength(links: Links, head: Node?, order: seq<Node>, entry: nat, start: nat, k: nat)
    requires IsTrace(links, head, order, entry) && entry <= start < |order| && 1 <= k <= |order| - entry
    ensures At(order, entry, start + k) == At(order, entry, start) <==> k == |order| - entry
  {
    if start + k >= |order| {
      assert Pos(|order|, entry, start + k) == start + k - (|order| - entry);
    }
  }
}
