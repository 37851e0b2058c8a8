/** Printing all permutations of a segment of an array, by swapping in place and swapping back. */
module Permutation {

  function Swapped(s: string, i: nat, j: nat): (s': string)
    requires i < |s| && j < |s|
    ensures |s'| == |s| && s'[i] == s[j] && s'[j] == s[i]
    ensures forall k :: 0 <= k < |s| && k != i && k != j ==> s'[k] == s[k]
  {
    s[i := s[j]][j := s[i]]
  }

  /** What is printed for the segment from `l` to `r`, in the order of printing. */
  function Printed(s: string, l: nat, r: int): seq<string>
    requires r < |s|
    decreases r - l + 1, 1, 0
  {
    if l == r then [s] else PrintedFrom(s, l, r, l)
  }

  // What the loop prints from its iteration `i` on.
  function PrintedFrom(s: string, l: nat, r: int, i: nat): seq<string>
    requires r < |s| && l <= i
    decreases r - l + 1, 0, r - i + 1
  {
    if i > r then [] else Printed(Swapped(s, l, i), l + 1, r) + PrintedFrom(s, l, r, i + 1)
  }

  method Swap(a: array<char>, l: nat, r: nat)
    requires l < a.Length && r < a.Length
    modifies a
    ensures a[..] == Swapped(old(a[..]), l, r)
  {
    var t := a[l];
    a[l] := a[r];
    a[r] := t;
  }

  lemma SwapBack(s: string, i: nat, j: nat)
    requires i < |s| && j < |s|
    ensures Swapped(Swapped(s, i, j), i, j) == s
  {
  }

  /** Prints the permutations and leaves the array as it was. */
  method Permute(a: array<char>, l: nat, r: int) returns (output: seq<string>)
    requires r < a.Length
    modifies a
    ensures output == Printed(old(a[..]), l, r) && a[..] == old(a[..])
    decreases r - l + 1
  {
    hide Swapped, Printed, PrintedFrom;
    PrintedIs(a[..], l, r);
    if l == r {
      output := [a[..]];
    } else {
      output := [];
      var i := l;
      while i <= r
        invariant l <= i && (i <= r + 1 || i == l) && a[..] == old(a[..])
        invariant Printed(old(a[..]), l, r) == output + PrintedFrom(old(a[..]), l, r, i)
        decreases r - i
      {
        PrintedFromIs(a[..], l, r, i);
        Swap(a, l, i);
        var printed := Permute(a, l + 1, r);
        output := output + printed;
        SwapBack(old(a[..]), l, i);
        Swap(a, l, i);
        i := i + 1;
      }
      PrintedFromIs(a[..], l, r, i);
    }
  }

  lemma PrintedIs(s: string, l: nat, r: int)
    requires r < |s|
    ensures Printed(s, l, r) == if l == r then [s] else PrintedFrom(s, l, r, l)
  {
  }

  lemma PrintedFromIs(s: string, l: nat, r: int, i: nat)
    requires r < |s| && l <= i
    ensures PrintedFrom(s, l, r, i) == if i > r then [] else Printed(Swapped(s, l, i), l + 1, r) + PrintedFrom(s, l, r, i + 1)
  {
  }

  // ----- What is printed

  // The segment from `l` to `r`.
  function Segment(s: string, l: nat, r: nat): string
    requires l <= r < |s|
  {
    s[l..r + 1]
  }

  /** `p` rearranges the segment of `s` and has everything else in place. */
  ghost predicate Arranges(s: string, l: nat, r: nat, p: string)
    requires l <= r < |s|
  {
    && |p| == |s|
    && (forall k :: 0 <= k < l || r < k < |s| ==> p[k] == s[k])
    && multiset(Segment(p, l, r)) == multiset(Segment(s, l, r))
  }

  lemma SegmentSplit(s: string, l: nat, r: nat)
    requires l < r < |s|
    ensures multiset(Segment(s, l, r)) == multiset{s[l]} + multiset(Segment(s, l + 1, r))
  {
    assert Segment(s, l, r) == [s[l]] + Segment(s, l + 1, r);
  }

  lemma SegmentUpdated(q: string, k: nat, c: char)
    requires k < |q|
    ensures multiset(q[k := c]) == multiset(q) - multiset{q[k]} + multiset{c}
  {
    assert q == q[..k] + [q[k]] + q[k + 1..];
    assert q[k := c] == q[..k] + [c] + q[k + 1..];
  }

  lemma SegmentSwapped(s: string, l: nat, r: nat, i: nat)
    requires l <= i <= r < |s|
    ensures multiset(Segment(Swapped(s, l, i), l, r)) == multiset(Segment(s, l, r))
  {
    var q := Segment(s, l, r);
    var k := i - l;
    assert Segment(Swapped(s, l, i), l, r) == q[0 := q[k]][k := q[0]];
    hide Segment, Swapped;
    SegmentUpdated(q, 0, q[k]);
    SegmentUpdated(q[0 := q[k]], k, q[0]);
    assert q[0 := q[k]][k] == q[k] && q[0] in multiset(q);
    ChangedBack(multiset(q), q[0], q[k]);
  }

  lemma ChangedBack(m: multiset<char>, a: char, b: char)
    requires a in m
    ensures m - multiset{a} + multiset{b} - multiset{b} + multiset{a} == m
  {
  }

  lemma {:induction false} InPrintedFrom(s: string, l: nat, r: nat, i: nat, p: string)
    requires l < r < |s| && l <= i
    ensures p in PrintedFrom(s, l, r, i) <==> exists k :: i <= k <= r && p in Printed(Swapped(s, l, k), l + 1, r)
    decreases r + 1 - i
  {
    if i <= r {
      InPrintedFrom(s, l, r, i + 1, p);
    }
  }

  lemma ArrangesRest(s: string, l: nat, r: nat, i: nat, p: string)
    requires l < r < |s| && l <= i <= r && |p| == |s|
    ensures Arranges(Swapped(s, l, i), l + 1, r, p) <==> Arranges(s, l, r, p) && p[l] == s[i]
  {
    hide Segment;
    var t := Swapped(s, l, i);
    SegmentSwapped(s, l, r, i);
    SegmentSplit(t, l, r);
    SegmentSplit(p, l, r);
    if Arranges(t, l + 1, r, p) {
      assert p[l] == t[l];
    }
    if Arranges(s, l, r, p) && p[l] == s[i] {
      assert multiset(Segment(p, l + 1, r)) == multiset(Segment(p, l, r)) - multiset{p[l]};
      assert multiset(Segment(t, l + 1, r)) == multiset(Segment(t, l, r)) - multiset{t[l]};
    }
  }

  lemma FirstComesFrom(s: string, l: nat, r: nat, p: string) returns (i: nat)
    requires l <= r < |s| && Arranges(s, l, r, p)
    ensures l <= i <= r && s[i] == p[l]
  {
    assert Segment(p, l, r)[0] == p[l];
    assert p[l] in multiset(Segment(p, l, r));
    assert p[l] in Segment(s, l, r);
    var k :| 0 <= k < |Segment(s, l, r)| && Segment(s, l, r)[k] == p[l];
    i := l + k;
  }

  /** Exactly the arrangements of the segment are printed. */
  lemma {:induction false} PrintsArrangements(s: string, l: nat, r: nat, p: string)
    requires l <= r < |s|
    ensures p in Printed(s, l, r) <==> Arranges(s, l, r, p)
    decreases r - l
  {
    hide Arranges, PrintedFrom;
    if l == r {
      OnlyArrangement(s, l, p);
    } else {
      SameLength(s, l, r, p);
      InPrintedFrom(s, l, r, l, p);
      forall i | l <= i <= r
        ensures p in Printed(Swapped(s, l, i), l + 1, r) <==> |p| == |s| && Arranges(s, l, r, p) && p[l] == s[i]
      {
        PrintsArrangements(Swapped(s, l, i), l + 1, r, p);
        SameLength(Swapped(s, l, i), l + 1, r, p);
        if |p| == |s| {
          ArrangesRest(s, l, r, i, p);
        }
      }
      if Arranges(s, l, r, p) {
        var i := FirstComesFrom(s, l, r, p);
      }
    }
  }

  lemma SameLength(s: string, l: nat, r: nat, p: string)
    requires l <= r < |s|
    ensures Arranges(s, l, r, p) ==> |p| == |s|
  {
  }

  lemma OnlyArrangement(s: string, l: nat, p: string)
    requires l < |s|
    ensures Arranges(s, l, l, p) <==> p == s
  {
    if Arranges(s, l, l, p) {
      assert Segment(p, l, l) == [p[l]] && Segment(s, l, l) == [s[l]];
      assert p[l] in multiset{s[l]};
    }
  }

  // ----- How many are printed

  function Factorial(n: nat): nat {
    if n == 0 then 1 else n * Factorial(n - 1)
  }

  lemma {:induction false} CountFrom(s: string, l: nat, r: nat, i: nat)
    requires l < r < |s| && l <= i <= r + 1
    ensures |PrintedFrom(s, l, r, i)| == (r + 1 - i) * Factorial(r - l)
    decreases r - l, r + 1 - i
  {
    hide Factorial, Printed, PrintedFrom, Swapped;
    PrintedFromIs(s, l, r, i);
    if i <= r {
      CountPrinted(Swapped(s, l, i), l + 1, r);
      CountFrom(s, l, r, i + 1);
      OnceMore(r - i, Factorial(r - l));
    }
  }

  lemma OnceMore(k: nat, n: nat)
    ensures n + k * n == (k + 1) * n
  {
  }

  /** A segment of n characters gives n! lines. */
  lemma {:induction false} CountPrinted(s: string, l: nat, r: nat)
    requires l <= r < |s|
    ensures |Printed(s, l, r)| == Factorial(r - l + 1)
    decreases r - l, r + 2
  {
    if l == r {
      assert Factorial(1) == 1 * Factorial(0);
    } else {
      CountFrom(s, l, r, l);
    }
  }

  // ----- Each once

  predicate Distinct(s: string, l: nat, r: nat)
    requires l <= r < |s|
  {
    forall i, j :: l <= i < j <= r ==> s[i] != s[j]
  }

  predicate NoRepeats(q: seq<string>) {
    forall i, j :: 0 <= i < j < |q| ==> q[i] != q[j]
  }

  lemma NoRepeatsOfBoth(a: seq<string>, b: seq<string>)
    requires NoRepeats(a) && NoRepeats(b) && forall p :: p in a ==> p !in b
    ensures NoRepeats(a + b)
  {
    forall i, j | 0 <= i < j < |a + b| ensures (a + b)[i] != (a + b)[j] {
      if i < |a| <= j {
        assert a[i] in a && b[j - |a|] in b;
      }
    }
  }

  lemma {:induction false} EachOnceFrom(s: string, l: nat, r: nat, i: nat)
    requires l < r < |s| && l <= i && Distinct(s, l, r)
    ensures NoRepeats(PrintedFrom(s, l, r, i))
    decreases r - l, 0, r + 1 - i
  {
    if i <= r {
      EachOnce(Swapped(s, l, i), l + 1, r);
      EachOnceFrom(s, l, r, i + 1);
      var block, rest := Printed(Swapped(s, l, i), l + 1, r), PrintedFrom(s, l, r, i + 1);
      forall p | p in block ensures p !in rest {
        FirstTells(s, l, r, i, p);
      }
      NoRepeatsOfBoth(block, rest);
    }
  }

  lemma ArrangedFirst(s: string, l: nat, r: nat, p: string)
    requires l < r < |s|
    ensures Arranges(s, l + 1, r, p) ==> |p| == |s| && p[l] == s[l]
  {
  }

  // The first character of the segment tells in which iteration a line was printed.
  lemma FirstTells(s: string, l: nat, r: nat, i: nat, p: string)
    requires l < r < |s| && l <= i <= r && Distinct(s, l, r) && p in Printed(Swapped(s, l, i), l + 1, r)
    ensures p !in PrintedFrom(s, l, r, i + 1)
  {
    hide Printed, PrintedFrom, Swapped, Arranges;
    InPrintedFrom(s, l, r, i + 1, p);
    PrintsArrangements(Swapped(s, l, i), l + 1, r, p);
    ArrangedFirst(Swapped(s, l, i), l, r, p);
    forall k | i < k <= r ensures p !in Printed(Swapped(s, l, k), l + 1, r) {
      PrintsArrangements(Swapped(s, l, k), l + 1, r, p);
      ArrangedFirst(Swapped(s, l, k), l, r, p);
      assert Swapped(s, l, i)[l] == s[i] && Swapped(s, l, k)[l] == s[k];
    }
  }

  lemma {:induction false} EachOnce(s: string, l: nat, r: nat)
    requires l <= r < |s| && Distinct(s, l, r)
    ensures NoRepeats(Printed(s, l, r))
    decreases r - l, 1, 0
  {
    if l < r {
      EachOnceFrom(s, l, r, l);
    }
  }

  lemma {:induction false} BlockPlace(s: string, l: nat, r: nat, i: nat, j: nat) returns (n: nat)
    requires l < r < |s| && l <= i <= j <= r
    ensures n + |Printed(Swapped(s, l, j), l + 1, r)| <= |PrintedFrom(s, l, r, i)|
    ensures PrintedFrom(s, l, r, i)[n..n + |Printed(Swapped(s, l, j), l + 1, r)|] == Printed(Swapped(s, l, j), l + 1, r)
    ensures i < j ==> n >= |Printed(Swapped(s, l, i), l + 1, r)|
    decreases j - i
  {
    hide Printed, Swapped;
    var first, rest := Printed(Swapped(s, l, i), l + 1, r), PrintedFrom(s, l, r, i + 1);
    assert PrintedFrom(s, l, r, i) == first + rest;
    if i == j {
      n := 0;
    } else {
      var k := BlockPlace(s, l, r, i + 1, j);
      n := |first| + k;
      var len := |Printed(Swapped(s, l, j), l + 1, r)|;
      assert (first + rest)[n..n + len] == rest[k..k + len];
    }
  }

  lemma {:induction false} FactorialPositive(n: nat)
    ensures Factorial(n) > 0
    decreases n
  {
    if n > 0 {
      FactorialPositive(n - 1);
    }
  }

  /** A repeated character makes a line come twice. */
  lemma {:induction false} RepeatedTwice(s: string, l: nat, r: nat)
    requires l <= r < |s| && !Distinct(s, l, r)
    ensures !NoRepeats(Printed(s, l, r))
    decreases r - l
  {
    var i, j :| l <= i < j <= r && s[i] == s[j];
    var first, all := Printed(s, l + 1, r), Printed(s, l, r);
    FirstBlock(s, l, r);
    if i > l {
      assert !Distinct(s, l + 1, r);
      RepeatedTwice(s, l + 1, r);
      var a, b :| 0 <= a < b < |first| && first[a] == first[b];
      assert all[a] == first[a] && all[b] == first[b];
    } else {
      SameBlockTwice(s, l, r, j);
    }
  }

  // The first iteration swaps nothing.
  lemma FirstBlock(s: string, l: nat, r: nat)
    requires l < r < |s|
    ensures Printed(s, l + 1, r) <= Printed(s, l, r)
  {
    assert Swapped(s, l, l) == s;
  }

  // Swapping equal characters prints the same lines again.
  lemma SameBlockTwice(s: string, l: nat, r: nat, j: nat)
    requires l < j <= r < |s| && s[l] == s[j]
    ensures !NoRepeats(Printed(s, l, r))
  {
    hide PrintedFrom;
    var first, all := Printed(s, l + 1, r), Printed(s, l, r);
    assert Swapped(s, l, j) == s && Swapped(s, l, l) == s;
    FirstBlock(s, l, r);
    CountPrinted(s, l + 1, r);
    FactorialPositive(r - l);
    var n := BlockPlace(s, l, r, l, j);
    assert all[n..n + |first|][0] == all[n] && first[0] == all[0];
  }

  /** No line is printed twice exactly when the characters of the segment are distinct. */
  lemma EachOnceIff(s: string, l: nat, r: nat)
    requires l <= r < |s|
    ensures NoRepeats(Printed(s, l, r)) <==> Distinct(s, l, r)
  {
    if Distinct(s, l, r) {
      EachOnce(s, l, r);
    } else {
      RepeatedTwice(s, l, r);
    }
  }
}
