/** Iteration over integer keys in ascending order, the order of std::map. */
module OrderedKeys {

  lemma HasElement(s: set<int>)
    ensures s == {} || exists x :: x in s
  {
    if forall x :: x !in s {
      assert s == {};
    }
  }

  lemma {:induction false} MinExists(s: set<int>)
    requires s != {}
    ensures exists m :: m in s && forall k :: k in s ==> m <= k
    decreases |s|
  {
    HasElement(s);
    var x :| x in s;
    var rest := s - {x};
    assert forall k :: k in s ==> k == x || k in rest;
    if rest == {} {
      assert x in s;
    } else {
      MinExists(rest);
      var m :| m in rest && forall k :: k in rest ==> m <= k;
      var least := if m <= x then m else x;
      assert least in s && forall k :: k in s ==> least <= k;
    }
  }

  function MinOf(s: set<int>): (m: int)
    requires s != {}
    ensures m in s && forall k :: k in s ==> m <= k
  {
    MinExists(s);
    var m :| m in s && forall k :: k in s ==> m <= k;
    m
  }

  function Ascending(s: set<int>): (q: seq<int>)
    ensures forall k :: k in q <==> k in s
    ensures forall i, j :: 0 <= i < j < |q| ==> q[i] < q[j]
    decreases |s|
  {
    if s == {} then [] else
      var m := MinOf(s);
      [m] + Ascending(s - {m})
  }
}
