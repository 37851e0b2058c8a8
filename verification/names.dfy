/** Object names as C strings: the order that strncmp gives them. */
module Names {

  // The sign of strncmp over the first `n` characters; a string ends before every character.
  function Strncmp(a: string, b: string, n: nat): int
    decreases n
  {
    if n == 0 || (a == [] && b == []) then 0
    else if a == [] then -1
    else if b == [] then 1
    else if a[0] != b[0] then (if a[0] < b[0] then -1 else 1)
    else Strncmp(a[1..], b[1..], n - 1)
  }

  /** The lexicographic order. */
  predicate Before(a: string, b: string)
    decreases |a|
  {
    b != [] && (a == [] || a[0] < b[0] || (a[0] == b[0] && Before(a[1..], b[1..])))
  }

  lemma {:induction false} BeforeIrreflexive(a: string)
    ensures !Before(a, a)
    decreases |a|
  {
    if a != [] {
      BeforeIrreflexive(a[1..]);
    }
  }

  lemma {:induction false} BeforeTransitive(a: string, b: string, c: string)
    ensures Before(a, b) && Before(b, c) ==> Before(a, c)
    decreases |a|
  {
    if a != [] && b != [] && c != [] {
      BeforeTransitive(a[1..], b[1..], c[1..]);
    }
  }

  lemma {:induction false} BeforeTotal(a: string, b: string)
    ensures Before(a, b) || a == b || Before(b, a)
    ensures !(Before(a, b) && Before(b, a))
    ensures Before(a, b) ==> a != b
    decreases |a|
  {
    if a != [] && b != [] {
      BeforeTotal(a[1..], b[1..]);
      assert a == [a[0]] + a[1..] && b == [b[0]] + b[1..];
    }
  }

  // If a is not before b, whatever is before b is before a.
  lemma BeforeOrSame(a: string, b: string, c: string)
    ensures Before(a, b) && !Before(c, b) ==> Before(a, c)
    ensures !Before(b, a) && Before(b, c) ==> Before(a, c)
  {
    BeforeTotal(b, c);
    BeforeTotal(a, b);
    BeforeTransitive(a, b, c);
  }

  /** Up to the length of the shorter one and its end, strncmp is the order. */
  lemma {:induction false} StrncmpOrders(a: string, b: string, n: nat)
    requires |b| < n
    ensures Strncmp(a, b, n) > 0 <==> Before(b, a)
    ensures Strncmp(a, b, n) == 0 <==> a == b
    decreases n
  {
    if a != [] && b != [] && a[0] == b[0] {
      StrncmpOrders(a[1..], b[1..], n - 1);
      assert a == [a[0]] + a[1..] && b == [b[0]] + b[1..];
    }
  }

  /** Over the length of its first argument, strncmp tells prefixes. */
  lemma {:induction false} StrncmpOfPrefix(p: string, name: string)
    ensures Strncmp(p, name, |p|) > 0 <==> Before(name, p)
    ensures Strncmp(p, name, |p|) == 0 <==> p <= name
    decreases |p|
  {
    if p != [] && name != [] && p[0] == name[0] {
      StrncmpOfPrefix(p[1..], name[1..]);
      assert p <= name <==> p[1..] <= name[1..];
    }
  }

  /** A name with a prefix is not before it. */
  lemma {:induction false} PrefixNotAfter(p: string, name: string)
    ensures p <= name ==> !Before(name, p)
    decreases |p|
  {
    if p != [] && name != [] && p <= name {
      assert p[1..] <= name[1..];
      PrefixNotAfter(p[1..], name[1..]);
    }
  }

  /** From the prefix on, the names that have it come before those that do not. */
  lemma {:induction false} PrefixedFirst(p: string, a: string, b: string)
    requires !Before(b, p) && !(p <= b) && p <= a
    ensures Before(a, b)
    decreases |p|
  {
    if a[0] == b[0] {
      assert p[0] == a[0];
      assert p[1..] <= a[1..] && !(p[1..] <= b[1..]);
      PrefixedFirst(p[1..], a[1..], b[1..]);
    }
  }
}
