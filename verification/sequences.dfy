/**
 * LINQ's `Where` over sequences, with the facts the views rely on: it keeps
 * exactly the elements that satisfy the predicate, in their original order.
 */
module Sequences {

  function Where<T>(s: seq<T>, p: T -> bool): (r: seq<T>)
    ensures |r| <= |s|
    ensures forall i :: 0 <= i < |r| ==> p(r[i])
  {
    if s == [] then [] else (if p(s[0]) then [s[0]] else []) + Where(s[1..], p)
  }

  /** Membership: an element is kept iff it is in `s` and satisfies `p`. */
  lemma {:induction false} WhereMembership<T>(s: seq<T>, p: T -> bool, x: T)
    ensures x in Where(s, p) <==> x in s && p(x)
  {
    if s != [] {
      WhereMembership(s[1..], p, x);
      assert s == [s[0]] + s[1..];
    }
  }

  /** Order: filtering a concatenation concatenates the filtered parts. */
  lemma {:induction false} WhereAppend<T>(s: seq<T>, t: seq<T>, p: T -> bool)
    ensures Where(s + t, p) == Where(s, p) + Where(t, p)
  {
    if s == [] {
      assert s + t == t;
    } else {
      var head := if p(s[0]) then [s[0]] else [];
      WhereAppend(s[1..], t, p);
      assert (s + t)[0] == s[0];
      assert (s + t)[1..] == s[1..] + t;
      calc {
        Where(s + t, p);
        head + Where(s[1..] + t, p);
        head + (Where(s[1..], p) + Where(t, p));
        { AppendAssociates(head, Where(s[1..], p), Where(t, p)); }
        (head + Where(s[1..], p)) + Where(t, p);
        Where(s, p) + Where(t, p);
      }
    }
  }

  lemma AppendAssociates<T>(a: seq<T>, b: seq<T>, c: seq<T>)
    ensures a + (b + c) == (a + b) + c
  {
  }

  /** A sequence whose elements all satisfy `p` is left as it is. */
  lemma {:induction false} WhereKeepsAll<T>(s: seq<T>, p: T -> bool)
    requires forall i :: 0 <= i < |s| ==> p(s[i])
    ensures Where(s, p) == s
  {
    if s != [] {
      WhereKeepsAll(s[1..], p);
    }
  }

  /** `Select` over a sequence. */
  function Select<T, U>(s: seq<T>, f: T -> U): (r: seq<U>)
    ensures |r| == |s|
    ensures forall i :: 0 <= i < |s| ==> r[i] == f(s[i])
  {
    seq(|s|, i requires 0 <= i < |s| => f(s[i]))
  }

  /** Whatever `Select` yields is the image of some element, and every element's image is yielded. */
  lemma SelectMembership<T, U>(s: seq<T>, f: T -> U, x: T)
    ensures x in s ==> f(x) in Select(s, f)
  {
    if x in s {
      var i :| 0 <= i < |s| && s[i] == x;
      assert Select(s, f)[i] == f(x);
    }
  }

  lemma SelectPreimage<T, U>(s: seq<T>, f: T -> U, y: U) returns (x: T)
    requires y in Select(s, f)
    ensures x in s && y == f(x)
  {
    var i :| 0 <= i < |s| && Select(s, f)[i] == y;
    x := s[i];
  }

  lemma SelectOfThree<T, U>(a: T, b: T, c: T, f: T -> U)
    ensures Select([a, b, c], f) == [f(a), f(b), f(c)]
  {
  }
}
