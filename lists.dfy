/**
  Python list behaviour the case officers rely on: list.remove (first occurrence), the
  LIFO order of list.pop(), and what `for x in L:` visits when the loop body removes
  elements from L as it goes.
*/
module Lists {

  ghost predicate Distinct<A>(s: seq<A>)
  {
    forall i, j :: 0 <= i < j < |s| ==> s[i] != s[j]
  }

  /** list.remove(x) on a list that holds x; a list without x is returned unchanged. */
  function RemoveFirst<A(==)>(s: seq<A>, x: A): (r: seq<A>)
    ensures x in s ==> |r| == |s| - 1
    ensures x !in s ==> r == s
    ensures forall y :: y in r ==> y in s
  {
    if s == [] then []
    else
      assert s == [s[0]] + s[1..];
      if s[0] == x then s[1..]
      else [s[0]] + RemoveFirst(s[1..], x)
  }

  /** list.remove(x) takes away exactly one occurrence of x when there is one. */
  lemma {:induction false} RemoveFirstMultiset<A>(s: seq<A>, x: A)
    ensures multiset(RemoveFirst(s, x)) == multiset(s) - multiset{x}
  {
    if s != [] {
      assert s == [s[0]] + s[1..];
      if s[0] != x {
        RemoveFirstMultiset(s[1..], x);
      }
    }
  }

  /** n successive calls of list.remove(x). */
  function RemoveFirstN<A(==)>(s: seq<A>, x: A, n: nat): (r: seq<A>)
    ensures |r| <= |s|
    ensures forall y :: y in r ==> y in s
    decreases n
  {
    if n == 0 then s else RemoveFirstN(RemoveFirst(s, x), x, n - 1)
  }

  /** The elements of s, last first: the order in which repeated pop() hands them out. */
  function Reversed<A>(s: seq<A>): (r: seq<A>)
    ensures |r| == |s|
    ensures forall i :: 0 <= i < |s| ==> r[i] == s[|s| - 1 - i]
  {
    if s == [] then [] else Reversed(s[1..]) + [s[0]]
  }

  /** Popping one more element off the end of s: the reversed tail grows by that element. */
  lemma ReversedPop<A>(s: seq<A>, k: nat)
    requires 0 < k <= |s|
    ensures Reversed(s[k - 1..]) == Reversed(s[k..]) + [s[k - 1]]
  {
    assert s[k - 1..][1..] == s[k..];
  }

  /**
    The list `for x in L:` is walking after its first |drops| steps, where step k looked at
    position k of the list as it then was and the body removed drops[k] occurrences of
    that element. The iteration stops once its position runs past the end of the list.
  */
  function Replay<A(==)>(l: seq<A>, drops: seq<nat>): seq<A>
    decreases |drops|
  {
    if drops == [] then l
    else
      var k := |drops| - 1;
      var cur := Replay(l, drops[..k]);
      if k < |cur| then RemoveFirstN(cur, cur[k], drops[k]) else cur
  }

  /** The elements the same loop has handed to its body during those steps, in order. */
  function Visits<A(==)>(l: seq<A>, drops: seq<nat>): seq<A>
    decreases |drops|
  {
    if drops == [] then []
    else
      var k := |drops| - 1;
      var cur := Replay(l, drops[..k]);
      Visits(l, drops[..k]) + (if k < |cur| then [cur[k]] else [])
  }

  /** One more step of the loop: it hands over position |drops| and removes d listings of that element. */
  lemma ReplayStep<A>(l: seq<A>, drops: seq<nat>, d: nat)
    requires |drops| < |Replay(l, drops)|
    ensures var cur := Replay(l, drops);
      && Replay(l, drops + [d]) == RemoveFirstN(cur, cur[|drops|], d)
      && Visits(l, drops + [d]) == Visits(l, drops) + [cur[|drops|]]
  {
    assert (drops + [d])[..|drops|] == drops;
  }

  /** In a list without repeats, removing the element at position i closes the gap at i. */
  lemma {:induction false} RemoveFirstDistinct<A>(s: seq<A>, i: nat)
    requires Distinct(s) && i < |s|
    ensures RemoveFirst(s, s[i]) == s[..i] + s[i + 1..]
  {
    if i > 0 {
      var t := s[1..];
      assert t[i - 1] == s[i];
      assert s[0] != s[i];
      assert Distinct(t) by {
        forall a, b | 0 <= a < b < |t| ensures t[a] != t[b] {
          assert t[a] == s[a + 1] && t[b] == s[b + 1];
        }
      }
      RemoveFirstDistinct(t, i - 1);
      assert RemoveFirst(s, s[i]) == [s[0]] + (t[..i - 1] + t[i..]);
      assert t[..i - 1] == s[1..i] && t[i..] == s[i + 1..];
      assert [s[0]] + s[1..i] == s[..i];
    }
  }

  /** Removing an element of a list without repeats once or more removes exactly that position. */
  lemma {:induction false} RemoveFirstNDistinct<A>(s: seq<A>, i: nat, n: nat)
    requires Distinct(s) && i < |s|
    ensures RemoveFirstN(s, s[i], n) == if n == 0 then s else s[..i] + s[i + 1..]
    decreases n
  {
    if n > 0 {
      var x := s[i];
      RemoveFirstDistinct(s, i);
      var t := s[..i] + s[i + 1..];
      assert x !in t by {
        forall j | 0 <= j < |t| ensures t[j] != x {
          if j < i { assert t[j] == s[j]; } else { assert t[j] == s[j + 1]; }
        }
      }
      RemoveAbsent(t, x, n - 1);
    }
  }

  /** Removing an absent element any number of times changes nothing. */
  lemma {:induction false} RemoveAbsent<A>(s: seq<A>, x: A, n: nat)
    requires x !in s
    ensures RemoveFirstN(s, x, n) == s
    decreases n
  {
    if n > 0 {
      RemoveAbsent(s, x, n - 1);
    }
  }

  /** Closing the gap at position k keeps a list free of repeats and leaves positions below k alone. */
  lemma DropAtKeepsPrefix<A>(s: seq<A>, k: nat)
    requires Distinct(s) && k < |s|
    ensures Distinct(s[..k] + s[k + 1..])
    ensures forall j :: 0 <= j < k ==> (s[..k] + s[k + 1..])[j] == s[j]
  {
    var t := s[..k] + s[k + 1..];
    forall i, j | 0 <= i < j < |t| ensures t[i] != t[j] {
      var i' := if i < k then i else i + 1;
      var j' := if j < k then j else j + 1;
      assert t[i] == s[i'] && t[j] == s[j'];
    }
  }

  /**
    When the body removes the element it was handed first, the element that stood right
    behind it moves into the position already passed and is never handed to the body,
    provided the list has no repeats.
  */
  lemma {:induction false} RemovalSkipsSuccessor<A>(l: seq<A>, drops: seq<nat>)
    requires Distinct(l) && |l| >= 2
    requires |drops| >= 1 && drops[0] >= 1
    ensures l[1] !in Visits(l, drops)
  {
    SkipInvariant(l, drops);
  }

  lemma {:induction false} SkipInvariant<A>(l: seq<A>, drops: seq<nat>)
    requires Distinct(l) && |l| >= 2
    requires |drops| >= 1 && drops[0] >= 1
    ensures var r := Replay(l, drops); Distinct(r) && |r| >= 1 && r[0] == l[1]
    ensures l[1] !in Visits(l, drops)
    decreases |drops|
  {
    var k := |drops| - 1;
    var d := drops[..k];
    if k == 0 {
      assert d == [];
      RemoveFirstNDistinct(l, 0, drops[0]);
      assert Replay(l, drops) == l[1..];
      assert Visits(l, drops) == [l[0]];
    } else {
      assert d[0] == drops[0];
      SkipInvariant(l, d);
      var cur := Replay(l, d);
      if k < |cur| {
        RemoveFirstNDistinct(cur, k, drops[k]);
        if drops[k] > 0 {
          DropAtKeepsPrefix(cur, k);
        }
        assert cur[k] != cur[0];
        assert Visits(l, drops) == Visits(l, d) + [cur[k]];
      } else {
        assert Visits(l, drops) == Visits(l, d);
      }
    }
  }

  /** The elements of s that satisfy p, in order: the list a filtering loop appends to. */
  function Filter<A(!new)>(s: seq<A>, p: A -> bool): (r: seq<A>)
    ensures |r| <= |s|
    ensures forall x :: x in r <==> x in s && p(x)
    ensures forall i :: 0 <= i < |r| ==> p(r[i])
  {
    if s == [] then []
    else
      assert s == [s[0]] + s[1..];
      (if p(s[0]) then [s[0]] else []) + Filter(s[1..], p)
  }

  /** Slices of a sequence without its head are the original slices moved one place left. */
  lemma TailSlice<A>(s: seq<A>, a: nat, b: nat)
    requires 1 <= a <= b <= |s|
    ensures s[1..][a - 1..b - 1] == s[a..b]
    ensures s[..a] == [s[0]] + s[1..][..a - 1]
  {
  }

  /** Taking one more element of a sequence appends that element. */
  lemma TakeSnoc<A>(s: seq<A>, i: nat)
    requires i < |s|
    ensures s[..i + 1] == s[..i] + [s[i]]
  {
  }

  /** Filtering one more element appends it when it passes. */
  lemma FilterSnoc<A(!new)>(s: seq<A>, x: A, p: A -> bool)
    ensures Filter(s + [x], p) == Filter(s, p) + (if p(x) then [x] else [])
  {
    if s == [] {
      assert s + [x] == [x];
    } else {
      assert (s + [x])[1..] == s[1..] + [x];
      FilterSnoc(s[1..], x, p);
    }
  }

  /** a is b with some elements left out (a subsequence of b, order kept). */
  ghost predicate Subsequence<A>(a: seq<A>, b: seq<A>)
    decreases |b|
  {
    if a == [] then true
    else if b == [] then false
    else if a[0] == b[0] then Subsequence(a[1..], b[1..])
    else Subsequence(a, b[1..])
  }

  /** What a filter keeps is a subsequence of its input. */
  lemma {:induction false} FilterSubsequence<A(!new)>(s: seq<A>, p: A -> bool)
    ensures Subsequence(Filter(s, p), s)
  {
    if s != [] {
      FilterSubsequence(s[1..], p);
      var t := Filter(s[1..], p);
      if p(s[0]) {
        assert Filter(s, p) == [s[0]] + t;
        assert ([s[0]] + t)[1..] == t;
      } else {
        assert Filter(s, p) == t;
        SubsequenceDrop(t, s);
      }
    }
  }

  /** A subsequence of the tail of b is a subsequence of b. */
  lemma {:induction false} SubsequenceDrop<A>(a: seq<A>, b: seq<A>)
    requires b != [] && Subsequence(a, b[1..])
    ensures Subsequence(a, b)
    decreases |b|, 0
  {
    if a != [] && a[0] == b[0] {
      SubsequenceTail(a, b[1..]);
    }
  }

  /** Dropping the first element of a subsequence keeps it a subsequence. */
  lemma {:induction false} SubsequenceTail<A>(a: seq<A>, b: seq<A>)
    requires a != [] && Subsequence(a, b)
    ensures Subsequence(a[1..], b)
    decreases |b|, 1
  {
    if a[0] != b[0] {
      SubsequenceTail(a, b[1..]);
    }
    SubsequenceDrop(a[1..], b);
  }

  /** Filtering twice by the same test changes nothing the second time. */
  lemma {:induction false} FilterIdempotent<A(!new)>(s: seq<A>, p: A -> bool)
    ensures Filter(Filter(s, p), p) == Filter(s, p)
  {
    if s != [] {
      FilterIdempotent(s[1..], p);
      var t := Filter(s[1..], p);
      if p(s[0]) {
        var u := [s[0]] + t;
        assert Filter(s, p) == u;
        assert u[0] == s[0] && u[1..] == t;
        assert Filter(u, p) == [s[0]] + Filter(t, p);
      } else {
        assert Filter(s, p) == [] + t;
        assert [] + t == t;
      }
    }
  }

  /** Two complementary filters split a sequence: their lengths add up to its length. */
  lemma {:induction false} FilterPartition<A(!new)>(s: seq<A>, p: A -> bool, q: A -> bool)
    requires forall x :: q(x) <==> !p(x)
    ensures |Filter(s, p)| + |Filter(s, q)| == |s|
  {
    if s != [] {
      FilterPartition(s[1..], p, q);
    }
  }
}
