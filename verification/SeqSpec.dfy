module Wrappers {
  datatype Option<+T> = None | Some(value: T)
}

/** The plain sequence operations that the list operations refine, and their laws. */
module SeqSpec {
  function Exchange<T>(s: seq<T>, i: nat, j: nat): seq<T>
    requires i < |s| && j < |s|
  {
    s[i := s[j]][j := s[i]]
  }

  function RemoveAt<T>(s: seq<T>, i: nat): seq<T>
    requires i < |s|
  {
    s[..i] + s[i + 1..]
  }

  function Reversed<T>(s: seq<T>): (r: seq<T>)
    ensures |r| == |s|
    ensures forall k :: 0 <= k < |s| ==> r[k] == s[|s| - 1 - k]
  {
    if s == [] then [] else Reversed(s[1..]) + [s[0]]
  }

  /** The first position at which d occurs, -1 if there is none. */
  function FirstIndex<T(==)>(s: seq<T>, d: T): (r: int)
    ensures -1 <= r < |s|
    ensures r >= 0 ==> s[r] == d && d !in s[..r]
    ensures r == -1 ==> d !in s
  {
    if s == [] then -1
    else if s[0] == d then 0
    else
      var r := FirstIndex(s[1..], d);
      if r < 0 then -1 else assert s[..r + 1] == [s[0]] + s[1..][..r]; r + 1
  }

  function Strided(base: int, stride: int, n: nat): (r: seq<int>)
    ensures |r| == n && forall k :: 0 <= k < n ==> r[k] == base + stride * k
  {
    seq(n, k => base + stride * k)
  }

  lemma ReversedTwice<T>(s: seq<T>)
    ensures Reversed(Reversed(s)) == s
  {
    var r := Reversed(s);
    assert forall k :: 0 <= k < |s| ==> r[|s| - 1 - k] == s[k];
  }

  lemma {:induction false} ReversedPermutes<T>(s: seq<T>)
    ensures multiset(Reversed(s)) == multiset(s)
  {
    if s != [] {
      ReversedPermutes(s[1..]);
      assert s == [s[0]] + s[1..];
    }
  }

  lemma {:induction false} ReversedConcat<T>(s: seq<T>, t: seq<T>)
    ensures Reversed(s + t) == Reversed(t) + Reversed(s)
  {
    if s == [] {
      assert s + t == t;
    } else {
      ReversedConcat(s[1..], t);
      assert (s + t)[1..] == s[1..] + t;
    }
  }

  lemma RemoveAtMeans<T>(s: seq<T>, i: nat, k: nat)
    requires i < |s| && k < |s| - 1
    ensures |RemoveAt(s, i)| == |s| - 1 && RemoveAt(s, i)[k] == s[if k < i then k else k + 1]
  {
  }

  lemma ExchangeMeans<T>(s: seq<T>, i: nat, j: nat, k: nat)
    requires i < |s| && j < |s| && k < |s|
    ensures |Exchange(s, i, j)| == |s| && Exchange(s, i, j)[k] == s[if k == i then j else if k == j then i else k]
  {
  }

  lemma ExchangeTwice<T>(s: seq<T>, i: nat, j: nat)
    requires i < |s| && j < |s|
    ensures Exchange(Exchange(s, i, j), i, j) == s
    ensures Exchange(s, i, j) == Exchange(s, j, i)
    ensures multiset(Exchange(s, i, j)) == multiset(s)
  {
    assert Exchange(Exchange(s, i, j), i, j) == s;
  }
}
