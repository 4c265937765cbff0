/** Two lists that share nodes, as list_extend leaves them (commn/sgdev_list.c:137-145):
    the first runs through s and then through all nodes t of the second.  What every
    operation on either list does to both. */
module ListSharing {
  import opened SeqSpec
  import opened SgdevList

  ghost predicate Spliced(a: List, b: List, s: seq<Node>, t: seq<Node>)
    reads a, b, s, t
  {
    Chain(a.head, s + t) && Chain(b.head, t)
  }

  // ---------- facts about shared spines ----------

  lemma SharedApart(h: Node?, s: seq<Node>, t: seq<Node>)
    requires Chain(h, s + t)
    ensures Disjoint(s, t)
  {
    ChainIsDistinct(h, s + t);
    forall i, j | 0 <= i < |s| && 0 <= j < |t| ensures s[i] != t[j] {
      assert OnlyAt(s + t, i);
      assert (s + t)[|s| + j] == t[j];
    }
  }

  lemma NoChainIntoFreed(h: Node?, s: seq<Node>, d: Node, u: seq<Node>)
    requires !d.live && Path(h, s, d)
    ensures !Chain(h, u)
  {
    var c := (set n | n in s) + {d};
    forall n | n in c && n.live ensures n.next in c {
      var k :| 0 <= k < |s| && s[k] == n;
      assert s[k].next == if k + 1 < |s| then s[k + 1] else d;
    }
    NoChainFromTrap(h, u, c);
  }

  /** Every tail of a list is the list of its first node. */
  lemma ChainTail(h: Node?, u: seq<Node>, p: nat)
    requires Chain(h, u) && p <= |u|
    ensures Chain(At(u, p), u[p..])
  {
    assert u == u[..p] + u[p..];
    ChainSplits(h, u[..p], u[p..]);
  }

  // ---------- operations on the second list ----------

  /** A write through b at i is a write to a at |s| + i. */
  method SetThroughSecond(a: List, b: List, i: int, d: Ptr, ghost s: seq<Node>, ghost t: seq<Node>)
    returns (ok: bool)
    requires Spliced(a, b, s, t)
    modifies t`data
    ensures Spliced(a, b, s, t)
    ensures ok <==> 0 <= i < |t|
    ensures forall k :: 0 <= k < |s + t| ==>
      (s + t)[k].data == if ok && k == |s| + i then d else old((s + t)[k].data)
  {
    ChainIsDistinct(a.head, s + t);
    assert 0 <= i < |t| ==> OnlyAt(s + t, |s| + i);
    ok := b.Set(i, d, t);
  }

  /** An append to b lengthens both lists, unless b was empty: then a is not reached. */
  method AppendThroughSecond(a: List, b: List, d: Ptr, ghost s: seq<Node>, ghost t: seq<Node>)
    returns (ghost n: Node)
    requires Spliced(a, b, s, t) && a != b
    modifies b`head, t`next
    ensures fresh(n) && n.data == d && Chain(b.head, t + [n])
    ensures Chain(a.head, if t == [] then s else s + t + [n])
  {
    ChainSplits(a.head, s, t);
    SharedApart(a.head, s, t);
    n := b.Append(d, t);
    assert Path(a.head, s, At(t, 0));
    if t != [] {
      ChainSplits(a.head, s, t + [n]);
      assert s + (t + [n]) == s + t + [n];
    } else {
      assert s + t == s;
    }
  }

  /** Removing a node through b leaves a a list exactly when it was not b's first
      node: a still reaches that one, and it is freed. */
  method PopThroughSecond(a: List, b: List, pos: int, ghost s: seq<Node>, ghost t: seq<Node>)
    returns (ok: bool)
    requires Spliced(a, b, s, t) && a != b
    modifies b`head, t`next, t`live
    ensures ok <==> 0 <= pos < |t|
    ensures ok && pos > 0 ==> Spliced(a, b, s, RemoveAt(t, pos))
    ensures ok && pos == 0 ==> Chain(b.head, t[1..]) && forall u :: !Chain(a.head, u)
    ensures !ok ==> Spliced(a, b, s, t)
  {
    ChainIsDistinct(a.head, s + t);
    assert 0 <= pos < |t| ==> OnlyAt(s + t, |s| + pos);
    ChainSplits(a.head, s, t);
    SharedApart(a.head, s, t);
    ok := b.Pop(pos, t);
    assert Path(a.head, s, At(t, 0));
    if ok && pos == 0 {
      forall u ensures !Chain(a.head, u) {
        NoChainIntoFreed(a.head, s, t[0], u);
      }
      assert RemoveAt(t, 0) == t[1..];
    } else if ok {
      ChainSplits(a.head, s, RemoveAt(t, pos));
    }
  }

  /** ... and so removing b's last node leaves a a list exactly when b had not just one. */
  method PopTailThroughSecond(a: List, b: List, ghost s: seq<Node>, ghost t: seq<Node>)
    returns (ok: bool)
    requires Spliced(a, b, s, t) && a != b
    modifies b`head, t`next, t`live
    ensures ok <==> t != []
    ensures |t| != 1 ==> Spliced(a, b, s, if ok then t[..|t| - 1] else t)
    ensures |t| == 1 ==> Chain(b.head, []) && forall u :: !Chain(a.head, u)
  {
    ChainSplits(a.head, s, t);
    SharedApart(a.head, s, t);
    ok := b.PopTail(t);
    if |t| == 1 {
      forall u ensures !Chain(a.head, u) {
        NoChainIntoFreed(a.head, s, t[0], u);
      }
    } else if ok {
      assert Path(a.head, s, At(t, 0));
      ChainSplits(a.head, s, t[..|t| - 1]);
    }
  }

  /** Exchanging two nodes through b: a still enters at what was b's first node, wherever
      that now stands. */
  method SwapThroughSecond(a: List, b: List, i: int, j: int, ghost s: seq<Node>, ghost t: seq<Node>)
    returns (ok: bool)
    requires Spliced(a, b, s, t) && a != b
    modifies b`head, t`next
    ensures ok <==> 0 <= i < |t| && 0 <= j < |t| && i != j
    ensures !ok ==> Spliced(a, b, s, t)
    ensures ok ==> var u := Exchange(t, i, j);
      Chain(b.head, u) && Chain(a.head, s + u[if i == 0 then j else if j == 0 then i else 0..])
  {
    ChainSplits(a.head, s, t);
    SharedApart(a.head, s, t);
    ok := b.Swap(i, j, t);
    if ok {
      ghost var u, p := Exchange(t, i, j), if i == 0 then j else if j == 0 then i else 0;
      assert Path(a.head, s, t[0]) && u[p] == t[0];
      ChainTail(b.head, u, p);
      ChainSplits(a.head, s, u[p..]);
    }
  }

  /** Reversing b cuts a off after what used to be b's first node. */
  method ReverseThroughSecond(a: List, b: List, ghost s: seq<Node>, ghost t: seq<Node>)
    requires Spliced(a, b, s, t) && a != b
    modifies b`head, t`next
    ensures Chain(b.head, Reversed(t))
    ensures Chain(a.head, s + t[..if t == [] then 0 else 1])
  {
    ChainSplits(a.head, s, t);
    SharedApart(a.head, s, t);
    b.Reverse(t);
    assert t != [] ==> Reversed(t)[|t| - 1] == t[0] && Reversed(t)[|t| - 1].next == null;
    assert Path(a.head, s, At(t, 0));
    ChainSplits(a.head, s, t[..if t == [] then 0 else 1]);
  }

  // ---------- operations on the first list ----------

  /** Appending to a appends the same node to b, unless b was empty. */
  method AppendThroughFirst(a: List, b: List, d: Ptr, ghost s: seq<Node>, ghost t: seq<Node>)
    returns (ghost n: Node)
    requires Spliced(a, b, s, t) && a != b
    modifies a`head, (s + t)`next
    ensures fresh(n) && n.data == d && Chain(a.head, s + t + [n])
    ensures Chain(b.head, if t == [] then [] else t + [n])
  {
    n := a.Append(d, s + t);
    assert s + t + [n] == s + (t + [n]);
    ChainSplits(a.head, s, t + [n]);
  }

  /** A write through a at k is a write to b at k - |s|, if it gets that far. */
  method SetThroughFirst(a: List, b: List, k: int, d: Ptr, ghost s: seq<Node>, ghost t: seq<Node>)
    returns (ok: bool)
    requires Spliced(a, b, s, t)
    modifies (s + t)`data
    ensures Spliced(a, b, s, t)
    ensures ok <==> 0 <= k < |s + t|
    ensures forall j :: 0 <= j < |t| ==> t[j].data == if ok && j == k - |s| then d else old(t[j].data)
  {
    ghost var u := s + t;
    ChainIsDistinct(a.head, u);
    assert 0 <= k < |u| ==> OnlyAt(u, k);
    assert forall j :: 0 <= j < |t| ==> u[|s| + j] == t[j];
    ok := a.Set(k, d, u);
    assert forall j {:trigger t[j]} :: 0 <= j < |t| ==>
      u[|s| + j].data == if ok && |s| + j == k then d else old(u[|s| + j].data);
  }

  /** A removal through a leaves b a list exactly when it was not b's first node. */
  method PopThroughFirst(a: List, b: List, pos: int, ghost s: seq<Node>, ghost t: seq<Node>)
    returns (ok: bool)
    requires Spliced(a, b, s, t) && a != b
    modifies a`head, (s + t)`next, (s + t)`live
    ensures ok <==> 0 <= pos < |s + t|
    ensures ok ==> Chain(a.head, RemoveAt(s + t, pos))
    ensures ok && pos == |s| ==> forall u :: !Chain(b.head, u)
    ensures ok && pos < |s| ==> Chain(b.head, t)
    ensures ok && pos > |s| ==> Chain(b.head, RemoveAt(t, pos - |s|))
    ensures !ok ==> Spliced(a, b, s, t)
  {
    ChainSplits(a.head, s, t);
    SharedApart(a.head, s, t);
    ghost var w := s + t;
    ok := a.Pop(pos, w);
    if ok {
      ghost var u := RemoveAt(w, pos);
      if pos == |s| {
        assert w[pos] == t[0];
        forall v ensures !Chain(b.head, v) {
          assert b.head != null && !t[0].live;
        }
      } else if pos < |s| {
        assert u[|s| - 1..] == t;
        ChainTail(a.head, u, |s| - 1);
      } else {
        assert u[|s|..] == RemoveAt(t, pos - |s|);
        ChainTail(a.head, u, |s|);
      }
    } else {
      ChainSplits(a.head, s, t);
    }
  }

  /** ... and so removing a's last node leaves b a list exactly when b had not just one. */
  method PopTailThroughFirst(a: List, b: List, ghost s: seq<Node>, ghost t: seq<Node>)
    returns (ok: bool)
    requires Spliced(a, b, s, t) && a != b
    modifies a`head, (s + t)`next, (s + t)`live
    ensures ok <==> s + t != []
    ensures ok ==> Chain(a.head, (s + t)[..|s + t| - 1])
    ensures |t| != 1 ==> Chain(b.head, if t == [] then [] else t[..|t| - 1])
    ensures |t| == 1 ==> forall u :: !Chain(b.head, u)
  {
    ghost var w := s + t;
    ok := a.PopTail(w);
    if |t| == 1 {
      assert w[|w| - 1] == t[0];
      forall v ensures !Chain(b.head, v) {
        assert b.head != null && !t[0].live;
      }
    } else if t != [] {
      ChainTail(a.head, w[..|w| - 1], |s|);
      assert w[..|w| - 1][|s|..] == t[..|t| - 1];
    }
  }

  /** Exchanging two nodes through a: b still starts at its old first node, wherever that
      now stands. */
  method SwapThroughFirst(a: List, b: List, i: int, j: int, ghost s: seq<Node>, ghost t: seq<Node>)
    returns (ok: bool)
    requires Spliced(a, b, s, t) && a != b
    modifies a`head, (s + t)`next
    ensures ok <==> 0 <= i < |s + t| && 0 <= j < |s + t| && i != j
    ensures !ok ==> Spliced(a, b, s, t)
    ensures ok ==> var u := Exchange(s + t, i, j);
      Chain(a.head, u) &&
      Chain(b.head, if t == [] then [] else u[if i == |s| then j else if j == |s| then i else |s|..])
  {
    ghost var w := s + t;
    ok := a.Swap(i, j, w);
    if ok {
      ghost var u, p := Exchange(w, i, j), if i == |s| then j else if j == |s| then i else |s|;
      if t != [] {
        assert w[|s|] == t[0] && u[p] == t[0];
        ChainTail(a.head, u, p);
      }
    } else {
      ChainTail(a.head, w, |s|);
      assert w[|s|..] == t;
    }
  }

  /** Reversing a: b keeps its first node, which now leads back through the reversed
      first part. */
  method ReverseThroughFirst(a: List, b: List, ghost s: seq<Node>, ghost t: seq<Node>)
    requires Spliced(a, b, s, t) && a != b
    modifies a`head, (s + t)`next
    ensures Chain(a.head, Reversed(t) + Reversed(s))
    ensures Chain(b.head, if t == [] then [] else [t[0]] + Reversed(s))
  {
    a.Reverse(s + t);
    ReversedConcat(s, t);
    ghost var u := Reversed(t) + Reversed(s);
    if t != [] {
      ChainTail(a.head, u, |t| - 1);
      assert u[|t| - 1] == t[0];
      assert u[|t| - 1..] == [t[0]] + Reversed(s);
    }
  }
}
