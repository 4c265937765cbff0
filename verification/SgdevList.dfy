/** The intrusive singly linked list (commn/sgdev_list.c).

    A list is described by its spine, the sequence of its nodes in order.  A spine
    is ghost data handed to every operation, so that two lists may share nodes. */
module SgdevList {
  import opened Wrappers
  import opened SeqSpec

  /** A `void *`, as an address. */
  type Ptr = int

  class Node {
    var data: Ptr
    var next: Node?
    ghost var live: bool  // allocated by malloc and not yet freed

    constructor (d: Ptr)
      ensures data == d && next == null && live
    {
      data, next, live := d, null, true;
    }

    // Nodes are read through these two, so that no verified operation follows a
    // freed node.

    function Data(): Ptr
      requires live
      reads this
    {
      data
    }

    function Next(): Node?
      requires live
      reads this
    {
      next
    }
  }

  /** The node at position k, NULL one past the end. */
  ghost function At(s: seq<Node>, k: nat): Node?
  {
    if k < |s| then s[k] else null
  }

  /** Walking from h visits exactly the nodes of s, all of them live, and ends in NULL. */
  ghost predicate Chain(h: Node?, s: seq<Node>)
    reads s
  {
    && h == At(s, 0)
    && forall k {:trigger s[k].live} {:trigger s[k].next} :: 0 <= k < |s| ==> s[k].live && s[k].next == At(s, k + 1)
  }

  /** Position k is the only one at which its node occurs. */
  ghost predicate OnlyAt(s: seq<Node>, k: nat)
    requires k < |s|
  {
    forall j :: 0 <= j < |s| && j != k ==> s[j] != s[k]
  }

  ghost predicate Distinct(s: seq<Node>)
  {
    forall k {:trigger OnlyAt(s, k)} :: 0 <= k < |s| ==> OnlyAt(s, k)
  }

  ghost predicate Disjoint(s: seq<Node>, t: seq<Node>)
  {
    forall i, j :: 0 <= i < |s| && 0 <= j < |t| ==> s[i] != t[j]
  }

  // ---------- facts about spines ----------

  lemma {:induction false} ChainsAgree(h: Node?, s: seq<Node>, t: seq<Node>, k: nat)
    requires Chain(h, s) && Chain(h, t) && k <= |s|
    ensures k <= |t| && At(s, k) == At(t, k)
  {
    if k > 0 {
      ChainsAgree(h, s, t, k - 1);
      assert s[k - 1].next == At(s, k);
    }
  }

  /** A list has at most one spine. */
  lemma ChainUnique(h: Node?, s: seq<Node>, t: seq<Node>)
    requires Chain(h, s) && Chain(h, t)
    ensures s == t
  {
    ChainsAgree(h, s, t, |s|);
    ChainsAgree(h, t, s, |t|);
    forall k | 0 <= k < |s| ensures s[k] == t[k] {
      ChainsAgree(h, s, t, k);
    }
  }

  /** A list that ends in NULL is acyclic: no node occurs twice. */
  lemma ChainIsDistinct(h: Node?, s: seq<Node>)
    requires Chain(h, s)
    ensures Distinct(s)
  {
    forall i, j | 0 <= i < j < |s| ensures s[i] != s[j] {
      if s[i] == s[j] {
        ChainUnique(s[i], s[i..], s[j..]);
        assert false;
      }
    }
    forall k | 0 <= k < |s| ensures OnlyAt(s, k) {
    }
  }

  /** Two NULL-terminated lists that meet anywhere end in the same node. */
  lemma ChainsThatMeetEndTogether(g: Node?, h: Node?, s: seq<Node>, t: seq<Node>, i: nat, j: nat)
    requires Chain(g, s) && Chain(h, t)
    requires i < |s| && j < |t| && s[i] == t[j]
    ensures s[|s| - 1] == t[|t| - 1] && s[i..] == t[j..]
  {
    ChainUnique(s[i], s[i..], t[j..]);
    assert s[|s| - 1] == s[i..][|s| - i - 1];
  }

  /** Walking from h visits exactly the nodes of s and arrives at g. */
  ghost predicate Path(h: Node?, s: seq<Node>, g: Node?)
    reads s
  {
    && h == (if s == [] then g else s[0])
    && forall k {:trigger s[k].live} {:trigger s[k].next} :: 0 <= k < |s| ==>
      s[k].live && s[k].next == if k + 1 < |s| then s[k + 1] else g
  }

  /** A list splits into a path and a list at every node. */
  lemma ChainSplits(h: Node?, s: seq<Node>, t: seq<Node>)
    ensures Chain(h, s + t) <==> Path(h, s, At(t, 0)) && Chain(At(t, 0), t)
  {
    var u := s + t;
    assert forall k :: 0 <= k < |s| ==> u[k] == s[k];
    assert forall k :: 0 <= k < |t| ==> u[|s| + k] == t[k];
    if Chain(h, u) {
      assert forall k :: 0 <= k < |s| ==> u[k].live && u[k].next == At(u, k + 1);
      assert forall k {:trigger t[k]} :: 0 <= k < |t| ==> u[|s| + k].live && u[|s| + k].next == At(u, |s| + k + 1);
    }
  }

  /** A walk that can leave the set c only through a freed node never ends properly. */
  lemma NoChainFromTrap(h: Node?, t: seq<Node>, c: set<Node>)
    requires h in c
    requires forall n :: n in c ==> !n.live || n.next in c
    ensures !Chain(h, t)
  {
    if Chain(h, t) {
      TrapHolds(h, t, c, |t|);
      assert false;
    }
  }

  lemma {:induction false} TrapHolds(h: Node?, t: seq<Node>, c: set<Node>, k: nat)
    requires h in c && Chain(h, t) && k <= |t|
    requires forall n :: n in c ==> !n.live || n.next in c
    ensures At(t, k) in c
  {
    if k > 0 {
      TrapHolds(h, t, c, k - 1);
      assert t[k - 1].live;
    }
  }

  /** Splicing a list onto its own last node leaves no way to NULL. */
  lemma NoChainThroughCycle(h: Node?, s: seq<Node>, t: seq<Node>, u: seq<Node>)
    requires s != [] && t != [] && h == s[0]
    requires forall k :: 0 <= k < |s| - 1 ==> s[k].next == s[k + 1]
    requires forall k :: 0 <= k < |t| - 1 ==> t[k].next == t[k + 1]
    requires s[|s| - 1] == t[|t| - 1] && t[|t| - 1].next == t[0]
    ensures !Chain(h, u)
  {
    var c := (set n | n in s) + (set n | n in t);
    forall n | n in c ensures n.next in c {
      if n in s {
        var k :| 0 <= k < |s| && s[k] == n;
        assert k == |s| - 1 || s[k].next == s[k + 1];
      } else {
        var k :| 0 <= k < |t| && t[k] == n;
        assert k == |t| - 1 || t[k].next == t[k + 1];
      }
    }
    NoChainFromTrap(h, u, c);
  }

  /** Links that all point backwards make the reversed list. */
  lemma ReversedLinks(h: Node?, s: seq<Node>)
    requires h == if s == [] then null else s[|s| - 1]
    requires forall k {:trigger s[k].next} :: 0 <= k < |s| ==>
      s[k].live && s[k].next == if k == 0 then null else s[k - 1]
    ensures Chain(h, Reversed(s))
  {
    var r := Reversed(s);
    forall k | 0 <= k < |r| ensures r[k].live && r[k].next == At(r, k + 1) {
      assert r[k] == s[|s| - 1 - k];
      assert s[|s| - 1 - k].next == if k == |s| - 1 then null else s[|s| - 2 - k];
    }
  }

  // ---------- the operations ----------

  class List {
    var head: Node?

    constructor Init()
      ensures Chain(head, [])
    {
      head := null;
    }

    method Len(ghost s: seq<Node>) returns (n: int)
      requires Chain(head, s)
      ensures n == |s|
    {
      n := 0;
      var t := head;
      while t != null
        invariant 0 <= n <= |s| && t == At(s, n)
        decreases |s| - n
      {
        t := t.Next();
        n := n + 1;
      }
    }

    /** Walks to a node known to be at position k of the spine, or NULL at k == |s|. */
    method GetIndexByNode(p: Node?, ghost s: seq<Node>, ghost k: nat) returns (i: int)
      requires Chain(head, s) && k <= |s| && p == At(s, k)
      ensures i == k
    {
      i := 0;
      var t := head;
      ChainIsDistinct(head, s);
      assert k < |s| ==> OnlyAt(s, k);
      while t != p
        invariant 0 <= i <= k && t == At(s, i)
        decreases k - i
      {
        t := t.Next();
        i := i + 1;
      }
    }

    method Append(d: Ptr, ghost s: seq<Node>) returns (ghost n: Node)
      requires Chain(head, s)
      modifies this`head, s`next
      ensures fresh(n) && Chain(head, s + [n]) && n.data == d
      ensures s != [] ==> head == old(head)
    {
      var node := new Node(d);
      n := node;
      if head != null {
        var t := head;
        ghost var k := 0;
        while t.Next() != null
          invariant 0 <= k < |s| && t == s[k]
          decreases |s| - k
        {
          t := t.Next();
          k := k + 1;
        }
        ChainIsDistinct(head, s);
        assert OnlyAt(s, k);
        t.next := node;
      } else {
        head := node;
      }
    }

    method PopTail(ghost s: seq<Node>) returns (ok: bool)
      requires Chain(head, s)
      modifies this`head, s`next, s`live
      ensures ok <==> s != []
      ensures ok ==> Chain(head, s[..|s| - 1]) && !s[|s| - 1].live
      ensures !ok ==> head == null
      ensures |s| >= 2 ==> head == old(head)
      ensures |s| == 1 ==> s[0].next == null
    {
      if head == null {
        return false;
      }
      if head.Next() == null {
        head.live := false;  // free
        head := null;
        return true;
      }
      var t := head;
      ghost var k := 0;
      while t.Next().Next() != null
        invariant 0 <= k < |s| - 1 && t == s[k]
        decreases |s| - k
      {
        t := t.Next();
        k := k + 1;
      }
      ChainIsDistinct(head, s);
      assert OnlyAt(s, k) && OnlyAt(s, k + 1);
      var last := t.Next();
      last.live := false;  // free
      t.next := null;
      return true;
    }

    method Pop(pos: int, ghost s: seq<Node>) returns (ok: bool)
      requires Chain(head, s)
      modifies this`head, s`next, s`live
      ensures ok <==> 0 <= pos < |s|
      ensures ok ==> Chain(head, RemoveAt(s, pos)) && !s[pos].live
      ensures !ok ==> Chain(head, s)
      ensures !ok || pos > 0 ==> head == old(head)
      ensures ok && pos == 0 ==> s[0].next == old(s[0].next)
    {
      var i := 0;
      var t := head;
      if head == null {
        return false;
      }
      while t != null && i != pos
        invariant 0 <= i <= |s| && t == At(s, i)
        invariant pos < 0 || i <= pos
        decreases |s| - i
      {
        t := t.Next();
        i := i + 1;
      }
      if t == null {
        return false;
      }
      ChainIsDistinct(head, s);
      assert OnlyAt(s, pos);
      if t == head {
        head := head.Next();
        t.live := false;  // free
        return true;
      }
      var p := head;
      ghost var k := 0;
      while p.Next() != t
        invariant 0 <= k < pos && p == s[k]
        decreases pos - k
      {
        p := p.Next();
        k := k + 1;
      }
      assert OnlyAt(s, k) && s[k + 1] == t;
      p.next := t.Next();
      t.live := false;  // free
      return true;
    }

    method Get(pos: int, ghost s: seq<Node>) returns (r: Option<Ptr>)
      requires Chain(head, s)
      ensures r == if 0 <= pos < |s| then Some(s[pos].data) else None
    {
      var t := head;
      var i := 0;
      while t != null
        invariant 0 <= i <= |s| && t == At(s, i)
        invariant pos < 0 || i <= pos
        decreases |s| - i
      {
        if i == pos {
          return Some(t.Data());
        }
        t := t.Next();
        i := i + 1;
      }
      return None;
    }

    method Set(pos: int, d: Ptr, ghost s: seq<Node>) returns (ok: bool)
      requires Chain(head, s)
      modifies s`data
      ensures ok <==> 0 <= pos < |s|
      ensures ok ==> s[pos].data == d
      ensures forall n :: n in s && !(ok && n == s[pos]) ==> n.data == old(n.data)
    {
      var t := head;
      var i := 0;
      while t != null
        invariant 0 <= i <= |s| && t == At(s, i)
        invariant pos < 0 || i <= pos
        decreases |s| - i
      {
        if i == pos {
          t.data := d;
          return true;
        }
        t := t.Next();
        i := i + 1;
      }
      return false;
    }

    method Index(d: Ptr, ghost s: seq<Node>) returns (r: int)
      requires Chain(head, s)
      ensures -1 <= r < |s|
      ensures r >= 0 ==> s[r].data == d && forall j :: 0 <= j < r ==> s[j].data != d
      ensures r == -1 ==> forall j :: 0 <= j < |s| ==> s[j].data != d
    {
      var t := head;
      r := 0;
      while t != null
        invariant 0 <= r <= |s| && t == At(s, r)
        invariant forall j :: 0 <= j < r ==> s[j].data != d
        decreases |s| - r
      {
        if t.Data() == d {
          return r;
        }
        t := t.Next();
        r := r + 1;
      }
      return -1;
    }

    /** Splices b after this list by sharing b's nodes.  This is a list again exactly
        when one of the two was empty or they had no node in common; otherwise the
        splice closes a cycle and the list has no spine at all. */
    method Extend(b: List, ghost s: seq<Node>, ghost t: seq<Node>)
      requires Chain(head, s) && Chain(b.head, t)
      modifies this`head, s`next
      ensures s == [] || t == [] || Disjoint(s, t) ==> Chain(head, s + t) && Chain(b.head, t)
      ensures !(s == [] || t == [] || Disjoint(s, t)) ==> forall u :: !Chain(head, u)
      ensures s != [] ==> head == old(head)
      ensures b != this ==> b.head == old(b.head)
    {
      if head == null {
        head := b.head;
      } else {
        var p := head;
        ghost var k := 0;
        while p.Next() != null
          invariant 0 <= k < |s| && p == s[k]
          decreases |s| - k
        {
          p := p.Next();
          k := k + 1;
        }
        ChainIsDistinct(head, s);
        if t != [] && !Disjoint(s, t) {
          ghost var i, j :| 0 <= i < |s| && 0 <= j < |t| && s[i] == t[j];
          ChainsThatMeetEndTogether(head, b.head, s, t, i, j);
        }
        p.next := b.head;
        if t != [] && !Disjoint(s, t) {
          forall u ensures !Chain(head, u) {
            NoChainThroughCycle(head, s, t, u);
          }
        }
      }
    }

    /** Exchanges the nodes (not the data) at two positions. */
    method Swap(posA: int, posB: int, ghost s: seq<Node>) returns (ok: bool)
      requires Chain(head, s)
      modifies this`head, s`next
      ensures ok <==> 0 <= posA < |s| && 0 <= posB < |s| && posA != posB
      ensures Chain(head, if ok then Exchange(s, posA, posB) else s)
      ensures !ok ==> head == old(head)
    {
      var aPre: Node?, bPre: Node?, a: Node?, b: Node? := null, null, null, null;
      if posA == 0 {
        a := head;
      }
      if posB == 0 {
        b := head;
      }
      var t := head;
      var i := 0;
      while t != null
        invariant 0 <= i <= |s| && t == At(s, i)
        invariant a == if 0 <= posA <= i then At(s, posA) else null
        invariant b == if 0 <= posB <= i then At(s, posB) else null
        invariant 1 <= posA <= i ==> aPre == s[posA - 1]
        invariant 1 <= posB <= i ==> bPre == s[posB - 1]
        decreases |s| - i
      {
        if i == posA - 1 {
          aPre := t;
          a := t.Next();
        }
        if i == posB - 1 {
          bPre := t;
          b := t.Next();
        }
        t := t.Next();
        i := i + 1;
      }
      if a == null || b == null {
        return false;
      }
      ChainIsDistinct(head, s);
      assert OnlyAt(s, posA) && OnlyAt(s, posB);
      if a == b {
        return false;
      }
      Relink(aPre, a, bPre, b, s, posA, posB);
      return true;
    }

    // The pointer surgery of Swap, after both nodes and their predecessors are found.
    method Relink(aPre: Node?, a: Node, bPre: Node?, b: Node, ghost s: seq<Node>, ghost i: nat, ghost j: nat)
      requires Chain(head, s) && i < |s| && j < |s| && i != j
      requires a == s[i] && (i > 0 ==> aPre == s[i - 1])
      requires b == s[j] && (j > 0 ==> bPre == s[j - 1])
      modifies this`head, s`next
      ensures Chain(head, Exchange(s, i, j))
    {
      ChainIsDistinct(head, s);
      assert OnlyAt(s, i) && OnlyAt(s, j);
      assert OnlyAt(s, 0);
      assert i > 0 ==> OnlyAt(s, i - 1);
      assert j > 0 ==> OnlyAt(s, j - 1);
      if a == head {
        head := b;
        bPre.next := a;
      } else if b == head {
        head := a;
        aPre.next := b;
      } else {
        aPre.next := b;
        bPre.next := a;
      }
      var t := a.Next();
      a.next := b.Next();
      b.next := t;
    }

    method Reverse(ghost s: seq<Node>)
      requires Chain(head, s)
      modifies this`head, s`next
      ensures Chain(head, Reversed(s))
    {
      hide Reversed;
      var q: Node? := null;
      var m := head;
      ghost var i := 0;
      ChainIsDistinct(head, s);
      while m != null
        invariant 0 <= i <= |s| && m == At(s, i)
        invariant q == if i == 0 then null else s[i - 1]
        invariant forall k :: 0 <= k < |s| ==> s[k].live
        invariant forall k {:trigger s[k].next} :: 0 <= k < i ==> s[k].next == if k == 0 then null else s[k - 1]
        invariant forall k {:trigger s[k].next} :: i <= k < |s| ==> s[k].next == At(s, k + 1)
        decreases |s| - i
      {
        assert m == s[i] && OnlyAt(s, i);
        var t := m.Next();
        m.next := q;
        q := m;
        m := t;
        i := i + 1;
      }
      head := q;
      ReversedLinks(q, s);
    }

    /** Builds a list over the elements of an array; refused when the list is not
        empty.  At least one node is built, whatever len is. */
    method FromArray(ptr: Ptr, size: int, len: int, ghost s: seq<Node>) returns (refused: bool, ghost u: seq<Node>)
      requires Chain(head, s)
      modifies this`head
      ensures refused <==> s != []
      ensures refused ==> u == s && head == old(head)
      ensures !refused ==> fresh(u) && |u| == (if len < 1 then 1 else len)
      ensures !refused ==> forall k :: 0 <= k < |u| ==> u[k].data == ptr + size * k
      ensures Chain(head, u)
    {
      if head != null {
        return true, s;
      }
      var t := new Node(ptr);
      head := t;
      u := [t];
      var i := 1;
      while i < len
        invariant i >= 1 && |u| == i && (i <= len || i == 1)
        invariant fresh(u) && Chain(head, u) && t == u[i - 1]
        invariant forall k :: 0 <= k < i ==> u[k].data == ptr + size * k
      {
        ChainIsDistinct(head, u);
        assert OnlyAt(u, i - 1);
        var n := new Node(ptr + size * i);
        t.next := n;
        u := u + [n];
        i := i + 1;
        t := t.Next();
      }
      refused := false;
    }
  }
}
