/** What the list operations do over whole runs (commn/sgdev_list.c). */
module ListRuns {
  import opened Wrappers
  import opened SeqSpec
  import opened SgdevList

  // ---------- every sequence of operations on an unshared list ----------

  datatype Op =
    | Append(d: Ptr)
    | PopTail
    | Pop(pos: int)
    | Get(pos: int)
    | Set(pos: int, d: Ptr)
    | Index(d: Ptr)
    | Len
    | Swap(posA: int, posB: int)
    | Reverse
    | FromArray(ptr: Ptr, size: int, len: int)
    | Extend(other: seq<Ptr>)  // splice a freshly built list that is then given up

  datatype Reply = Nothing | Code(code: int) | Found(data: Option<Ptr>)

  function Flag(b: bool): Reply
  {
    Code(if b then 1 else 0)
  }

  /** The plain sequence operation of the same name. */
  function Apply(v: seq<Ptr>, op: Op): (seq<Ptr>, Reply)
  {
    match op
    case Append(d) => (v + [d], Nothing)
    case PopTail => if v == [] then (v, Flag(false)) else (v[..|v| - 1], Flag(true))
    case Pop(pos) => if 0 <= pos < |v| then (RemoveAt(v, pos), Flag(true)) else (v, Flag(false))
    case Get(pos) => (v, Found(if 0 <= pos < |v| then Some(v[pos]) else None))
    case Set(pos, d) => if 0 <= pos < |v| then (v[pos := d], Flag(true)) else (v, Flag(false))
    case Index(d) => (v, Code(FirstIndex(v, d)))
    case Len => (v, Code(|v|))
    case Swap(a, b) =>
      if 0 <= a < |v| && 0 <= b < |v| && a != b then (Exchange(v, a, b), Flag(true)) else (v, Flag(false))
    case Reverse => (Reversed(v), Nothing)
    case FromArray(ptr, size, len) =>
      if v == [] then (Strided(ptr, size, if len < 1 then 1 else len), Nothing) else (v, Flag(false))
    case Extend(other) => (v + other, Nothing)
  }

  function ApplyAll(v: seq<Ptr>, ops: seq<Op>): (seq<Ptr>, seq<Reply>)
  {
    if ops == [] then (v, []) else
      var (w, replies) := ApplyAll(v, ops[..|ops| - 1]);
      var (x, reply) := Apply(w, ops[|ops| - 1]);
      (x, replies + [reply])
  }

  lemma ApplyOneMore(v: seq<Ptr>, ops: seq<Op>, op: Op)
    ensures var w, replies := ApplyAll(v, ops).0, ApplyAll(v, ops).1;
      ApplyAll(v, ops + [op]) == (Apply(w, op).0, replies + [Apply(w, op).1])
  {
    assert (ops + [op])[..|ops|] == ops;
  }

  lemma ApplyTwoMore(v: seq<Ptr>, ops: seq<Op>, a: Op, b: Op)
    ensures ApplyAll(v, ops + [a] + [b]).0 == Apply(Apply(ApplyAll(v, ops).0, a).0, b).0
  {
    ApplyOneMore(v, ops, a);
    ApplyOneMore(v, ops + [a], b);
  }

  // ---------- what later reads see of an operation ----------

  /** What Get would answer, and Len. */
  function Read(v: seq<Ptr>, k: int): Option<Ptr>
  {
    Apply(v, Get(k)).1.data
  }

  function Size(v: seq<Ptr>): int
  {
    Apply(v, Len).1.code
  }

  /** The replies fix the contents: Len counts them, Get answers for exactly its positions,
      and Index names the first that Get answers with the datum. */
  lemma RepliesTell(v: seq<Ptr>, w: seq<Ptr>, d: Ptr)
    ensures Size([]) == 0 && Size(v + w) == Size(v) + Size(w)
    ensures forall k :: Read(v, k).Some? <==> 0 <= k < Size(v)
    ensures (forall k :: Read(v, k) == Read(w, k)) ==> v == w
    ensures var i := Apply(v, Index(d)).1.code;
      if i < 0 then i == -1 && forall k :: Read(v, k) != Some(d)
      else Read(v, i) == Some(d) && forall k :: 0 <= k < i ==> Read(v, k) != Some(d)
  {
    if forall k :: Read(v, k) == Read(w, k) {
      assert Read(v, |v|) == None && Read(w, |w|) == None;
      assert |v| > |w| ==> Read(v, |w|).Some?;
      assert |w| > |v| ==> Read(w, |v|).Some?;
      assert forall k :: 0 <= k < |v| ==> Read(v, k) == Some(v[k]) && Read(w, k) == Some(w[k]);
    }
  }

  /** What Get(k) answers after each change, from what it answered before. */
  lemma LaterReads(v: seq<Ptr>, d: Ptr, p: int, q: int, k: int)
    ensures Read(Apply(v, Append(d)).0, k) == if k == Size(v) then Some(d) else Read(v, k)
    ensures Read(Apply(v, PopTail).0, k) == if k == Size(v) - 1 then None else Read(v, k)
    ensures Read(Apply(v, Pop(p)).0, k) == Read(v, if 0 <= p < Size(v) && k >= p then k + 1 else k)
    ensures Read(Apply(v, Set(p, d)).0, k) == if k == p && Read(v, p).Some? then Some(d) else Read(v, k)
    ensures Read(Apply(v, Swap(p, q)).0, k) ==
      if Read(v, p) == None || Read(v, q) == None then Read(v, k)
      else Read(v, if k == p then q else if k == q then p else k)
    ensures Read(Apply(v, Reverse).0, k) == Read(v, Size(v) - 1 - k)
  {
  }

  /** An operation answers 1 exactly when it can do what it is asked, and changes nothing
      when it answers 0. */
  lemma CodesTell(v: seq<Ptr>, d: Ptr, p: int, q: int)
    ensures Apply(v, PopTail).1 == Flag(Size(v) > 0)
    ensures Apply(v, Pop(p)).1 == Flag(Read(v, p).Some?)
    ensures Apply(v, Set(p, d)).1 == Flag(Read(v, p).Some?)
    ensures Apply(v, Swap(p, q)).1 == Flag(p != q && Read(v, p).Some? && Read(v, q).Some?)
    ensures forall op :: Apply(v, op).1 == Flag(false) && !op.Len? && !op.Index? ==> Apply(v, op).0 == v
  {
    hide Strided;
  }

  /** The spine after an operation that adds the nodes born. */
  ghost function Moved<T>(s: seq<T>, op: Op, born: seq<T>): seq<T>
  {
    match op
    case Append(_) => s + born
    case PopTail => if s == [] then s else s[..|s| - 1]
    case Pop(pos) => if 0 <= pos < |s| then RemoveAt(s, pos) else s
    case Swap(a, b) => if 0 <= a < |s| && 0 <= b < |s| && a != b then Exchange(s, a, b) else s
    case Reverse => Reversed(s)
    case FromArray(_, _, _) => if s == [] then born else s
    case Extend(_) => s + born
    case _ => s
  }

  /** How many nodes an operation adds to a list of n. */
  function Births(n: nat, op: Op): nat
  {
    match op
    case Append(_) => 1
    case FromArray(_, _, len) => if n > 0 then 0 else if len < 1 then 1 else len
    case Extend(other) => |other|
    case _ => 0
  }

  ghost function MovedAll<T>(s: seq<T>, ops: seq<Op>, born: seq<seq<T>>): seq<T>
    requires |born| == |ops|
  {
    if ops == [] then s else
      Moved(MovedAll(s, ops[..|ops| - 1], born[..|ops| - 1]), ops[|ops| - 1], born[|ops| - 1])
  }

  lemma MovedOneMore<T>(s: seq<T>, ops: seq<Op>, born: seq<seq<T>>, op: Op, b: seq<T>)
    requires |born| == |ops|
    ensures MovedAll(s, ops + [op], born + [b]) == Moved(MovedAll(s, ops, born), op, b)
  {
    assert (ops + [op])[..|ops|] == ops && (born + [b])[..|ops|] == born;
  }

  lemma MovedTwoMore<T>(s: seq<T>, ops: seq<Op>, born: seq<seq<T>>, op: Op, b: seq<T>, next: Op, c: seq<T>)
    requires |born| == |ops|
    ensures MovedAll(s, ops + [op] + [next], born + [b] + [c]) == Moved(Moved(MovedAll(s, ops, born), op, b), next, c)
  {
    MovedOneMore(s, ops, born, op, b);
    MovedOneMore(s, ops + [op], born + [b], next, c);
  }

  // At any point of any run, these pairs of operations cancel, node by node ...

  lemma PopTailUndoesAppend<T>(v: seq<Ptr>, s: seq<T>, ops: seq<Op>, born: seq<seq<T>>, d: Ptr, n: T)
    requires |born| == |ops|
    ensures MovedAll(s, ops + [Append(d)] + [PopTail], born + [[n]] + [[]]) == MovedAll(s, ops, born)
    ensures ApplyAll(v, ops + [Append(d)] + [PopTail]).0 == ApplyAll(v, ops).0
  {
    hide ApplyAll, MovedAll;
    ApplyTwoMore(v, ops, Append(d), PopTail);
    MovedTwoMore(s, ops, born, Append(d), [n], PopTail, []);
  }

  lemma ReverseUndoesReverse<T>(v: seq<Ptr>, s: seq<T>, ops: seq<Op>, born: seq<seq<T>>)
    requires |born| == |ops|
    ensures MovedAll(s, ops + [Reverse] + [Reverse], born + [[]] + [[]]) == MovedAll(s, ops, born)
    ensures ApplyAll(v, ops + [Reverse] + [Reverse]).0 == ApplyAll(v, ops).0
  {
    hide ApplyAll, MovedAll, Reversed;
    ApplyTwoMore(v, ops, Reverse, Reverse);
    ReversedTwice(ApplyAll(v, ops).0);
    MovedTwoMore(s, ops, born, Reverse, [], Reverse, []);
    ReversedTwice(MovedAll(s, ops, born));
  }

  lemma SwapUndoesSwap<T>(v: seq<Ptr>, s: seq<T>, ops: seq<Op>, born: seq<seq<T>>, i: int, j: int)
    requires |born| == |ops|
    ensures MovedAll(s, ops + [Swap(i, j)] + [Swap(i, j)], born + [[]] + [[]]) == MovedAll(s, ops, born)
    ensures ApplyAll(v, ops + [Swap(i, j)] + [Swap(i, j)]).0 == ApplyAll(v, ops).0
  {
    hide ApplyAll, MovedAll;
    ApplyTwoMore(v, ops, Swap(i, j), Swap(i, j));
    MovedTwoMore(s, ops, born, Swap(i, j), [], Swap(i, j), []);
    var w, u := ApplyAll(v, ops).0, MovedAll(s, ops, born);
    if 0 <= i < |w| && 0 <= j < |w| {
      ExchangeTwice(w, i, j);
    }
    if 0 <= i < |u| && 0 <= j < |u| {
      ExchangeTwice(u, i, j);
    }
  }

  // ... and these agree.

  lemma PopTailIsPop<T>(v: seq<Ptr>, s: seq<T>)
    ensures Moved(s, PopTail, []) == Moved(s, Pop(|s| - 1), [])
    ensures Apply(v, PopTail) == Apply(v, Pop(|v| - 1))
  {
    assert s != [] ==> RemoveAt(s, |s| - 1) == s[..|s| - 1];
    assert v != [] ==> RemoveAt(v, |v| - 1) == v[..|v| - 1];
  }

  lemma ReverseAfterExtend<T>(v: seq<Ptr>, s: seq<T>, ops: seq<Op>, born: seq<seq<T>>, w: seq<Ptr>, t: seq<T>)
    requires |born| == |ops|
    ensures MovedAll(s, ops + [Extend(w)] + [Reverse], born + [t] + [[]]) ==
      Reversed(t) + Reversed(MovedAll(s, ops, born))
    ensures ApplyAll(v, ops + [Extend(w)] + [Reverse]).0 == Reversed(w) + Reversed(ApplyAll(v, ops).0)
  {
    hide ApplyAll, MovedAll, Reversed;
    ApplyTwoMore(v, ops, Extend(w), Reverse);
    ReversedConcat(ApplyAll(v, ops).0, w);
    MovedTwoMore(s, ops, born, Extend(w), t, Reverse, []);
    ReversedConcat(MovedAll(s, ops, born), t);
  }

  /** A list and its nodes, as the pure operations see them. */
  ghost predicate Represents(list: List, s: seq<Node>, v: seq<Ptr>)
    reads list, s
  {
    && Chain(list.head, s)
    && |s| == |v|
    && forall k :: 0 <= k < |s| ==> s[k].data == v[k]
  }

  method BuildFresh(ds: seq<Ptr>) returns (b: List, ghost t: seq<Node>)
    ensures fresh(b) && fresh(t) && Represents(b, t, ds)
  {
    b := new List.Init();
    t := [];
    for i := 0 to |ds|
      invariant fresh(b) && fresh(t) && Represents(b, t, ds[..i])
    {
      ghost var n := b.Append(ds[i], t);
      t := t + [n];
    }
    assert ds[..|ds|] == ds;
  }

  /** Every node of the sequence is in the list, or else freed. */
  ghost predicate KeptOrFreed(s: seq<Node>, u: seq<Node>)
    reads s
  {
    forall n :: n in s ==> (n.live <==> n in u)
  }

  /** The operation took spine s with contents v to spine u: the nodes and the contents
      are those of the plain operation, so every node keeps its datum but for a Set. */
  ghost predicate Performed(list: List, op: Op, s: seq<Node>, v: seq<Ptr>, reply: Reply, born: seq<Node>, u: seq<Node>)
    reads list, u
  {
    && |born| == Births(|s|, op)
    && u == Moved(s, op, born)
    && Represents(list, u, Apply(v, op).0)
    && reply == Apply(v, op).1
  }

  lemma SameNodes(s: seq<Node>, u: seq<Node>)
    requires multiset(u) == multiset(s)
    ensures forall n :: n in s <==> n in u
  {
    assert forall n :: n in s <==> n in multiset(s);
    assert forall n :: n in u <==> n in multiset(u);
  }

  lemma RemovedAlone(h: Node?, s: seq<Node>, pos: nat)
    requires Chain(h, s) && pos < |s|
    ensures forall n :: n in s ==> (n in RemoveAt(s, pos) <==> n != s[pos])
  {
    ChainIsDistinct(h, s);
    assert OnlyAt(s, pos);
    var u := RemoveAt(s, pos);
    forall n | n in s && n != s[pos] ensures n in u {
      var k :| 0 <= k < |s| && s[k] == n;
      assert u[if k < pos then k else k - 1] == n;
    }
  }

  method Perform(list: List, op: Op, ghost s: seq<Node>, ghost v: seq<Ptr>)
    returns (reply: Reply, ghost born: seq<Node>, ghost u: seq<Node>)
    requires Represents(list, s, v)
    modifies list, set n | n in s
    ensures Performed(list, op, s, v, reply, born, u)
    ensures fresh(born) && KeptOrFreed(s + born, u)
    ensures forall n :: n in u ==> n in s || n in born
  {
    if op.Append? || op.FromArray? || op.Extend? {
      reply, born, u := PerformGrow(list, op, s, v);
    } else if op.Pop? || op.PopTail? {
      reply, born, u := PerformShrink(list, op, s, v);
    } else if op.Get? || op.Index? || op.Len? {
      reply := PerformRead(list, op, s, v);
      born, u := [], s;
    } else if op.Set? {
      reply, born, u := PerformSet(list, op, s, v);
    } else if op.Swap? {
      reply, born, u := PerformSwap(list, op, s, v);
    } else {
      reply, born, u := PerformReverse(list, op, s, v);
    }
  }

  method PerformGrow(list: List, op: Op, ghost s: seq<Node>, ghost v: seq<Ptr>)
    returns (reply: Reply, ghost born: seq<Node>, ghost u: seq<Node>)
    requires Represents(list, s, v)
    requires op.Append? || op.FromArray? || op.Extend?
    modifies list, set n | n in s
    ensures Performed(list, op, s, v, reply, born, u)
    ensures fresh(born) && KeptOrFreed(s + born, u)
    ensures forall n :: n in u ==> n in s || n in born
  {
    reply := Nothing;
    match op {
      case Append(d) =>
        ghost var n := list.Append(d, s);
        born := [n];
        u := s + born;
      case FromArray(ptr, size, len) =>
        var refused: bool;
        refused, u := list.FromArray(ptr, size, len, s);
        born := if refused then [] else u;
        reply := if refused then Flag(false) else Nothing;
      case Extend(other) =>
        var b: List;
        b, born := BuildFresh(other);
        list.Extend(b, s, born);
        u := s + born;
    }
  }

  method PerformShrink(list: List, op: Op, ghost s: seq<Node>, ghost v: seq<Ptr>)
    returns (reply: Reply, ghost born: seq<Node>, ghost u: seq<Node>)
    requires Represents(list, s, v)
    requires op.Pop? || op.PopTail?
    modifies list, set n | n in s
    ensures Performed(list, op, s, v, reply, born, u)
    ensures fresh(born) && KeptOrFreed(s + born, u)
    ensures forall n :: n in u ==> n in s || n in born
  {
    born, u := [], s;
    match op {
      case PopTail =>
        if s != [] {
          RemovedAlone(list.head, s, |s| - 1);
          assert RemoveAt(s, |s| - 1) == s[..|s| - 1];
        }
        var ok := list.PopTail(s);
        u := if ok then s[..|s| - 1] else s;
        reply := Flag(ok);
      case Pop(pos) =>
        if 0 <= pos < |s| {
          RemovedAlone(list.head, s, pos);
        }
        var ok := list.Pop(pos, s);
        u := if ok then RemoveAt(s, pos) else s;
        reply := Flag(ok);
    }
  }

  method PerformRead(list: List, op: Op, ghost s: seq<Node>, ghost v: seq<Ptr>) returns (reply: Reply)
    requires Represents(list, s, v)
    requires op.Get? || op.Index? || op.Len?
    ensures reply == Apply(v, op).1
  {
    match op {
      case Get(pos) =>
        var r := list.Get(pos, s);
        reply := Found(r);
      case Index(d) =>
        var r := list.Index(d, s);
        reply := Code(r);
      case Len =>
        var n := list.Len(s);
        reply := Code(n);
    }
  }

  method PerformSet(list: List, op: Op, ghost s: seq<Node>, ghost v: seq<Ptr>)
    returns (reply: Reply, ghost born: seq<Node>, ghost u: seq<Node>)
    requires Represents(list, s, v)
    requires op.Set?
    modifies list, set n | n in s
    ensures Performed(list, op, s, v, reply, born, u)
    ensures fresh(born) && KeptOrFreed(s + born, u)
    ensures forall n :: n in u ==> n in s || n in born
  {
    born, u := [], s;
    ChainIsDistinct(list.head, s);
    assert 0 <= op.pos < |s| ==> OnlyAt(s, op.pos);
    var ok := list.Set(op.pos, op.d, s);
    reply := Flag(ok);
  }

  method PerformSwap(list: List, op: Op, ghost s: seq<Node>, ghost v: seq<Ptr>)
    returns (reply: Reply, ghost born: seq<Node>, ghost u: seq<Node>)
    requires Represents(list, s, v)
    requires op.Swap?
    modifies list, set n | n in s
    ensures Performed(list, op, s, v, reply, born, u)
    ensures fresh(born) && KeptOrFreed(s + born, u)
    ensures forall n :: n in u ==> n in s || n in born
  {
    hide Reversed, FirstIndex, Strided;
    born, u := [], s;
    var ok := list.Swap(op.posA, op.posB, s);
    if ok {
      u := Exchange(s, op.posA, op.posB);
      ExchangeTwice(s, op.posA, op.posB);
      SameNodes(s, u);
    }
    reply := Flag(ok);
  }

  method PerformReverse(list: List, op: Op, ghost s: seq<Node>, ghost v: seq<Ptr>)
    returns (reply: Reply, ghost born: seq<Node>, ghost u: seq<Node>)
    requires Represents(list, s, v)
    requires op.Reverse?
    modifies list, set n | n in s
    ensures Performed(list, op, s, v, reply, born, u)
    ensures fresh(born) && KeptOrFreed(s + born, u)
    ensures forall n :: n in u ==> n in s || n in born
  {
    hide Reversed, FirstIndex, Strided;
    list.Reverse(s);
    born, u, reply := [], Reversed(s), Nothing;
    ReversedPermutes(s);
    SameNodes(s, u);
  }

  /** Whole-API refinement: any sequence of operations leaves a NULL-terminated list of
      distinct nodes.  Which node stands where, what each holds and every reply are those
      of the plain sequence operations; and of all nodes there ever were, exactly those
      still in the list are allocated. */
  method PerformAll(list: List, ops: seq<Op>, ghost s: seq<Node>, ghost v: seq<Ptr>)
    returns (replies: seq<Reply>, ghost born: seq<seq<Node>>, ghost u: seq<Node>)
    requires Represents(list, s, v)
    modifies list, set n | n in s
    ensures Represents(list, u, ApplyAll(v, ops).0) && replies == ApplyAll(v, ops).1
    ensures |born| == |ops| && u == MovedAll(s, ops, born) && Distinct(u)
    ensures forall i :: 0 <= i < |born| ==> fresh(born[i]) && KeptOrFreed(born[i], u)
    ensures KeptOrFreed(s, u)
  {
    u, born := s, [];
    replies := [];
    ghost var seen := set n | n in s;
    for i := 0 to |ops|
      invariant Represents(list, u, ApplyAll(v, ops[..i]).0) && replies == ApplyAll(v, ops[..i]).1
      invariant |born| == i && u == MovedAll(s, ops[..i], born)
      invariant forall n :: n in u ==> n in seen
      invariant forall n :: n in seen ==> (n in s || fresh(n)) && (n.live <==> n in u)
      invariant forall n :: n in s ==> n in seen
      invariant forall k :: 0 <= k < i ==> fresh(born[k]) && forall n :: n in born[k] ==> n in seen
    {
      hide ApplyAll, MovedAll, Apply, Moved;
      assert ops[..i + 1] == ops[..i] + [ops[i]];
      ApplyOneMore(v, ops[..i], ops[i]);
      ghost var b, w;
      var reply;
      reply, b, w := Perform(list, ops[i], u, ApplyAll(v, ops[..i]).0);
      MovedOneMore(s, ops[..i], born, ops[i], b);
      replies := replies + [reply];
      u, born, seen := w, born + [b], seen + set n | n in b;
    }
    assert ops[..|ops|] == ops;
    ChainIsDistinct(list.head, u);
  }

  // ---------- the two cursors ----------

  lemma WrapAround(j: nat, n: nat)
    requires n > 0
    ensures (j + 1) % n == if j % n + 1 == n then 0 else j % n + 1
  {
    var d := (j + 1) / n - j / n;
    assert n * d == j % n + 1 - (j + 1) % n;
    MultipleBounds(n, d);
  }

  lemma MultipleBounds(n: int, d: int)
    requires n > 0
    ensures d >= 2 ==> n * d >= n + n
    ensures d < 0 ==> n * d <= -n
  {
    if d >= 2 {
      assert n * d == n + n + n * (d - 2);
    } else if d < 0 {
      assert n * d == -n - n * (-d - 1);
    }
  }

  /** The static variables of list_iter and list_cycle, shared by every list. */
  class Cursors {
    var iterNode: Node?
    var iterStarted: bool
    var cycleNode: Node?

    constructor ()
      ensures !iterStarted && iterNode == null && cycleNode == null
    {
      iterNode, iterStarted, cycleNode := null, false, null;
    }

    /** The next list_iter call on this list is due to deliver position k. */
    ghost predicate IterAt(s: seq<Node>, k: nat)
      reads this
    {
      k <= |s| && if iterStarted then iterNode == At(s, k) else k == 0
    }

    /** The next list_cycle call on this list is due to deliver position k. */
    ghost predicate CycleAt(s: seq<Node>, k: nat)
      reads this
    {
      k < |s| && (cycleNode == s[k] || (cycleNode == null && k == 0))
    }

    method Iter(list: List, ghost s: seq<Node>, ghost k: nat) returns (r: Option<(Ptr, int)>)
      requires Chain(list.head, s) && IterAt(s, k)
      modifies this`iterNode, this`iterStarted
      ensures k < |s| ==> r == Some((s[k].data, k)) && iterStarted && IterAt(s, k + 1)
      ensures k == |s| ==> r == None && !iterStarted && IterAt(s, 0)
    {
      if !iterStarted {
        iterNode := list.head;
        iterStarted := true;
      }
      if iterNode == null {
        iterStarted := false;
        return None;
      }
      var d := iterNode.Data();
      var i := list.GetIndexByNode(iterNode, s, k);
      iterNode := iterNode.Next();
      return Some((d, i));
    }

    method Cycle(list: List, ghost s: seq<Node>, ghost k: nat) returns (d: Ptr, pos: int)
      requires Chain(list.head, s) && CycleAt(s, k)
      modifies this`cycleNode
      ensures d == s[k].data && pos == k
      ensures CycleAt(s, if k + 1 == |s| then 0 else k + 1)
    {
      if cycleNode == null {
        cycleNode := list.head;
      }
      d := cycleNode.Data();
      pos := list.GetIndexByNode(cycleNode, s, k);
      cycleNode := cycleNode.Next();
    }

    /** Calls from the reset state go round and round: every element in order, then
        one failure, then every element again. */
    method IterRun(list: List, calls: nat, ghost s: seq<Node>) returns (rs: seq<Option<(Ptr, int)>>)
      requires Chain(list.head, s) && !iterStarted
      modifies this`iterNode, this`iterStarted
      ensures |rs| == calls
      ensures forall j :: 0 <= j < calls ==>
        var k := j % (|s| + 1);
        rs[j] == if k < |s| then Some((s[k].data, k)) else None
    {
      rs := [];
      for j := 0 to calls
        invariant |rs| == j && IterAt(s, j % (|s| + 1))
        invariant forall i :: 0 <= i < j ==>
          var k := i % (|s| + 1);
          rs[i] == if k < |s| then Some((s[k].data, k)) else None
      {
        var r := Iter(list, s, j % (|s| + 1));
        rs := rs + [r];
        WrapAround(j, |s| + 1);
      }
    }

    /** The j-th call delivers element j mod n. */
    method CycleRun(list: List, calls: nat, ghost s: seq<Node>) returns (rs: seq<(Ptr, int)>)
      requires Chain(list.head, s) && s != [] && cycleNode == null
      modifies this`cycleNode
      ensures |rs| == calls
      ensures forall j :: 0 <= j < calls ==> rs[j] == (s[j % |s|].data, j % |s|)
    {
      rs := [];
      for j := 0 to calls
        invariant |rs| == j && CycleAt(s, j % |s|)
        invariant forall i :: 0 <= i < j ==> rs[i] == (s[i % |s|].data, i % |s|)
      {
        var d, pos := Cycle(list, s, j % |s|);
        rs := rs + [(d, pos)];
        WrapAround(j, |s|);
      }
    }
  }
}
