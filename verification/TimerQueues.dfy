/** The timer queue and the list its ready timers travel on, at the level of pointers.
    Every method is tied to the tree functions of PairingTree. */
module TimerQueues {
  import opened PairingTree
  import opened PairingCost
  import PotentialArithmetic

  /** The links starting at `p` spell out the tree `t`, and `p` is entered from `prev`. */
  ghost predicate Repr(p: TimerNode?, prev: TimerNode?, t: Tree)
    reads Nodes(t)`prev, Nodes(t)`child, Nodes(t)`sibling
    decreases t
  {
    match t
    case Leaf => p == null
    case Bin(n, c, s) => p == n && n.prev == prev && Repr(n.child, n, c) && Repr(n.sibling, n, s)
  }

  /** A stack of roots linked by `sibling` only: every root has a null `prev`. */
  ghost predicate Stacked(p: TimerNode?, t: Tree)
    reads Nodes(t)`prev, Nodes(t)`child, Nodes(t)`sibling
    decreases t
  {
    match t
    case Leaf => p == null
    case Bin(n, c, s) => p == n && n.prev == null && Repr(n.child, n, c) && Stacked(n.sibling, s)
  }

  /** The first tree of a sibling chain and the chain behind it. */
  lemma FirstOfChain(t: Tree)
    requires t.Bin? && Distinct(t) && Ordered(t)
    ensures Heap(Bin(t.node, t.child, Leaf)) && Distinct(t.sibling) && Ordered(t.sibling)
    ensures t.node !in Nodes(t.child) + Nodes(t.sibling) && Nodes(t.child) !! Nodes(t.sibling)
    ensures Nodes(Bin(t.node, t.child, Leaf)) == {t.node} + Nodes(t.child)
    ensures Nodes(t) == {t.node} + Nodes(t.child) + Nodes(t.sibling)
  {
  }

  lemma NodesOf(t: Tree)
    requires t.Bin?
    ensures Nodes(t) == {t.node} + Nodes(t.child) + Nodes(t.sibling) && Nodes(Leaf) == {}
  {
  }

  lemma RootOf(p: TimerNode?, prev: TimerNode?, t: Tree)
    requires Repr(p, prev, t) && Nodes(t) != {}
    ensures t.Bin? && p == t.node && p in Nodes(t)
  {
  }

  /** `b` becomes the first child of `a`. */
  method Attach(a: TimerNode, b: TimerNode, ghost ta: Tree, ghost tb: Tree)
    requires ta.Bin? && Distinct(ta) && ta.sibling == Leaf && Repr(a, null, ta)
    requires tb.Bin? && Distinct(tb) && tb.sibling == Leaf && Repr(b, null, tb)
    requires Nodes(ta) !! Nodes(tb)
    modifies Nodes(ta)`prev, Nodes(ta)`child, b`prev, b`sibling
    ensures Repr(a, null, Bin(a, Bin(b, tb.child, ta.child), Leaf))
  {
    ghost var c := ta.child;
    b.prev := a;
    b.sibling := a.child;
    if a.child != null {
      assert Distinct(c);
      assert c.node !in Nodes(c.child) && c.node !in Nodes(c.sibling);
      a.child.prev := b;
    }
    assert Repr(b.sibling, b, c);
    a.child := b;
  }

  /** `timer_queue::meld` */
  method MeldRoots(a: TimerNode, b: TimerNode, ghost ta: Tree, ghost tb: Tree) returns (r: TimerNode)
    requires ta.Bin? && Heap(ta) && Repr(a, null, ta)
    requires tb.Bin? && Heap(tb) && Repr(b, null, tb)
    requires Nodes(ta) !! Nodes(tb)
    modifies Nodes(ta)`prev, Nodes(ta)`child, Nodes(ta)`sibling
    modifies Nodes(tb)`prev, Nodes(tb)`child, Nodes(tb)`sibling
    ensures Repr(r, null, Meld(ta, tb)) && Heap(Meld(ta, tb))
    ensures Nodes(Meld(ta, tb)) == Nodes(ta) + Nodes(tb)
  {
    MeldHeap(ta, tb);
    if b.deadline < a.deadline {
      Attach(b, a, tb, ta);
      r := b;
    } else {
      Attach(a, b, ta, tb);
      r := a;
    }
  }

  /** `rest` (a child list) and `stack` share out the nodes `all`, both in heap order. */
  ghost predicate Shares(rest: Tree, stack: Tree, all: set<TimerNode>) {
    && Distinct(rest) && Ordered(rest) && Distinct(stack) && Ordered(stack)
    && Nodes(rest) !! Nodes(stack) && Nodes(rest) + Nodes(stack) == all
  }

  /** Cut the first tree off a child list. */
  method CutRoot(a: TimerNode, ghost p: TimerNode?, ghost t: Tree) returns (rest: TimerNode?)
    requires t.Bin? && Distinct(t) && Ordered(t) && Repr(a, p, t)
    modifies a`prev, a`sibling
    ensures a == t.node && rest == old(a.sibling)
    ensures Repr(a, null, Bin(a, t.child, Leaf)) && Repr(rest, a, t.sibling)
  {
    rest := a.sibling;
    a.prev := null;
    a.sibling := null;
  }

  /** Cut the first two trees off a child list and meld them. */
  method MeldFirstTwo(a: TimerNode, b: TimerNode, ghost p: TimerNode?, ghost t: Tree)
      returns (r: TimerNode, rest: TimerNode?)
    requires t.Bin? && t.sibling.Bin? && Distinct(t) && Ordered(t)
    requires Repr(a, p, t) && a.sibling == b
    modifies Nodes(t)`prev, Nodes(t)`child, Nodes(t)`sibling
    ensures var ta, tb := Bin(a, t.child, Leaf), Bin(b, t.sibling.child, Leaf);
      && t.node == a && t.sibling.node == b
      && Repr(r, null, Meld(ta, tb)) && Heap(Meld(ta, tb))
      && Nodes(Meld(ta, tb)) == {a, b} + Nodes(t.child) + Nodes(t.sibling.child)
    ensures Repr(rest, b, t.sibling.sibling)
  {
    hide Nodes, Distinct, Ordered, Heap, Meld;
    FirstOfChain(t);
    FirstOfChain(t.sibling);
    ghost var ta, tb := Bin(a, t.child, Leaf), Bin(b, t.sibling.child, Leaf);
    assert allocated(Nodes(t.sibling.sibling)) && allocated(Nodes(t.child));
    RootOf(a, p, t);
    rest := CutRoot(a, p, t);
    RootOf(b, a, t.sibling);
    rest := CutRoot(b, a, t.sibling);
    r := MeldRoots(a, b, ta, tb);
  }

  /** Cut the first two trees of a child list (or a lone last one) off as one tree. */
  method TakePair(first: TimerNode, ghost p: TimerNode?, ghost rest: Tree)
      returns (a: TimerNode, first': TimerNode?, ghost t: Tree, ghost p': TimerNode?, ghost rest': Tree)
    requires rest.Bin? && Repr(first, p, rest) && Distinct(rest) && Ordered(rest)
    modifies Nodes(rest)`prev, Nodes(rest)`child, Nodes(rest)`sibling
    ensures Repr(first', p', rest') && t.Bin? && t.sibling == Leaf && Repr(a, null, t)
    ensures Shares(t, rest', Nodes(rest))
    ensures rest' == if rest.sibling == Leaf then Leaf else rest.sibling.sibling
    ensures t == if rest.sibling == Leaf then rest
      else Meld(Bin(rest.node, rest.child, Leaf), Bin(rest.sibling.node, rest.sibling.child, Leaf))
  {
    FirstOfChain(rest);
    var b := first.sibling;
    if b == null {
      first.prev := null;
      a, first', t, p', rest' := first, null, rest, null, Leaf;
    } else {
      FirstOfChain(rest.sibling);
      t := Meld(Bin(first, rest.child, Leaf), Bin(b, rest.sibling.child, Leaf));
      p', rest' := b, rest.sibling.sibling;
      a, first' := MeldFirstTwo(first, b, p, rest);
    }
  }

  /** One round of the first loop of `merge_children`. */
  method PushPair(first: TimerNode, ghost p: TimerNode?, ghost rest: Tree,
                  merged: TimerNode?, ghost stack: Tree, ghost all: set<TimerNode>)
      returns (first': TimerNode?, ghost p': TimerNode?, ghost rest': Tree,
               merged': TimerNode, ghost stack': Tree, ghost melds: nat)
    requires rest.Bin? && Repr(first, p, rest) && Stacked(merged, stack) && Shares(rest, stack, all)
    modifies Nodes(rest)`prev, Nodes(rest)`child, Nodes(rest)`sibling
    ensures Repr(first', p', rest') && Stacked(merged', stack') && Shares(rest', stack', all)
    ensures PairUp(rest', stack') == PairUp(rest, stack) && rest' < rest
    ensures melds + Spine(stack') + Spine(rest') == Spine(stack) + Spine(rest)
  {
    hide Nodes, Repr, Stacked, Distinct, Ordered, Meld, PairUp, Spine;
    ghost var t;
    assert allocated(Nodes(stack));
    PairStep(rest, stack);
    merged', first', t, p', rest' := TakePair(first, p, rest);
    melds := if rest.sibling == Leaf then 0 else 1;
    StackShares(t, rest', Nodes(rest), stack, all);
    assert allocated(Nodes(rest'));
    Push(merged', merged, t, stack);
    stack' := Bin(merged', t.child, stack);
  }

  /** What one round does to the pairs still to be made and to the count of trees. */
  lemma PairStep(rest: Tree, stack: Tree)
    requires rest.Bin?
    ensures var last := rest.sibling == Leaf;
      var t := if last then rest
        else Meld(Bin(rest.node, rest.child, Leaf), Bin(rest.sibling.node, rest.sibling.child, Leaf));
      var rest' := if last then Leaf else rest.sibling.sibling;
      && PairUp(rest', Bin(t.node, t.child, stack)) == PairUp(rest, stack) && rest' < rest
      && Spine(Bin(t.node, t.child, stack)) == 1 + Spine(stack)
      && Spine(rest) == Spine(rest') + (if last then 1 else 2)
  {
  }

  lemma StackShares(t: Tree, rest: Tree, taken: set<TimerNode>, stack: Tree, all: set<TimerNode>)
    requires t.Bin? && t.sibling == Leaf && Shares(t, rest, taken)
    requires Distinct(stack) && Ordered(stack) && taken !! Nodes(stack) && taken + Nodes(stack) == all
    ensures Shares(rest, Bin(t.node, t.child, stack), all) && Nodes(t) <= taken && t.node in taken
    ensures Nodes(t) !! Nodes(stack) && Nodes(t) !! Nodes(rest) && t.node !in Nodes(stack) + Nodes(rest)
  {
    hide Nodes, Distinct, Ordered;
    NodesOf(t);
    OnTop(t, stack);
  }

  lemma OnTop(t: Tree, stack: Tree)
    requires t.Bin? && t.sibling == Leaf && Distinct(t) && Ordered(t)
    requires Distinct(stack) && Ordered(stack) && Nodes(t) !! Nodes(stack)
    ensures var both := Bin(t.node, t.child, stack);
      Distinct(both) && Ordered(both) && Nodes(both) == Nodes(t) + Nodes(stack)
  {
  }

  method Push(top: TimerNode, merged: TimerNode?, ghost t: Tree, ghost stack: Tree)
    requires t.Bin? && t.sibling == Leaf && Distinct(t) && Repr(top, null, t)
    requires Stacked(merged, stack) && Nodes(t) !! Nodes(stack)
    modifies top`sibling
    ensures top == t.node && Stacked(top, Bin(top, t.child, stack))
  {
    top.sibling := merged;
  }

  /** One round of the second loop of `merge_children`. */
  method MeldTop(result: TimerNode, merged: TimerNode, ghost tree: Tree, ghost stack: Tree, ghost all: set<TimerNode>)
      returns (result': TimerNode, merged': TimerNode?)
    requires tree.Bin? && tree.sibling == Leaf && stack.Bin? && Shares(tree, stack, all)
    requires Repr(result, null, tree) && Stacked(merged, stack)
    modifies all`prev, all`child, all`sibling
    ensures var tree' := Meld(tree, Bin(stack.node, stack.child, Leaf));
      && Repr(result', null, tree') && Stacked(merged', stack.sibling)
      && Shares(tree', stack.sibling, all)
  {
    FirstOfChain(stack);
    merged' := merged.sibling;
    merged.sibling := null;
    ghost var top := Bin(merged, stack.child, Leaf);
    assert Repr(merged, null, top);
    result' := MeldRoots(result, merged, tree, top);
  }

  /** Second pass of `merge_children`. */
  method FoldDown(merged0: TimerNode, ghost stack0: Tree) returns (result: TimerNode, ghost melds: nat)
    requires stack0.Bin? && Stacked(merged0, stack0) && Distinct(stack0) && Ordered(stack0)
    modifies Nodes(stack0)`prev, Nodes(stack0)`child, Nodes(stack0)`sibling
    ensures Repr(result, null, FoldStack(Bin(stack0.node, stack0.child, Leaf), stack0.sibling))
    ensures melds == Spine(stack0) - 1
  {
    FirstOfChain(stack0);
    result := merged0;
    var merged := result.sibling;
    result.sibling := null;
    melds := 0;
    ghost var tree, stack := Bin(stack0.node, stack0.child, Leaf), stack0.sibling;
    while merged != null
      invariant Repr(result, null, tree) && Stacked(merged, stack)
      invariant tree.Bin? && tree.sibling == Leaf && Shares(tree, stack, Nodes(stack0))
      invariant FoldStack(tree, stack) == FoldStack(Bin(stack0.node, stack0.child, Leaf), stack0.sibling)
      invariant melds + Spine(stack) + 1 == Spine(stack0)
      decreases stack
    {
      result, merged := MeldTop(result, merged, tree, stack, Nodes(stack0));
      tree := Meld(tree, Bin(stack.node, stack.child, Leaf));
      stack := stack.sibling;
      melds := melds + 1;
    }
  }

  /** `timer_queue::merge_children`: both passes, in place. */
  method MergeChildren(first0: TimerNode?, ghost prev: TimerNode?, ghost t: Tree)
      returns (result: TimerNode?, ghost melds: nat)
    requires Repr(first0, prev, t) && Distinct(t) && Ordered(t)
    modifies Nodes(t)`prev, Nodes(t)`child, Nodes(t)`sibling
    ensures Repr(result, null, MergePairs(t)) && Heap(MergePairs(t))
    ensures Nodes(MergePairs(t)) == Nodes(t)
    ensures melds == MergeMelds(t)
  {
    MergePairsHeap(t);
    melds := 0;
    if first0 == null {
      return null, 0;
    }
    var first: TimerNode?, merged: TimerNode? := first0, null;
    ghost var rest, stack, p, n := t, Leaf, prev, 0;
    while first != null
      invariant Repr(first, p, rest) && Stacked(merged, stack) && Shares(rest, stack, Nodes(t))
      invariant PairUp(rest, stack) == PairUp(t, Leaf)
      invariant melds + Spine(stack) + Spine(rest) == Spine(t)
      decreases rest
    {
      first, p, rest, merged, stack, n := PushPair(first, p, rest, merged, stack, Nodes(t));
      melds := melds + n;
    }
    TwoPassesMerge(t, Leaf);
    result, n := FoldDown(merged, stack);
    melds := melds + n;
  }

  /** Every link inside the heap is mirrored by `prev`, and only the top node lacks one. */
  lemma {:induction false} LinksMirror(p: TimerNode?, prev: TimerNode?, t: Tree)
    requires Repr(p, prev, t) && Distinct(t)
    ensures forall x | x in Nodes(t) ::
      && (x.child != null ==> x.child in Nodes(t) && x.child.prev == x)
      && (x.sibling != null ==> x.sibling in Nodes(t) && x.sibling.prev == x && x.sibling != x.child)
      && x.prev == (if x == p then prev else x.prev) && (x.prev == null ==> x == p)
    ensures forall x | x in Nodes(t) && x != p ::
      && x.prev != null && x.prev in Nodes(t) && x.prev != x
      && (x.prev.child == x || x.prev.sibling == x)
    decreases t
  {
    if t.Bin? {
      LinksMirror(p.child, p, t.child);
      LinksMirror(p.sibling, p, t.sibling);
    }
  }

  /** The links of some nodes at an earlier moment. */
  datatype Links = Links(prev: TimerNode?, child: TimerNode?, sibling: TimerNode?)
  type Snapshot = map<TimerNode, Links>

  ghost function Taken(xs: set<TimerNode>): Snapshot
    reads xs
  {
    map x | x in xs :: Links(x.prev, x.child, x.sibling)
  }

  /** What Repr says, read off a snapshot. */
  ghost predicate ReprWas(m: Snapshot, p: TimerNode?, prev: TimerNode?, t: Tree)
    requires Nodes(t) <= m.Keys
    decreases t
  {
    match t
    case Leaf => p == null
    case Bin(n, c, s) =>
      p == n && m[n].prev == prev && ReprWas(m, m[n].child, n, c) && ReprWas(m, m[n].sibling, n, s)
  }

  lemma {:induction false} ReprTaken(xs: set<TimerNode>, p: TimerNode?, prev: TimerNode?, t: Tree)
    requires Nodes(t) <= xs && Repr(p, prev, t)
    ensures ReprWas(Taken(xs), p, prev, t)
    decreases t
  {
    if t.Bin? {
      ReprTaken(xs, p.child, p, t.child);
      ReprTaken(xs, p.sibling, p, t.sibling);
    }
  }

  /** What unlinking `op` does to the links of the nodes `xs`: whoever pointed at `op` now
      points at its sibling, and that sibling at `op`'s former `prev`. */
  ghost predicate Bypassed(m: Snapshot, op: TimerNode, xs: set<TimerNode>)
    requires op in m && xs <= m.Keys
    reads xs
  {
    forall x | x in xs && x != op ::
      && x.child == (if m[x].child == op then m[op].sibling else m[x].child)
      && x.sibling == (if m[x].sibling == op then m[op].sibling else m[x].sibling)
      && x.prev == (if x == m[op].sibling then m[op].prev else m[x].prev)
  }

  lemma {:induction false} BypassedElsewhere(m: Snapshot, q: TimerNode?, prev: TimerNode?, t: Tree, op: TimerNode)
    requires op in m && Nodes(t) <= m.Keys && ReprWas(m, q, prev, t)
    requires op !in Nodes(t) && Bypassed(m, op, Nodes(t))
    requires m[op].sibling != null ==> m[op].sibling in m && m[m[op].sibling].prev == op
    ensures Repr(q, if q != null && q == m[op].sibling then m[op].prev else prev, t)
    decreases t
  {
    if t.Bin? {
      assert q in Nodes(t);
      BypassedElsewhere(m, m[q].child, q, t.child, op);
      BypassedElsewhere(m, m[q].sibling, q, t.sibling, op);
    }
  }

  lemma {:induction false} BypassedUnlinks(m: Snapshot, p: TimerNode, prev: TimerNode?, t: Tree, op: TimerNode)
    requires op in Nodes(t) && Nodes(t) <= m.Keys && ReprWas(m, p, prev, t) && Distinct(t) && p != op && prev != op
    requires m[op].sibling != null ==> m[op].sibling in m && m[m[op].sibling].prev == op
    requires Bypassed(m, op, Nodes(t)) && op.child == m[op].child
    ensures Repr(p, prev, Unlink(t, op)) && Repr(op.child, op, ChildrenOf(t, op))
    decreases t
  {
    var Bin(n, c, s) := t;
    assert p in Nodes(t);
    var here, at := c, m[p].child;
    if op in Nodes(c) {
      BypassedElsewhere(m, m[p].sibling, p, s, op);
      UnlinkAbsent(s, op);
    } else {
      here, at := s, m[p].sibling;
      BypassedElsewhere(m, m[p].child, p, c, op);
      UnlinkAbsent(c, op);
    }
    if at == op {
      assert Distinct(here) && here.node == op;
      UnlinkRoot(here);
      assert ChildrenOf(t, op) == here.child;
      assert here.child.Bin? ==> here.child.node in Nodes(here.child);
      assert here.sibling.Bin? ==> here.sibling.node in Nodes(here.sibling);
      BypassedElsewhere(m, m[op].sibling, op, here.sibling, op);
      BypassedElsewhere(m, m[op].child, op, here.child, op);
    } else {
      BypassedUnlinks(m, at, p, here, op);
    }
  }

  /** `timer_queue::unlink` */
  method UnlinkNode(op: TimerNode, ghost root: TimerNode, ghost t: Tree)
    requires Repr(root, null, t) && Distinct(t) && op in Nodes(t) && op != root
    modifies Nodes(t)`prev, Nodes(t)`child, Nodes(t)`sibling
    ensures Repr(root, null, Unlink(t, op)) && Repr(op.child, op, ChildrenOf(t, op))
  {
    LinksMirror(root, null, t);
    ghost var m := Taken(Nodes(t));
    ReprTaken(Nodes(t), root, null, t);
    var prev, sibling := op.prev, op.sibling;
    if prev.child == op {
      prev.child := sibling;
    } else {
      prev.sibling := sibling;
    }
    if sibling != null {
      sibling.prev := prev;
    }
    BypassedUnlinks(m, root, null, t, op);
  }

  lemma DeleteParts(t: Tree, x: TimerNode)
    requires Heap(t) && x in Nodes(t) && x != t.node
    ensures Heap(Delete(t, x)) && Nodes(Delete(t, x)) == Nodes(t) - {x}
    ensures Unlink(t, x).Bin? && Nodes(Unlink(t, x)) + Nodes(MergePairs(ChildrenOf(t, x))) == Nodes(t) - {x}
    ensures var kept, orphans := Unlink(t, x), MergePairs(ChildrenOf(t, x));
      && Delete(t, x) == (if orphans == Leaf then kept else Meld(kept, orphans))
      && DeleteMelds(t, x) == MergeMelds(ChildrenOf(t, x)) + (if orphans == Leaf then 0 else 1)
  {
    DeleteHeap(t, x);
    UnlinkNodes(t, x);
    ChildrenOfPart(t, x);
    MergePairsHeap(ChildrenOf(t, x));
  }

  /** Take `op` out of the heap: its siblings move up, its child list becomes one tree. */
  method CutOut(op: TimerNode, ghost root: TimerNode, ghost t: Tree)
      returns (subtree: TimerNode?, ghost melds: nat)
    requires Repr(root, null, t) && Heap(t) && op in Nodes(t) && op != root
    modifies Nodes(t)`prev, Nodes(t)`child, Nodes(t)`sibling
    ensures Repr(root, null, Unlink(t, op)) && Unlink(t, op).Bin? && Heap(Unlink(t, op))
    ensures Nodes(Unlink(t, op)) !! Nodes(ChildrenOf(t, op))
    ensures Repr(subtree, null, MergePairs(ChildrenOf(t, op))) && Heap(MergePairs(ChildrenOf(t, op)))
    ensures Nodes(MergePairs(ChildrenOf(t, op))) == Nodes(ChildrenOf(t, op))
    ensures melds == MergeMelds(ChildrenOf(t, op))
  {
    UnlinkNodes(t, op);
    UnlinkKeeps(t, op);
    ChildrenOfPart(t, op);
    ghost var kept, orphans := Unlink(t, op), ChildrenOf(t, op);
    UnlinkNode(op, root, t);
    assert allocated(Nodes(kept)) && allocated(Nodes(orphans));
    subtree, melds := MergeChildren(op.child, op, orphans);
  }

  /** `intrusive_list`: `next` links, kept as the sequence `items`. */
  class IntrusiveList {
    var head: TimerNode?
    var tail: TimerNode?
    ghost var items: seq<TimerNode>

    ghost predicate Valid()
      reads this, items`next
    {
      && (forall i, j :: 0 <= i < j < |items| ==> items[i] != items[j])
      && (if items == [] then head == null && tail == null
          else head == items[0] && tail == items[|items| - 1] && tail.next == null)
      && (forall i :: 0 <= i < |items| - 1 ==> items[i].next == items[i + 1])
    }

    constructor ()
      ensures Valid() && items == []
    {
      head, tail, items := null, null, [];
    }

    method PushBack(x: TimerNode)
      requires Valid() && x !in items
      modifies this, x`next, items`next
      ensures Valid() && items == old(items) + [x]
    {
      x.next := null;
      if tail != null {
        tail.next := x;
      } else {
        head := x;
      }
      tail := x;
      items := items + [x];
    }

    method PopFront() returns (x: TimerNode?)
      requires Valid()
      modifies this, items`next
      ensures Valid()
      ensures old(items) == [] ==> x == null && items == []
      ensures old(items) != [] ==> x != null && [x] + items == old(items) && x.next == null
    {
      if head == null {
        return null;
      }
      x := head;
      head := x.next;
      if head == null {
        tail := null;
      }
      x.next := null;
      items := items[1..];
    }

    /** Hand over the chain: the caller walks it by `next`. */
    method Release() returns (x: TimerNode?)
      requires Valid()
      modifies this
      ensures Valid() && items == []
      ensures x == if old(items) == [] then null else old(items)[0]
    {
      x := head;
      head, tail, items := null, null, [];
    }
  }

  predicate Unlinked(x: TimerNode)
    reads x`prev, x`child, x`sibling
  {
    x.prev == null && x.child == null && x.sibling == null
  }

  lemma DrainStep(t: Tree, now: int, items: seq<TimerNode>)
    requires t.Bin? && t.sibling == Leaf && t.node.deadline <= now
    ensures items + Drained(t, now) == (items + [t.node]) + Drained(MergePairs(t.child), now)
    ensures AfterDrain(t, now) == AfterDrain(MergePairs(t.child), now)
  {
  }

  /** `timer_queue`, without its lock: one method call is one critical section. */
  class TimerQueue {
    var root: TimerNode?
    ghost var tree: Tree
    ghost var melds: nat      // how many melds have been carried out so far
    ghost var ops: seq<Op>    // the operations so far

    ghost predicate Shaped()
      reads this, Nodes(tree)`prev, Nodes(tree)`child, Nodes(tree)`sibling
    {
      Repr(root, null, tree) && Heap(tree)
    }

    /** The heap and the count of melds are those of the operations so far. */
    ghost predicate Accounted()
      reads `tree, `melds, `ops
    {
      tree == RunTree(ops) && melds == RunMelds(ops) && RunAllowed(ops)
    }

    ghost predicate Valid()
      reads this, Nodes(tree)`prev, Nodes(tree)`child, Nodes(tree)`sibling
    {
      Shaped() && Accounted()
    }

    ghost function Contents(): set<TimerNode>
      reads this
    {
      Nodes(tree)
    }

    constructor ()
      ensures Valid() && Contents() == {} && ops == []
    {
      root, tree, melds, ops := null, Leaf, 0, [];
    }

    /** Over any run the melds are at most 6 k (1 + log2 n) for k operations on at most n timers. */
    lemma MeldsAmortised()
      requires Valid()
      ensures melds <= 6 * |ops| * (1 + PotentialArithmetic.Log2(Peak(ops)))
    {
      AmortisedMelds(ops, Peak(ops));
    }

    /** True exactly when the new timer is strictly earlier than everything before it. */
    method Add(op: TimerNode) returns (earliest: bool)
      requires Valid() && op !in Contents()
      modifies this, Nodes(tree)`prev, Nodes(tree)`child, Nodes(tree)`sibling
      modifies op`prev, op`child, op`sibling
      ensures Valid() && ops == old(ops) + [PairingCost.Add(op)]
      ensures Contents() == old(Contents()) + {op}
      ensures earliest <==> forall x | x in old(Contents()) :: op.deadline < x.deadline
    {
      InsertHeap(tree, op);
      RunExtends(ops, PairingCost.Add(op));
      ops := ops + [PairingCost.Add(op)];
      assert allocated(Nodes(tree));
      op.prev, op.child, op.sibling := null, null, null;
      ghost var single := Bin(op, Leaf, Leaf);
      if root == null {
        root := op;
      } else {
        assert Nodes(single) == {op};
        root := MeldRoots(root, op, tree, single);
        melds := melds + 1;
      }
      tree := Insert(tree, op);
      earliest := root == op;
    }

    method DetachRoot() returns (top: TimerNode)
      requires Shaped() && root != null
      modifies `root, `tree, `melds, Nodes(tree)`prev, Nodes(tree)`child, Nodes(tree)`sibling
      ensures Shaped() && tree == MergePairs(old(tree).child) && top == old(root)
      ensures top in old(Contents()) && Contents() == old(Contents()) - {top} && Unlinked(top)
      ensures forall x | x in old(Contents()) :: top.deadline <= x.deadline
      ensures melds == old(melds) + MergeMelds(old(tree).child)
    {
      RootIsEarliest(tree);
      FirstOfChain(tree);
      top := root;
      ghost var n;
      root, n := MergeChildren(top.child, top, tree.child);
      melds := melds + n;
      tree := MergePairs(tree.child);
      top.prev, top.child, top.sibling := null, null, null;
    }

    method PopRoot() returns (top: TimerNode)
      requires Valid() && root != null
      modifies this, Nodes(tree)`prev, Nodes(tree)`child, Nodes(tree)`sibling
      ensures Valid() && ops == old(ops) + [Pop]
      ensures tree == MergePairs(old(tree).child) && top == old(root)
      ensures top in old(Contents()) && Contents() == old(Contents()) - {top} && Unlinked(top)
      ensures forall x | x in old(Contents()) :: top.deadline <= x.deadline
    {
      RunExtends(ops, Pop);
      ops := ops + [Pop];
      top := DetachRoot();
    }

    /** True exactly for a linked timer; a timer that was never added, or has fired or been
        removed, has null links. */
    method Remove(op: TimerNode) returns (removed: bool)
      requires Valid() && (op in Contents() || Unlinked(op))
      modifies this, Nodes(tree)`prev, Nodes(tree)`child, Nodes(tree)`sibling
      ensures Valid() && ops == old(ops) + [PairingCost.Remove(op)]
      ensures removed <==> op in old(Contents())
      ensures Contents() == old(Contents()) - {op}
      ensures Unlinked(op)
    {
      DeleteHeap(tree, op);
      LinksMirror(root, null, tree);
      RunExtends(ops, PairingCost.Remove(op));
      ops := ops + [PairingCost.Remove(op)];
      if op == root {
        var _ := DetachRoot();
        return true;
      }
      if op.prev == null {
        return false;
      }
      RemoveLinked(op);
      removed := true;
    }

    method RemoveLinked(op: TimerNode)
      requires Shaped() && op in Contents() && op != root
      modifies `root, `tree, `melds, Nodes(tree)`prev, Nodes(tree)`child, Nodes(tree)`sibling
      ensures Shaped() && tree == Delete(old(tree), op) && Unlinked(op)
      ensures melds == old(melds) + DeleteMelds(old(tree), op)
    {
      hide Nodes, Repr, Heap, Meld, MergePairs, Unlink, ChildrenOf, Delete, DeleteMelds, MergeMelds;
      RootOf(root, null, tree);
      DeleteParts(tree, op);
      ghost var kept, orphans := Unlink(tree, op), MergePairs(ChildrenOf(tree, op));
      var subtree, n := CutOut(op, root, tree);
      assert allocated(Nodes(kept)) && allocated(Nodes(orphans));
      melds := melds + n;
      JoinOrphans(subtree, kept, orphans);
      tree := Delete(tree, op);
      op.prev, op.child, op.sibling := null, null, null;
    }

    method JoinOrphans(subtree: TimerNode?, ghost kept: Tree, ghost orphans: Tree)
      requires kept.Bin? && Heap(kept) && Repr(root, null, kept)
      requires Heap(orphans) && Repr(subtree, null, orphans) && Nodes(kept) !! Nodes(orphans)
      modifies `root, `melds, Nodes(kept)`prev, Nodes(kept)`child, Nodes(kept)`sibling
      modifies Nodes(orphans)`prev, Nodes(orphans)`child, Nodes(orphans)`sibling
      ensures var t := if orphans == Leaf then kept else Meld(kept, orphans);
        Repr(root, null, t) && Heap(t) && Nodes(t) == Nodes(kept) + Nodes(orphans)
      ensures melds == old(melds) + if orphans == Leaf then 0 else 1
    {
      if subtree != null {
        root := MeldRoots(root, subtree, kept, orphans);
        melds := melds + 1;
      }
    }

    method Earliest() returns (found: bool, deadline: int)
      requires Valid()
      ensures found <==> Contents() != {}
      ensures found ==> exists x | x in Contents() :: x.deadline == deadline
      ensures found ==> forall x | x in Contents() :: deadline <= x.deadline
    {
      if root == null {
        return false, 0;
      }
      RootIsEarliest(tree);
      assert root in Contents();
      return true, root.deadline;
    }

    /** `list.push_back(*pop_root())` */
    method PopInto(list: IntrusiveList) returns (top: TimerNode)
      requires Valid() && root != null && list.Valid()
      requires forall x | x in list.items :: x !in Contents()
      modifies this, Nodes(tree)`prev, Nodes(tree)`child, Nodes(tree)`sibling
      modifies list, root`next, list.items`next
      ensures Valid() && list.Valid() && list.items == old(list.items) + [top]
      ensures tree == MergePairs(old(tree).child)
      ensures top == old(root) && top in old(Contents()) && Contents() == old(Contents()) - {top}
      ensures forall x | x in old(Contents()) :: top.deadline <= x.deadline
      ensures Unlinked(top)
    {
      top := PopRoot();
      assert allocated(Nodes(tree));
      list.PushBack(top);
    }

    /** Exactly the due timers leave, in deadline order, behind what the list held.  They leave with
        null heap links, so that a late `remove` finds them not linked. */
    method TakeReadyTimers(now: int, list: IntrusiveList) returns (ghost taken: seq<TimerNode>)
      requires Valid() && list.Valid()
      requires forall x | x in list.items :: x !in Contents()
      modifies this, Nodes(tree)`prev, Nodes(tree)`child, Nodes(tree)`sibling, Nodes(tree)`next
      modifies list, list.items`next
      ensures Valid() && list.Valid() && list.items == old(list.items) + taken
      ensures SortedByDeadline(taken)
      ensures (set x | x in taken) == set x | x in old(Contents()) && x.deadline <= now
      ensures Contents() == set x | x in old(Contents()) && now < x.deadline
      ensures forall x | x in old(Contents()) :: x in taken <==> x.deadline <= now
      ensures forall x | x in taken :: x in old(Contents()) && Unlinked(x)
    {
      DrainIsExact(tree, now);
      taken := Drained(tree, now);
      ghost var t := tree;
      DrainInto(now, list);
      forall x | x in taken
        ensures x in Nodes(t) && Unlinked(x)
      {
        DrainedAreDue(t, now, x);
      }
      forall x | x in Nodes(t)
        ensures x in taken <==> x.deadline <= now
      {
        DrainedAreDue(t, now, x);
      }
    }

    method DrainInto(now: int, list: IntrusiveList)
      requires Valid() && list.Valid()
      requires forall x | x in list.items :: x !in Contents()
      modifies this, Nodes(tree)`prev, Nodes(tree)`child, Nodes(tree)`sibling, Nodes(tree)`next
      modifies list, list.items`next
      ensures Valid() && list.Valid() && list.items == old(list.items) + Drained(old(tree), now)
      ensures tree == AfterDrain(old(tree), now) && Fired(old(Contents()))
    {
      ghost var t0 := tree;
      while root != null && root.deadline <= now
        invariant Ready(list, old(list.items), old(Contents())) && Fired(old(Contents()))
        invariant list.items + Drained(tree, now) == old(list.items) + Drained(t0, now)
        invariant AfterDrain(tree, now) == AfterDrain(t0, now)
        decreases Size(tree)
      {
        DrainOne(now, list, old(list.items), old(Contents()));
      }
      assert Drained(tree, now) == [];
    }

    method DrainOne(now: int, list: IntrusiveList, ghost items: seq<TimerNode>, ghost contents: set<TimerNode>)
      requires Ready(list, items, contents) && Fired(contents) && root != null && root.deadline <= now
      modifies this, contents`prev, contents`child, contents`sibling, contents`next
      modifies list, items`next
      ensures Ready(list, items, contents) && Fired(contents)
      ensures list.items + Drained(tree, now) == old(list.items) + Drained(old(tree), now)
      ensures AfterDrain(tree, now) == AfterDrain(old(tree), now) && Size(tree) < Size(old(tree))
    {
      DrainStep(tree, now, list.items);
      var _ := PopInto(list);
    }

    /** Those of `contents` that are no longer in the heap have null links. */
    ghost predicate Fired(contents: set<TimerNode>)
      reads this, contents`prev, contents`child, contents`sibling
    {
      forall x | x in contents && x !in Contents() :: Unlinked(x)
    }

    /** Mid-drain: the list holds nothing that is still in the heap. */
    ghost predicate Ready(list: IntrusiveList, items: seq<TimerNode>, contents: set<TimerNode>)
      reads this, Nodes(tree)`prev, Nodes(tree)`child, Nodes(tree)`sibling, list, list.items`next
    {
      && Valid() && list.Valid() && Contents() <= contents
      && forall x | x in list.items :: x !in Contents() && (x in items || x in contents)
    }
  }
}
