/** The shape of the timer queue's intrusive pairing heap, seen as a binary tree.

    `child` is the left link, `sibling` the right link, and `prev` (the parent of a first
    child, the previous sibling otherwise) is then simply the parent in the binary tree.
    This module holds the nodes, the tree-level meaning of every operation, and the facts
    about contents and heap order.  Costs are in PairingCost, pointers in TimerQueues. */
module PairingTree {

  /** A timer: `deadline` never changes, the links belong to the queue or list holding it. */
  class TimerNode {
    const deadline: int
    var prev: TimerNode?
    var child: TimerNode?
    var sibling: TimerNode?
    var next: TimerNode?

    constructor (deadline: int)
      ensures this.deadline == deadline
      ensures prev == null && child == null && sibling == null && next == null
    {
      this.deadline := deadline;
      prev, child, sibling, next := null, null, null, null;
    }
  }

  datatype Tree = Leaf | Bin(node: TimerNode, child: Tree, sibling: Tree)

  ghost function Nodes(t: Tree): set<TimerNode> {
    match t
    case Leaf => {}
    case Bin(n, c, s) => {n} + Nodes(c) + Nodes(s)
  }

  function Size(t: Tree): nat {
    match t
    case Leaf => 0
    case Bin(_, c, s) => 1 + Size(c) + Size(s)
  }

  /** No node occurs twice. */
  ghost predicate Distinct(t: Tree) {
    match t
    case Leaf => true
    case Bin(n, c, s) =>
      && n !in Nodes(c) && n !in Nodes(s) && Nodes(c) !! Nodes(s)
      && Distinct(c) && Distinct(s)
  }

  ghost predicate Below(d: int, t: Tree) {
    forall x | x in Nodes(t) :: d <= x.deadline
  }

  /** Heap order: a node is no later than anything in its child list. */
  ghost predicate Ordered(t: Tree) {
    match t
    case Leaf => true
    case Bin(n, c, s) => Below(n.deadline, c) && Ordered(c) && Ordered(s)
  }

  /** A single heap: distinct nodes in heap order, and a root without siblings. */
  ghost predicate Heap(t: Tree) {
    Distinct(t) && Ordered(t) && (t.Bin? ==> t.sibling == Leaf)
  }

  /** `meld`: the later root becomes the first child of the earlier one; `a` wins a tie. */
  function Meld(a: Tree, b: Tree): Tree
    requires a.Bin? && b.Bin?
  {
    if b.node.deadline < a.node.deadline
    then Bin(b.node, Bin(a.node, a.child, b.child), Leaf)
    else Bin(a.node, Bin(b.node, b.child, a.child), Leaf)
  }

  /** The two-pass merge as one recursion: pair up from the left, fold from the right. */
  function MergePairs(t: Tree): (r: Tree)
    ensures t.Bin? <==> r.Bin?
    ensures r.Bin? ==> r.sibling == Leaf
    ensures Size(r) == Size(t)
  {
    match t
    case Leaf => Leaf
    case Bin(x, a, Leaf) => Bin(x, a, Leaf)
    case Bin(x, a, Bin(y, b, rest)) =>
      var pair := Meld(Bin(x, a, Leaf), Bin(y, b, Leaf));
      if rest == Leaf then pair else Meld(MergePairs(rest), pair)
  }

  /** First loop of `merge_children`: melded pairs are pushed on a stack linked by `sibling`. */
  function PairUp(t: Tree, stack: Tree): Tree {
    match t
    case Leaf => stack
    case Bin(x, a, Leaf) => Bin(x, a, stack)
    case Bin(x, a, Bin(y, b, rest)) =>
      var pair := Meld(Bin(x, a, Leaf), Bin(y, b, Leaf));
      PairUp(rest, Bin(pair.node, pair.child, stack))
  }

  /** Second loop of `merge_children`: meld the stack into `result`, top first. */
  function FoldStack(result: Tree, stack: Tree): Tree
    requires result.Bin?
    decreases stack
  {
    match stack
    case Leaf => result
    case Bin(x, a, rest) => FoldStack(Meld(result, Bin(x, a, Leaf)), rest)
  }

  /** The tree without `x` and without its child list: `x`'s siblings move up. */
  function Unlink(t: Tree, x: TimerNode): Tree {
    match t
    case Leaf => Leaf
    case Bin(n, c, s) => if n == x then s else Bin(n, Unlink(c, x), Unlink(s, x))
  }

  /** The child list of `x` in `t`. */
  ghost function ChildrenOf(t: Tree, x: TimerNode): Tree {
    match t
    case Leaf => Leaf
    case Bin(n, c, s) =>
      if n == x then c else if x in Nodes(c) then ChildrenOf(c, x) else ChildrenOf(s, x)
  }

  function Insert(t: Tree, x: TimerNode): Tree {
    if t == Leaf then Bin(x, Leaf, Leaf) else Meld(t, Bin(x, Leaf, Leaf))
  }

  ghost function Delete(t: Tree, x: TimerNode): Tree {
    if t.Leaf? then Leaf
    else if t.node == x then MergePairs(t.child)
    else if x !in Nodes(t) then t
    else
      var orphans := MergePairs(ChildrenOf(t, x));
      var kept := Unlink(t, x);
      if orphans == Leaf then kept else Meld(kept, orphans)
  }

  predicate SortedByDeadline(xs: seq<TimerNode>) {
    forall i, j :: 0 <= i < j < |xs| ==> xs[i].deadline <= xs[j].deadline
  }

  /** The timers that leave, in order, when the root is popped for as long as it is due. */
  function Drained(t: Tree, now: int): seq<TimerNode>
    decreases Size(t)
  {
    if t.Bin? && t.sibling == Leaf && t.node.deadline <= now
    then [t.node] + Drained(MergePairs(t.child), now) else []
  }

  function AfterDrain(t: Tree, now: int): Tree
    decreases Size(t)
  {
    if t.Bin? && t.sibling == Leaf && t.node.deadline <= now
    then AfterDrain(MergePairs(t.child), now) else t
  }

  /** The number of trees in a sibling chain. */
  function Spine(t: Tree): nat {
    if t.Leaf? then 0 else 1 + Spine(t.sibling)
  }

  /** How many melds the first loop carries out; the second one melds every tree of its stack. */
  function PairMelds(t: Tree): nat {
    match t
    case Leaf => 0
    case Bin(_, _, Leaf) => 0
    case Bin(_, _, Bin(_, _, rest)) => 1 + PairMelds(rest)
  }

  /** How many melds `merge_children` carries out: one less than the number of children. */
  function MergeMelds(t: Tree): nat {
    if t.Leaf? then 0 else Spine(t) - 1
  }

  ghost function DeleteMelds(t: Tree, x: TimerNode): nat {
    if t.Leaf? then 0
    else if t.node == x then MergeMelds(t.child)
    else if x !in Nodes(t) then 0
    else MergeMelds(ChildrenOf(t, x)) + (if ChildrenOf(t, x) == Leaf then 0 else 1)
  }

  // ---- what the operations keep ----

  lemma MeldHeap(a: Tree, b: Tree)
    requires a.Bin? && b.Bin? && Heap(a) && Heap(b) && Nodes(a) !! Nodes(b)
    ensures Heap(Meld(a, b)) && Nodes(Meld(a, b)) == Nodes(a) + Nodes(b)
    ensures Size(Meld(a, b)) == Size(a) + Size(b)
  {
    var r := Meld(a, b);
    assert Nodes(r) == Nodes(a) + Nodes(b);
  }

  /** Merging a child list keeps exactly its nodes and yields one heap. */
  lemma {:induction false} MergePairsHeap(t: Tree)
    requires Distinct(t) && Ordered(t)
    ensures Heap(MergePairs(t)) && Nodes(MergePairs(t)) == Nodes(t)
    ensures Size(MergePairs(t)) == Size(t)
  {
    match t
    case Leaf =>
    case Bin(x, a, Leaf) =>
    case Bin(x, a, Bin(y, b, rest)) =>
      var tx, ty := Bin(x, a, Leaf), Bin(y, b, Leaf);
      assert Nodes(Leaf) == {};
      assert Nodes(tx) == {x} + Nodes(a) && Nodes(ty) == {y} + Nodes(b);
      assert Nodes(t) == Nodes(tx) + Nodes(Bin(y, b, rest));
      assert Nodes(Bin(y, b, rest)) == Nodes(ty) + Nodes(rest);
      MeldHeap(tx, ty);
      MergePairsHeap(rest);
      if rest != Leaf {
        MeldHeap(MergePairs(rest), Meld(tx, ty));
      }
  }

  /** The two loops of `merge_children` compute MergePairs, with as many melds as MergeMelds says
      (those of the second loop are one for every tree left on the stack it folds). */
  lemma {:induction false} TwoPassesMerge(t: Tree, stack: Tree)
    requires t.Bin?
    ensures var st := PairUp(t, stack);
      st.Bin? && FoldStack(Bin(st.node, st.child, Leaf), st.sibling) == FoldStack(MergePairs(t), stack)
      && PairMelds(t) + Spine(st.sibling) == MergeMelds(t) + Spine(stack)
    decreases t
  {
    match t
    case Bin(x, a, Leaf) =>
      assert Spine(t) == 1 && PairMelds(t) == 0;
    case Bin(x, a, Bin(y, b, rest)) =>
      var pair := Meld(Bin(x, a, Leaf), Bin(y, b, Leaf));
      assert Spine(t) == 2 + Spine(rest) && PairMelds(t) == 1 + PairMelds(rest);
      if rest != Leaf {
        TwoPassesMerge(rest, Bin(pair.node, pair.child, stack));
      }
  }

  /** The child list of `x` is a part of the tree that does not hold `x` itself. */
  lemma {:induction false} ChildrenOfPart(t: Tree, x: TimerNode)
    requires Distinct(t) && Ordered(t)
    ensures Distinct(ChildrenOf(t, x)) && Ordered(ChildrenOf(t, x))
    ensures Nodes(ChildrenOf(t, x)) <= Nodes(t) && x !in Nodes(ChildrenOf(t, x))
    ensures x !in Nodes(t) ==> ChildrenOf(t, x) == Leaf
  {
    if t.Bin? {
      ChildrenOfPart(t.child, x);
      ChildrenOfPart(t.sibling, x);
    }
  }

  lemma UnlinkRoot(t: Tree)
    requires t.Bin?
    ensures Unlink(t, t.node) == t.sibling && ChildrenOf(t, t.node) == t.child
  {
  }

  lemma {:induction false} UnlinkAbsent(t: Tree, x: TimerNode)
    requires x !in Nodes(t)
    ensures Unlink(t, x) == t
  {
    if t.Bin? {
      UnlinkAbsent(t.child, x);
      UnlinkAbsent(t.sibling, x);
    }
  }

  /** Unlinking takes out `x` and its child list, nothing else. */
  lemma {:induction false} UnlinkNodes(t: Tree, x: TimerNode)
    requires Distinct(t) && Ordered(t) && x in Nodes(t)
    ensures Nodes(Unlink(t, x)) == Nodes(t) - {x} - Nodes(ChildrenOf(t, x))
  {
    var Bin(n, c, s) := t;
    if n == x {
      assert Unlink(t, x) == s && ChildrenOf(t, x) == c;
    } else if x in Nodes(c) {
      UnlinkNodes(c, x);
      UnlinkAbsent(s, x);
      ChildrenOfPart(c, x);
      assert Unlink(t, x) == Bin(n, Unlink(c, x), s);
    } else {
      UnlinkNodes(s, x);
      UnlinkAbsent(c, x);
      ChildrenOfPart(s, x);
      assert Unlink(t, x) == Bin(n, c, Unlink(s, x));
    }
  }

  lemma {:induction false} UnlinkSizes(t: Tree, x: TimerNode)
    requires Distinct(t) && x in Nodes(t)
    ensures Size(t) == Size(Unlink(t, x)) + Size(ChildrenOf(t, x)) + 1
  {
    var Bin(n, c, s) := t;
    if n == x {
    } else if x in Nodes(c) {
      UnlinkSizes(c, x);
      UnlinkAbsent(s, x);
    } else {
      UnlinkSizes(s, x);
      UnlinkAbsent(c, x);
    }
  }

  lemma {:induction false} UnlinkKeeps(t: Tree, x: TimerNode)
    requires Distinct(t) && Ordered(t) && x in Nodes(t)
    ensures Distinct(Unlink(t, x)) && Ordered(Unlink(t, x))
  {
    var Bin(n, c, s) := t;
    if n == x {
    } else if x in Nodes(c) {
      UnlinkKeeps(c, x);
      UnlinkNodes(c, x);
      UnlinkAbsent(s, x);
    } else {
      UnlinkKeeps(s, x);
      UnlinkNodes(s, x);
      UnlinkAbsent(c, x);
    }
  }

  lemma InsertHeap(t: Tree, x: TimerNode)
    requires Heap(t) && x !in Nodes(t)
    ensures Heap(Insert(t, x)) && Nodes(Insert(t, x)) == Nodes(t) + {x}
    ensures Size(Insert(t, x)) == Size(t) + 1
    ensures Insert(t, x).node == x <==> forall y | y in Nodes(t) :: x.deadline < y.deadline
  {
    var s := Bin(x, Leaf, Leaf);
    assert Nodes(s) == {x};
    if t != Leaf {
      MeldHeap(t, s);
      RootIsEarliest(t);
    }
  }

  lemma DeleteHeap(t: Tree, x: TimerNode)
    requires Heap(t)
    ensures Heap(Delete(t, x)) && Nodes(Delete(t, x)) == Nodes(t) - {x}
    ensures Size(Delete(t, x)) == Size(t) - (if x in Nodes(t) then 1 else 0)
  {
    if t.Leaf? {
    } else if t.node == x {
      MergePairsHeap(t.child);
      assert Nodes(t) == {x} + Nodes(t.child);
    } else if x in Nodes(t) {
      UnlinkNodes(t, x);
      UnlinkSizes(t, x);
      UnlinkKeeps(t, x);
      ChildrenOfPart(t, x);
      MergePairsHeap(ChildrenOf(t, x));
      var orphans := MergePairs(ChildrenOf(t, x));
      if orphans != Leaf {
        MeldHeap(Unlink(t, x), orphans);
      }
    }
  }

  lemma RootIsEarliest(t: Tree)
    requires Heap(t) && t.Bin?
    ensures forall y | y in Nodes(t) :: t.node.deadline <= y.deadline
  {
  }

  lemma {:induction false} DrainSets(t: Tree, now: int)
    requires Heap(t)
    ensures (set x | x in Drained(t, now)) == set x | x in Nodes(t) && x.deadline <= now
    ensures Heap(AfterDrain(t, now))
    ensures Nodes(AfterDrain(t, now)) == set x | x in Nodes(t) && now < x.deadline
    decreases Size(t)
  {
    if t.Bin? {
      RootIsEarliest(t);
      if t.node.deadline <= now {
        var rest := MergePairs(t.child);
        MergePairsHeap(t.child);
        assert Nodes(t) == {t.node} + Nodes(rest);
        DrainSets(rest, now);
        assert (set x | x in Drained(t, now)) == {t.node} + set x | x in Drained(rest, now);
      }
    }
  }

  lemma {:induction false} DrainedAreDue(t: Tree, now: int, x: TimerNode)
    requires Heap(t)
    ensures x in Drained(t, now) <==> x in Nodes(t) && x.deadline <= now
    decreases Size(t)
  {
    if t.Bin? {
      RootIsEarliest(t);
      if t.node.deadline <= now {
        MergePairsHeap(t.child);
        DrainedAreDue(MergePairs(t.child), now, x);
      }
    }
  }

  /** A drain yields exactly the due timers, in deadline order, and leaves exactly the others. */
  lemma {:induction false} DrainIsExact(t: Tree, now: int)
    requires Heap(t)
    ensures SortedByDeadline(Drained(t, now))
    ensures (set x | x in Drained(t, now)) == set x | x in Nodes(t) && x.deadline <= now
    ensures Heap(AfterDrain(t, now))
    ensures Nodes(AfterDrain(t, now)) == set x | x in Nodes(t) && now < x.deadline
    decreases Size(t)
  {
    DrainSets(t, now);
    if t.Bin? && t.node.deadline <= now {
      RootIsEarliest(t);
      var rest := MergePairs(t.child);
      MergePairsHeap(t.child);
      DrainIsExact(rest, now);
      var later := Drained(rest, now);
      forall i | 0 <= i < |later|
        ensures t.node.deadline <= later[i].deadline
      {
        DrainedAreDue(rest, now, later[i]);
        assert later[i] in Nodes(t);
      }
    }
  }
}
