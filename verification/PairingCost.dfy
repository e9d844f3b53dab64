/** The amortised cost of the pairing heap, counted in melds.

    The potential of a heap is the product of all subtree sizes of its binary-tree view; it
    takes the place of a sum of logarithms.  Each operation multiplies (potential times
    2^melds) by at most a fixed power of the number of timers. */
module PairingCost {
  import opened PairingTree
  import opened PotentialArithmetic

  function Potential(t: Tree): nat {
    match t
    case Leaf => 1
    case Bin(_, c, s) => Times(Size(t), Times(Potential(c), Potential(s)))
  }

  lemma {:induction false} PotentialPositive(t: Tree)
    ensures Potential(t) >= 1
  {
    if t.Bin? {
      PotentialPositive(t.child);
      PotentialPositive(t.sibling);
      TimesPositive(Potential(t.child), Potential(t.sibling));
      TimesPositive(Size(t), Times(Potential(t.child), Potential(t.sibling)));
    }
  }

  lemma RootPotential(t: Tree)
    requires t.Bin? && t.sibling == Leaf
    ensures Potential(t) == Times(Size(t), Potential(t.child)) && Potential(t.child) <= Potential(t)
  {
    hide Times;
    TimesOne(Potential(t.child));
    PotentialPositive(t.child);
    TimesPositive(Size(t), Potential(t.child));
  }

  lemma MeldPotential(a: Tree, b: Tree)
    requires a.Bin? && b.Bin?
    ensures var n := 2 + Size(a.child) + Size(b.child);
      Potential(Meld(a, b)) == Times(n, Times(n - 1, Times(Potential(a.child), Potential(b.child))))
  {
    hide Times;
    TimesCommutes(Potential(a.child), Potential(b.child));
    RootPotential(Meld(a, b));
  }

  // ---- the two-pass merge ----

  /** Merging a child list of n nodes: every meld halves the potential, up to a factor n^3. */
  lemma {:induction false} MergeCost(t: Tree)
    requires t.Bin?
    ensures Times(Potential(MergePairs(t)), Pow2(MergeMelds(t))) <= Times(Potential(t), Cube(Size(t)))
  {
    hide Times;
    match t
    case Bin(x, a, Leaf) =>
      assert Spine(t.sibling) == 0;
      CubePositive(Size(t));
      TimesMono(Potential(t), 1, Potential(t), Cube(Size(t)));
    case Bin(x, a, Bin(y, b, rest)) =>
      if rest == Leaf {
        LastPairShape(x, a, y, b);
        assert Pow2(1) == 2;
        PairTotal(Size(a), Size(b), Size(t), Potential(a), Potential(b), Potential(MergePairs(t)), Potential(t),
                  Pow2(MergeMelds(t)));
      } else {
        MergeCost(rest);
        ChainShape(x, a, y, b, rest);
        assert Pow2(MergeMelds(t)) == 2 * Pow2(MergeMelds(rest) + 1) == 4 * Pow2(MergeMelds(rest));
        RoundCost(x, a, y, b, rest, Potential(MergePairs(t)), Pow2(MergeMelds(t)), Potential(t), Size(t));
      }
  }

  lemma LastPairShape(x: TimerNode, a: Tree, y: TimerNode, b: Tree)
    ensures var t, n := Bin(x, a, Bin(y, b, Leaf)), Size(a) + Size(b) + 2;
      && Size(t) == n && MergeMelds(t) == 1
      && Potential(t) == Times(n, Times(Potential(a), Times(Size(b) + 1, Potential(b))))
      && Potential(MergePairs(t)) == Times(n, Times(n - 1, Times(Potential(a), Potential(b))))
  {
    hide Times;
    var u := Bin(y, b, Leaf);
    assert Spine(u.sibling) == 0 && Spine(u) == 1;
    RootPotential(u);
    hide Meld;
    MeldPotential(Bin(x, a, Leaf), u);
    assert MergePairs(Bin(x, a, u)) == Meld(Bin(x, a, Leaf), u);
  }

  lemma PairPotential(x: TimerNode, a: Tree, y: TimerNode, b: Tree)
    ensures var c := Meld(Bin(x, a, Leaf), Bin(y, b, Leaf)).child;
      && Size(c) == Size(a) + Size(b) + 1
      && Potential(c) == Times(Size(a) + Size(b) + 1, Times(Potential(a), Potential(b)))
  {
    hide Times;
    TimesCommutes(Potential(a), Potential(b));
  }

  lemma ChainShape(x: TimerNode, a: Tree, y: TimerNode, b: Tree, rest: Tree)
    requires rest.Bin?
    ensures var u := Bin(y, b, rest);
      && MergeMelds(Bin(x, a, u)) == MergeMelds(rest) + 2
      && Size(u) == 1 + Size(b) + Size(rest) && Size(Bin(x, a, u)) == 1 + Size(a) + Size(u)
      && Potential(Bin(x, a, u))
         == Times(Size(Bin(x, a, u)), Times(Potential(a), Times(Size(u), Times(Potential(b), Potential(rest)))))
      && MergePairs(Bin(x, a, u)) == Meld(MergePairs(rest), Meld(Bin(x, a, Leaf), Bin(y, b, Leaf)))
  {
    hide Times;
    var u := Bin(y, b, rest);
    assert Spine(u) == 1 + Spine(rest);
    assert Potential(u) == Times(Size(u), Times(Potential(b), Potential(rest)));
  }

  lemma MergedPotential(x: TimerNode, a: Tree, y: TimerNode, b: Tree, rest: Tree) returns (d: nat)
    requires rest.Bin?
    ensures Potential(MergePairs(rest)) == Times(Size(rest), d)
    ensures var n := Size(rest) + Size(a) + Size(b) + 2;
      Potential(Meld(MergePairs(rest), Meld(Bin(x, a, Leaf), Bin(y, b, Leaf))))
      == Times(n, Times(n - 1, Times(d, Times(Size(a) + Size(b) + 1, Times(Potential(a), Potential(b))))))
  {
    hide Times;
    var r, pair := MergePairs(rest), Meld(Bin(x, a, Leaf), Bin(y, b, Leaf));
    d := Potential(r.child);
    assert Potential(r) == Times(Size(rest), d) by { RootPotential(r); }
    PairPotential(x, a, y, b);
    MeldPotential(r, pair);
    assert Size(r) == Size(rest) && Size(pair) == Size(a) + Size(b) + 2;
  }

  lemma RoundCost(x: TimerNode, a: Tree, y: TimerNode, b: Tree, rest: Tree, pm: nat, em: nat, pt: nat, n: nat)
    requires rest.Bin?
    requires Times(Potential(MergePairs(rest)), Pow2(MergeMelds(rest))) <= Times(Potential(rest), Cube(Size(rest)))
    requires pm == Potential(Meld(MergePairs(rest), Meld(Bin(x, a, Leaf), Bin(y, b, Leaf))))
    requires em == 4 * Pow2(MergeMelds(rest)) && n == Size(rest) + Size(a) + Size(b) + 2
    requires pt == Times(n, Times(Potential(a), Times(1 + Size(b) + Size(rest), Times(Potential(b), Potential(rest)))))
    ensures Times(pm, em) <= Times(pt, Cube(n))
  {
    hide Times;
    var d := MergedPotential(x, a, y, b, rest);
    RoundTotal(n, Size(rest), Size(a) + Size(b) + 1, 1 + Size(b) + Size(rest), d, Pow2(MergeMelds(rest)),
               Potential(rest), Potential(a), Potential(b), Potential(MergePairs(rest)), pt, pm, em);
  }

  // ---- one operation; `f` is its price ----

  lemma InsertCost(t: Tree, x: TimerNode, f: nat)
    requires t.Bin? ==> t.sibling == Leaf
    requires 2 * (Size(t) + 1) <= f
    ensures Times(Potential(Insert(t, x)), Pow2(if t == Leaf then 0 else 1)) <= Times(Potential(t), f)
  {
    var single := Bin(x, Leaf, Leaf);
    if t == Leaf {
      assert Potential(single) == Times(1, Times(1, 1));
      TimesOne(1);
      TimesMono(1, 1, 1, f);
    } else {
      assert Pow2(1) == 2;
      RootPotential(t);
      MeldPotential(t, single);
      TimesOne(Potential(t.child));
      InsertTotal(Size(t) + 1, Potential(t.child), f);
    }
  }

  lemma PopCost(t: Tree, f: nat)
    requires t.Bin? && t.sibling == Leaf && Cube(Size(t)) <= f && 1 <= f
    ensures Times(Potential(MergePairs(t.child)), Pow2(MergeMelds(t.child))) <= Times(Potential(t), f)
  {
    RootPotential(t);
    if t.child == Leaf {
      TimesMono(1, 1, Potential(t), f);
    } else {
      MergeCost(t.child);
      CubeMono(Size(t.child), Size(t));
      TimesMono(Potential(t.child), Cube(Size(t.child)), Potential(t), f);
    }
  }

  /** Cutting a node out splits the potential between what stays and the orphaned children. */
  lemma {:induction false} UnlinkCost(t: Tree, x: TimerNode)
    requires Distinct(t) && Ordered(t) && x in Nodes(t)
    ensures Times(Potential(Unlink(t, x)), Potential(ChildrenOf(t, x))) <= Potential(t)
  {
    var Bin(n, c, s) := t;
    if n == x {
      TimesCommutes(Potential(s), Potential(c));
      PotentialPositive(c);
      PotentialPositive(s);
      TimesPositive(Potential(c), Potential(s));
      TimesPositive(Size(t), Times(Potential(c), Potential(s)));
    } else if x in Nodes(c) {
      UnlinkCost(c, x);
      UnlinkSizes(c, x);
      UnlinkAbsent(s, x);
      assert Unlink(t, x) == Bin(n, Unlink(c, x), s);
      StepTotal(Size(Unlink(t, x)), Size(t), Potential(Unlink(c, x)), Potential(ChildrenOf(c, x)), Potential(c),
                Potential(s));
    } else {
      UnlinkCost(s, x);
      UnlinkSizes(s, x);
      UnlinkAbsent(c, x);
      assert Unlink(t, x) == Bin(n, c, Unlink(s, x));
      StepTotal(Size(Unlink(t, x)), Size(t), Potential(Unlink(s, x)), Potential(ChildrenOf(s, x)), Potential(s),
                Potential(c));
    }
  }

  lemma JoinedCost(t: Tree, x: TimerNode, c3: nat, f: nat)
    requires Heap(t) && x in Nodes(t) && t.node != x && ChildrenOf(t, x) != Leaf
    requires Cube(Size(t)) <= c3 && 2 * Times(Times(Size(t), Size(t)), c3) <= f
    ensures Times(Potential(Delete(t, x)), Pow2(DeleteMelds(t, x))) <= Times(Potential(t), f)
  {
    hide Times;
    var c, kept := ChildrenOf(t, x), Unlink(t, x);
    UnlinkCost(t, x);
    UnlinkNodes(t, x);
    UnlinkSizes(t, x);
    var orphans, e := MergePairs(c), Pow2(MergeMelds(c));
    MergeCost(c);
    CubeMono(Size(c), Size(t));
    TimesMono(Potential(c), Cube(Size(c)), Potential(c), c3);
    MeldPotential(kept, orphans);
    WidenTotal(Size(t), Times(Potential(kept.child), Potential(orphans.child)));
    RootPotential(kept);
    RootPotential(orphans);
    assert Pow2(DeleteMelds(t, x)) == 2 * e;
    JoinTotal(Potential(Delete(t, x)), Times(Size(t), Size(t)), Potential(kept.child), Potential(orphans.child),
              Potential(kept), Potential(orphans), Potential(c), c3, e, Potential(t), f);
  }

  lemma DeleteCost(t: Tree, x: TimerNode, c3: nat, f: nat)
    requires Heap(t) && x in Nodes(t) && Cube(Size(t)) <= c3 <= f && 1 <= f
    requires 2 * Times(Times(Size(t), Size(t)), c3) <= f
    ensures Times(Potential(Delete(t, x)), Pow2(DeleteMelds(t, x))) <= Times(Potential(t), f)
  {
    if t.node == x {
      PopCost(t, f);
    } else if ChildrenOf(t, x) != Leaf {
      JoinedCost(t, x, c3, f);
    } else {
      UnlinkCost(t, x);
      TimesOne(Potential(Unlink(t, x)));
      TimesMono(Potential(Delete(t, x)), 1, Potential(t), f);
    }
  }

  // ---- whole runs ----

  datatype Op = Add(x: TimerNode) | Remove(x: TimerNode) | Pop

  /** The caller adds only timers that are not in the heap, and pops only a non-empty heap. */
  ghost predicate Allowed(t: Tree, op: Op) {
    match op
    case Add(x) => x !in Nodes(t)
    case Remove(_) => true
    case Pop => t != Leaf
  }

  ghost function After(t: Tree, op: Op): Tree {
    match op
    case Add(x) => Insert(t, x)
    case Remove(x) => Delete(t, x)
    case Pop => if t.Leaf? then Leaf else MergePairs(t.child)
  }

  ghost function Melds(t: Tree, op: Op): nat {
    match op
    case Add(_) => if t == Leaf then 0 else 1
    case Remove(x) => DeleteMelds(t, x)
    case Pop => if t.Leaf? then 0 else MergeMelds(t.child)
  }

  /** The heap after the operations `ops`, from empty. */
  ghost function RunTree(ops: seq<Op>): Tree {
    if ops == [] then Leaf else After(RunTree(ops[..|ops| - 1]), ops[|ops| - 1])
  }

  ghost function RunMelds(ops: seq<Op>): nat {
    if ops == [] then 0
    else RunMelds(ops[..|ops| - 1]) + Melds(RunTree(ops[..|ops| - 1]), ops[|ops| - 1])
  }

  ghost predicate RunAllowed(ops: seq<Op>) {
    ops != [] ==> RunAllowed(ops[..|ops| - 1]) && Allowed(RunTree(ops[..|ops| - 1]), ops[|ops| - 1])
  }

  /** The largest number of timers held at any moment of the run. */
  ghost function Peak(ops: seq<Op>): (p: nat)
    ensures Size(RunTree(ops)) <= p
  {
    if ops == [] then 0
    else
      var before, now := Peak(ops[..|ops| - 1]), Size(RunTree(ops));
      if before < now then now else before
  }

  lemma RunExtends(ops: seq<Op>, op: Op)
    ensures RunTree(ops + [op]) == After(RunTree(ops), op)
    ensures RunMelds(ops + [op]) == RunMelds(ops) + Melds(RunTree(ops), op)
    ensures RunAllowed(ops + [op]) <==> RunAllowed(ops) && Allowed(RunTree(ops), op)
  {
    assert (ops + [op])[..|ops|] == ops;
  }

  /** A price that covers every operation on heaps of up to n timers. */
  predicate Covers(f: nat, n: nat) {
    1 <= f && 2 * n <= f && Cube(n) <= f && 2 * Times(Times(n, n), Cube(n)) <= f
  }

  lemma OpCost(t: Tree, op: Op, n: nat, f: nat)
    requires Heap(t) && Allowed(t, op) && Size(t) <= n && Size(After(t, op)) <= n
    requires Covers(f, n)
    ensures Heap(After(t, op))
    ensures Times(Potential(After(t, op)), Pow2(Melds(t, op))) <= Times(Potential(t), f)
  {
    CubeMono(Size(t), n);
    match op
    case Add(x) =>
      InsertHeap(t, x);
      InsertCost(t, x, f);
    case Remove(x) =>
      DeleteHeap(t, x);
      if x in Nodes(t) {
        TimesMono(Size(t), Size(t), n, n);
        TimesMono(Times(Size(t), Size(t)), Cube(n), Times(n, n), Cube(n));
        DeleteCost(t, x, Cube(n), f);
      } else {
        TimesMono(Potential(t), 1, Potential(t), f);
      }
    case Pop =>
      assert Distinct(t.child) && Ordered(t.child);
      MergePairsHeap(t.child);
      PopCost(t, f);
  }

  function Exponent(n: nat): nat { 6 + 5 * Log2(n) }

  lemma ExponentCovers(n: nat)
    requires n >= 1
    ensures Covers(Pow2(Exponent(n)), n)
  {
    var l := Log2(n) + 1;
    var p := Pow2(l);
    FifthPower(l);
    CubeMono(n, p);
    TimesMono(n, n, p, p);
    TimesMono(Times(n, n), Cube(n), Times(p, p), Cube(p));
    CubePositive(p);
    TimesPositive(Times(p, p), Cube(p));
  }

  lemma FifthPower(l: nat)
    ensures Pow2(1 + 5 * l) == 2 * Times(Times(Pow2(l), Pow2(l)), Cube(Pow2(l)))
  {
    assert Pow2(l + l) == Times(Pow2(l), Pow2(l)) by { Pow2Add(l, l); }
    assert Pow2(l + (l + l)) == Cube(Pow2(l)) by { Pow2Add(l, l + l); }
    Pow2Add(l + l, l + (l + l));
    assert l + l + (l + (l + l)) == 5 * l;
  }

  /** Over a run the potential times 2^melds grows by at most 2^k per operation. */
  lemma {:induction false} RunCost(ops: seq<Op>, n: nat, k: nat)
    requires RunAllowed(ops) && Peak(ops) <= n && Covers(Pow2(k), n)
    ensures Heap(RunTree(ops))
    ensures Times(Potential(RunTree(ops)), Pow2(RunMelds(ops))) <= Pow2(Times(|ops|, k))
  {
    EmptyRunCost(k);
    hide Times, Potential, Pow2, Melds, After, Heap, Covers, Allowed, Size, Cube;
    if ops != [] {
      var before, op := ops[..|ops| - 1], ops[|ops| - 1];
      RunExtends(before, op);
      assert before + [op] == ops;
      RunCost(before, n, k);
      RunStep(RunTree(before), op, n, k, RunMelds(before), |before|);
    }
  }

  lemma EmptyRunCost(k: nat)
    ensures Heap(Leaf) && Times(Potential(Leaf), Pow2(0)) <= Pow2(Times(0, k))
  {
    TimesOne(1);
  }

  /** One more operation, after `c` operations and `m` melds. */
  lemma RunStep(t: Tree, op: Op, n: nat, k: nat, m: nat, c: nat)
    requires Heap(t) && Allowed(t, op) && Size(t) <= n && Size(After(t, op)) <= n
    requires Covers(Pow2(k), n) && Times(Potential(t), Pow2(m)) <= Pow2(Times(c, k))
    ensures Heap(After(t, op))
    ensures Times(Potential(After(t, op)), Pow2(m + Melds(t, op))) <= Pow2(Times(c + 1, k))
  {
    OpCost(t, op, n, Pow2(k));
    hide Times, Potential, Pow2, Melds, After;
    TimesStep(c, k);
    Pow2Add(Times(c, k), k);
    Pow2Add(m, Melds(t, op));
    ChainTotal(Potential(After(t, op)), Pow2(Melds(t, op)), Potential(t), Pow2(k), Pow2(m), Pow2(Times(c, k)),
               Pow2(m + Melds(t, op)), Pow2(Times(c + 1, k)));
  }

  /** The amortised bound: a run of k operations that never holds more than n timers carries
      out at most 6 k (1 + log2 n) melds. */
  lemma AmortisedMelds(ops: seq<Op>, n: nat)
    requires RunAllowed(ops) && Peak(ops) <= n
    ensures RunMelds(ops) <= 6 * |ops| * (1 + Log2(n))
  {
    hide Times, Pow2, Potential, RunMelds, RunTree, RunAllowed, Covers, Peak, Heap, Size, Exponent, Log2;
    var n' := if n == 0 then 1 else n;
    ExponentIs(n);
    ExponentCovers(n');
    RunCost(ops, n', Exponent(n'));
    PotentialPositive(RunTree(ops));
    PowerBound(Potential(RunTree(ops)), RunMelds(ops), Times(|ops|, Exponent(n')));
    FinalForm(|ops|, Log2(n));
  }

  lemma ExponentIs(n: nat)
    ensures Exponent(if n == 0 then 1 else n) == 6 + 5 * Log2(n)
  {
  }

  lemma FinalForm(k: nat, l: nat)
    ensures Times(k, 6 + 5 * l) <= 6 * k * (1 + l)
  {
    TimesIsProduct(k, 6 + 5 * l);
    assert 6 * k * (1 + l) == k * (6 + 6 * l);
    MulMono(6 + 5 * l, 6 + 6 * l, k);
  }
}
