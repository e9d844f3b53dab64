/** `generator`: promises linked to the one that nested them, all of which know the innermost. */
module Generators {
  import opened YieldTrees

  /** `value_or_error_` */
  datatype Cell = Empty | Value(value: Value) | Error(error: Error)

  /** A promise with its coroutine; `control` is where the coroutine stands. */
  class Promise {
    var prev: Promise?
    var top: Promise?
    var cell: Cell
    var control: Control
    var done: bool

    constructor (c: Control)
      ensures prev == null && top == null && cell == Empty && control == c && !done
    {
      prev, top, cell, control, done := null, null, Empty, c, false;
    }
  }

  /** The active chain, root first. */
  ghost predicate Linked(chain: seq<Promise>)
    reads chain`prev, chain`cell, chain`done
  {
    && chain != []
    && (forall i, j | 0 <= i < j < |chain| :: chain[i] != chain[j])
    && chain[0].prev == null
    && (forall i | 0 < i < |chain| :: chain[i].prev == chain[i - 1])
    && (forall i | 0 <= i < |chain| :: !chain[i].done && !chain[i].cell.Error?)
  }

  /** Every promise on the chain knows `top`, which while it is active is the innermost. */
  ghost predicate Topped(chain: seq<Promise>, top: Promise)
    reads chain`top
  {
    forall i | 0 <= i < |chain| :: chain[i].top == top
  }

  /** What the coroutines have still to do, as far as `fs` goes. */
  ghost predicate Doing(code: Code, chain: seq<Promise>, fs: seq<Body>)
    reads chain`control
  {
    |fs| == |chain| && forall i | 0 <= i < |chain| :: Unrolls(code, chain[i].control, fs[i])
  }

  ghost predicate Running(code: Code, chain: seq<Promise>, current: Promise, fs: seq<Body>)
    reads chain`prev, chain`cell, chain`done, chain`top, chain`control
  {
    Linked(chain) && chain[|chain| - 1] == current && Topped(chain, current) && Doing(code, chain, fs) && Waiting(fs)
  }

  lemma Push(code: Code, chain: seq<Promise>, x: Promise, fs: seq<Body>, b: Body)
    requires Linked(chain) && x !in chain && x.prev == chain[|chain| - 1] && !x.done && x.cell == Empty
    requires Topped(chain, x) && x.top == x && Doing(code, chain, fs) && Unrolls(code, x.control, b)
    ensures Linked(chain + [x]) && Topped(chain + [x], x) && Doing(code, chain + [x], fs + [b])
  {
    hide Unrolls;
  }

  /** The innermost apart from its ancestors. */
  lemma Pop(chain: seq<Promise>)
    requires Linked(chain) && |chain| > 1
    ensures var x, rest := chain[|chain| - 1], chain[..|chain| - 1];
      && x !in rest && x.prev == rest[|rest| - 1] && rest[|rest| - 1] !in rest[..|rest| - 1] && Linked(rest)
  {
  }

  /** The innermost apart, as far as bodies go. */
  lemma Innermost(code: Code, chain: seq<Promise>, fs: seq<Body>)
    requires Linked(chain) && Doing(code, chain, fs)
    ensures |fs| == |chain|
    ensures var n := |chain|;
      && chain == chain[..n - 1] + [chain[n - 1]] && fs == fs[..n - 1] + [fs[n - 1]]
      && chain[n - 1] !in chain[..n - 1] && Doing(code, chain[..n - 1], fs[..n - 1])
      && Unrolls(code, chain[n - 1].control, fs[n - 1])
  {
    hide Unrolls;
  }

  lemma Rejoin(code: Code, chain: seq<Promise>, x: Promise, fs: seq<Body>, b: Body)
    requires Doing(code, chain, fs) && Unrolls(code, x.control, b)
    ensures Doing(code, chain + [x], fs + [b])
  {
    hide Unrolls;
  }

  /** The loop over the ancestors in both awaiters. */
  method SetTops(h0: Promise, top: Promise, ghost chain: seq<Promise>)
    requires Linked(chain) && h0 == chain[|chain| - 1]
    modifies chain`top
    ensures Topped(chain, top)
  {
    var h: Promise? := h0;
    ghost var n := |chain|;
    while h != null
      invariant 0 <= n <= |chain|
      invariant h == if n == 0 then null else chain[n - 1]
      invariant forall i | n <= i < |chain| :: chain[i].top == top
      decreases n
    {
      h.top := top;
      h := h.prev;
      n := n - 1;
    }
  }

  /** `rvalue_generator_yield_awaiter::await_suspend`: the nested generator becomes the innermost. */
  method EnterNested(code: Code, current: Promise, start: Label, ghost chain: seq<Promise>, ghost fs: seq<Body>)
      returns (child: Promise)
    requires Linked(chain) && current == chain[|chain| - 1] && Doing(code, chain, fs)
    requires fs != [] && fs[|fs| - 1].Nest? && Unrolls(code, At(start), fs[|fs| - 1].child)
    modifies chain`top
    ensures fresh(child) && Linked(chain + [child]) && Topped(chain + [child], child)
    ensures Doing(code, chain + [child], fs + [fs[|fs| - 1].child])
  {
    hide Linked, Topped, Doing, Unrolls;
    child := new Promise(At(start));
    child.top := child;
    child.prev := current;
    SetTops(current, child, chain);
    Push(code, chain, child, fs, fs[|fs| - 1].child);
  }

  /** Where a coroutine goes on when the generator it nested is through: behind the yield, in the
      handler, or with the exception raised there. */
  function GoingOn(code: Code, c: Control, o: Outcome): Control
    requires ActOf(code, c).Nests? && o != Unknown
  {
    var act := ActOf(code, c);
    match o
    case Returned => At(act.rest)
    case Thrown(e) => if act.handler.Some? then At(act.handler.value) else Raising(e)
  }

  lemma GoesOnAfter(code: Code, c: Control, nest: Body, o: Outcome)
    requires nest.Nest? && Unrolls(code, c, nest) && o != Unknown
    ensures ActOf(code, c).Nests? && Unrolls(code, GoingOn(code, c, o), After(nest, o))
  {
  }

  /** The end of a nested generator: `unhandled_exception` keeps the exception, `final_awaiter_` makes
      the parent the innermost again, and its `await_resume` rethrows. */
  method LeaveNested(code: Code, current: Promise, outcome: Outcome, ghost chain: seq<Promise>, ghost fs: seq<Body>)
      returns (parent: Promise)
    requires Linked(chain) && |chain| > 1 && current == chain[|chain| - 1] && Doing(code, chain, fs)
    requires |fs| == |chain| && fs[|fs| - 2].Nest? && !current.cell.Error? && outcome != Unknown
    modifies chain
    ensures var n := |chain|;
      && parent == chain[n - 2] && Linked(chain[..n - 1]) && Topped(chain[..n - 1], parent) && current.done
      && Doing(code, chain[..n - 1], fs[..n - 2] + [After(fs[n - 2], outcome)])
  {
    hide Linked, Topped, Doing, Unrolls, GoingOn;
    Pop(chain);
    Innermost(code, chain, fs);
    ghost var rest, gs := chain[..|chain| - 1], fs[..|fs| - 1];
    Innermost(code, rest, gs);
    parent := current.prev;
    if outcome.Thrown? {
      current.cell := Error(outcome.error);
    }
    current.done := true;
    SetTops(parent, parent, rest);
    GoesOnAfter(code, parent.control, gs[|gs| - 1], outcome);
    parent.control := GoingOn(code, parent.control,
                              if current.cell.Error? then Thrown(current.cell.error) else Returned);
    Rejoin(code, rest[..|rest| - 1], parent, gs[..|gs| - 1], After(gs[|gs| - 1], outcome));
    assert gs[..|gs| - 1] == fs[..|fs| - 2];
  }

  /** A coroutine suspends at a value, or the root comes to its end; an exception that leaves the
      root is rethrown to whoever resumed it. */
  datatype Stop = Yielded | Ended(outcome: Outcome)

  /** What happened between a resumption and the next suspension. */
  ghost predicate Advanced(before: seq<Body>, stop: Stop, after: seq<Body>, cell: Cell)
    requires Waiting(before)
  {
    match stop
    case Yielded => cell.Value? && Waiting(after) && Remaining(before) == Prepend([cell.value], Remaining(after))
    case Ended(outcome) => Remaining(before) == Flat([], outcome)
  }

  /** Entering leaves what remains as it was, and less to do. */
  lemma Entered(fs: seq<Body>)
    requires Waiting(fs) && fs[|fs| - 1].Nest?
    ensures var gs := fs + [fs[|fs| - 1].child];
      Waiting(gs) && Remaining(gs) == Remaining(fs) && Sizes(gs) < Sizes(fs)
  {
    var pre, nest := fs[..|fs| - 1], fs[|fs| - 1];
    assert fs == pre + [nest] && fs + [nest.child] == pre + [nest, nest.child];
    StepNest(pre, nest);
    NestShrinks(nest, Return);
    SizesShrink(pre, [nest], [nest, nest.child]);
  }

  lemma Left(fs: seq<Body>)
    requires Waiting(fs) && |fs| > 1 && (fs[|fs| - 1].Return? || fs[|fs| - 1].Throw?)
    ensures fs[|fs| - 2].Nest?
    ensures var n, end := |fs|, fs[|fs| - 1];
      var gs := fs[..n - 2] + [After(fs[n - 2], OutcomeOf(end))];
      Waiting(gs) && Remaining(gs) == Remaining(fs) && Sizes(gs) < Sizes(fs)
  {
    var n := |fs|;
    var pre, nest, end := fs[..n - 2], fs[n - 2], fs[n - 1];
    var after := After(nest, OutcomeOf(end));
    assert fs == pre + [nest, end];
    StepEnd(pre, nest, end);
    NestShrinks(nest, end);
    SizesShrink(pre, [nest, end], [after]);
  }

  lemma YieldedNext(fs: seq<Body>)
    requires Waiting(fs) && fs[|fs| - 1].Yield?
    ensures var y := fs[|fs| - 1]; var gs := fs[..|fs| - 1] + [y.next];
      Waiting(gs) && Remaining(fs) == Prepend([y.value], Remaining(gs))
  {
    var y := fs[|fs| - 1];
    assert fs == fs[..|fs| - 1] + [y];
    StepYield(fs[..|fs| - 1], y.value, y.next);
  }

  lemma RootEnds(fs: seq<Body>)
    requires Waiting(fs) && |fs| == 1 && (fs[0].Return? || fs[0].Throw?)
    ensures Remaining(fs) == Flat([], OutcomeOf(fs[0]))
  {
  }

  /** When something is known to come, the innermost has been looked at. */
  lemma SomethingKnown(fs: seq<Body>)
    requires Waiting(fs) && Remaining(fs) != NOTHING_KNOWN
    ensures fs[|fs| - 1] != Cut
  {
    if fs[|fs| - 1] == Cut {
      CutRemains(fs);
      assert false;
    }
  }

  lemma LastOf(chain: seq<Promise>)
    requires Linked(chain)
    ensures chain != [] && chain[|chain| - 1] in chain
    ensures var x := chain[|chain| - 1]; (x.prev == null <==> |chain| == 1) && !x.cell.Error?
  {
    assert |chain| > 1 ==> chain[|chain| - 1].prev == chain[|chain| - 2];
  }

  /** `yield_value` */
  method YieldValue(code: Code, current: Promise, value: Value, next: Label,
                    ghost chain: seq<Promise>, ghost fs: seq<Body>)
    requires Linked(chain) && current == chain[|chain| - 1] && Doing(code, chain, fs)
    requires fs != [] && fs[|fs| - 1].Yield? && Unrolls(code, At(next), fs[|fs| - 1].next)
    modifies current`cell, current`control
    ensures Linked(chain) && current.cell == Value(value)
    ensures Doing(code, chain, fs[..|fs| - 1] + [fs[|fs| - 1].next])
  {
    hide Doing, Unrolls;
    Innermost(code, chain, fs);
    current.cell := Value(value);
    current.control := At(next);
    Rejoin(code, chain[..|chain| - 1], current, fs[..|fs| - 1], fs[|fs| - 1].next);
  }

  /** What the innermost does next is what its body says. */
  lemma ActsAs(code: Code, c: Control, b: Body)
    requires Unrolls(code, c, b) && b != Cut
    ensures match ActOf(code, c)
            case Returns => b == Return
            case Throws(e) => b == Throw(e)
            case Yields(v, next) => b.Yield? && b.value == v && Unrolls(code, At(next), b.next)
            case Nests(child, _, _) => b.Nest? && Unrolls(code, At(child), b.child)
  {
  }

  function OutcomeOfAct(act: Act): (o: Outcome)
    ensures o != Unknown
  {
    match act
    case Throws(e) => Thrown(e)
    case _ => Returned
  }

  /** Control passes down into a nested generator. */
  method Descend(code: Code, p: Promise, start: Label, ghost chain0: seq<Promise>, ghost fs0: seq<Body>)
      returns (current: Promise, ghost chain: seq<Promise>, ghost fs: seq<Body>)
    requires Running(code, chain0, p, fs0) && Remaining(fs0) != NOTHING_KNOWN
    requires ActOf(code, p.control).Nests? && ActOf(code, p.control).child == start
    modifies chain0`top
    ensures fresh(current) && chain == chain0 + [current]
    ensures Running(code, chain, current, fs) && Remaining(fs) == Remaining(fs0) && Sizes(fs) < Sizes(fs0)
  {
    hide Linked, Topped, Doing, Waiting, Remaining, Sizes, Unrolls, ActOf;
    Innermost(code, chain0, fs0);
    SomethingKnown(fs0);
    ActsAs(code, p.control, fs0[|fs0| - 1]);
    Entered(fs0);
    current := EnterNested(code, p, start, chain0, fs0);
    chain, fs := chain0 + [current], fs0 + [fs0[|fs0| - 1].child];
  }

  /** Control passes up out of one that is through. */
  method Ascend(code: Code, p: Promise, act: Act, ghost chain0: seq<Promise>, ghost fs0: seq<Body>)
      returns (current: Promise, ghost chain: seq<Promise>, ghost fs: seq<Body>)
    requires Running(code, chain0, p, fs0) && Remaining(fs0) != NOTHING_KNOWN && p.prev != null
    requires act == ActOf(code, p.control) && (act.Returns? || act.Throws?)
    modifies chain0
    ensures |chain0| > 1 && chain == chain0[..|chain0| - 1]
    ensures Running(code, chain, current, fs) && Remaining(fs) == Remaining(fs0) && Sizes(fs) < Sizes(fs0)
  {
    hide Linked, Topped, Doing, Waiting, Remaining, Sizes, Unrolls, ActOf;
    LastOf(chain0);
    Innermost(code, chain0, fs0);
    SomethingKnown(fs0);
    ActsAs(code, p.control, fs0[|fs0| - 1]);
    assert OutcomeOf(fs0[|fs0| - 1]) == OutcomeOfAct(act);
    Left(fs0);
    ghost var n := |chain0|;
    current := LeaveNested(code, p, OutcomeOfAct(act), chain0, fs0);
    chain, fs := chain0[..n - 1], fs0[..n - 2] + [After(fs0[n - 2], OutcomeOfAct(act))];
    ParentRuns(chain0, chain, current);
  }

  lemma ParentRuns(chain0: seq<Promise>, chain: seq<Promise>, parent: Promise)
    requires |chain0| > 1 && chain == chain0[..|chain0| - 1] && parent == chain0[|chain0| - 2]
    ensures chain != [] && chain[|chain| - 1] == parent
  {
  }

  /** It suspends at a value. */
  method Suspend(code: Code, p: Promise, value: Value, next: Label, ghost chain: seq<Promise>, ghost fs0: seq<Body>)
      returns (ghost fs: seq<Body>)
    requires Running(code, chain, p, fs0) && Remaining(fs0) != NOTHING_KNOWN
    requires ActOf(code, p.control) == Yields(value, next)
    modifies p`cell, p`control
    ensures p.cell == Value(value) && Running(code, chain, p, fs)
    ensures Remaining(fs0) == Prepend([value], Remaining(fs))
  {
    hide Linked, Topped, Doing, Waiting, Remaining, Sizes, Unrolls, ActOf;
    Innermost(code, chain, fs0);
    SomethingKnown(fs0);
    ActsAs(code, p.control, fs0[|fs0| - 1]);
    YieldedNext(fs0);
    YieldValue(code, p, value, next, chain, fs0);
    fs := fs0[..|fs0| - 1] + [fs0[|fs0| - 1].next];
  }

  /** The root has come to its end. */
  lemma EndKnown(code: Code, p: Promise, chain: seq<Promise>, fs: seq<Body>)
    requires Running(code, chain, p, fs) && Remaining(fs) != NOTHING_KNOWN && p.prev == null
    requires ActOf(code, p.control).Returns? || ActOf(code, p.control).Throws?
    ensures Remaining(fs) == Flat([], OutcomeOfAct(ActOf(code, p.control)))
  {
    hide Linked, Topped, Doing, Waiting, Remaining, Sizes, Unrolls, ActOf;
    LastOf(chain);
    Innermost(code, chain, fs);
    SomethingKnown(fs);
    ActsAs(code, p.control, fs[|fs| - 1]);
    RootEnds(fs);
  }

  /** Resuming the innermost coroutine: control passes down into nested generators and up out of
      them until one yields or the root comes to its end.  `fs0` goes as far as that; a generator that
      neither yields nor ends again is never resumed to its next suspension. */
  method Resume(code: Code, p: Promise, ghost chain0: seq<Promise>, ghost fs0: seq<Body>)
      returns (stop: Stop, ghost chain: seq<Promise>, ghost fs: seq<Body>)
    requires Running(code, chain0, p, fs0) && Remaining(fs0) != NOTHING_KNOWN
    modifies chain0
    ensures chain != [] && chain[0] == chain0[0]
    ensures forall i | 0 <= i < |chain| :: chain[i] in chain0 || fresh(chain[i])
    ensures Advanced(fs0, stop, fs, chain[|chain| - 1].cell)
    ensures stop.Yielded? ==> Running(code, chain, chain[|chain| - 1], fs)
    ensures !stop.Yielded? ==> chain0[0].done
  {
    hide Linked, Topped, Doing, Waiting, Remaining, Sizes, Unrolls, ActOf, Flatten;
    LastOf(chain0);
    var current := p;
    chain, fs := chain0, fs0;
    while true
      invariant chain != [] && chain[0] == chain0[0]
      invariant forall i | 0 <= i < |chain| :: chain[i] in chain0 || fresh(chain[i])
      invariant Running(code, chain, current, fs) && Remaining(fs) == Remaining(fs0)
      decreases Sizes(fs)
    {
      LastOf(chain);
      var act := ActOf(code, current.control);
      if act.Yields? {
        fs := Suspend(code, current, act.value, act.next, chain, fs);
        return Yielded, chain, fs;
      } else if act.Nests? {
        current, chain, fs := Descend(code, current, act.child, chain, fs);
      } else if current.prev == null {
        EndKnown(code, current, chain, fs);
        current.done := true;
        stop := Ended(OutcomeOfAct(act));
        return;
      } else {
        current, chain, fs := Ascend(code, current, act, chain, fs);
      }
    }
  }

  /** `generator` and its iterator. */
  class Generator {
    const code: Code
    const root: Promise
    ghost var chain: seq<Promise>
    ghost var fs: seq<Body>
    ghost var begun: bool

    ghost predicate Fresh()
      reads this, root
    {
      !begun && chain == [root] && !root.done && root.prev == null && root.cell == Empty
    }

    /** Suspended at a value: every promise on the active chain knows the innermost, which holds it. */
    ghost predicate AtValue()
      reads this, root, chain
    {
      && begun && chain != [] && chain[0] == root && Running(code, chain, chain[|chain| - 1], fs)
      && chain[|chain| - 1].cell.Value?
    }

    constructor (code: Code, start: Label)
      ensures Fresh() && this.code == code && root.control == At(start) && fresh(root)
    {
      this.code := code;
      root := new Promise(At(start));
      new;
      chain, fs, begun := [root], [Cut], false;
    }

    /** What the loop over the generator will still see, as far as it is known. */
    ghost function Ahead(): Flat
      requires AtValue()
      reads this, root, chain
    {
      Prepend([chain[|chain| - 1].cell.value], Remaining(fs))
    }

    /** `begin`; an exception of the root leaves it.  `b` is what the generator does, up to its first
        value or its end at least. */
    method Begin(ghost b: Body) returns (thrown: Outcome)
      requires Fresh() && Unrolls(code, root.control, b) && Flatten(b) != NOTHING_KNOWN
      modifies this, root
      ensures forall i | 0 <= i < |chain| :: chain[i] == root || fresh(chain[i])
      ensures !root.done ==> AtValue() && thrown == Returned && Ahead() == Flatten(b)
      ensures root.done ==> Flat([], thrown) == Flatten(b)
    {
      hide Linked, Topped, Doing, Waiting, Remaining, Unrolls;
      begun := true;
      root.top := root;
      fs := [b];
      RootRuns(code, root, b);
      var stop;
      stop, chain, fs := Resume(code, root, [root], fs);
      NotDone(chain);
      thrown := if stop.Ended? then stop.outcome else Returned;
    }

    /** `operator*`: the value of the innermost. */
    method Value() returns (v: Value)
      requires AtValue()
      ensures v == chain[|chain| - 1].cell.value
    {
      assert root == chain[0];
      v := root.top.cell.value;
    }

    /** `operator++`: resume the innermost. */
    method Next() returns (thrown: Outcome)
      requires AtValue() && Remaining(fs) != NOTHING_KNOWN
      modifies this, chain
      ensures forall i | 0 <= i < |chain| :: chain[i] in old(chain) || fresh(chain[i])
      ensures !root.done ==> AtValue() && thrown == Returned
      ensures var rest := if root.done then Flat([], thrown) else Ahead();
        old(Ahead()) == Prepend([old(chain[|chain| - 1].cell.value)], rest)
    {
      hide Linked, Topped, Doing, Waiting, Remaining;
      KnowsTop(chain, chain[|chain| - 1]);
      var stop;
      stop, chain, fs := Resume(code, root.top, chain, fs);
      NotDone(chain);
      thrown := if stop.Ended? then stop.outcome else Returned;
    }
  }

  lemma RootRuns(code: Code, root: Promise, b: Body)
    requires !root.done && root.prev == null && root.cell == Empty && root.top == root
    requires Unrolls(code, root.control, b)
    ensures Running(code, [root], root, [b]) && Remaining([b]) == Flatten(b)
  {
    hide Unrolls;
  }

  lemma NotDone(chain: seq<Promise>)
    requires chain != []
    ensures Linked(chain) ==> !chain[0].done
  {
  }

  lemma KnowsTop(chain: seq<Promise>, top: Promise)
    requires chain != [] && Topped(chain, top)
    ensures chain[0].top == top
  {
  }

  /** A loop over a generator that leaves at the `n`-th value, if it gets so far, sees exactly the
      flattening of what the generator does: its first `n` values if there are so many, and otherwise
      all of them and the exception, if any, after exactly those.  The generator need not come to an
      end; how deep one looks at it does not matter (YieldTrees.DeeperExtends). */
  method Iterate(code: Code, start: Label, n: nat, ghost depth: nat) returns (values: seq<Value>, outcome: Outcome)
    requires n >= 1
    requires var f := Flatten(Unrolled(code, At(start), depth)); |f.values| >= n || f.outcome != Unknown
    ensures var f := Flatten(Unrolled(code, At(start), depth));
      if |values| < n then Flat(values, outcome) == f else |f.values| >= n && values == f.values[..n]
  {
    hide Linked, Topped, Doing, Waiting, Remaining, Flatten, Prepend, Unrolls, Unrolled;
    ghost var b := Unrolled(code, At(start), depth);
    ghost var f := Flatten(b);
    UnrolledUnrolls(code, At(start), depth);
    var g := new Generator(code, start);
    values := [];
    outcome := g.Begin(b);
    PrependTwice([], [], f);
    while !g.root.done
      invariant fresh(g) && fresh(g.root) && forall i | 0 <= i < |g.chain| :: fresh(g.chain[i])
      invariant !g.root.done ==> g.AtValue()
      invariant |values| < n && f == Prepend(values, if g.root.done then Flat([], outcome) else g.Ahead())
      decreases n - |values|
    {
      ghost var ahead := Remaining(g.fs);
      var v := g.Value();
      PrependTwice(values, [v], ahead);
      values := values + [v];
      if |values| == n {
        PrependFirst(values, ahead);
        return;
      }
      PrependKnown(values, ahead, n);
      ghost var last := g.chain[|g.chain| - 1].cell.value;
      outcome := g.Next();
      PrependSame(last, ahead, if g.root.done then Flat([], outcome) else g.Ahead());
    }
    PrependEnd(values, outcome);
  }

  lemma PrependFirst(vs: seq<Value>, f: Flat)
    ensures |Prepend(vs, f).values| >= |vs| && Prepend(vs, f).values[..|vs|] == vs
  {
  }

  lemma PrependKnown(vs: seq<Value>, f: Flat, n: nat)
    requires |vs| < n && (|Prepend(vs, f).values| >= n || Prepend(vs, f).outcome != Unknown)
    ensures f != NOTHING_KNOWN
  {
  }

  lemma PrependSame(v: Value, f: Flat, g: Flat)
    requires Prepend([v], f) == Prepend([v], g)
    ensures f == g
  {
    assert f.values == Prepend([v], f).values[1..] && g.values == Prepend([v], g).values[1..];
  }

  lemma PrependEnd(vs: seq<Value>, o: Outcome)
    ensures Prepend(vs, Flat([], o)) == Flat(vs, o)
  {
  }
}
