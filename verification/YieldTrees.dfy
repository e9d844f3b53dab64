/** What a generator does: it yields values, nests other generators with `elements_of`, catches what
    they throw, and in the end, if there is one, returns or throws.

    A coroutine goes from label to label, without end if it likes.  Its behaviour up to some depth is
    a finite tree, cut off where nobody has looked yet.  Flattening the tree is what iterating the
    generator must amount to. */
module YieldTrees {
  import opened Basics

  type Value = int
  type Error = int
  type Label = int

  /** What a coroutine does next, and where it goes on.  Around a nested generator there may be a
      handler for its exception. */
  datatype Act =
    | Returns
    | Throws(error: Error)
    | Yields(value: Value, next: Label)
    | Nests(child: Label, rest: Label, handler: Option<Label>)

  type Code = Label -> Act

  /** Where a coroutine stands; an exception of a nested generator that nobody catches is raised
      there again. */
  datatype Control = At(point: Label) | Raising(error: Error)

  function ActOf(code: Code, c: Control): Act {
    match c
    case At(l) => code(l)
    case Raising(e) => Throws(e)
  }

  datatype Body =
    | Return
    | Throw(error: Error)
    | Yield(value: Value, next: Body)
    | Nest(child: Body, rest: Body, handler: Handler)
    | Cut

  datatype Handler = Uncaught | Caught(body: Body)

  /** The behaviour from `c` on, `depth` steps deep. */
  function Unrolled(code: Code, c: Control, depth: nat): Body
    decreases depth
  {
    if depth == 0 then Cut
    else
      match ActOf(code, c)
      case Returns => Return
      case Throws(e) => Throw(e)
      case Yields(v, next) => Yield(v, Unrolled(code, At(next), depth - 1))
      case Nests(child, rest, handler) =>
        Nest(Unrolled(code, At(child), depth - 1), Unrolled(code, At(rest), depth - 1),
             if handler.Some? then Caught(Unrolled(code, At(handler.value), depth - 1)) else Uncaught)
  }

  /** `b` is the behaviour from `c` on, as far as it goes. */
  predicate Unrolls(code: Code, c: Control, b: Body)
    decreases b
  {
    match b
    case Cut => true
    case Return => ActOf(code, c) == Returns
    case Throw(e) => ActOf(code, c) == Throws(e)
    case Yield(v, next) =>
      var act := ActOf(code, c);
      act.Yields? && act.value == v && Unrolls(code, At(act.next), next)
    case Nest(child, rest, handler) =>
      var act := ActOf(code, c);
      && act.Nests? && Unrolls(code, At(act.child), child) && Unrolls(code, At(act.rest), rest)
      && match handler
         case Uncaught => act.handler == None
         case Caught(body) => act.handler.Some? && Unrolls(code, At(act.handler.value), body)
  }

  lemma {:induction false} UnrolledUnrolls(code: Code, c: Control, depth: nat)
    ensures Unrolls(code, c, Unrolled(code, c, depth))
    decreases depth
  {
    if depth > 0 {
      match ActOf(code, c)
      case Yields(_, next) => UnrolledUnrolls(code, At(next), depth - 1);
      case Nests(child, rest, handler) =>
        UnrolledUnrolls(code, At(child), depth - 1);
        UnrolledUnrolls(code, At(rest), depth - 1);
        if handler.Some? {
          UnrolledUnrolls(code, At(handler.value), depth - 1);
        }
      case _ =>
    }
  }

  /** Unknown: nobody has looked that far. */
  datatype Outcome = Returned | Thrown(error: Error) | Unknown

  datatype Flat = Flat(values: seq<Value>, outcome: Outcome)

  const NOTHING_KNOWN := Flat([], Unknown)

  function OutcomeOf(end: Body): Outcome
    requires end.Return? || end.Throw?
  {
    if end.Throw? then Thrown(end.error) else Returned
  }

  /** Where the body goes on after the nested generator has come to its end. */
  function After(nest: Body, o: Outcome): Body
    requires nest.Nest?
  {
    match o
    case Returned => nest.rest
    case Thrown(e) => if nest.handler.Caught? then nest.handler.body else Throw(e)
    case Unknown => Cut
  }

  function Flatten(b: Body): Flat {
    match b
    case Cut => NOTHING_KNOWN
    case Return => Flat([], Returned)
    case Throw(e) => Flat([], Thrown(e))
    case Yield(v, next) => Prepend([v], Flatten(next))
    case Nest(child, rest, handler) =>
      var c := Flatten(child);
      match c.outcome
      case Returned => Prepend(c.values, Flatten(rest))
      case Thrown(e) => if handler.Caught? then Prepend(c.values, Flatten(handler.body)) else c
      case Unknown => c
  }

  function Prepend(vs: seq<Value>, f: Flat): Flat { f.(values := vs + f.values) }

  lemma FlattenNest(b: Body)
    requires b.Nest?
    ensures var c := Flatten(b.child); Flatten(b) == Prepend(c.values, Flatten(After(b, c.outcome)))
  {
  }

  /** What is known of `f` is also known of `g`. */
  predicate Extends(f: Flat, g: Flat) {
    if f.outcome == Unknown then f.values <= g.values else g == f
  }

  lemma CutExtends(b: Body)
    ensures Extends(Flatten(Cut), Flatten(b)) && Extends(Flatten(b), Flatten(b))
  {
  }

  lemma YieldExtends(v: Value, a: Body, b: Body)
    requires Extends(Flatten(a), Flatten(b))
    ensures Extends(Flatten(Yield(v, a)), Flatten(Yield(v, b)))
  {
  }

  lemma NestExtends(a: Body, b: Body)
    requires a.Nest? && b.Nest? && (a.handler.Caught? <==> b.handler.Caught?)
    requires Extends(Flatten(a.child), Flatten(b.child)) && Extends(Flatten(a.rest), Flatten(b.rest))
    requires a.handler.Caught? ==> Extends(Flatten(a.handler.body), Flatten(b.handler.body))
    ensures Extends(Flatten(a), Flatten(b))
  {
  }

  /** Looking deeper changes nothing of what has been seen. */
  lemma {:induction false} DeeperExtends(code: Code, c: Control, d: nat, e: nat)
    requires d <= e
    ensures Extends(Flatten(Unrolled(code, c, d)), Flatten(Unrolled(code, c, e)))
    decreases d
  {
    hide Extends, Flatten;
    CutExtends(Unrolled(code, c, e));
    if d > 0 {
      match ActOf(code, c)
      case Yields(v, next) =>
        DeeperExtends(code, At(next), d - 1, e - 1);
        YieldExtends(v, Unrolled(code, At(next), d - 1), Unrolled(code, At(next), e - 1));
      case Nests(child, rest, handler) =>
        DeeperExtends(code, At(child), d - 1, e - 1);
        DeeperExtends(code, At(rest), d - 1, e - 1);
        if handler.Some? {
          DeeperExtends(code, At(handler.value), d - 1, e - 1);
        }
        NestExtends(Unrolled(code, c, d), Unrolled(code, c, e));
      case _ =>
    }
  }

  /** A generator that does nothing but yield has no end: every depth has as many values. */
  lemma {:induction false} NoEnd(code: Code, l: Label, depth: nat)
    requires forall m :: code(m).Yields?
    ensures var f := Flatten(Unrolled(code, At(l), depth)); |f.values| == depth && f.outcome == Unknown
    decreases depth
  {
    if depth > 0 {
      NoEnd(code, code(l).next, depth - 1);
    }
  }

  /** A stack of bodies, outermost first: the innermost runs, each other waits at its `Nest`. */
  predicate Waiting(fs: seq<Body>) {
    fs != [] && forall i | 0 <= i < |fs| - 1 :: fs[i].Nest?
  }

  /** What the whole stack has still to produce. */
  function Remaining(fs: seq<Body>): Flat
    requires Waiting(fs)
    decreases |fs|
  {
    var n, f := |fs|, Flatten(fs[|fs| - 1]);
    if n == 1 then f else Prepend(f.values, Remaining(fs[..n - 2] + [After(fs[n - 2], f.outcome)]))
  }

  lemma PrependTwice(us: seq<Value>, vs: seq<Value>, f: Flat)
    ensures Prepend(us, Prepend(vs, f)) == Prepend(us + vs, f)
    ensures Prepend([], f) == f
  {
    assert us + (vs + f.values) == (us + vs) + f.values;
  }

  /** Where nobody has looked, nothing more is known. */
  lemma {:induction false} CutRemains(fs: seq<Body>)
    requires Waiting(fs) && fs[|fs| - 1] == Cut
    ensures Remaining(fs) == NOTHING_KNOWN
    decreases |fs|
  {
    if |fs| > 1 {
      CutRemains(fs[..|fs| - 2] + [Cut]);
    }
  }

  /** A yield is the next value. */
  lemma StepYield(fs: seq<Body>, v: Value, next: Body)
    requires Waiting(fs + [Yield(v, next)])
    ensures Waiting(fs + [next]) && Remaining(fs + [Yield(v, next)]) == Prepend([v], Remaining(fs + [next]))
  {
    var a, b := fs + [Yield(v, next)], fs + [next];
    var f, n := Flatten(next), |a|;
    forall i | 0 <= i < |b| - 1
      ensures b[i].Nest?
    {
      assert a[i] == b[i];
    }
    if n > 1 {
      assert a[..n - 2] == b[..n - 2] && a[n - 2] == b[n - 2];
      PrependTwice([v], f.values, Remaining(b[..n - 2] + [After(b[n - 2], f.outcome)]));
    }
  }

  /** Entering a nested generator changes nothing of what is still to come. */
  lemma StepNest(fs: seq<Body>, nest: Body)
    requires nest.Nest? && Waiting(fs + [nest])
    ensures Waiting(fs + [nest, nest.child]) && Remaining(fs + [nest, nest.child]) == Remaining(fs + [nest])
  {
    var a, b := fs + [nest], fs + [nest, nest.child];
    var c, n := Flatten(nest.child), |b|;
    forall i | 0 <= i < |b| - 1
      ensures b[i].Nest?
    {
      assert b[i] == a[i];
    }
    var after := After(nest, c.outcome);
    assert b[..n - 2] + [After(b[n - 2], c.outcome)] == fs + [after];
    FlattenNest(nest);
    var d := Flatten(after);
    if |fs| == 0 {
      assert fs + [after] == [after];
    } else {
      var m := |fs| + 1;
      assert a[..m - 2] == (fs + [after])[..m - 2];
      PrependTwice(c.values, d.values, Remaining(a[..m - 2] + [After(a[m - 2], d.outcome)]));
    }
  }

  /** Leaving one, with a value or an exception, goes on where it was nested. */
  lemma StepEnd(fs: seq<Body>, nest: Body, end: Body)
    requires nest.Nest? && (end.Return? || end.Throw?) && Waiting(fs + [nest, end])
    ensures var after := After(nest, OutcomeOf(end));
      Waiting(fs + [after]) && Remaining(fs + [nest, end]) == Remaining(fs + [after])
  {
    var a, n := fs + [nest, end], |fs| + 2;
    var after := After(nest, Flatten(end).outcome);
    assert a[..n - 2] + [after] == fs + [after];
    forall i | 0 <= i < |fs|
      ensures (fs + [after])[i].Nest?
    {
      assert a[i] == fs[i];
    }
    PrependTwice([], [], Remaining(fs + [after]));
  }

  // ---- why the loop comes to an end ----

  function Size(b: Body): nat {
    match b
    case Return => 1
    case Throw(_) => 1
    case Cut => 1
    case Yield(_, next) => 1 + Size(next)
    case Nest(child, rest, handler) =>
      2 + Size(child) + Size(rest) + if handler.Caught? then Size(handler.body) else 0
  }

  /** What is left of a `Nest` while its child runs. */
  function Left(rest: Body, handler: Handler): nat {
    1 + Size(rest) + if handler.Caught? then Size(handler.body) else 0
  }

  function Sizes(fs: seq<Body>): nat
    requires Waiting(fs)
    decreases |fs|
  {
    if |fs| == 1 then Size(fs[0]) else Left(fs[0].rest, fs[0].handler) + Sizes(fs[1..])
  }

  /** Entering and leaving a nested generator both leave less to do. */
  lemma NestShrinks(nest: Body, end: Body)
    requires nest.Nest? && (end.Return? || end.Throw?)
    ensures Sizes([nest, nest.child]) < Sizes([nest])
    ensures Sizes([After(nest, OutcomeOf(end))]) < Sizes([nest, end])
  {
    assert [nest, nest.child][1..] == [nest.child] && [nest, end][1..] == [end];
  }

  lemma {:induction false} SizesShrink(fs: seq<Body>, a: seq<Body>, b: seq<Body>)
    requires Waiting(fs + a) && Waiting(fs + b) && a != [] && b != [] && Waiting(a) && Waiting(b)
    requires Sizes(b) < Sizes(a)
    ensures Sizes(fs + b) < Sizes(fs + a)
  {
    if fs == [] {
      assert [] + a == a && [] + b == b;
    } else {
      assert (fs + a)[1..] == fs[1..] + a && (fs + b)[1..] == fs[1..] + b;
      assert (fs + a)[0] == fs[0] == (fs + b)[0];
      SizesShrink(fs[1..], a, b);
    }
  }

  /** `elements_of` a plain range is a generator that walks along it. */
  predicate WalksAlong(code: Code, l: Label, vs: seq<Value>) {
    (forall i | 0 <= i < |vs| :: code(l + i) == Yields(vs[i], l + i + 1)) && code(l + |vs|) == Returns
  }

  lemma {:induction false} RangeFlattens(code: Code, l: Label, vs: seq<Value>)
    requires WalksAlong(code, l, vs)
    ensures Flatten(Unrolled(code, At(l), |vs| + 1)) == Flat(vs, Returned)
    decreases |vs|
  {
    if vs != [] {
      assert code(l + 0) == Yields(vs[0], l + 1);
      forall i | 0 <= i < |vs| - 1
        ensures code(l + 1 + i) == Yields(vs[1..][i], l + 1 + i + 1)
      {
        assert code(l + (i + 1)) == Yields(vs[i + 1], l + (i + 1) + 1);
      }
      RangeFlattens(code, l + 1, vs[1..]);
    }
  }
}
