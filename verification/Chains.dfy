/** Singly linked chains through `next` links, as they run from a head pointer. */
module Chains {
  import opened Sequences

  type Id = nat

  datatype Link = Null | To(id: Id)

  /** Following `next` from `p` visits `xs` and then stands at `q`. */
  predicate Path(next: seq<Link>, p: Link, xs: seq<Id>, q: Link)
    decreases |xs|
  {
    if xs == [] then p == q
    else p == To(xs[0]) && xs[0] < |next| && Path(next, next[xs[0]], xs[1..], q)
  }

  predicate Chain(next: seq<Link>, p: Link, xs: seq<Id>) {
    Path(next, p, xs, Null)
  }

  function Reverse(xs: seq<Id>): (r: seq<Id>)
    ensures |r| == |xs|
    ensures forall x :: x in r <==> x in xs
  {
    if xs == [] then [] else Reverse(xs[1..]) + [xs[0]]
  }

  /** Writing links elsewhere leaves a path as it is. */
  lemma {:induction false} PathKeeps(next: seq<Link>, next': seq<Link>, p: Link, xs: seq<Id>, q: Link)
    requires Path(next, p, xs, q) && |next'| == |next|
    requires forall x | x in xs && x < |next| :: next'[x] == next[x]
    ensures Path(next', p, xs, q)
    decreases |xs|
  {
    if xs != [] {
      PathKeeps(next, next', next[xs[0]], xs[1..], q);
    }
  }

  lemma ChainKeeps(next: seq<Link>, next': seq<Link>, p: Link, xs: seq<Id>)
    requires Chain(next, p, xs) && |next'| == |next|
    requires forall x | x in xs && x < |next| :: next'[x] == next[x]
    ensures Chain(next', p, xs)
  {
    PathKeeps(next, next', p, xs, Null);
  }

  lemma {:induction false} PathJoins(next: seq<Link>, p: Link, xs: seq<Id>, q: Link, ys: seq<Id>, r: Link)
    requires Path(next, p, xs, q) && Path(next, q, ys, r)
    ensures Path(next, p, xs + ys, r)
    decreases |xs|
  {
    if xs == [] {
      assert [] + ys == ys;
    } else {
      PathJoins(next, next[xs[0]], xs[1..], q, ys, r);
      assert (xs + ys)[1..] == xs[1..] + ys;
    }
  }

  lemma {:induction false} PathInRange(next: seq<Link>, p: Link, xs: seq<Id>, q: Link)
    requires Path(next, p, xs, q)
    ensures forall x | x in xs :: x < |next|
    decreases |xs|
  {
    if xs != [] {
      PathInRange(next, next[xs[0]], xs[1..], q);
      assert xs == [xs[0]] + xs[1..];
    }
  }

  /** A chain is empty exactly when its head pointer is null. */
  lemma ChainEnds(next: seq<Link>, p: Link, xs: seq<Id>)
    requires Chain(next, p, xs)
    ensures p == Null <==> xs == []
    ensures xs != [] ==> p == To(xs[0]) && xs[0] < |next| && Chain(next, next[xs[0]], xs[1..])
  {
  }

  /** One round of a reversal in place: the first node moves from one chain to the other. */
  lemma ReverseStep(next: seq<Link>, p: Link, xs: seq<Id>, r: Link, ys: seq<Id>)
    requires Chain(next, p, xs) && Chain(next, r, ys) && xs != [] && xs[0] !in xs[1..] && xs[0] !in ys
    ensures xs[0] < |next|
    ensures var next' := next[xs[0] := r];
      Chain(next', next[xs[0]], xs[1..]) && Chain(next', To(xs[0]), [xs[0]] + ys)
  {
    hide Path;
    FirstStep(next, p, xs, Null);
    var next' := next[xs[0] := r];
    PathKeeps(next, next', next[xs[0]], xs[1..], Null);
    PathKeeps(next, next', r, ys, Null);
    Prepend(next', xs[0], ys, Null);
  }

  lemma FirstStep(next: seq<Link>, p: Link, xs: seq<Id>, q: Link)
    requires Path(next, p, xs, q) && xs != []
    ensures p == To(xs[0]) && xs[0] < |next| && Path(next, next[xs[0]], xs[1..], q)
  {
  }

  lemma Prepend(next: seq<Link>, x: Id, ys: seq<Id>, q: Link)
    requires x < |next| && Path(next, next[x], ys, q)
    ensures Path(next, To(x), [x] + ys, q)
  {
    assert ([x] + ys)[1..] == ys;
  }

  lemma ReverseOrder(xs: seq<Id>, ys: seq<Id>)
    requires xs != []
    ensures Reverse(xs) + ys == Reverse(xs[1..]) + ([xs[0]] + ys)
  {
  }

  lemma DistinctInsert(xs: seq<Id>, ys: seq<Id>, x: Id)
    requires Distinct(xs + ys) && x !in xs + ys
    ensures Distinct(xs + ([x] + ys))
  {
    var old_s, new_s := xs + ys, xs + ([x] + ys);
    forall i: int, j: int | 0 <= i < j < |new_s|
      ensures new_s[i] != new_s[j]
    {
      var k, l := if i < |xs| then i else i - 1, if j < |xs| then j else j - 1;
      assert i != |xs| ==> new_s[i] == old_s[k] && old_s[k] in old_s;
      assert j != |xs| ==> new_s[j] == old_s[l] && old_s[l] in old_s;
    }
  }

  lemma DistinctPush(xs: seq<Id>, x: Id)
    requires Distinct(xs) && x !in xs
    ensures Distinct([x] + xs)
  {
    assert [] + xs == xs;
    DistinctInsert([], xs, x);
    assert [] + ([x] + xs) == [x] + xs;
  }

  lemma EmptyChain(next: seq<Link>)
    ensures Chain(next, Null, []) && Distinct<Id>([])
  {
  }

  lemma DistinctJoin(xs: seq<Id>, ys: seq<Id>)
    requires Distinct(xs) && Distinct(ys) && forall x | x in xs :: x !in ys
    ensures Distinct(xs + ys)
  {
    forall i, j | 0 <= i < j < |xs + ys|
      ensures (xs + ys)[i] != (xs + ys)[j]
    {
      if i < |xs| <= j {
        assert xs[i] in xs && ys[j - |xs|] in ys;
      }
    }
  }

  lemma {:induction false} ReverseDistinct(xs: seq<Id>)
    requires Distinct(xs)
    ensures Distinct(Reverse(xs))
  {
    if xs != [] {
      DistinctRest(xs);
      ReverseDistinct(xs[1..]);
    }
  }

  lemma {:induction false} ReverseJoin(xs: seq<Id>, ys: seq<Id>)
    ensures Reverse(xs + ys) == Reverse(ys) + Reverse(xs)
  {
    if xs == [] {
      assert [] + ys == ys;
    } else {
      ReverseJoin(xs[1..], ys);
      assert (xs + ys)[1..] == xs[1..] + ys;
    }
  }

  lemma DistinctParts(d: seq<Id>, f: seq<Id>, t: seq<Id>)
    requires Distinct(d + f + t)
    ensures Distinct(d) && Distinct(f) && Distinct(t)
    ensures (forall x | x in d :: x !in f && x !in t) && (forall x | x in f :: x !in t)
  {
    var a := d + f + t;
    assert forall k | 0 <= k < |d| :: a[k] == d[k];
    assert forall k | 0 <= k < |f| :: a[|d| + k] == f[k];
    assert forall k | 0 <= k < |t| :: a[|d| + |f| + k] == t[k];
  }

  lemma {:induction false} ReverseTwice(xs: seq<Id>)
    ensures Reverse(Reverse(xs)) == xs
  {
    if xs != [] {
      ReverseTwice(xs[1..]);
      ReverseJoin(Reverse(xs[1..]), [xs[0]]);
    }
  }

  /** Writing the link of the last node moves the end of the path. */
  lemma {:induction false} Retarget(next: seq<Link>, p: Link, xs: seq<Id>, q: Link, q': Link)
    requires Path(next, p, xs, q) && xs != [] && Distinct(xs) && xs[|xs| - 1] < |next|
    ensures Path(next[xs[|xs| - 1] := q'], p, xs, q')
    decreases |xs|
  {
    var next' := next[xs[|xs| - 1] := q'];
    if |xs| == 1 {
      assert xs[1..] == [];
    } else {
      DistinctRest(xs);
      Retarget(next, next[xs[0]], xs[1..], q, q');
    }
  }

  // ---- a stack that its reader turns around ----

  /** What has arrived and not left, oldest first: the part of a stack still being reversed, the
      part that is reversed, and the stack that newcomers are pushed on. */
  function Arrivals(draining: seq<Id>, front: seq<Id>, stack: seq<Id>): seq<Id> {
    Reverse(draining) + front + Reverse(stack)
  }

  lemma ArrivalsDistinct(d: seq<Id>, f: seq<Id>, t: seq<Id>)
    requires Distinct(d + f + t)
    ensures Distinct(Arrivals(d, f, t)) && forall x :: x in Arrivals(d, f, t) <==> x in d + f + t
  {
    DistinctParts(d, f, t);
    ReverseDistinct(d);
    ReverseDistinct(t);
    DistinctJoin(Reverse(d), f);
    DistinctJoin(Reverse(d) + f, Reverse(t));
  }

  /** Turning one node around changes neither the nodes nor their order. */
  lemma TurnOne(d: seq<Id>, f: seq<Id>, t: seq<Id>)
    requires Distinct(d + f + t) && d != []
    ensures var d', f' := d[1..], [d[0]] + f;
      && Distinct(d' + f' + t) && Arrivals(d', f', t) == Arrivals(d, f, t)
      && forall x :: x in d' + f' + t <==> x in d + f + t
    ensures d[0] !in d[1..] && d[0] !in f && d[0] !in t
  {
    var c, rest, all := d[0], f + t, d + f + t;
    assert all == [c] + (d[1..] + rest) && all[1..] == d[1..] + rest;
    DistinctRest(all);
    DistinctInsert(d[1..], rest, c);
    assert d[1..] + ([c] + f) + t == d[1..] + ([c] + rest);
    ReverseOrder(d, f);
  }

  /** A whole chain arrives: it is pushed newest first, and queues up oldest first. */
  lemma Arrive(d: seq<Id>, f: seq<Id>, t: seq<Id>, xs: seq<Id>)
    requires Distinct(d + f + t) && Distinct(xs) && forall x | x in xs :: x !in d + f + t
    ensures Distinct(d + f + (xs + t)) && Arrivals(d, f, xs + t) == Arrivals(d, f, t) + Reverse(xs)
  {
    ReverseJoin(xs, t);
    DistinctInsertAll(d + f, t, xs);
  }

  lemma {:induction false} DistinctInsertAll(xs: seq<Id>, ys: seq<Id>, zs: seq<Id>)
    requires Distinct(xs + ys) && Distinct(zs) && forall z | z in zs :: z !in xs + ys
    ensures Distinct(xs + (zs + ys))
  {
    if zs == [] {
      assert zs + ys == ys;
    } else {
      DistinctRest(zs);
      DistinctInsertAll(xs, ys, zs[1..]);
      DistinctInsert(xs, zs[1..] + ys, zs[0]);
      assert [zs[0]] + (zs[1..] + ys) == zs + ys;
    }
  }

  /** The oldest leaves. */
  lemma LeaveFirst(f: seq<Id>, t: seq<Id>)
    requires Distinct([] + f + t) && f != []
    ensures Distinct([] + f[1..] + t) && Arrivals([], f, t) == [f[0]] + Arrivals([], f[1..], t)
    ensures f[0] !in [] + f[1..] + t && forall x :: x in [] + f + t <==> x == f[0] || x in [] + f[1..] + t
  {
    var all := [] + f + t;
    assert all[1..] == [] + f[1..] + t;
    DistinctRest(all);
  }
}
