/** The two doubly linked lists that waiters register on: the semaphore's (push at the back, pop
    at the front, unlink anywhere) and the signal list's (push at the front, unlink anywhere, and
    a delivery that walks the detached chain while others go on unlinking from it).

    One method is one critical section.  A waiter that is on no list has null links, and no method
    writes to such a waiter except the one that puts it on. */
module WaitingLists {
  import opened Sequences

  class Waiter {
    var prev: Waiter?
    var next: Waiter?

    constructor ()
      ensures prev == null && next == null
    {
      prev, next := null, null;
    }
  }

  /** The element at `k`, or null beyond either end. */
  ghost function At(xs: seq<Waiter>, k: int): Waiter? {
    if 0 <= k < |xs| then xs[k] else null
  }

  /** `xs` are linked in both directions, in that order, and to nothing else. */
  ghost predicate Linked(xs: seq<Waiter>)
    reads xs
  {
    && (forall k {:trigger xs[k].prev} | 0 <= k < |xs| :: xs[k].prev == At(xs, k - 1))
    && (forall k {:trigger xs[k].next} | 0 <= k < |xs| :: xs[k].next == At(xs, k + 1))
  }

  ghost predicate Chained(xs: seq<Waiter>)
    reads xs
  {
    Distinct(xs) && Linked(xs)
  }

  ghost predicate Loose(x: Waiter)
    reads x
  {
    x.prev == null && x.next == null
  }

  function Removed(xs: seq<Waiter>, p: nat): seq<Waiter>
    requires p < |xs|
  {
    xs[..p] + xs[p + 1..]
  }

  /** Taking out `x`, wherever it is, closes the gap. */
  lemma {:induction false} WithoutAt(xs: seq<Waiter>, x: Waiter) returns (p: nat)
    requires x in xs
    ensures p < |xs| && xs[p] == x && Without(xs, x) == Removed(xs, p) && (x == xs[0] ==> p == 0)
  {
    if xs[0] == x {
      p := 0;
    } else {
      assert x in xs[1..];
      var q := WithoutAt(xs[1..], x);
      p := q + 1;
      assert xs[..p] == [xs[0]] + xs[1..][..q] && xs[1..][q + 1..] == xs[p + 1..];
    }
  }

  lemma RemovedElements(xs: seq<Waiter>, p: nat)
    requires p < |xs| && Distinct(xs)
    ensures Distinct(Removed(xs, p)) && xs[p] !in Removed(xs, p)
    ensures forall k: int | -1 <= k < |xs| :: At(Removed(xs, p), k) == At(xs, if k < p then k else k + 1)
  {
    var ys := Removed(xs, p);
    assert forall k | 0 <= k < |ys| :: ys[k] == if k < p then xs[k] else xs[k + 1];
  }

  ghost predicate Apart(xs: seq<Waiter>, ys: seq<Waiter>) {
    forall x | x in xs :: x !in ys
  }

  lemma RemovedApart(xs: seq<Waiter>, p: nat, ys: seq<Waiter>)
    requires p < |xs| && (Apart(xs, ys) || Apart(ys, xs))
    ensures Apart(Removed(xs, p), ys) && Apart(ys, Removed(xs, p)) && xs[p] !in ys
  {
    assert forall x | x in Removed(xs, p) :: x in xs;
  }

  /** Join the neighbours of `x`, if it has any.  A chain that shares no waiter stays as it is. */
  method Unhook(x: Waiter, ghost xs: seq<Waiter>, ghost p: nat, ghost other: seq<Waiter>)
    requires Chained(xs) && p < |xs| && xs[p] == x
    requires Chained(other) && (Apart(xs, other) || Apart(other, xs))
    modifies xs
    ensures Chained(Removed(xs, p)) && Loose(x)
    ensures Chained(other) && Apart(Removed(xs, p), other) && Apart(other, Removed(xs, p)) && x !in other
  {
    RemovedApart(xs, p, other);
    assert forall y | y in other :: y !in xs;
    RemovedElements(xs, p);
    assert forall k | 0 <= k < |xs| && k != p :: xs[k] != x;
    assert p > 0 ==> forall k | 0 <= k < |xs| && k != p - 1 :: xs[k] != xs[p - 1];
    assert p < |xs| - 1 ==> forall k | 0 <= k < |xs| && k != p + 1 :: xs[k] != xs[p + 1];
    hide Distinct, Apart;
    if x.prev != null {
      x.prev.next := x.next;
    }
    if x.next != null {
      x.next.prev := x.prev;
    }
    x.prev := null;
    x.next := null;
    ghost var ys := Removed(xs, p);
    forall k: int | 0 <= k < |ys|
      ensures ys[k].prev == At(ys, k - 1) && ys[k].next == At(ys, k + 1)
    {
      if k < p {
        assert ys[k] == xs[k];
      } else {
        assert ys[k] == xs[k + 1];
      }
    }
  }

  ghost function First(xs: seq<Waiter>): Waiter? { At(xs, 0) }

  ghost function Last(xs: seq<Waiter>): Waiter? { At(xs, |xs| - 1) }

  /** What the ends of a chain say about `x`, and what they become without it. */
  lemma Ends(xs: seq<Waiter>, x: Waiter) returns (p: nat)
    requires Chained(xs) && x in xs
    ensures p < |xs| && xs[p] == x && (x == xs[0] ==> p == 0)
    ensures Without(xs, x) == Removed(xs, p) && x !in Removed(xs, p)
    ensures First(Removed(xs, p)) == if x.prev == null then x.next else First(xs)
    ensures Last(Removed(xs, p)) == if x.next == null then x.prev else Last(xs)
    ensures (x.prev == null <==> x == First(xs)) && (x.next == null <==> x == Last(xs))
  {
    p := WithoutAt(xs, x);
    RemovedElements(xs, p);
  }

  lemma FirstOf(xs: seq<Waiter>)
    ensures if xs == [] then First(xs) == null else xs[0] in xs && First(xs) == xs[0] && Removed(xs, 0) == xs[1..]
    ensures First(xs) != null ==> First(xs) in xs
    ensures First(xs) == null <==> Last(xs) == null
  {
  }

  lemma Alone(xs: seq<Waiter>)
    ensures Chained([]) && Apart(xs, [])
  {
  }

  // ---- the semaphore's list ----

  class SemaphoreList {
    var head: Waiter?
    var tail: Waiter?
    ghost var items: seq<Waiter>

    ghost predicate Valid()
      reads this, items
    {
      Chained(items) && head == First(items) && tail == Last(items)
    }

    constructor ()
      ensures Valid() && items == []
    {
      head, tail, items := null, null, [];
    }

    /** The end of `start`, under the lock. */
    method PushBack(x: Waiter)
      requires Valid() && x !in items && Loose(x)
      modifies this, x, items
      ensures Valid() && items == old(items) + [x]
    {
      x.prev := tail;
      tail := x;
      x.next := null;
      if x.prev != null {
        x.prev.next := x;
      } else {
        head := x;
      }
      items := items + [x];
    }

    /** The part of `release` that takes the first waiter. */
    method PopFront() returns (x: Waiter?)
      requires Valid()
      modifies this, items
      ensures Valid()
      ensures old(items) == [] ==> x == null && items == []
      ensures old(items) != [] ==> x != null && [x] + items == old(items) && x !in items && Loose(x)
    {
      hide Chained, Removed, First, Last, Apart, Loose, Without;
      FirstOf(items);
      if head == null {
        return null;
      }
      ghost var p := Ends(items, head);
      FirstOf(items[1..]);
      Alone(items);
      x := head;
      head := x.next;
      if head == null {
        tail := null;
      }
      Unhook(x, items, 0, []);
      items := items[1..];
    }

    /** `unregister_` answers true exactly for the waiters on the list, and takes them off it. */
    method Unregister(x: Waiter) returns (linked: bool)
      requires Valid() && (x in items || Loose(x))
      modifies this, items
      ensures Valid()
      ensures linked <==> x in old(items)
      ensures items == Without(old(items), x)
      ensures x !in items && Loose(x)
    {
      hide Chained, Removed, First, Last, Apart;
      FirstOf(items);
      Alone(items);
      ghost var p := 0;
      if x in items {
        p := Ends(items, x);
      }
      if x.prev == null {
        if head != x {
          return false;
        }
        head := x.next;
      }
      if x.next == null {
        tail := x.prev;
      }
      Unhook(x, items, p, []);
      items := Removed(items, p);
      linked := true;
    }
  }

  // ---- the signal list ----

  /** `head`: the address of the list itself, null once the signal has been delivered, or the
      first waiter. */
  datatype Head = Itself | Delivered | Node(node: Waiter)

  class SignalList {
    var head: Head
    ghost var attached: seq<Waiter>
    ghost var detached: seq<Waiter>   // the rest of the chain a delivery is walking

    ghost predicate Valid()
      reads this, attached, detached
    {
      && Apart(attached, detached) && Chained(attached) && Chained(detached)
      && First(attached) == if head.Node? then head.node else null
    }

    constructor ()
      ensures Valid() && head == Itself && attached == [] && detached == []
    {
      head, attached, detached := Itself, [], [];
    }

    /** `add`; `failure` is the errno of `sigaction`, or zero. */
    method Add(x: Waiter, signum: nat, failure: int) returns (result: int)
      requires Valid() && x !in attached && x !in detached && Loose(x)
      modifies this, x, attached
      ensures Valid() && detached == old(detached)
      ensures old(head) == Delivered ==> result == signum && attached == old(attached) && head == old(head)
      ensures old(head) == Itself && failure != 0 ==>
                result == -failure && attached == old(attached) && head == old(head)
      ensures old(head) != Delivered && (old(head) == Itself ==> failure == 0) ==>
                result == 0 && attached == [x] + old(attached) && head == Node(x)
    {
      if head == Delivered {
        return signum;
      }
      if head == Itself {
        if failure != 0 {
          return -failure;
        }
      }
      assert attached != [] ==> attached[0] in attached;
      x.prev := null;
      x.next := if head == Itself then null else head.node;
      if x.next != null {
        x.next.prev := x;
      }
      head := Node(x);
      attached := [x] + attached;
      result := 0;
    }

    /** `remove` answers true exactly for the waiters that no delivery has claimed: those on the
        list, and those behind the first of a detached chain. */
    method Remove(x: Waiter) returns (removed: bool, disarmed: bool)
      requires Valid() && (x in attached || x in detached || Loose(x))
      modifies this, attached, detached
      ensures Valid()
      ensures removed <==> x in old(attached) || (x in old(detached) && x != old(detached)[0])
      ensures attached == Without(old(attached), x)
      ensures detached == if removed then Without(old(detached), x) else old(detached)
      ensures removed ==> x !in attached && x !in detached && Loose(x)
      ensures disarmed <==> removed && head == Itself
      ensures head == Delivered <==> old(head) == Delivered
    {
      hide Chained, Removed, First, Last, Apart;
      FirstOf(attached);
      FirstOf(detached);
      ghost var here, p := x in attached, 0;
      ghost var chain, other := if here then attached else detached, if here then detached else attached;
      if x in chain {
        p := Ends(chain, x);
      }
      if x.prev == null {
        if head != Node(x) {
          return false, false;
        }
        head := if x.next == null then Itself else Node(x.next);
      }
      Unhook(x, chain, p, other);
      if here {
        attached := Removed(attached, p);
      } else {
        detached := Removed(detached, p);
      }
      return true, head == Itself;
    }

    /** The first critical section of `pop_all`: the list is emptied, its first waiter released
        and the second one claimed. */
    method Detach(signal: int) returns (waiter: Waiter?, next: Waiter?)
      requires Valid() && detached == []
      modifies this, attached
      ensures Valid() && attached == []
      ensures head == if signal < 0 then Itself else Delivered
      ensures old(attached) == [] ==> waiter == null && detached == []
      ensures old(attached) != [] ==>
                waiter != null && [waiter] + detached == old(attached) && waiter !in detached && Loose(waiter)
      ensures next == First(detached)
    {
      hide Chained, Removed, First, Last, Apart, Loose, Without;
      FirstOf(attached);
      FirstOf([]);
      waiter := if head.Node? then head.node else null;
      head := if signal < 0 then Itself else Delivered;
      next := null;
      if waiter != null {
        ghost var p := Ends(attached, waiter);
        Alone(attached);
        next := waiter.next;
        Unhook(waiter, attached, 0, []);
        detached := attached[1..];
        attached := [];
      }
    }

    /** Every later one: the claimed waiter is released and the one behind it, as it is by now,
        claimed. */
    method Advance(waiter: Waiter) returns (next: Waiter?)
      requires Valid() && detached != [] && waiter == detached[0]
      modifies this`detached, detached
      ensures Valid()
      ensures [waiter] + detached == old(detached) && waiter !in detached && Loose(waiter)
      ensures next == First(detached)
    {
      hide Chained, Removed, First, Last, Apart, Loose, Without;
      FirstOf(detached);
      ghost var p := Ends(detached, waiter);
      next := waiter.next;
      Unhook(waiter, detached, 0, attached);
      detached := detached[1..];
    }
  }
}
