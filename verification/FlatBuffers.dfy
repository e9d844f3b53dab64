/** `flat_buffer`: one block of memory holding consumed, readable, prepared and free bytes, in that
    order.  What its users see is `Contents()`, the readable bytes. */
module FlatBuffers {
  import opened Basics

  newtype Byte = x: int | 0 <= x < 256

  /** `std::size_t` */
  const SIZE_VALUES: nat := 0x1_0000_0000_0000_0000

  const FIRST_CAPACITY: nat := 512

  function Min(a: int, b: int): int { if a <= b then a else b }

  function Max(a: int, b: int): int { if a <= b then b else a }

  // ---- sizes and positions ----

  /** Everything about a buffer but its bytes: the limit, the length of the block (zero without one)
      and the three positions in it. */
  datatype Shape = Shape(max: nat, capacity: nat, first: nat, last: nat, ready: nat) {
    predicate Valid() { first <= last <= ready <= capacity < SIZE_VALUES && max < SIZE_VALUES }

    function Size(): nat
      requires Valid()
    {
      last - first
    }

    /** `max_ - size()` in unsigned arithmetic. */
    function Room(): nat
      requires Valid()
    {
      if Size() <= max then max - Size() else max + SIZE_VALUES - Size()
    }
  }

  /** One turn of the loop that looks for a larger capacity, and all that follow. */
  function Doubled(capacity: nat, need: nat, max: nat): nat
    requires 0 < capacity
    decreases if capacity < need then need - capacity else 0
  {
    if need <= capacity then capacity
    else
      var next := capacity * 2 % SIZE_VALUES;
      if next > capacity && next <= max then Doubled(next, need, max) else Min(need, max)
  }

  /** The capacity that `prepare` grows to: doubled while that fits, else exactly what is needed or
      all that is allowed. */
  function Grown(capacity: nat, need: nat, max: nat): nat { Doubled(Max(capacity, FIRST_CAPACITY), need, max) }

  /** The request is met within the block, possibly by moving the readable bytes to its front. */
  predicate Fits(b: Shape, n: nat)
    requires b.Valid()
  {
    b.capacity > 0 && n <= b.capacity - b.Size()
  }

  /** What `prepare` makes of a request, or nothing where it throws `length_error`. */
  function Prepared(b: Shape, n: nat): Option<Shape>
    requires b.Valid()
  {
    if n == 0 then Some(b)
    else if b.capacity > 0 && n <= b.capacity - b.last then Some(b.(ready := b.last + n))
    else if Fits(b, n) then Some(b.(first := 0, last := b.Size(), ready := b.Size() + n))
    else if n > b.Room() then None
    else Some(Shape(b.max, Grown(b.capacity, (b.Size() + n) % SIZE_VALUES, b.max), 0, b.Size(), b.Size() + n))
  }

  function Committed(b: Shape, n: nat): Shape
    requires b.Valid()
  {
    b.(last := b.last + Min(n, b.ready - b.last))
  }

  lemma {:induction false} DoubledExactly(capacity: nat, need: nat, max: nat)
    requires 0 < capacity < SIZE_VALUES && max < SIZE_VALUES
    ensures var r := Doubled(capacity, need, max);
      && (need <= r <==> need <= Max(capacity, max)) && r <= Max(capacity, max)
      && (need <= r ==> r == need || r == capacity || r < 2 * need)
    decreases if capacity < need then need - capacity else 0
  {
    var next := capacity * 2 % SIZE_VALUES;
    if capacity < need && capacity < next <= max {
      DoubledExactly(next, need, max);
    }
  }

  /** `c` doubled `j` times. */
  function Doublings(c: nat, j: nat): nat {
    if j == 0 then c else 2 * Doublings(c, j - 1)
  }

  /** The block is doubled until there is room, as long as that neither exceeds the limit nor wraps; only
      then it is exactly as large as needed, or as allowed. */
  lemma {:induction false} DoublesWhileItCan(capacity: nat, need: nat, max: nat) returns (j: nat)
    requires 0 < capacity < SIZE_VALUES && max < SIZE_VALUES
    ensures forall i | 0 <= i < j :: Doublings(capacity, i) < need && 2 * Doublings(capacity, i) <= max
    ensures var c, r := Doublings(capacity, j), Doubled(capacity, need, max);
      if need <= c then r == c else max < 2 * c && r == Min(need, max)
    decreases if capacity < need then need - capacity else 0
  {
    hide Doublings, Doubled;
    DoubledTurn(capacity, need, max);
    DoubledFirst(capacity, 0);
    if capacity < need && 2 * capacity <= max {
      var l := DoublesWhileItCan(2 * capacity, need, max);
      j := l + 1;
      DoubledFirst(capacity, l);
      forall i | 0 <= i < j
        ensures Doublings(capacity, i) < need && 2 * Doublings(capacity, i) <= max
      {
        if i > 0 {
          DoubledFirst(capacity, i - 1);
        }
      }
    } else {
      j := 0;
    }
  }

  /** One turn of the loop; a limit below the number of sizes keeps the doubling from wrapping. */
  lemma DoubledTurn(capacity: nat, need: nat, max: nat)
    requires 0 < capacity < SIZE_VALUES && max < SIZE_VALUES
    ensures Doubled(capacity, need, max) ==
            if need <= capacity then capacity
            else if 2 * capacity <= max then Doubled(2 * capacity, need, max)
            else Min(need, max)
  {
    hide SIZE_VALUES;
    Wrapped(capacity * 2);
  }

  lemma Wrapped(x: nat)
    requires x < 2 * SIZE_VALUES
    ensures x % SIZE_VALUES == if x < SIZE_VALUES then x else x - SIZE_VALUES
  {
  }

  lemma {:induction false} DoubledFirst(c: nat, i: nat)
    ensures Doublings(c, i + 1) == Doublings(2 * c, i) && Doublings(c, 0) == c
  {
    if i > 0 {
      DoubledFirst(c, i - 1);
    }
  }

  /** A new block holds what it was asked for exactly when that is within the limit, or within the
      larger of the old block and the first one. */
  lemma GrownExactly(capacity: nat, need: nat, max: nat)
    requires capacity < SIZE_VALUES && max < SIZE_VALUES
    ensures need <= Grown(capacity, need, max) <==> need <= Max(max, Max(capacity, FIRST_CAPACITY))
    ensures Grown(capacity, need, max) <= Max(max, Max(capacity, FIRST_CAPACITY))
  {
    DoubledExactly(Max(capacity, FIRST_CAPACITY), need, max);
  }

  /** The requests that `prepare` can serve: those that it refuses, and those for which the block it
      ends up with has room. */
  predicate Served(b: Shape, n: nat)
    requires b.Valid()
  {
    n == 0 || Fits(b, n) || n > b.Room() || b.Size() + n <= Max(b.max, Max(b.capacity, FIRST_CAPACITY))
  }

  /** That is exactly when what it does leaves a well-formed buffer with the bytes it had, and it is
      every request as long as the readable bytes are within the limit. */
  lemma ServedExactly(b: Shape, n: nat)
    requires b.Valid() && n < SIZE_VALUES
    ensures Served(b, n) <==> Prepared(b, n).None? || Prepared(b, n).value.Valid()
    ensures b.Size() <= b.max ==> Served(b, n)
  {
    var need := (b.Size() + n) % SIZE_VALUES;
    GrownExactly(b.capacity, need, b.max);
    if b.Size() + n < SIZE_VALUES {
      assert need == b.Size() + n;
    }
  }

  /** `size() <= max_size()` after a commit exactly when no more was committed than the limit left. */
  lemma CommitWithinLimit(b: Shape, n: nat, k: nat)
    requires b.Valid() && b.Size() <= b.max && 0 < n < SIZE_VALUES && k <= n && Prepared(b, n).Some?
    ensures Prepared(b, n).value.Valid()
    ensures Committed(Prepared(b, n).value, k).Size() <= b.max <==> k <= b.max - b.Size()
  {
    ServedExactly(b, n);
  }

  /** So a request is safe for every commit exactly when it asks for no more than the limit leaves,
      which the caller can see beforehand. */
  lemma RequestWithinLimit(b: Shape, n: nat)
    requires b.Valid() && b.Size() <= b.max && 0 < n < SIZE_VALUES && Prepared(b, n).Some?
    ensures Prepared(b, n).value.Valid()
    ensures (forall k: nat :: Committed(Prepared(b, n).value, k).Size() <= b.max) <==> n <= b.max - b.Size()
  {
    ServedExactly(b, n);
    var p := Prepared(b, n).value;
    CommitWithinLimit(b, n, n);
    forall k: nat
      ensures Committed(p, k) == Committed(p, Min(k, n))
      ensures Committed(p, Min(k, n)).Size() <= b.max <==> Min(k, n) <= b.max - b.Size()
    {
      CommitWithinLimit(b, n, Min(k, n));
    }
  }

  /** And without that it does fail: with a limit of 10, a first request for 5 gets a block of 512,
      and then 100 bytes can be prepared and committed. */
  lemma LimitIsExceeded()
    ensures var empty := Shape(10, 0, 0, 0, 0);
      && Prepared(empty, 5).Some? && Prepared(empty, 5).value.Valid()
      && Prepared(Prepared(empty, 5).value, 100).Some?
      && Prepared(Prepared(empty, 5).value, 100).value.Valid()
      && Committed(Prepared(Prepared(empty, 5).value, 100).value, 100).Size() == 100 > empty.max
  {
    assert Grown(0, 5, 10) == 512;
  }

  /** The loop of `prepare`. */
  method GrownCapacity(capacity: nat, need: nat, max: nat) returns (r: nat)
    requires capacity < SIZE_VALUES
    ensures r == Grown(capacity, need, max)
  {
    r := Max(capacity, FIRST_CAPACITY);
    while r < need
      invariant 0 < r && Doubled(r, need, max) == Grown(capacity, need, max)
      decreases if r < need then need - r else 0
    {
      var next := r * 2 % SIZE_VALUES;
      if next > r && next <= max {
        r := next;
      } else {
        r := Min(need, max);
        return;
      }
    }
  }

  class FlatBuffer {
    const max: nat
    var block: array?<Byte>
    var first: nat   // `in_`
    var last: nat    // `out_`
    var ready: nat   // `last_`, the end of the prepared bytes

    function Capacity(): nat
      reads this
    {
      if block == null then 0 else block.Length
    }

    function Form(): Shape
      reads this
    {
      Shape(max, Capacity(), first, last, ready)
    }

    ghost predicate Valid()
      reads this
    {
      Form().Valid() && (block != null ==> block.Length > 0)
    }

    ghost function Contents(): (s: seq<Byte>)
      requires Valid()
      reads this, block
    {
      if block == null then [] else block[first..last]
    }

    function Size(): nat
      requires Valid()
      reads this
    {
      last - first
    }

    constructor (limit: nat)
      requires limit < SIZE_VALUES
      ensures Valid() && max == limit && block == null && Contents() == []
    {
      max, block, first, last, ready := limit, null, 0, 0, 0;
    }

    /** Move the readable bytes to the front of the block, in place. */
    method Compact()
      requires Valid() && block != null
      modifies this`first, this`last, block
      ensures block == old(block) && first == 0 && last == old(Size())
      ensures Valid() && Contents() == old(Contents())
    {
      var len := last - first;
      ghost var was := block[first..last];
      forall i | 0 <= i < len {
        block[i] := block[first + i];
      }
      assert block[..len] == was;
      first, last := 0, len;
      assert Contents() == was;
    }

    /** Move the readable bytes to a new block. */
    method Reallocate(capacity: nat)
      requires Valid() && Size() <= capacity < SIZE_VALUES && 0 < capacity
      modifies this`block, this`first, this`last, this`ready
      ensures Valid() && block != null && fresh(block) && block.Length == capacity
      ensures first == 0 && ready == last && Contents() == old(Contents())
    {
      var len := last - first;
      var larger := new Byte[capacity];
      if len > 0 {
        forall i | 0 <= i < len {
          larger[i] := block[first + i];
        }
      }
      assert larger[..len] == Contents();
      block := larger;
      first, last, ready := 0, len, len;
    }

    /** `prepare`: room for `n` more bytes behind the readable ones, or `length_error`.  The limit is
        consulted only when the block must grow. */
    method Prepare(n: nat) returns (ok: bool)
      requires Valid() && n < SIZE_VALUES && Served(Form(), n)
      modifies this, block
      ensures Valid() && (block == old(block) || fresh(block))
      ensures Contents() == old(Contents())
      ensures match Prepared(old(Form()), n)
              case Some(shape) => ok && Form() == shape
              case None => !ok && Form() == old(Form())
      // a new block only if the old one has no room, before or behind the readable bytes
      ensures block != old(block) ==> ok && (old(block) == null || n > old(block).Length - |old(Contents())|)
      ensures n > 0 && ok ==> block != null && ready - last == n
    {
      hide Grown, Served;
      ServedExactly(Form(), n);
      if n == 0 {
        return true;
      }
      if block != null && n <= block.Length - last {
        ready := last + n;
        return true;
      }
      var len := last - first;
      if block != null && n <= block.Length - len {
        Compact();
        ready := last + n;
        return true;
      }
      if n > Form().Room() {
        return false;
      }
      var grown := GrownCapacity(Capacity(), (len + n) % SIZE_VALUES, max);
      Reallocate(grown);
      ready := last + n;
      ok := true;
    }

    /** What a device does with the prepared bytes: it fills the first of them. */
    method Fill(bytes: seq<Byte>)
      requires Valid() && block != null && |bytes| <= ready - last
      modifies block
      ensures Valid() && Contents() == old(Contents()) && block[last..last + |bytes|] == bytes
    {
      forall i | 0 <= i < |bytes| {
        block[last + i] := bytes[i];
      }
    }

    /** `commit`: prepared bytes, at most all of them, become readable. */
    method Commit(n: nat)
      requires Valid()
      modifies this`last
      ensures Valid() && Form() == Committed(old(Form()), n)
      ensures var k := Min(n, ready - old(last));
        && last == old(last) + k
        && Contents() == old(Contents()) + (if block == null then [] else block[old(last)..last])
    {
      last := last + Min(n, ready - last);
    }

    /** `consume`: readable bytes, at most all of them, are dropped from the front. */
    method Consume(n: nat)
      requires Valid()
      modifies this`first
      ensures Valid() && Contents() == old(Contents())[Min(n, |old(Contents())|)..]
    {
      first := first + Min(n, last - first);
    }

    method Clear()
      requires Valid()
      modifies this`first, this`last, this`ready
      ensures Valid() && Contents() == [] && Capacity() == old(Capacity())
    {
      first, last, ready := 0, 0, 0;
    }

    /** `reserve`: a larger block, or `length_error`. */
    method Reserve(n: nat) returns (ok: bool)
      requires Valid()
      modifies this`block, this`first, this`last, this`ready
      ensures Valid() && Contents() == old(Contents())
      ensures ok <==> n <= max
      ensures Capacity() == if ok then Max(old(Capacity()), n) else old(Capacity())
    {
      if n > max {
        return false;
      }
      if n > Capacity() {
        Reallocate(n);
      }
      ok := true;
    }

    method ShrinkToFit()
      requires Valid()
      modifies this, block
      ensures Valid() && Contents() == old(Contents()) && Capacity() == |Contents()|
    {
      var len := last - first;
      if len == 0 {
        block, first, last, ready := null, 0, 0, 0;
      } else if len == block.Length && first == 0 {
        // nothing to give back
      } else if len == block.Length {
        assert false;  // readable bytes that fill the block start at its front
      } else {
        Reallocate(len);
      }
    }
  }
}
