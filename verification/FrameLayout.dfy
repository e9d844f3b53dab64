/** `co_memory`: where the coroutine frame, the stored deallocation function and the stored allocator
    lie in the block that is allocated for them, and how deallocation finds them again. */
module FrameLayout {

  // ---- arithmetic ----

  function CeilingDivision(n: nat, m: nat): nat
    requires m != 0
  {
    (n + m - 1) / m
  }

  function CeilingAlign(n: nat, m: nat): nat
    requires m != 0
  {
    CeilingDivision(n, m) * m
  }

  predicate Divides(m: int, x: int)
    requires m > 0
  {
    x % m == 0
  }

  predicate IsPowerOfTwo(m: nat) {
    m == 1 || (m > 1 && m % 2 == 0 && IsPowerOfTwo(m / 2))
  }

  lemma QuotientTimes(x: int, m: int)
    requires m > 0
    ensures x / m * m <= x < x / m * m + m && x / m * m == x - x % m
  {
  }

  lemma TimesDivides(q: int, m: int)
    requires m > 0
    ensures Divides(m, q * m)
  {
    QuotientTimes(q * m, m);
    var r := q * m / m;
    assert (q - r) * m == q * m - r * m;
    assert 0 <= (q - r) * m < m;
    UnderOne(q - r, m);
  }

  lemma UnderOne(q: int, m: int)
    requires m > 0 && 0 <= q * m < m
    ensures q == 0
  {
  }

  lemma SumDivides(x: int, y: int, m: int)
    requires m > 0 && Divides(m, x) && Divides(m, y)
    ensures Divides(m, x + y) && Divides(m, x - y)
  {
    QuotientTimes(x, m);
    QuotientTimes(y, m);
    assert (x / m + y / m) * m == x / m * m + y / m * m;
    assert (x / m - y / m) * m == x / m * m - y / m * m;
    TimesDivides(x / m + y / m, m);
    TimesDivides(x / m - y / m, m);
  }

  lemma DividesThrough(m: int, d: int, x: int)
    requires m > 0 && d > 0 && Divides(m, d) && Divides(d, x)
    ensures Divides(m, x)
  {
    QuotientTimes(x, d);
    QuotientTimes(d, m);
    assert x / d * (d / m * m) == x / d * (d / m) * m;
    TimesDivides(x / d * (d / m), m);
  }

  /** The smaller of two powers of two divides the larger. */
  lemma {:induction false} PowersDivide(a: nat, b: nat)
    requires IsPowerOfTwo(a) && IsPowerOfTwo(b) && a <= b
    ensures Divides(a, b)
  {
    if a > 1 {
      PowersDivide(a / 2, b / 2);
      QuotientTimes(b / 2, a / 2);
      var q := b / 2 / (a / 2);
      assert q * a == 2 * (q * (a / 2));
      TimesDivides(q, a);
    }
  }

  lemma CeilingBounds(n: nat, m: nat)
    requires m > 0
    ensures var r := CeilingAlign(n, m); Divides(m, r) && n <= r < n + m
  {
    QuotientTimes(n + m - 1, m);
    TimesDivides(CeilingDivision(n, m), m);
  }

  lemma PositiveMultiple(d: nat, m: nat)
    requires 0 < d && 0 < m && Divides(m, d)
    ensures m <= d
  {
    if d < m {
      OwnRemainder(d, m);
      assert false;
    }
  }

  lemma OwnRemainder(d: nat, m: nat)
    requires d < m
    ensures d % m == d
  {
  }

  /** Rounding up gives the least multiple that is not below. */
  lemma CeilingIsLeast(n: nat, m: nat, x: int)
    requires m > 0
    ensures var r := CeilingAlign(n, m); Divides(m, r) && n <= r < n + m && (Divides(m, x) && n <= x ==> r <= x)
  {
    hide CeilingAlign, Divides;
    var r := CeilingAlign(n, m);
    CeilingBounds(n, m);
    if Divides(m, x) && n <= x < r {
      SumDivides(r, x, m);
      PositiveMultiple(r - x, m);
    }
  }

  // ---- the layout ----

  /** `__STDCPP_DEFAULT_NEW_ALIGNMENT__`, also the size of the units that are allocated, and the size
      of a function pointer. */
  datatype Platform = Platform(unit: nat, fnSize: nat)

  /** An allocator type: its size is a multiple of its alignment. */
  datatype AllocType = AllocType(size: nat, align: nat)

  predicate Sensible(p: Platform, t: AllocType) {
    && IsPowerOfTwo(p.unit) && p.fnSize > 0
    && IsPowerOfTwo(t.align) && t.size > 0 && Divides(t.align, t.size)
  }

  /** The usual platform, with allocators that hold some pointers. */
  lemma UsualIsSensible(k: nat)
    requires k > 0
    ensures Sensible(Platform(16, 8), AllocType(8 * k, 8))
  {
    assert IsPowerOfTwo(2);
    assert IsPowerOfTwo(4);
    assert IsPowerOfTwo(8);
  }

  function MaxAlign(p: Platform, t: AllocType): nat { if t.align > p.unit then t.align else p.unit }

  /** How many units hold `n` bytes and, aligned behind them, an allocator. */
  function Units(p: Platform, t: AllocType, n: nat): nat
    requires Sensible(p, t)
  {
    (n + t.size + MaxAlign(p, t) - 1) / p.unit
  }

  /** `align_address` */
  function AllocatorAddress(base: nat, t: AllocType, n: nat): nat
    requires t.align > 0
  {
    CeilingAlign(base + n, t.align)
  }

  /** The allocator lies behind the first `n` bytes, aligned, and inside the block. */
  lemma AllocatorFits(p: Platform, t: AllocType, base: nat, n: nat)
    requires Sensible(p, t) && Divides(p.unit, base)
    ensures var at := AllocatorAddress(base, t, n);
      && Divides(t.align, at) && base + n <= at
      && at + t.size <= base + Units(p, t, n) * p.unit
  {
    var at, units := AllocatorAddress(base, t, n), Units(p, t, n);
    var total := base + units * p.unit;
    TimesDivides(units, p.unit);
    QuotientTimes(n + t.size + MaxAlign(p, t) - 1, p.unit);
    if t.align <= p.unit {
      PowersDivide(t.align, p.unit);
      SumDivides(base, units * p.unit, p.unit);
      DividesThrough(t.align, p.unit, total);
      SumDivides(total, t.size, t.align);
      CeilingIsLeast(base + n, t.align, total - t.size);
    } else {
      PowersDivide(p.unit, t.align);
      CeilingIsLeast(base + n, t.align, 0);
      DividesThrough(p.unit, t.align, at);
      DividesThrough(p.unit, t.align, t.size);
      SumDivides(at, base, p.unit);
      SumDivides(at - base, t.size, p.unit);
      MultipleBelow(at - base + t.size, n + t.size + t.align - 1, p.unit);
    }
  }

  lemma MultipleBelow(x: int, y: int, m: int)
    requires m > 0 && Divides(m, x) && x <= y
    ensures x <= y / m * m
  {
    QuotientTimes(x, m);
    QuotientTimes(y, m);
    if x > y / m * m {
      SumDivides(x, y / m * m, m) by { TimesDivides(y / m, m); }
      QuotientTimes(x - y / m * m, m);
    }
  }

  /** With fewer units there is a block, aligned as `new` aligns it, in which the allocator does not fit. */
  lemma UnitsAreLeast(p: Platform, t: AllocType, n: nat, m: nat) returns (base: nat)
    requires Sensible(p, t) && m < Units(p, t, n)
    ensures Divides(p.unit, base) && AllocatorAddress(base, t, n) + t.size > base + m * p.unit
  {
    FewerUnits(n + t.size + MaxAlign(p, t) - 1, m, p.unit);
    if t.align <= p.unit {
      base := 0;
      CeilingIsLeast(n, t.align, 0);
    } else {
      base := WorstBase(p, t, n);
      UnitsApart(p, t, n, m);
    }
  }

  lemma FewerUnits(x: nat, m: nat, unit: nat)
    requires unit > 0 && m < x / unit
    ensures m * unit + unit <= x / unit * unit <= x
  {
    QuotientTimes(x, unit);
    assert (m + 1) * unit <= x / unit * unit;
  }

  /** How far the allocator may come to lie behind the start of the block. */
  function Farthest(p: Platform, t: AllocType, n: nat): nat
    requires p.unit > 0 && t.align > 0
  {
    (n + t.align - 1) / p.unit * p.unit
  }

  /** A block in which it does come to lie there. */
  lemma WorstBase(p: Platform, t: AllocType, n: nat) returns (base: nat)
    requires Sensible(p, t) && t.align > p.unit
    ensures Divides(p.unit, base) && AllocatorAddress(base, t, n) == base + Farthest(p, t, n)
  {
    var v := Farthest(p, t, n);
    QuotientTimes(n + t.align - 1, p.unit);
    TimesDivides((n + t.align - 1) / p.unit, p.unit);
    PowersDivide(p.unit, t.align);
    base := v * t.align - v by { LessOne(v, t.align); }
    TimesDivides(v, t.align);
    DividesThrough(p.unit, t.align, v * t.align) by { Positive(t.align); }
    SumDivides(v * t.align, v, p.unit);
    OnlyMultiple(base + n, t.align, v * t.align);
  }

  lemma Positive(x: nat)
    requires IsPowerOfTwo(x)
    ensures x > 0
  {
  }

  lemma LessOne(v: nat, a: nat)
    requires a > 0
    ensures v * a - v >= 0
  {
  }

  /** The only multiple that is less than `m` above. */
  lemma OnlyMultiple(n: nat, m: nat, x: int)
    requires m > 0 && Divides(m, x) && n <= x < n + m
    ensures CeilingAlign(n, m) == x
  {
    hide CeilingAlign, Divides;
    CeilingIsLeast(n, m, x);
    var r := CeilingAlign(n, m);
    if r < x {
      SumDivides(x, r, m);
      PositiveMultiple(x - r, m);
    }
  }

  lemma UnitsApart(p: Platform, t: AllocType, n: nat, m: nat)
    requires Sensible(p, t) && t.align > p.unit && m < Units(p, t, n)
    ensures m * p.unit < Farthest(p, t, n) + t.size
  {
    PowersDivide(p.unit, t.align);
    DividesThrough(p.unit, t.align, t.size);
    FewerUnits(n + t.size + t.align - 1, m, p.unit);
    QuotientTimes(n + t.align - 1, p.unit);
    QuotientTimes(t.size, p.unit);
    SumDivides(0, 0, p.unit);
    BelowNext(n + t.align - 1, t.size, p.unit, m);
  }

  lemma BelowNext(x: nat, size: nat, unit: nat, m: nat)
    requires unit > 0 && Divides(unit, size) && m * unit + unit <= x + size
    ensures m * unit < x / unit * unit + size
  {
    QuotientTimes(x, unit);
  }

  // ---- allocation and deallocation ----

  /** `stateless`: default constructible and always equal, so it need not be stored. */
  datatype Allocator = Allocator(kind: AllocType, stateless: bool, id: int)

  /** The deallocation function of one allocator type, which the erased form stores. */
  datatype DeallocFn = DeallocFn(kind: AllocType, stateless: bool)

  datatype Cell = Raw(byte: int) | FnByte(fn: DeallocFn, i: nat) | AllocByte(allocator: Allocator, j: nat)

  type Cells = map<nat, Cell>

  ghost predicate Holds(cells: Cells, at: nat, thing: seq<Cell>) {
    forall k: nat | at <= k < at + |thing| :: k in cells && cells[k] == thing[k - at]
  }

  function FnObject(p: Platform, f: DeallocFn): seq<Cell> { seq(p.fnSize, i requires 0 <= i => FnByte(f, i)) }

  function AllocObject(a: Allocator): seq<Cell> { seq(a.kind.size, i requires 0 <= i => AllocByte(a, i)) }

  /** The bytes in front of the allocator: the frame, and in the erased form the function. */
  function Front(p: Platform, erased: bool, n: nat): nat { if erased then n + p.fnSize else n }

  function UnitsOf(p: Platform, f: DeallocFn, erased: bool, n: nat): nat
    requires Sensible(p, f.kind)
  {
    if f.stateless then CeilingDivision(Front(p, erased, n), p.unit) else Units(p, f.kind, Front(p, erased, n))
  }

  /** There is room in the block for the frame, for the function directly behind it if it is stored, and
      for the allocator, aligned, if that is stored. */
  ghost predicate HasRoom(p: Platform, f: DeallocFn, erased: bool, base: nat, n: nat, units: nat)
    requires Sensible(p, f.kind)
  {
    var behind, end := base + n + (if erased then p.fnSize else 0), base + units * p.unit;
    if f.stateless then behind <= end
    else exists at: nat :: behind <= at && Divides(f.kind.align, at) && at + f.kind.size <= end
  }

  /** What is allocated is as much as needed and no more, wherever `new` puts the block. */
  lemma AllocatedExactly(p: Platform, f: DeallocFn, erased: bool, n: nat, units: nat)
    requires Sensible(p, f.kind)
    ensures UnitsOf(p, f, erased, n) <= units <==>
              forall base: nat | Divides(p.unit, base) :: HasRoom(p, f, erased, base, n, units)
  {
    hide Divides, Units, CeilingDivision, AllocatorAddress;
    var front, least := Front(p, erased, n), UnitsOf(p, f, erased, n);
    if least <= units {
      MoreIsMore(least, units, p.unit);
      forall base: nat | Divides(p.unit, base)
        ensures HasRoom(p, f, erased, base, n, units)
      {
        if f.stateless {
          StatelessFits(p, front);
        } else {
          AllocatorFits(p, f.kind, base, front);
          assert front == n + (if erased then p.fnSize else 0);
          var at := AllocatorAddress(base, f.kind, front);
          assert base + front <= at && Divides(f.kind.align, at) && at + f.kind.size <= base + units * p.unit;
        }
      }
    } else if f.stateless {
      TooFew(p, front, units);
      TimesDivides(0, p.unit);
      assert !HasRoom(p, f, erased, 0, n, units);
    } else {
      var base := UnitsAreLeast(p, f.kind, front, units);
      forall at: nat | base + front <= at && Divides(f.kind.align, at)
        ensures at + f.kind.size > base + units * p.unit
      {
        AddressIsLeast(base, f.kind, front, at);
      }
      assert !HasRoom(p, f, erased, base, n, units);
    }
  }

  lemma AddressIsLeast(base: nat, t: AllocType, n: nat, at: nat)
    requires t.align > 0 && base + n <= at && Divides(t.align, at)
    ensures AllocatorAddress(base, t, n) <= at
  {
    CeilingIsLeast(base + n, t.align, at);
  }

  lemma MoreIsMore(a: nat, b: nat, m: nat)
    requires a <= b
    ensures a * m <= b * m
  {
  }

  lemma TooFew(p: Platform, front: nat, units: nat)
    requires p.unit > 0 && units < CeilingDivision(front, p.unit)
    ensures units * p.unit < front
  {
    FewerUnits(front + p.unit - 1, units, p.unit);
  }

  /** What a block holds besides the frame. */
  ghost predicate Installed(cells: Cells, p: Platform, a: Allocator, erased: bool, base: nat, n: nat)
    requires Sensible(p, a.kind)
  {
    && (erased ==> Holds(cells, base + n, FnObject(p, DeallocFn(a.kind, a.stateless))))
    && (!a.stateless ==> Holds(cells, AllocatorAddress(base, a.kind, Front(p, erased, n)), AllocObject(a)))
  }

  /** The coroutine may write its frame as it likes: it reaches neither the function nor the
      allocator. */
  lemma FrameIsFree(was: Cells, now: Cells, p: Platform, a: Allocator, erased: bool, base: nat, n: nat)
    requires Sensible(p, a.kind) && Divides(p.unit, base) && Installed(was, p, a, erased, base, n)
    requires forall k: nat | k in was && !(base <= k < base + n) :: k in now && now[k] == was[k]
    ensures Installed(now, p, a, erased, base, n)
  {
    AllocatorFits(p, a.kind, base, Front(p, erased, n));
    hide AllocatorAddress, Units, Divides, IsPowerOfTwo;
  }

  lemma StatelessFits(p: Platform, front: nat)
    requires p.unit > 0
    ensures front <= CeilingDivision(front, p.unit) * p.unit
  {
    QuotientTimes(front + p.unit - 1, p.unit);
  }

  class Memory {
    var cells: Cells

    /** `memcpy` of a function pointer, or the construction of an allocator. */
    method Store(at: nat, thing: seq<Cell>)
      modifies this
      ensures Holds(cells, at, thing)
      ensures forall k: nat | !(at <= k < at + |thing|) :: k in cells <==> k in old(cells)
      ensures forall k: nat | !(at <= k < at + |thing|) && k in cells :: cells[k] == old(cells)[k]
    {
      var i := 0;
      while i < |thing|
        invariant i <= |thing| && Holds(cells, at, thing[..i])
        invariant forall k: nat | !(at <= k < at + i) :: k in cells <==> k in old(cells)
        invariant forall k: nat | !(at <= k < at + i) && k in cells :: cells[k] == old(cells)[k]
      {
        cells := cells[at + i := thing[i]];
        i := i + 1;
      }
      assert thing[..i] == thing;
    }

    /** All four forms of `allocate`, in a block at `base` that the allocator has provided. */
    method Allocate(p: Platform, a: Allocator, erased: bool, base: nat, n: nat) returns (units: nat)
      requires Sensible(p, a.kind) && Divides(p.unit, base)
      modifies this
      ensures units == UnitsOf(p, DeallocFn(a.kind, a.stateless), erased, n)
      ensures Installed(cells, p, a, erased, base, n)
      // nothing is written into the frame, or outside the block
      ensures n <= units * p.unit
      ensures forall k: nat | k < base + n || base + units * p.unit <= k :: k in cells <==> k in old(cells)
      ensures forall k: nat | (k < base + n || base + units * p.unit <= k) && k in cells :: cells[k] == old(cells)[k]
    {
      hide Divides, Units, CeilingDivision, AllocatorAddress;
      ghost var f := DeallocFn(a.kind, a.stateless);
      ghost var front := Front(p, erased, n);
      units := UnitsOf(p, DeallocFn(a.kind, a.stateless), erased, n);
      AllocatorFits(p, a.kind, base, front);
      StatelessFits(p, front);
      if erased {
        Store(base + n, FnObject(p, DeallocFn(a.kind, a.stateless)));
      }
      if !a.stateless {
        Store(AllocatorAddress(base, a.kind, Front(p, erased, n)), AllocObject(a));
      }
    }

    /** `co_memory<Alloc>::deallocate` knows the allocator type; a stateless allocator is made anew. */
    method DeallocateTyped(p: Platform, f: DeallocFn, erased: bool, base: nat, n: nat, ghost a: Allocator)
        returns (found: Allocator, units: nat)
      requires Sensible(p, f.kind) && f == DeallocFn(a.kind, a.stateless)
      requires Installed(cells, p, a, erased, base, n)
      ensures found.kind == a.kind && found.stateless == a.stateless && (!a.stateless ==> found == a)
      ensures units == UnitsOf(p, f, erased, n)
    {
      units := UnitsOf(p, f, erased, n);
      if f.stateless {
        found := Allocator(f.kind, true, 0);
      } else {
        var at := AllocatorAddress(base, f.kind, Front(p, erased, n));
        assert cells[at] == AllocObject(a)[0];
        found := cells[at].allocator;
      }
    }

    /** `co_memory<void>::deallocate` reads the stored function, and calls it with the size of the
        frame. */
    method DeallocateErased(p: Platform, base: nat, n: nat, ghost a: Allocator) returns (found: Allocator, units: nat)
      requires Sensible(p, a.kind) && Installed(cells, p, a, true, base, n)
      ensures found.kind == a.kind && found.stateless == a.stateless && (!a.stateless ==> found == a)
      ensures units == UnitsOf(p, DeallocFn(a.kind, a.stateless), true, n)
    {
      assert cells[base + n] == FnObject(p, DeallocFn(a.kind, a.stateless))[0];
      var f := cells[base + n].fn;
      found, units := DeallocateTyped(p, f, true, base, n, a);
    }
  }
}
