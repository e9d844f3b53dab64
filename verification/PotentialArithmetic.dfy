/** Powers of two, and the inequalities behind the cost of the pairing heap.

    `Times` is multiplication by recursion: the lemmas about trees speak of `Times`, so that
    products occur only here, where every lemma is about a few numbers. */
module PotentialArithmetic {

  function Pow2(n: nat): (r: nat)
    ensures r >= 1
  {
    if n == 0 then 1 else 2 * Pow2(n - 1)
  }

  /** The integer part of the binary logarithm; 0 for 0. */
  function Log2(n: nat): (l: nat)
    ensures n > 0 ==> Pow2(l) <= n < Pow2(l + 1)
  {
    if n <= 1 then 0 else 1 + Log2(n / 2)
  }

  function Times(x: nat, y: nat): nat {
    if x == 0 then 0 else y + Times(x - 1, y)
  }

  function Cube(n: nat): nat { Times(n, Times(n, n)) }

  lemma {:induction false} TimesIsProduct(x: nat, y: nat)
    ensures Times(x, y) == x * y
  {
    if x > 0 {
      TimesIsProduct(x - 1, y);
    }
  }

  lemma Products()
    ensures forall x: nat, y: nat {:trigger Times(x, y)} :: Times(x, y) == x * y
  {
    forall x: nat, y: nat
      ensures Times(x, y) == x * y
    {
      TimesIsProduct(x, y);
    }
  }

  lemma {:induction false} Pow2Add(m: nat, n: nat)
    ensures Pow2(m + n) == Times(Pow2(m), Pow2(n))
  {
    if m == 0 {
      TimesOne(Pow2(n));
    } else {
      Pow2Add(m - 1, n);
      TimesDoubled(Pow2(m - 1), Pow2(n));
    }
  }

  lemma TimesDoubled(x: nat, y: nat)
    ensures Times(2 * x, y) == 2 * Times(x, y)
  {
    TimesIsProduct(x, y);
    TimesIsProduct(2 * x, y);
  }

  lemma {:induction false} Pow2Strict(m: nat, n: nat)
    requires m < n
    ensures Pow2(m) < Pow2(n)
  {
    if m < n - 1 {
      Pow2Strict(m, n - 1);
    }
  }

  lemma TimesStep(m: nat, k: nat)
    ensures Times(m + 1, k) == Times(m, k) + k && Times(0, k) == 0
  {
  }

  lemma TimesOne(x: nat)
    ensures Times(x, 1) == x && Times(1, x) == x
  {
    Products();
  }

  lemma TimesCommutes(x: nat, y: nat)
    ensures Times(x, y) == Times(y, x)
  {
    Products();
  }

  lemma TimesPositive(x: nat, y: nat)
    requires 1 <= x && 1 <= y
    ensures 1 <= Times(x, y) && x <= Times(x, y) && y <= Times(x, y)
  {
    Products();
    MulMono(1, x, y);
    MulMono(1, y, x);
  }

  lemma TimesMono(a: nat, b: nat, c: nat, d: nat)
    requires a <= c && b <= d
    ensures Times(a, b) <= Times(c, d)
  {
    Products();
    MulMono(a, c, b);
    MulMono(b, d, c);
  }

  lemma CubeMono(m: nat, n: nat)
    requires m <= n
    ensures Cube(m) <= Cube(n)
  {
    TimesMono(m, m, n, n);
    TimesMono(m, Times(m, m), n, Times(n, n));
  }

  lemma CubePositive(n: nat)
    requires n >= 1
    ensures n <= Times(n, n) <= Cube(n)
  {
    TimesPositive(n, n);
    TimesPositive(n, Times(n, n));
  }

  // ---- on products ----

  lemma MulMono(x: int, y: int, z: int)
    requires x <= y && 0 <= z
    ensures x * z <= y * z && z * x <= z * y
  {
  }

  lemma CancelLeft(k: int, x: int, y: int)
    requires k > 0 && k * x <= k * y
    ensures x <= y
  {
  }

  lemma FourXY(x: int, y: int)
    ensures 4 * (x * y) <= (x + y) * (x + y)
  {
    assert (x + y) * (x + y) - 4 * (x * y) == (x - y) * (x - y);
  }

  lemma Regroup1(c: int, e: int, m: int, w: int, d: int)
    ensures c * ((4 * e) * (m * (w * d))) == ((c * d) * e) * (4 * (m * w))
  {
  }

  lemma Regroup2(p: int, c: int, m: int, w: int)
    ensures (p * (c * (c * c))) * (4 * (m * w)) == (p * (c * c) * m) * (4 * (c * w))
  {
  }

  lemma Regroup3(p: int, c: int, m: int)
    ensures (p * (c * c) * m) * (m * m) == (p * (c * c)) * (m * (m * m))
  {
  }

  lemma Regroup4(p: int, c: int, k: int)
    ensures (p * (c * c)) * k == c * ((p * c) * k)
  {
  }

  lemma Regroup5(n: int, m: int, w: int, d: int, ab: int, e: int)
    ensures (n * (m * (d * (w * ab)))) * (4 * e) == (n * ab) * ((4 * e) * (m * (w * d)))
  {
  }

  lemma Regroup6(n: int, a: int, b: int, s: int, p: int, k: int)
    ensures (n * (a * b)) * ((p * s) * k) == (n * (a * (s * (b * p)))) * k
  {
  }

  lemma Regroup7(n: int, m: int, p: int, k: int)
    ensures (n * (m * p)) * k == (m * p) * (k * n)
  {
  }

  lemma Regroup8(n: int, b: int, p: int, q: int, k: int)
    ensures (n * (p * (b * q))) * k == (n * (p * q)) * (b * k)
  {
  }

  lemma Regroup9(nn: int, k: int, m: int, e: int)
    ensures (nn * (k * m)) * (2 * e) == (2 * nn * k) * (m * e)
  {
  }

  lemma Regroup10(nn: int, k: int, c: int, c3: int)
    ensures (2 * nn * k) * (c * c3) == (k * c) * (2 * (nn * c3))
  {
  }

  lemma ProductCubes(m: nat, n: nat)
    requires m <= n
    ensures m * (m * m) <= n * (n * n)
  {
    MulMono(m, n, m);
    MulMono(m, n, n);
    MulMono(m * m, n * n, m);
    MulMono(m, n, n * n);
  }

  /** One round of the merge: `c` nodes already merged, `w + 1` in the pair. */
  lemma RoundProduct(d: nat, e: nat, p: nat, c: nat, w: nat, n: nat)
    requires c >= 1 && n == c + w + 1
    requires (c * d) * e <= p * (c * (c * c))
    ensures (4 * e) * ((n - 1) * (w * d)) <= (p * c) * (n * (n * n))
  {
    var m, c3, n3 := n - 1, c * (c * c), n * (n * n);
    var lhs, rhs, q := (4 * e) * (m * (w * d)), (p * c) * n3, 4 * (m * w);
    assert c * lhs == ((c * d) * e) * q by { Regroup1(c, e, m, w, d); }
    assert ((c * d) * e) * q <= (p * c3) * q by { MulMono((c * d) * e, p * c3, q); }
    assert (p * c3) * q == (p * (c * c) * m) * (4 * (c * w)) by { Regroup2(p, c, m, w); }
    assert (p * (c * c) * m) * (4 * (c * w)) <= (p * (c * c) * m) * (m * m) by {
      FourXY(c, w);
      MulMono(4 * (c * w), m * m, p * (c * c) * m);
    }
    assert (p * (c * c) * m) * (m * m) == (p * (c * c)) * (m * (m * m)) by { Regroup3(p, c, m); }
    assert (p * (c * c)) * (m * (m * m)) <= (p * (c * c)) * n3 by {
      ProductCubes(m, n);
      MulMono(m * (m * m), n3, p * (c * c));
    }
    assert (p * (c * c)) * n3 == c * rhs by { Regroup4(p, c, n3); }
    CancelLeft(c, lhs, rhs);
  }

  lemma RoundProducts(n: nat, c: nat, w: nat, s: nat, d: nat, e: nat, p: nat, pa: nat, pb: nat)
    requires c >= 1 && n == c + w + 1 && c <= s
    requires (c * d) * e <= p * (c * (c * c))
    ensures (n * ((n - 1) * (d * (w * (pa * pb))))) * (4 * e) <= (n * (pa * (s * (pb * p)))) * (n * (n * n))
  {
    var ab, lhs, n3 := pa * pb, (4 * e) * ((n - 1) * (w * d)), n * (n * n);
    assert (n * ((n - 1) * (d * (w * ab)))) * (4 * e) == (n * ab) * lhs by { Regroup5(n, n - 1, w, d, ab, e); }
    assert lhs <= (p * c) * n3 by { RoundProduct(d, e, p, c, w, n); }
    assert (p * c) * n3 <= (p * s) * n3 by {
      MulMono(c, s, p);
      MulMono(p * c, p * s, n3);
    }
    assert (n * ab) * lhs <= (n * ab) * ((p * s) * n3) by { MulMono(lhs, (p * s) * n3, n * ab); }
    Regroup6(n, pa, pb, s, p, n3);
  }

  lemma PairProducts(a: nat, b: nat, p: nat, q: nat)
    ensures var n := a + b + 2;
      (n * ((n - 1) * (p * q))) * 2 <= (n * (p * ((b + 1) * q))) * (n * (n * n))
  {
    var n := a + b + 2;
    var k, n3 := n * (p * q), n * (n * n);
    Regroup11(n, n - 1, p * q);
    Regroup8(n, b + 1, p, q, n3);
    TwiceIsBelowCube(n);
    MulMono(1, b + 1, n3);
    MulMono(2 * (n - 1), (b + 1) * n3, k);
  }

  lemma Regroup11(n: int, m: int, p: int)
    ensures (n * (m * p)) * 2 == (n * p) * (2 * m)
  {
  }

  lemma TwiceIsBelowCube(n: nat)
    requires n >= 2
    ensures 2 * n <= n * (n * n)
  {
    MulMono(1, n, n);
    MulMono(2, n * n, n);
  }

  lemma Regroup12(n: int, u: int, q: int, k: int)
    ensures (n * (u * q)) * k == (n * q) * (u * k)
    ensures (n * (q * u)) * k == (n * q) * (u * k)
  {
  }

  lemma StepProducts(n': nat, n: nat, u: nat, k: nat, p: nat, q: nat)
    requires n' <= n && u * k <= p
    ensures (n' * (u * q)) * k <= n * (p * q)
    ensures (n' * (q * u)) * k <= n * (q * p)
  {
    Regroup12(n', u, q, k);
    MulMono(n', n, q);
    MulMono(u * k, p, n' * q);
    MulMono(n' * q, n * q, p);
    Regroup12(n, p, q, 1);
  }

  lemma JoinProducts(x: nat, nn: nat, a: nat, b: nat, k: nat, m: nat, c: nat, c3: nat, e: nat, p: nat, f: nat)
    requires x <= nn * (a * b) && a <= k && b <= m
    requires m * e <= c * c3 && k * c <= p && 2 * (nn * c3) <= f
    ensures x * (2 * e) <= p * f
  {
    assert nn * (a * b) <= nn * (k * m) by {
      MulMono(a, k, b);
      MulMono(b, m, k);
      MulMono(a * b, k * m, nn);
    }
    assert x * (2 * e) <= (2 * nn * k) * (m * e) by {
      MulMono(x, nn * (k * m), 2 * e);
      Regroup9(nn, k, m, e);
    }
    assert (2 * nn * k) * (m * e) <= (k * c) * (2 * (nn * c3)) by {
      MulMono(m * e, c * c3, 2 * nn * k);
      Regroup10(nn, k, c, c3);
    }
    MulMono(k * c, p, 2 * (nn * c3));
    MulMono(2 * (nn * c3), f, p);
  }

  lemma ChainProducts(p': nat, e: nat, p: nat, f: nat, m: nat, q: nat)
    requires p' * e <= p * f && p * m <= q
    ensures p' * (m * e) <= q * f
  {
    assert p' * (m * e) == (p' * e) * m;
    MulMono(p' * e, p * f, m);
    assert (p * f) * m == (p * m) * f;
    MulMono(p * m, q, f);
  }

  // ---- on Times, as the tree lemmas need them ----

  /** A round that melds the pair of trees (a, b) and joins it with `c` merged nodes; `pt`,
      `pr` and `pm` are the potentials of the child list, of the merged rest and of the result. */
  lemma RoundTotal(n: nat, c: nat, w: nat, s: nat, d: nat, e: nat, p: nat, pa: nat, pb: nat,
                   pr: nat, pt: nat, pm: nat, em: nat)
    requires c >= 1 && n == c + w + 1 && c <= s && em == 4 * e
    requires pr == Times(c, d) && Times(pr, e) <= Times(p, Cube(c))
    requires pm == Times(n, Times(n - 1, Times(d, Times(w, Times(pa, pb)))))
    requires pt == Times(n, Times(pa, Times(s, Times(pb, p))))
    ensures Times(pm, em) <= Times(pt, Cube(n))
  {
    Products();
    RoundProducts(n, c, w, s, d, e, p, pa, pb);
  }

  /** The last round when the number of children is even: one pair, nothing to join. */
  lemma PairTotal(a: nat, b: nat, n: nat, p: nat, q: nat, pm: nat, pt: nat, em: nat)
    requires n == a + b + 2 && em == 2
    requires pm == Times(n, Times(n - 1, Times(p, q))) && pt == Times(n, Times(p, Times(b + 1, q)))
    ensures Times(pm, em) <= Times(pt, Cube(n))
  {
    Products();
    PairProducts(a, b, p, q);
  }

  lemma StepTotal(n': nat, n: nat, u: nat, k: nat, p: nat, q: nat)
    requires n' <= n && Times(u, k) <= p
    ensures Times(Times(n', Times(u, q)), k) <= Times(n, Times(p, q))
    ensures Times(Times(n', Times(q, u)), k) <= Times(n, Times(q, p))
  {
    Products();
    StepProducts(n', n, u, k, p, q);
  }

  lemma InsertTotal(n: nat, p: nat, f: nat)
    requires n >= 1 && 2 * n <= f
    ensures Times(Times(n, Times(n - 1, p)), 2) <= Times(Times(n - 1, p), f)
  {
    Products();
    Regroup7(n, n - 1, p, 2);
    MulMono(2 * n, f, (n - 1) * p);
  }

  lemma WidenTotal(n: nat, ab: nat)
    requires n >= 2
    ensures Times(n - 1, Times(n - 2, ab)) <= Times(Times(n, n), ab)
  {
    Products();
    assert (n - 1) * ((n - 2) * ab) == ((n - 1) * (n - 2)) * ab;
    MulMono(n - 1, n, n - 2);
    MulMono(n - 2, n, n);
    MulMono((n - 1) * (n - 2), n * n, ab);
  }

  /** Joining the orphans: k and m are the parts' potentials, e is 2^melds. */
  lemma JoinTotal(x: nat, nn: nat, a: nat, b: nat, k: nat, m: nat, c: nat, c3: nat, e: nat, p: nat, f: nat)
    requires x <= Times(nn, Times(a, b)) && a <= k && b <= m
    requires Times(m, e) <= Times(c, c3) && Times(k, c) <= p && 2 * Times(nn, c3) <= f
    ensures Times(x, 2 * e) <= Times(p, f)
  {
    Products();
    JoinProducts(x, nn, a, b, k, m, c, c3, e, p, f);
  }

  lemma ChainTotal(p': nat, e: nat, p: nat, f: nat, m: nat, q: nat, m': nat, q': nat)
    requires Times(p', e) <= Times(p, f) && Times(p, m) <= q
    requires m' == Times(m, e) && q' == Times(q, f)
    ensures Times(p', m') <= q'
  {
    Products();
    ChainProducts(p', e, p, f, m, q);
  }

  lemma {:induction false} PowerBound(p: nat, m: nat, k: nat)
    requires p >= 1 && Times(p, Pow2(m)) <= Pow2(k)
    ensures m <= k
  {
    TimesPositive(p, Pow2(m));
    if k < m {
      Pow2Strict(k, m);
    }
  }
}
