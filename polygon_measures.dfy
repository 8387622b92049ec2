/** The pure measures of geometry/shapes/polygon.py: `couples`, `area` and
    `center`, on a polygon's vertex sequence. */
module PolygonMeasures {
  import opened Errors
  import opened Vertices

  type Couple = (Vertice, Vertice)

  /** Python's `zip`: stops at the shorter operand. */
  function Zip(a: seq<Vertice>, b: seq<Vertice>): (r: seq<Couple>)
    ensures |r| == if |a| <= |b| then |a| else |b|
    ensures forall i :: 0 <= i < |r| ==> r[i] == (a[i], b[i])
  {
    if a == [] || b == [] then [] else [(a[0], b[0])] + Zip(a[1..], b[1..])
  }

  /** `couples()`: `zip(vertices, islice(cycle(vertices), 1, None))`; the
      first n items of the rotated cycle are `vs[1..] + [vs[0]]`. The result
      has exactly one pair per vertex, the last one wrapping to vertex 0. */
  function Couples(vs: seq<Vertice>): (r: seq<Couple>)
    ensures |r| == |vs|
    ensures forall i :: 0 <= i < |vs| ==>
      r[i] == (vs[i], if i + 1 < |vs| then vs[i + 1] else vs[0])
  {
    if vs == [] then [] else Zip(vs, vs[1..] + [vs[0]])
  }

  /** `sum(v1 * v2 for v1, v2 in couples)`, accumulated left to right. */
  function SumCross(ps: seq<Couple>): real
  {
    if ps == [] then 0.0
    else SumCross(ps[..|ps| - 1]) + Cross(ps[|ps| - 1].0, ps[|ps| - 1].1)
  }

  /** `area()`: half the cyclic sum of cross products (the signed shoelace area). */
  function Area(vs: seq<Vertice>): real
  {
    SumCross(Couples(vs)) / 2.0
  }

  /** The pairs of consecutive vertices without the closing pair. */
  function ChainPairs(vs: seq<Vertice>): (r: seq<Couple>)
    ensures |vs| > 0 ==> |r| == |vs| - 1
  {
    if vs == [] then []
    else seq(|vs| - 1, i requires 0 <= i < |vs| - 1 => (vs[i], vs[i + 1]))
  }

  function Reverse(vs: seq<Vertice>): (r: seq<Vertice>)
    ensures |r| == |vs|
  {
    seq(|vs|, i requires 0 <= i < |vs| => vs[|vs| - 1 - i])
  }

  /** Every vertex moved by `t`. */
  function Translate(vs: seq<Vertice>, t: Vertice): (r: seq<Vertice>)
    ensures |r| == |vs|
  {
    seq(|vs|, i requires 0 <= i < |vs| => Add(vs[i], t))
  }

  /** The pairs in reverse order, each pair swapped. */
  function RevSwap(ps: seq<Couple>): (r: seq<Couple>)
    ensures |r| == |ps|
  {
    seq(|ps|, j requires 0 <= j < |ps| => (ps[|ps| - 1 - j].1, ps[|ps| - 1 - j].0))
  }

  lemma CouplesSplit(vs: seq<Vertice>)
    requires |vs| > 0
    ensures Couples(vs) == ChainPairs(vs) + [(vs[|vs| - 1], vs[0])]
  {
    var n := |vs|;
    var c, p := Couples(vs), ChainPairs(vs) + [(vs[n - 1], vs[0])];
    assert forall i :: 0 <= i < n ==> c[i] == p[i];
    assert c == p;
  }

  /** The cyclic sum is the chain sum plus the closing cross product. */
  lemma CouplesSum(vs: seq<Vertice>)
    requires |vs| > 0
    ensures SumCross(Couples(vs)) == SumCross(ChainPairs(vs)) + Cross(vs[|vs| - 1], vs[0])
  {
    CouplesSplit(vs);
    var c := Couples(vs);
    assert c[..|c| - 1] == ChainPairs(vs);
  }

  lemma {:induction false} SumCrossAppend(a: seq<Couple>, b: seq<Couple>)
    ensures SumCross(a + b) == SumCross(a) + SumCross(b)
  {
    if b != [] {
      SumCrossAppend(a, b[..|b| - 1]);
      assert (a + b)[..|a + b| - 1] == a + b[..|b| - 1];
    } else {
      assert a + b == a;
    }
  }

  lemma {:induction false} SumCrossRevSwap(ps: seq<Couple>)
    ensures SumCross(RevSwap(ps)) == -SumCross(ps)
  {
    if ps != [] {
      var n := |ps|;
      var last, front := ps[n - 1], ps[..n - 1];
      SumCrossRevSwap(front);
      assert RevSwap(ps) == [(last.1, last.0)] + RevSwap(front);
      SumCrossAppend([(last.1, last.0)], RevSwap(front));
      assert SumCross([(last.1, last.0)]) == Cross(last.1, last.0);
      CrossAntisymmetric(last.0, last.1, 0.0);
    }
  }

  lemma ChainPairsReverse(vs: seq<Vertice>)
    ensures ChainPairs(Reverse(vs)) == RevSwap(ChainPairs(vs))
  {
    if vs != [] {
      var n, l, r := |vs|, ChainPairs(Reverse(vs)), RevSwap(ChainPairs(vs));
      forall j | 0 <= j < n - 1 ensures l[j] == r[j] {
        assert l[j] == (vs[n - 1 - j], vs[n - 2 - j]);
        assert ChainPairs(vs)[n - 2 - j] == (vs[n - 2 - j], vs[n - 1 - j]);
      }
    }
  }

  /** `area()` of the reversed vertex order is the negated area. */
  lemma AreaReverse(vs: seq<Vertice>)
    ensures Area(Reverse(vs)) == -Area(vs)
  {
    if vs != [] {
      var n, r := |vs|, Reverse(vs);
      CouplesSum(vs);
      CouplesSum(r);
      ChainPairsReverse(vs);
      SumCrossRevSwap(ChainPairs(vs));
      CrossAntisymmetric(vs[0], vs[n - 1], 0.0);
      assert r[n - 1] == vs[0] && r[0] == vs[n - 1];
      assert SumCross(Couples(r)) == -SumCross(Couples(vs));
    }
  }

  lemma CrossTranslate(a: Vertice, b: Vertice, t: Vertice)
    ensures Cross(Add(a, t), Add(b, t)) == Cross(a, b) + Cross(a, t) - Cross(b, t)
  {
    calc {
      Cross(Add(a, t), Add(b, t));
      (a.x + t.x) * (b.y + t.y) - (a.y + t.y) * (b.x + t.x);
      (a.x * b.y - a.y * b.x) + (a.x * t.y - a.y * t.x) - (b.x * t.y - b.y * t.x);
    }
  }

  lemma {:induction false} ChainTranslate(vs: seq<Vertice>, t: Vertice)
    requires |vs| > 0
    ensures SumCross(ChainPairs(Translate(vs, t)))
         == SumCross(ChainPairs(vs)) + Cross(vs[0], t) - Cross(vs[|vs| - 1], t)
  {
    var n, w := |vs|, Translate(vs, t);
    if n > 1 {
      var front := vs[..n - 1];
      ChainTranslate(front, t);
      assert Translate(front, t) == w[..n - 1];
      assert ChainPairs(w)[..n - 2] == ChainPairs(w[..n - 1]);
      assert ChainPairs(vs)[..n - 2] == ChainPairs(front);
      CrossTranslate(vs[n - 2], vs[n - 1], t);
    }
  }

  /** Translating every vertex leaves `area()` unchanged. */
  lemma AreaTranslate(vs: seq<Vertice>, t: Vertice)
    ensures Area(Translate(vs, t)) == Area(vs)
  {
    if vs != [] {
      var n, w := |vs|, Translate(vs, t);
      CouplesSum(vs);
      CouplesSum(w);
      ChainTranslate(vs, t);
      CrossTranslate(vs[n - 1], vs[0], t);
      assert SumCross(Couples(w)) == SumCross(Couples(vs));
    }
  }

  /** The triangle (0,0), (4,0), (0,3) has area 6, and -6 in reverse order. */
  lemma AreaOfRightTriangle()
    ensures Area([Vertice(0.0, 0.0), Vertice(4.0, 0.0), Vertice(0.0, 3.0)]) == 6.0
    ensures Area([Vertice(0.0, 3.0), Vertice(4.0, 0.0), Vertice(0.0, 0.0)]) == -6.0
  {
    var t := [Vertice(0.0, 0.0), Vertice(4.0, 0.0), Vertice(0.0, 3.0)];
    CouplesSum(t);
    var cp := ChainPairs(t);
    assert cp == [(t[0], t[1]), (t[1], t[2])];
    assert cp[..1] == [(t[0], t[1])];
    assert cp[..1][..0] == [];
    assert SumCross(cp[..1]) == Cross(t[0], t[1]);
    assert SumCross(cp) == Cross(t[0], t[1]) + Cross(t[1], t[2]);
    AreaReverse(t);
    assert Reverse(t) == [Vertice(0.0, 3.0), Vertice(4.0, 0.0), Vertice(0.0, 0.0)];
  }

  function X(v: Vertice): real { v.x }

  function Y(v: Vertice): real { v.y }

  /** `sum(f(v) for v in vs)`, accumulated left to right. */
  function SumOf(vs: seq<Vertice>, f: Vertice -> real): real
  {
    if vs == [] then 0.0 else SumOf(vs[..|vs| - 1], f) + f(vs[|vs| - 1])
  }

  /** `center()`: the mean of the coordinates; fewer than 3 vertices fail
      the assertion. */
  function Center(vs: seq<Vertice>): (r: Result<Vertice>)
    ensures r.Err? <==> |vs| < 3
    ensures r.Err? ==> r.error == AssertionError
  {
    if |vs| < 3 then Err(AssertionError)
    else Ok(Vertice(SumOf(vs, X) / |vs| as real, SumOf(vs, Y) / |vs| as real))
  }

  lemma {:induction false} SumOfAppend(a: seq<Vertice>, b: seq<Vertice>, f: Vertice -> real)
    ensures SumOf(a + b, f) == SumOf(a, f) + SumOf(b, f)
  {
    if b != [] {
      SumOfAppend(a, b[..|b| - 1], f);
      assert (a + b)[..|a + b| - 1] == a + b[..|b| - 1];
    } else {
      assert a + b == a;
    }
  }

  /** Removing one element takes its value out of the sum. */
  lemma SumOfRemove(b: seq<Vertice>, k: nat, f: Vertice -> real)
    requires k < |b|
    ensures SumOf(b, f) == SumOf(b[..k] + b[k + 1..], f) + f(b[k])
  {
    assert b == b[..k] + ([b[k]] + b[k + 1..]);
    SumOfAppend(b[..k], [b[k]] + b[k + 1..], f);
    SumOfAppend([b[k]], b[k + 1..], f);
    SumOfAppend(b[..k], b[k + 1..], f);
    assert [b[k]][..0] == [];
  }

  /** A sum over the vertices does not depend on their order. */
  lemma {:induction false} SumOfPermutation(a: seq<Vertice>, b: seq<Vertice>, f: Vertice -> real)
    requires multiset(a) == multiset(b)
    ensures SumOf(a, f) == SumOf(b, f)
  {
    if a == [] {
      assert |b| == |multiset(b)| == 0;
    } else {
      var n := |a|;
      var x := a[n - 1];
      assert a == a[..n - 1] + [x];
      assert x in multiset(b);
      var k :| 0 <= k < |b| && b[k] == x;
      var rest := b[..k] + b[k + 1..];
      MultisetRemove(b, k);
      assert multiset(a[..n - 1]) == multiset(a) - multiset{x};
      SumOfPermutation(a[..n - 1], rest, f);
      SumOfRemove(b, k, f);
    }
  }

  lemma MultisetRemove(b: seq<Vertice>, k: nat)
    requires k < |b|
    ensures multiset(b[..k] + b[k + 1..]) == multiset(b) - multiset{b[k]}
  {
    assert b == b[..k] + [b[k]] + b[k + 1..];
  }

  /** `center()` is invariant under permuting the vertices. */
  lemma CenterPermutationInvariant(a: seq<Vertice>, b: seq<Vertice>)
    requires multiset(a) == multiset(b)
    ensures Center(a) == Center(b)
  {
    assert |a| == |multiset(a)| == |multiset(b)| == |b|;
    SumOfPermutation(a, b, X);
    SumOfPermutation(a, b, Y);
  }
}
