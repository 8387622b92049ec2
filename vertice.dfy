/** geometry/vertice.py: a point of the plane and its algebra. */
module Vertices {
  import opened Errors
  import opened Utils
  import opened Randomness

  /** A point; Python stores both coordinates as floats, modelled as reals. */
  datatype Vertice = Vertice(x: real, y: real)

  /** `Vertice()`: both coordinates default to 0. */
  const Origin: Vertice := Vertice(0.0, 0.0)

  /** `v.angle(center)`, the `atan2` of the offset of `v` from `center`; the
      model leaves it uninterpreted: it is only ever used as a sort key. */
  type AngleFn = (Vertice, Vertice) -> real

  /** A subscript key: `0`/`1` or `'x'`/`'y'`. */
  datatype Key = IntKey(i: int) | StrKey(s: string)

  /** `v[key]`: 0 or 'x' gives x, 1 or 'y' gives y, any other key is a KeyError. */
  function GetItem(v: Vertice, key: Key): (r: Result<real>)
    ensures r.Ok? <==> key in {IntKey(0), StrKey("x"), IntKey(1), StrKey("y")}
    ensures key in {IntKey(0), StrKey("x")} ==> r == Ok(v.x)
    ensures key in {IntKey(1), StrKey("y")} ==> r == Ok(v.y)
  {
    if key == IntKey(0) || key == StrKey("x") then Ok(v.x)
    else if key == IntKey(1) || key == StrKey("y") then Ok(v.y)
    else Err(KeyError)
  }

  /** The two subscripts recover the point. */
  lemma GetItemRecovers(v: Vertice)
    ensures Vertice(GetItem(v, IntKey(0)).value, GetItem(v, IntKey(1)).value) == v
    ensures GetItem(v, StrKey("x")) == GetItem(v, IntKey(0))
    ensures GetItem(v, StrKey("y")) == GetItem(v, IntKey(1))
    ensures GetItem(v, IntKey(2)) == Err(KeyError)
  {
  }

  /** `a + b` */
  function Add(a: Vertice, b: Vertice): Vertice
  {
    Vertice(a.x + b.x, a.y + b.y)
  }

  /** `a - b` */
  function Sub(a: Vertice, b: Vertice): Vertice
  {
    Vertice(a.x - b.x, a.y - b.y)
  }

  /** `a * s` with `s` an int or a float. */
  function Scale(a: Vertice, s: real): Vertice
  {
    Vertice(a.x * s, a.y * s)
  }

  /** `a * b` with `b` a point: the z-component of the cross product. */
  function Cross(a: Vertice, b: Vertice): real
  {
    a.x * b.y - a.y * b.x
  }

  /** `a / f`: a zero factor raises ZeroDivisionError. */
  function Div(a: Vertice, f: real): (r: Result<Vertice>)
    ensures r.Err? <==> f == 0.0
    ensures r.Err? ==> r.error == ZeroDivisionError
  {
    if f == 0.0 then Err(ZeroDivisionError) else Ok(Vertice(a.x / f, a.y / f))
  }

  /** Addition and subtraction are componentwise and undo each other. */
  lemma AddSubInverse(a: Vertice, b: Vertice)
    ensures Sub(Add(a, b), b) == a
    ensures Add(Sub(a, b), b) == a
    ensures Add(a, b) == Add(b, a)
    ensures Add(a, Origin) == a
  {
  }

  /** Dividing by a non-zero factor undoes scaling by it. */
  lemma DivUndoesScale(a: Vertice, f: real)
    requires f != 0.0
    ensures Div(Scale(a, f), f) == Ok(a)
    ensures Scale(Div(a, f).value, f) == a
  {
    var s := Scale(a, f);
    assert s.x / f == a.x && s.y / f == a.y;
    assert Div(s, f) == Ok(Vertice(s.x / f, s.y / f));
  }

  /** The cross product is antisymmetric, so it vanishes on equal operands,
      and it is linear in scaling. */
  lemma CrossAntisymmetric(a: Vertice, b: Vertice, s: real)
    ensures Cross(a, b) == -Cross(b, a)
    ensures Cross(a, a) == 0.0
    ensures Cross(Scale(a, s), b) == s * Cross(a, b)
  {
  }

  /** `a == b`: exact equality of both coordinates. */
  predicate Eq(a: Vertice, b: Vertice)
  {
    a.x == b.x && a.y == b.y
  }

  /** `a != b`: `not a == b`. */
  predicate Ne(a: Vertice, b: Vertice)
  {
    !Eq(a, b)
  }

  /** Python equality of points is value equality of the model. */
  lemma EqIsEquality(a: Vertice, b: Vertice)
    ensures Eq(a, b) <==> a == b
    ensures Ne(a, b) <==> a != b
  {
  }

  /** `a >= b`: both coordinates. */
  predicate Ge(a: Vertice, b: Vertice) { a.x >= b.x && a.y >= b.y }

  /** `a > b`: both coordinates. */
  predicate Gt(a: Vertice, b: Vertice) { a.x > b.x && a.y > b.y }

  /** `a <= b`: both coordinates. */
  predicate Le(a: Vertice, b: Vertice) { a.x <= b.x && a.y <= b.y }

  /** `a < b`: both coordinates. */
  predicate Lt(a: Vertice, b: Vertice) { a.x < b.x && a.y < b.y }

  /** The strict and non-strict comparisons are each other's converses,
      and strict implies non-strict and unequal. */
  lemma ComparisonsConverse(a: Vertice, b: Vertice)
    ensures Lt(a, b) <==> Gt(b, a)
    ensures Le(a, b) <==> Ge(b, a)
    ensures Lt(a, b) ==> Le(a, b) && Ne(a, b)
    ensures Le(a, b) && Le(b, a) ==> a == b
  {
  }

  /** `<=` is transitive (with reflexivity and antisymmetry above, a partial order). */
  lemma LeTransitive(a: Vertice, b: Vertice, c: Vertice)
    requires Le(a, b) && Le(b, c)
    ensures Le(a, c) && Le(a, a)
  {
  }

  /** The order is not total: (1, 5) and (5, 1) are unrelated and unequal. */
  lemma OrderNotTotal()
    ensures var a, b := Vertice(1.0, 5.0), Vertice(5.0, 1.0);
      !Lt(a, b) && !Gt(a, b) && !Le(a, b) && !Ge(a, b) && Ne(a, b)
  {
  }

  /** `Vertice.random(space)`: x drawn from `[int(v0.x), int(v2.x)]`, then y
      from `[int(v0.y), int(v2.y)]`, where v0, v2 are `space.vertices[0]`, `[2]`.
      `k` numbers the draws; the result carries the next draw number. An empty
      range is randint's ValueError; a space with fewer than 3 vertices an
      IndexError. */
  function RandomVertice(space: seq<Vertice>, rnd: RandInt, k: nat): (r: Result<(Vertice, nat)>)
    ensures r.Ok? <==> |space| >= 3 && Trunc(space[0].x) <= Trunc(space[2].x)
                                    && Trunc(space[0].y) <= Trunc(space[2].y)
    ensures r.Ok? ==> r.value.1 == k + 2
    ensures r.Ok? && ValidRandom(rnd) ==>
      Trunc(space[0].x) as real <= r.value.0.x <= Trunc(space[2].x) as real &&
      Trunc(space[0].y) as real <= r.value.0.y <= Trunc(space[2].y) as real
  {
    if |space| < 3 then Err(IndexError)
    else
      var loX, hiX := Trunc(space[0].x), Trunc(space[2].x);
      if loX > hiX then Err(ValueError)
      else
        var x := rnd(k, loX, hiX);
        var loY, hiY := Trunc(space[0].y), Trunc(space[2].y);
        if loY > hiY then Err(ValueError)
        else Ok((Vertice(x as real, rnd(k + 1, loY, hiY) as real), k + 2))
  }
}
