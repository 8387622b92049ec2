/** The Python values that reach geometry/collection.py through the options
    dictionary and geometry/shapes/rectangle.py through the `/` operand,
    with the membership, subscript and comparison rules the code relies on. */
module Values {
  import opened Errors
  import opened Vertices

  /** A Python value. `RectV` is an instance of `Rectangle`, given by the
      attributes its constructor stores. Dictionaries have string keys. */
  datatype Value =
    | IntV(i: int)
    | FloatV(r: real)
    | StrV(s: string)
    | NoneV
    | TupleV(items: seq<Value>)
    | DictV(entries: map<string, Value>)
    | RectV(topLeft: Vertice, length: real, width: real)
    | OtherV

  /** `sub` occurs in `s` as a contiguous block. */
  predicate IsSubstring(sub: string, s: string)
  {
    exists i :: 0 <= i <= |s| && sub <= s[i..]
  }

  /** `key in container`: a dictionary tests its keys, a string its
      substrings, a tuple its elements by `==`. Numbers and None are not
      iterable; a Rectangle is iterated through `__getitem__`, whose first
      vertex then refuses the comparison with a string: all TypeError. */
  function Contains(container: Value, key: string): (r: Result<bool>)
    ensures r.Err? <==> !(container.DictV? || container.StrV? || container.TupleV?)
    ensures r.Err? ==> r.error == TypeError
    ensures container.DictV? ==> r == Ok(key in container.entries)
  {
    match container
    case DictV(m) => Ok(key in m)
    case StrV(s) => Ok(IsSubstring(key, s))
    case TupleV(items) => Ok(StrV(key) in items)
    case _ => Err(TypeError)
  }

  /** `container[key]` for a string key: a dictionary looks it up (KeyError
      when absent); a string or tuple needs an integer index, a Rectangle
      compares the key with 0, and the other values are not subscriptable:
      TypeError. */
  function GetKey(container: Value, key: string): (r: Result<Value>)
    ensures r.Ok? <==> container.DictV? && key in container.entries
    ensures r.Ok? ==> r.value == container.entries[key]
    ensures r.Err? && container.DictV? ==> r.error == KeyError
    ensures r.Err? && !container.DictV? ==> r.error == TypeError
  {
    match container
    case DictV(m) => if key in m then Ok(m[key]) else Err(KeyError)
    case _ => Err(TypeError)
  }

  /** `v >= 0`: numbers compare; anything else raises TypeError. */
  function AtLeastZero(v: Value): (r: Result<bool>)
    ensures r.Ok? <==> v.IntV? || v.FloatV?
    ensures v.IntV? ==> r == Ok(v.i >= 0)
    ensures v.FloatV? ==> r == Ok(v.r >= 0.0)
    ensures r.Err? ==> r.error == TypeError
  {
    match v
    case IntV(i) => Ok(i >= 0)
    case FloatV(f) => Ok(f >= 0.0)
    case _ => Err(TypeError)
  }

  /** `t[index]` on a tuple: IndexError outside its length. */
  function TupleItem(items: seq<Value>, index: nat): (r: Result<Value>)
    ensures r.Ok? <==> index < |items|
    ensures r.Ok? ==> r.value == items[index]
    ensures r.Err? ==> r.error == IndexError
  {
    if index < |items| then Ok(items[index]) else Err(IndexError)
  }

  /** `v == n` for an integer literal `n`: only numbers can be equal to it. */
  predicate EqualsInt(v: Value, n: int)
  {
    (v.IntV? && v.i == n) || (v.FloatV? && v.r == n as real)
  }

  lemma ContainsExamples()
    ensures Contains(DictV(map["space" := NoneV]), "space") == Ok(true)
    ensures Contains(StrV("a space"), "space") == Ok(true)
    ensures Contains(TupleV([StrV("space")]), "space") == Ok(true)
    ensures Contains(TupleV([IntV(1)]), "space") == Ok(false)
    ensures Contains(IntV(2), "space") == Err(TypeError)
  {
    assert "space" <= "a space"[2..];
    assert TupleV([StrV("space")]).items[0] == StrV("space");
  }
}
