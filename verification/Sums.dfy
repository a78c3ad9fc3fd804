/** Option, and finite sums over sets of keys, shared by the other modules. */
module Wrappers {
  datatype Option<+T> = None | Some(value: T)

  datatype Result<+T, +E> = Success(value: T) | Failure(error: E)

  /** A refusal is the reason of the first rule that is broken; there is none if no rule is. */
  ghost predicate FirstBroken<R(!new)>(r: Option<R>, rules: seq<(bool, R)>) {
    && (r == None <==> forall i :: 0 <= i < |rules| ==> !rules[i].0)
    && forall i :: 0 <= i < |rules| && rules[i].0 && (forall j :: 0 <= j < i ==> !rules[j].0) ==> r == Some(rules[i].1)
  }
}

/** Sums of a real-valued function over a finite set of keys. */
module Sums {
  ghost function SumOver<K(!new)>(keys: set<K>, f: K -> real): real
    decreases |keys|
  {
    if keys == {} then 0.0
    else
      var k :| k in keys;
      f(k) + SumOver(keys - {k}, f)
  }

  /** The sum does not depend on which key is taken first. */
  lemma {:induction false} SumRemove<K(!new)>(keys: set<K>, f: K -> real, k: K)
    requires k in keys
    ensures SumOver(keys, f) == f(k) + SumOver(keys - {k}, f)
    decreases |keys|
  {
    var c :| c in keys && SumOver(keys, f) == f(c) + SumOver(keys - {c}, f);
    if c != k {
      SumRemove(keys - {c}, f, k);
      SumRemove(keys - {k}, f, c);
      assert keys - {c} - {k} == keys - {k} - {c};
    }
  }

  lemma {:induction false} SumInsert<K(!new)>(keys: set<K>, f: K -> real, k: K)
    requires k !in keys
    ensures SumOver(keys + {k}, f) == f(k) + SumOver(keys, f)
  {
    SumRemove(keys + {k}, f, k);
    assert keys + {k} - {k} == keys;
  }

  /** Sums of pointwise equal functions are equal. */
  lemma {:induction false} SumCongruent<K(!new)>(keys: set<K>, f: K -> real, g: K -> real)
    requires forall k :: k in keys ==> f(k) == g(k)
    ensures SumOver(keys, f) == SumOver(keys, g)
    decreases |keys|
  {
    if keys != {} {
      var k :| k in keys;
      SumRemove(keys, f, k);
      SumRemove(keys, g, k);
      SumCongruent(keys - {k}, f, g);
    }
  }

  lemma {:induction false} SumAdd<K(!new)>(keys: set<K>, f: K -> real, g: K -> real, h: K -> real)
    requires forall k :: k in keys ==> h(k) == f(k) + g(k)
    ensures SumOver(keys, h) == SumOver(keys, f) + SumOver(keys, g)
    decreases |keys|
  {
    if keys != {} {
      var k :| k in keys;
      SumRemove(keys, f, k);
      SumRemove(keys, g, k);
      SumRemove(keys, h, k);
      SumAdd(keys - {k}, f, g, h);
    }
  }

  /** A function that is zero everywhere but at one key sums to its value there. */
  lemma {:induction false} SumPoint<K(!new)>(keys: set<K>, f: K -> real, p: K)
    requires forall k :: k in keys && k != p ==> f(k) == 0.0
    ensures SumOver(keys, f) == if p in keys then f(p) else 0.0
    decreases |keys|
  {
    if p in keys {
      SumRemove(keys, f, p);
      SumPoint(keys - {p}, f, p);
    } else if keys != {} {
      var k :| k in keys;
      SumRemove(keys, f, k);
      SumPoint(keys - {k}, f, p);
    }
  }
}
