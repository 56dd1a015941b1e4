/** Sums over sequences, and over the parts of a sequence that share a key. */
module Sums {
  import Bytes

  function Sum<T>(xs: seq<T>, f: T -> real): real { if xs == [] then 0.0 else f(xs[0]) + Sum(xs[1..], f) }

  function Total<T>(xs: seq<T>, f: T -> int): int { if xs == [] then 0 else f(xs[0]) + Total(xs[1..], f) }

  /** The elements with a key, in order. */
  function Part<T, K(==)>(xs: seq<T>, key: T -> K, k: K): seq<T> {
    if xs == [] then [] else (if key(xs[0]) == k then [xs[0]] else []) + Part(xs[1..], key, k)
  }

  predicate Distinct<K(==)>(keys: seq<K>) { forall i, j | 0 <= i < j < |keys| :: keys[i] != keys[j] }

  /** `keys` lists every key of `xs`, once; the order, and keys without elements, are free. */
  ghost predicate Lists<T, K>(keys: seq<K>, xs: seq<T>, key: T -> K) {
    Distinct(keys) && forall x | x in xs :: key(x) in keys
  }

  function SumOfParts<T, K(==)>(xs: seq<T>, key: T -> K, keys: seq<K>, f: T -> real): real {
    if keys == [] then 0.0 else Sum(Part(xs, key, keys[0]), f) + SumOfParts(xs, key, keys[1..], f)
  }

  function TotalOfParts<T, K(==)>(xs: seq<T>, key: T -> K, keys: seq<K>, f: T -> int): int {
    if keys == [] then 0 else Total(Part(xs, key, keys[0]), f) + TotalOfParts(xs, key, keys[1..], f)
  }

  lemma {:induction false} SumAppend<T>(xs: seq<T>, ys: seq<T>, f: T -> real)
    ensures Sum(xs + ys, f) == Sum(xs, f) + Sum(ys, f)
  {
    if xs == [] {
      assert xs + ys == ys;
    } else {
      assert (xs + ys)[1..] == xs[1..] + ys;
      SumAppend(xs[1..], ys, f);
    }
  }

  lemma {:induction false} TotalAppend<T>(xs: seq<T>, ys: seq<T>, f: T -> int)
    ensures Total(xs + ys, f) == Total(xs, f) + Total(ys, f)
  {
    if xs == [] {
      assert xs + ys == ys;
    } else {
      assert (xs + ys)[1..] == xs[1..] + ys;
      TotalAppend(xs[1..], ys, f);
    }
  }

  lemma {:induction false} PartAppend<T, K>(xs: seq<T>, ys: seq<T>, key: T -> K, k: K)
    ensures Part(xs + ys, key, k) == Part(xs, key, k) + Part(ys, key, k)
  {
    if xs == [] {
      assert xs + ys == ys;
      assert [] + Part(ys, key, k) == Part(ys, key, k);
    } else {
      assert (xs + ys)[1..] == xs[1..] + ys;
      PartAppend(xs[1..], ys, key, k);
      Bytes.ConcatAssociates(if key(xs[0]) == k then [xs[0]] else [], Part(xs[1..], key, k), Part(ys, key, k));
    }
  }

  lemma PartSnoc<T, K>(xs: seq<T>, x: T, key: T -> K, k: K)
    ensures Part(xs + [x], key, k) == if key(x) == k then Part(xs, key, k) + [x] else Part(xs, key, k)
  {
    PartAppend(xs, [x], key, k);
    Bytes.ConcatEmpty(Part(xs, key, k));
    assert Part([x], key, k) == if key(x) == k then [x] else [];
  }

  lemma PartOfTwo<T, K>(a: T, b: T, key: T -> K, k: K)
    ensures Part([a, b], key, k) == (if key(a) == k then [a] else []) + (if key(b) == k then [b] else [])
  {
    PartSnoc([a], b, key, k);
    assert [a] + [b] == [a, b];
  }

  lemma {:induction false} PartMembers<T, K>(xs: seq<T>, key: T -> K, k: K)
    ensures forall x :: x in Part(xs, key, k) <==> x in xs && key(x) == k
  {
    if xs != [] {
      PartMembers(xs[1..], key, k);
      assert forall x :: x in xs <==> x == xs[0] || x in xs[1..];
    }
  }

  lemma {:induction false} PartEmpty<T, K>(xs: seq<T>, key: T -> K, k: K)
    requires forall x | x in xs :: key(x) != k
    ensures Part(xs, key, k) == []
  {
    if xs != [] { PartEmpty(xs[1..], key, k); }
  }

  /** One more element goes to the part of its key, and to no other. */
  lemma {:induction false} OneMore<T, K>(x: T, xs: seq<T>, key: T -> K, keys: seq<K>, f: T -> real, g: T -> int)
    requires Distinct(keys)
    ensures SumOfParts([x] + xs, key, keys, f) == SumOfParts(xs, key, keys, f) + (if key(x) in keys then f(x) else 0.0)
    ensures TotalOfParts([x] + xs, key, keys, g) == TotalOfParts(xs, key, keys, g) + (if key(x) in keys then g(x) else 0)
  {
    if keys != [] {
      OneMore(x, xs, key, keys[1..], f, g);
      assert ([x] + xs)[1..] == xs;
      if key(x) == keys[0] {
        assert forall k | k in keys[1..] :: k != keys[0];
        SumAppend([x], Part(xs, key, keys[0]), f);
        TotalAppend([x], Part(xs, key, keys[0]), g);
      } else {
        assert key(x) in keys <==> key(x) in keys[1..];
        assert [] + Part(xs, key, keys[0]) == Part(xs, key, keys[0]);
      }
    }
  }

  /** Summing part by part is summing. */
  lemma {:induction false} SumByParts<T, K>(xs: seq<T>, key: T -> K, keys: seq<K>, f: T -> real, g: T -> int)
    requires Lists(keys, xs, key)
    ensures SumOfParts(xs, key, keys, f) == Sum(xs, f)
    ensures TotalOfParts(xs, key, keys, g) == Total(xs, g)
  {
    if xs == [] {
      NoElements<T, K>(key, keys, f, g);
    } else {
      SumByParts(xs[1..], key, keys, f, g);
      OneMore(xs[0], xs[1..], key, keys, f, g);
      assert [xs[0]] + xs[1..] == xs;
    }
  }

  lemma {:induction false} NoElements<T, K>(key: T -> K, keys: seq<K>, f: T -> real, g: T -> int)
    ensures SumOfParts([], key, keys, f) == 0.0 && TotalOfParts([], key, keys, g) == 0
  {
    if keys != [] { NoElements(key, keys[1..], f, g); }
  }

  lemma {:induction false} SumSame<T>(xs: seq<T>, f: T -> real, g: T -> real)
    requires forall x | x in xs :: f(x) == g(x)
    ensures Sum(xs, f) == Sum(xs, g)
  {
    if xs != [] { SumSame(xs[1..], f, g); }
  }

  /** Clamping a total is at most totalling the clamped, and the same exactly without both signs. */
  lemma {:induction false} ClampedTotal<K>(ks: seq<K>, s: K -> int, c: K -> int)
    requires forall k | k in ks :: c(k) == Bytes.Max(s(k), 0)
    ensures Total(ks, c) >= 0 && Total(ks, c) >= Total(ks, s)
    ensures Total(ks, c) == 0 <==> forall k | k in ks :: s(k) <= 0
    ensures Total(ks, c) == Total(ks, s) <==> forall k | k in ks :: s(k) >= 0
  {
    if ks != [] {
      var rest := ks[1..];
      ClampedTotal(rest, s, c);
      assert forall k :: k in ks <==> k == ks[0] || k in rest;
      assert (forall k | k in ks :: s(k) <= 0) <==> s(ks[0]) <= 0 && forall k | k in rest :: s(k) <= 0;
      assert (forall k | k in ks :: s(k) >= 0) <==> s(ks[0]) >= 0 && forall k | k in rest :: s(k) >= 0;
    }
  }

  lemma TotalOfOne<T>(x: T, f: T -> int)
    ensures Total([x], f) == f(x)
  {
    assert [x][1..] == [];
  }

  lemma TotalOfTwo<T>(x: T, y: T, f: T -> int)
    ensures Total([x, y], f) == f(x) + f(y)
  {
    TotalOfOne(y, f);
    assert [x, y][1..] == [y];
  }

  lemma {:induction false} TotalSame<T>(xs: seq<T>, f: T -> int, g: T -> int)
    requires forall x | x in xs :: f(x) == g(x)
    ensures Total(xs, f) == Total(xs, g)
  {
    if xs != [] { TotalSame(xs[1..], f, g); }
  }

  lemma {:induction false} TotalZero<T>(xs: seq<T>, f: T -> int)
    requires forall x | x in xs :: f(x) == 0
    ensures Total(xs, f) == 0
  {
    if xs != [] { TotalZero(xs[1..], f); }
  }

  lemma {:induction false} TotalAdds<T>(xs: seq<T>, f: T -> int, g: T -> int, h: T -> int)
    requires forall x | x in xs :: h(x) == f(x) + g(x)
    ensures Total(xs, h) == Total(xs, f) + Total(xs, g)
  {
    if xs != [] { TotalAdds(xs[1..], f, g, h); }
  }

  /** Term by term below means below, and equal exactly when every term is. */
  lemma {:induction false} TotalBelow<T>(xs: seq<T>, f: T -> int, g: T -> int)
    requires forall x | x in xs :: f(x) <= g(x)
    ensures Total(xs, f) <= Total(xs, g)
    ensures Total(xs, f) == Total(xs, g) <==> forall x | x in xs :: f(x) == g(x)
  {
    if xs != [] {
      TotalBelow(xs[1..], f, g);
      assert forall x :: x in xs <==> x == xs[0] || x in xs[1..];
    }
  }

  lemma {:induction false} SumZero<T>(xs: seq<T>, f: T -> real)
    requires forall x | x in xs :: f(x) == 0.0
    ensures Sum(xs, f) == 0.0
  {
    if xs != [] { SumZero(xs[1..], f); }
  }
}
