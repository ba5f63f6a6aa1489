/** Flattening a list of lists: lodash's `flatMap` and the nested loops of the indexer. */
module FlatMaps {

  function FlatMap<T, U>(s: seq<T>, f: T -> seq<U>): seq<U> {
    if s == [] then [] else FlatMap(s[..|s| - 1], f) + f(s[|s| - 1])
  }

  lemma FlatMapStep<T, U>(s: seq<T>, i: nat, f: T -> seq<U>)
    requires i < |s|
    ensures FlatMap(s[..i + 1], f) == FlatMap(s[..i], f) + f(s[i])
  {
    assert s[..i + 1][..i] == s[..i];
  }

  lemma {:induction false} FlatMapConcat<T, U>(s: seq<T>, t: seq<T>, f: T -> seq<U>)
    ensures FlatMap(s + t, f) == FlatMap(s, f) + FlatMap(t, f)
  {
    if t == [] {
      assert s + t == s;
    } else {
      var n := |t| - 1;
      var front, last := FlatMap(s, f), f(t[n]);
      FlatMapConcat(s, t[..n], f);
      assert (s + t)[..|s + t| - 1] == s + t[..n];
      assert FlatMap(s + t, f) == (front + FlatMap(t[..n], f)) + last == front + (FlatMap(t[..n], f) + last);
    }
  }

  lemma {:induction false} InFlatMap<T, U>(s: seq<T>, f: T -> seq<U>, x: U)
    ensures x in FlatMap(s, f) <==> exists i :: 0 <= i < |s| && x in f(s[i])
  {
    if s != [] {
      var n := |s| - 1;
      InFlatMap(s[..n], f, x);
      if x in FlatMap(s[..n], f) {
        var i :| 0 <= i < n && x in f(s[..n][i]);
        assert x in f(s[i]);
      }
      forall i | 0 <= i < |s| && x in f(s[i]) ensures x in FlatMap(s, f) {
        if i < n { assert s[..n][i] == s[i]; }
      }
    }
  }

  lemma {:induction false} FlatMapEmpty<T, U>(s: seq<T>, f: T -> seq<U>)
    ensures FlatMap(s, f) == [] <==> forall i :: 0 <= i < |s| ==> f(s[i]) == []
  {
    if s != [] {
      var n := |s| - 1;
      FlatMapEmpty(s[..n], f);
      if forall i :: 0 <= i < |s| ==> f(s[i]) == [] {
        assert forall i :: 0 <= i < n ==> s[..n][i] == s[i];
      }
      if FlatMap(s, f) == [] {
        forall i | 0 <= i < |s| ensures f(s[i]) == [] {
          if i < n { assert s[..n][i] == s[i]; }
        }
      }
    }
  }

  lemma {:induction false} FlatMapSame<T, U>(s: seq<T>, f: T -> seq<U>, g: T -> seq<U>)
    requires forall i :: 0 <= i < |s| ==> f(s[i]) == g(s[i])
    ensures FlatMap(s, f) == FlatMap(s, g)
  {
    if s != [] { FlatMapSame(s[..|s| - 1], f, g); }
  }

  function Nested<T, U, W>(f: T -> seq<U>, g: U -> seq<W>): T -> seq<W> {
    x => FlatMap(f(x), g)
  }

  /** Flattening twice is flattening the nested call. */
  lemma {:induction false} FlatMapNested<T, U, W>(s: seq<T>, f: T -> seq<U>, g: U -> seq<W>)
    ensures FlatMap(FlatMap(s, f), g) == FlatMap(s, Nested(f, g))
  {
    if s != [] {
      FlatMapNested(s[..|s| - 1], f, g);
      FlatMapConcat(FlatMap(s[..|s| - 1], f), f(s[|s| - 1]), g);
    }
  }

  // ----- selecting and counting

  /** `s.filter(p)` */
  function Select<T>(s: seq<T>, p: T -> bool): seq<T> {
    if s == [] then []
    else Select(s[..|s| - 1], p) + if p(s[|s| - 1]) then [s[|s| - 1]] else []
  }

  lemma {:induction false} SelectConcat<T>(s: seq<T>, t: seq<T>, p: T -> bool)
    ensures Select(s + t, p) == Select(s, p) + Select(t, p)
  {
    if t == [] {
      assert s + t == s;
    } else {
      var n := |t| - 1;
      SelectConcat(s, t[..n], p);
      assert (s + t)[..|s + t| - 1] == s + t[..n];
    }
  }

  lemma {:induction false} SelectAll<T>(s: seq<T>, p: T -> bool)
    ensures (forall x <- s :: p(x)) ==> Select(s, p) == s
    ensures (forall x <- s :: !p(x)) ==> Select(s, p) == []
  {
    if s != [] {
      SelectAll(s[..|s| - 1], p);
      assert s == s[..|s| - 1] + [s[|s| - 1]];
    }
  }

  lemma {:induction false} SelectFromFlatMap<T, U>(s: seq<T>, f: T -> seq<U>, g: T -> seq<U>, p: U -> bool)
    requires forall i :: 0 <= i < |s| ==> Select(f(s[i]), p) == g(s[i])
    ensures Select(FlatMap(s, f), p) == FlatMap(s, g)
  {
    if s != [] {
      var n := |s| - 1;
      SelectFromFlatMap(s[..n], f, g, p);
      SelectConcat(FlatMap(s[..n], f), f(s[n]), p);
    }
  }

  lemma {:induction false} SelectCount<T>(s: seq<T>, p: T -> bool, x: T)
    ensures multiset(Select(s, p))[x] == if p(x) then multiset(s)[x] else 0
  {
    if s != [] {
      SelectCount(s[..|s| - 1], p, x);
      assert s == s[..|s| - 1] + [s[|s| - 1]];
    }
  }

  function Is<T(==)>(x: T): T -> bool {
    y => y == x
  }

  lemma {:induction false} SelectEqual<T>(s: seq<T>, x: T)
    ensures |Select(s, Is(x))| == multiset(s)[x]
  {
    if s != [] {
      SelectEqual(s[..|s| - 1], x);
      assert s == s[..|s| - 1] + [s[|s| - 1]];
    }
  }

  /** An element that every selected list holds `n` times and no other list holds. */
  lemma {:induction false} FlatMapCount<T, U>(s: seq<T>, f: T -> seq<U>, p: T -> bool, x: U, n: nat)
    requires forall i :: 0 <= i < |s| ==> multiset(f(s[i]))[x] == if p(s[i]) then n else 0
    ensures multiset(FlatMap(s, f))[x] == |Select(s, p)| * n
  {
    if s != [] {
      var init := s[..|s| - 1];
      FlatMapCount(init, f, p, x, n);
      assert multiset(FlatMap(s, f))[x] == multiset(FlatMap(init, f))[x] + multiset(f(s[|s| - 1]))[x];
      assert (|Select(init, p)| + 1) * n == |Select(init, p)| * n + n;
    }
  }

  /** An element that the list of `x` holds `n` times and no other list holds. */
  lemma {:induction false} FlatMapCountOne<T, U>(s: seq<T>, f: T -> seq<U>, x: T, c: U, n: nat)
    requires forall i :: 0 <= i < |s| ==> multiset(f(s[i]))[c] == if s[i] == x then n else 0
    ensures multiset(FlatMap(s, f))[c] == multiset(s)[x] * n
  {
    FlatMapCount(s, f, Is(x), c, n);
    SelectEqual(s, x);
  }

  lemma {:induction false} UniformLength<T, U>(s: seq<T>, f: T -> seq<U>, n: nat)
    requires forall i :: 0 <= i < |s| ==> |f(s[i])| == n
    ensures |FlatMap(s, f)| == n * |s|
  {
    if s != [] {
      UniformLength(s[..|s| - 1], f, n);
      assert n * |s| == n * (|s| - 1) + n;
    }
  }

  /** With lists of one length `n`, the place of the j-th element of the k-th list. */
  lemma {:induction false} FlatMapAt<T, U>(s: seq<T>, f: T -> seq<U>, n: nat, k: nat, j: nat)
    requires forall i :: 0 <= i < |s| ==> |f(s[i])| == n
    requires k < |s| && j < n
    ensures k * n + j < |FlatMap(s, f)| && FlatMap(s, f)[k * n + j] == f(s[k])[j]
  {
    var m := |s| - 1;
    UniformLength(s[..m], f, n);
    if k < m {
      BeforeNextRow(k, m, n, j);
      FlatMapAt(s[..m], f, n, k, j);
    } else {
      assert k * n == n * m;
    }
  }

  lemma BeforeNextRow(k: nat, m: nat, n: nat, j: nat)
    requires k < m && j < n
    ensures k * n + j < n * m
  {
    assert (k + 1) * n <= m * n;
  }

  function Total<T>(s: seq<T>, weight: T -> nat): nat {
    if s == [] then 0 else Total(s[..|s| - 1], weight) + weight(s[|s| - 1])
  }

  /** Lists as long as `d` times a weight are together as long as `d` times all weights. */
  lemma {:induction false} ScaledLength<T, U>(s: seq<T>, f: T -> seq<U>, weight: T -> nat, d: nat)
    requires forall i :: 0 <= i < |s| ==> |f(s[i])| == d * weight(s[i])
    ensures |FlatMap(s, f)| == d * Total(s, weight)
  {
    if s != [] {
      var init, last := s[..|s| - 1], s[|s| - 1];
      ScaledLength(init, f, weight, d);
      assert |FlatMap(s, f)| == |FlatMap(init, f)| + |f(last)|;
      Distribute(d, Total(init, weight), weight(last));
    }
  }

  lemma Distribute(d: nat, a: nat, b: nat)
    ensures d * (a + b) == d * a + d * b
  {}
}
