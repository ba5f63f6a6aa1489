/** lodash's `uniqBy`: the first element of every key, in order. */
module UniqBy {

  predicate HasKey<T, K(==)>(s: seq<T>, key: T -> K, k: K) {
    exists i :: 0 <= i < |s| && key(s[i]) == k
  }

  function Uniq<T, K(==)>(s: seq<T>, key: T -> K): seq<T> {
    if s == [] then []
    else
      var kept, last := Uniq(s[..|s| - 1], key), s[|s| - 1];
      if HasKey(kept, key, key(last)) then kept else kept + [last]
  }

  predicate FirstOfItsKey<T, K(==)>(s: seq<T>, key: T -> K, i: nat)
    requires i < |s|
  {
    !HasKey(s[..i], key, key(s[i]))
  }

  predicate Increasing(at: seq<nat>) {
    forall a, b :: 0 <= a < b < |at| ==> at[a] < at[b]
  }

  predicate DistinctByKey<T, K(==)>(s: seq<T>, key: T -> K) {
    forall i, j :: 0 <= i < j < |s| ==> key(s[i]) != key(s[j])
  }

  lemma HasKeyAppend<T, K>(s: seq<T>, x: T, key: T -> K, k: K)
    ensures HasKey(s + [x], key, k) <==> HasKey(s, key, k) || key(x) == k
  {
    if HasKey(s, key, k) {
      var i :| 0 <= i < |s| && key(s[i]) == k;
      assert (s + [x])[i] == s[i];
    }
    if key(x) == k { assert (s + [x])[|s|] == x; }
  }

  /** No key gets lost and none is made up. */
  lemma {:induction false} UniqKeepsKeys<T, K>(s: seq<T>, key: T -> K, k: K)
    ensures HasKey(Uniq(s, key), key, k) <==> HasKey(s, key, k)
  {
    if s != [] {
      var n := |s| - 1;
      UniqKeepsKeys(s[..n], key, k);
      assert s == s[..n] + [s[n]];
      HasKeyAppend(s[..n], s[n], key, k);
      HasKeyAppend(Uniq(s[..n], key), s[n], key, k);
    }
  }

  /** The positions of the elements that are the first of their key. */
  function Firsts<T, K(==)>(s: seq<T>, key: T -> K): seq<nat> {
    if s == [] then []
    else
      var n := |s| - 1;
      Firsts(s[..n], key) + if FirstOfItsKey(s, key, n) then [n] else []
  }

  lemma {:induction false} FirstsAreFirst<T, K>(s: seq<T>, key: T -> K)
    ensures Increasing(Firsts(s, key))
    ensures forall i <- Firsts(s, key) :: i < |s|
    ensures forall i: nat | i < |s| :: i in Firsts(s, key) <==> FirstOfItsKey(s, key, i)
  {
    if s != [] {
      var n := |s| - 1;
      var at := Firsts(s[..n], key);
      FirstsAreFirst(s[..n], key);
      forall a | 0 <= a < |at| ensures at[a] < n { assert at[a] in at; }
      forall i: nat | i < n ensures i in Firsts(s, key) <==> FirstOfItsKey(s, key, i) {
        assert s[..n][..i] == s[..i];
        assert i in Firsts(s, key) <==> i in at;
      }
    }
  }

  /** The result lists, in order, exactly the elements that are the first of their key. */
  lemma {:induction false} UniqKeepsFirsts<T, K>(s: seq<T>, key: T -> K)
    ensures |Uniq(s, key)| == |Firsts(s, key)|
    ensures forall a :: 0 <= a < |Firsts(s, key)| ==> Firsts(s, key)[a] < |s| && Uniq(s, key)[a] == s[Firsts(s, key)[a]]
  {
    if s != [] {
      var n := |s| - 1;
      UniqKeepsFirsts(s[..n], key);
      UniqKeepsKeys(s[..n], key, key(s[n]));
    }
  }

  /** What is added at the end never changes what was kept before. */
  lemma {:induction false} UniqPrefix<T, K>(s: seq<T>, t: seq<T>, key: T -> K)
    ensures Uniq(s, key) <= Uniq(s + t, key)
  {
    if t == [] {
      assert s + t == s;
    } else {
      UniqPrefix(s, t[..|t| - 1], key);
      assert (s + t)[..|s + t| - 1] == s + t[..|t| - 1];
    }
  }

  lemma UniqFromInput<T, K>(s: seq<T>, key: T -> K)
    ensures forall x <- Uniq(s, key) :: x in s
  {
    UniqKeepsFirsts(s, key);
  }

  lemma {:induction false} UniqKeepsDistinct<T, K>(s: seq<T>, key: T -> K)
    requires DistinctByKey(s, key)
    ensures Uniq(s, key) == s
  {
    if s != [] {
      var n := |s| - 1;
      UniqKeepsDistinct(s[..n], key);
      assert s == s[..n] + [s[n]];
    }
  }

  lemma {:induction false} UniqIsDistinct<T, K>(s: seq<T>, key: T -> K)
    ensures DistinctByKey(Uniq(s, key), key)
  {
    if s != [] { UniqIsDistinct(s[..|s| - 1], key); }
  }

  /** No key is left twice, so removing repeated keys again changes nothing. */
  lemma UniqIsCanonical<T, K>(s: seq<T>, key: T -> K)
    ensures DistinctByKey(Uniq(s, key), key)
    ensures Uniq(Uniq(s, key), key) == Uniq(s, key)
  {
    UniqIsDistinct(s, key);
    UniqKeepsDistinct(Uniq(s, key), key);
  }
}
