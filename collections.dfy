/** Small building blocks shared by the whole model: an Option type,
    concatenation of per-element pieces, and insertion-ordered
    dictionaries represented as sequences of (key, value) pairs. */
module Collections {

  datatype Option<+T> = None | Some(value: T)

  /** The pieces `f(s[0]) + f(s[1]) + ...` in order. Defined on the last
      element so that a loop that appends piece by piece matches it. */
  function FlatMap<T, U>(f: T -> seq<U>, s: seq<T>): seq<U>
    decreases |s|
  {
    if |s| == 0 then [] else FlatMap(f, s[..|s| - 1]) + f(s[|s| - 1])
  }

  lemma {:induction false} FlatMapAppend<T, U>(f: T -> seq<U>, a: seq<T>, b: seq<T>)
    ensures FlatMap(f, a + b) == FlatMap(f, a) + FlatMap(f, b)
    decreases |b|
  {
    if |b| == 0 {
      assert a + b == a;
    } else {
      var b' := b[..|b| - 1];
      assert (a + b)[..|a + b| - 1] == a + b';
      assert (a + b)[|a + b| - 1] == b[|b| - 1];
      FlatMapAppend(f, a, b');
    }
  }

  /** The piece of element `j` sits between the pieces of the elements
      before it and those after it. */
  lemma {:induction false} FlatMapAt<T, U>(f: T -> seq<U>, s: seq<T>, j: nat)
    requires j < |s|
    ensures FlatMap(f, s) == FlatMap(f, s[..j]) + f(s[j]) + FlatMap(f, s[j + 1..])
  {
    var front := s[..j + 1];
    assert front + s[j + 1..] == s;
    FlatMapAppend(f, front, s[j + 1..]);
    assert front[..|front| - 1] == s[..j];
    assert front[|front| - 1] == s[j];
    assert FlatMap(f, front) == FlatMap(f, s[..j]) + f(s[j]);
  }

  /** Extending a prefix by one element adds that element's piece. */
  lemma FlatMapSnoc<T, U>(f: T -> seq<U>, s: seq<T>, k: nat)
    requires k < |s|
    ensures FlatMap(f, s[..k + 1]) == FlatMap(f, s[..k]) + f(s[k])
  {
    assert s[..k + 1][..k] == s[..k];
  }

  /** The elements of `s` that satisfy `keep`, in order. */
  function Filter<T>(keep: T -> bool, s: seq<T>): seq<T>
    decreases |s|
  {
    if |s| == 0 then [] else Filter(keep, s[..|s| - 1]) + (if keep(s[|s| - 1]) then [s[|s| - 1]] else [])
  }

  /** `f` applied to each element of `s`, in order. */
  function Map<T, U>(f: T -> U, s: seq<T>): seq<U>
    decreases |s|
  {
    if |s| == 0 then [] else Map(f, s[..|s| - 1]) + [f(s[|s| - 1])]
  }

  /** Mapping a sequence with one more element gives one more image. */
  lemma MapSnoc<T, U>(f: T -> U, s: seq<T>, x: T)
    ensures Map(f, s + [x]) == Map(f, s) + [f(x)]
  {
    assert (s + [x])[..|s|] == s;
  }

  /** Filtering a sequence with one more element keeps that element
      exactly when it satisfies `keep`. */
  lemma FilterSnoc<T>(keep: T -> bool, s: seq<T>, x: T)
    ensures Filter(keep, s + [x]) == Filter(keep, s) + (if keep(x) then [x] else [])
  {
    assert (s + [x])[..|s|] == s;
  }

  /** Elements whose piece is empty can be dropped before the pieces are
      concatenated. */
  lemma {:induction false} FlatMapFilter<T, U>(f: T -> seq<U>, keep: T -> bool, s: seq<T>)
    requires forall x :: !keep(x) ==> f(x) == []
    ensures FlatMap(f, s) == FlatMap(f, Filter(keep, s))
    decreases |s|
  {
    if |s| > 0 {
      var init, last := s[..|s| - 1], s[|s| - 1];
      var kept := if keep(last) then [last] else [];
      FlatMapFilter(f, keep, init);
      FlatMapAppend(f, Filter(keep, init), kept);
      if keep(last) {
        assert FlatMap(f, kept) == FlatMap(f, []) + f(last);
      } else {
        assert FlatMap(f, kept) == [];
      }
    }
  }

  /** Solver hint: regroups a concatenation where a proof needs the other grouping. */
  lemma ConcatAssoc<T>(a: seq<T>, b: seq<T>, c: seq<T>)
    ensures a + (b + c) == (a + b) + c
  {
  }

  /** Solver hint: the empty prefix of a concatenation. */
  lemma ConcatEmpty<T>(s: seq<T>)
    ensures [] + s == s
  {
  }

  /** The keys of an insertion-ordered dictionary, in insertion order. */
  function Keys<K, V>(m: seq<(K, V)>): seq<K>
  {
    if |m| == 0 then [] else [m[0].0] + Keys(m[1..])
  }

  /** What a Python `dict` guarantees: no key occurs twice. */
  predicate DistinctKeys<K(==), V>(m: seq<(K, V)>)
  {
    forall i, j :: 0 <= i < j < |m| ==> m[i].0 != m[j].0
  }

  /** `d.get(k)`: the value stored under `k`, if any. */
  function Get<K(==), V>(m: seq<(K, V)>, k: K): Option<V>
  {
    if |m| == 0 then None
    else if m[0].0 == k then Some(m[0].1)
    else Get(m[1..], k)
  }

  /** `get` finds a value exactly for the keys present, and what it finds
      is stored under that key. */
  lemma {:induction false} GetSpec<K, V>(m: seq<(K, V)>, k: K)
    ensures Get(m, k).Some? <==> k in Keys(m)
    ensures Get(m, k).Some? ==> (k, Get(m, k).value) in m
  {
    if |m| > 0 && m[0].0 != k {
      GetSpec(m[1..], k);
    }
  }

  /** In a dictionary, `get` finds exactly the value stored with the key. */
  lemma {:induction false} GetDistinct<K, V>(m: seq<(K, V)>, i: nat)
    requires DistinctKeys(m)
    requires i < |m|
    ensures Get(m, m[i].0) == Some(m[i].1)
  {
    if i > 0 {
      assert m[0].0 != m[i].0;
      assert DistinctKeys(m[1..]) by {
        forall a, b | 0 <= a < b < |m[1..]| ensures m[1..][a].0 != m[1..][b].0 {
          assert m[1..][a] == m[a + 1] && m[1..][b] == m[b + 1];
        }
      }
      assert m[1..][i - 1] == m[i];
      GetDistinct(m[1..], i - 1);
    }
  }
}
