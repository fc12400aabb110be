/** Finite sums over sequences, sets and maps: the arithmetic behind every
    conservation law of the gateway's ledgers and counters. */
module Sums {

  function SumBy<T>(s: seq<T>, f: T -> int): int
  {
    if |s| == 0 then 0 else SumBy(s[..|s| - 1], f) + f(s[|s| - 1])
  }

  lemma SumAppend<T>(s: seq<T>, x: T, f: T -> int)
    ensures SumBy(s + [x], f) == SumBy(s, f) + f(x)
  {
    assert (s + [x])[..|s|] == s;
  }

  lemma {:induction false} SumConcat<T>(s: seq<T>, t: seq<T>, f: T -> int)
    ensures SumBy(s + t, f) == SumBy(s, f) + SumBy(t, f)
  {
    if |t| == 0 {
      assert s + t == s;
    } else {
      assert (s + t)[..|s + t| - 1] == s + t[..|t| - 1];
      SumConcat(s, t[..|t| - 1], f);
    }
  }

  lemma {:induction false} SumSeqAgree<T>(s: seq<T>, f: T -> int, g: T -> int)
    requires forall i :: 0 <= i < |s| ==> f(s[i]) == g(s[i])
    ensures SumBy(s, f) == SumBy(s, g)
  {
    if |s| > 0 {
      SumSeqAgree(s[..|s| - 1], f, g);
    }
  }

  /** Two summands that agree everywhere but at one position. */
  lemma {:induction false} SumBump<T>(s: seq<T>, f: T -> int, g: T -> int, k: nat, v: int)
    requires k < |s| && forall i :: 0 <= i < |s| ==> g(s[i]) == f(s[i]) + if i == k then v else 0
    ensures SumBy(s, g) == SumBy(s, f) + v
  {
    var init := s[..|s| - 1];
    if k == |s| - 1 {
      SumSeqAgree(init, f, g);
    } else {
      SumBump(init, f, g, k, v);
    }
  }

  /** Sequences that correspond position by position. */
  lemma {:induction false} SumMatch<T, U>(s: seq<T>, t: seq<U>, f: T -> int, g: U -> int)
    requires |s| == |t| && forall i :: 0 <= i < |s| ==> f(s[i]) == g(t[i])
    ensures SumBy(s, f) == SumBy(t, g)
  {
    if s != [] {
      SumMatch(s[..|s| - 1], t[..|t| - 1], f, g);
    }
  }

  ghost function Elements<T>(s: seq<T>): set<T> {
    set x | x in s
  }

  /** A sequence without repetition sums like the set of its elements. */
  lemma {:induction false} SumDistinct<T>(s: seq<T>, f: T -> int)
    requires forall i, j :: 0 <= i < j < |s| ==> s[i] != s[j]
    ensures SumBy(s, f) == SumSet(Elements(s), f)
  {
    if s == [] {
      SumSetZero(Elements(s), f);
    } else {
      var init, last := s[..|s| - 1], s[|s| - 1];
      SumDistinct(init, f);
      assert Elements(s) == Elements(init) + {last};
      SumSetInsert(Elements(init), last, f);
    }
  }

  lemma {:induction false} SumSeqZero<T>(s: seq<T>, f: T -> int)
    requires forall i :: 0 <= i < |s| ==> f(s[i]) == 0
    ensures SumBy(s, f) == 0
  {
    if s != [] {
      SumSeqZero(s[..|s| - 1], f);
    }
  }

  lemma {:induction false} SumSeqBound<T>(s: seq<T>, f: T -> int)
    requires forall i :: 0 <= i < |s| ==> 0 <= f(s[i])
    ensures 0 <= SumBy(s, f)
    ensures forall i :: 0 <= i < |s| ==> f(s[i]) <= SumBy(s, f)
  {
    if |s| > 0 {
      SumSeqBound(s[..|s| - 1], f);
      assert forall i :: 0 <= i < |s| - 1 ==> s[i] == s[..|s| - 1][i];
    }
  }

  /** The sum of g over a finite set; the order of summation does not matter,
      as SumSetRemove shows. */
  ghost function SumSet<K>(s: set<K>, g: K -> int): int
    decreases |s|
  {
    if s == {} then 0 else
      var k :| k in s;
      g(k) + SumSet(s - {k}, g)
  }

  lemma {:induction false} SumSetRemove<K>(s: set<K>, k: K, g: K -> int)
    requires k in s
    ensures SumSet(s, g) == g(k) + SumSet(s - {k}, g)
    decreases |s|
  {
    var c :| c in s && SumSet(s, g) == g(c) + SumSet(s - {c}, g);
    if c != k {
      SumSetRemove(s - {c}, k, g);
      SumSetRemove(s - {k}, c, g);
      assert s - {c} - {k} == s - {k} - {c};
    }
  }

  lemma SumSetInsert<K>(s: set<K>, k: K, g: K -> int)
    requires k !in s
    ensures SumSet(s + {k}, g) == SumSet(s, g) + g(k)
  {
    SumSetRemove(s + {k}, k, g);
    assert s + {k} - {k} == s;
  }

  lemma {:induction false} SumSetUnion<K>(s: set<K>, t: set<K>, g: K -> int)
    requires s !! t
    ensures SumSet(s + t, g) == SumSet(s, g) + SumSet(t, g)
    decreases |t|
  {
    if t == {} {
      assert s + t == s;
    } else {
      var k :| k in t;
      SumSetRemove(t, k, g);
      SumSetUnion(s, t - {k}, g);
      assert s + t - {k} == s + (t - {k});
      SumSetRemove(s + t, k, g);
    }
  }

  lemma {:induction false} SumSetAgree<K>(s: set<K>, f: K -> int, g: K -> int)
    requires forall k :: k in s ==> f(k) == g(k)
    ensures SumSet(s, f) == SumSet(s, g)
    decreases |s|
  {
    if s != {} {
      var k :| k in s;
      SumSetRemove(s, k, f);
      SumSetRemove(s, k, g);
      SumSetAgree(s - {k}, f, g);
    }
  }

  lemma {:induction false} SumSetAdd<K>(s: set<K>, f: K -> int, g: K -> int, h: K -> int)
    requires forall k :: k in s ==> f(k) == g(k) + h(k)
    ensures SumSet(s, f) == SumSet(s, g) + SumSet(s, h)
    decreases |s|
  {
    if s != {} {
      var k :| k in s;
      SumSetRemove(s, k, f);
      SumSetRemove(s, k, g);
      SumSetRemove(s, k, h);
      SumSetAdd(s - {k}, f, g, h);
    }
  }

  lemma {:induction false} SumSetZero<K>(s: set<K>, f: K -> int)
    requires forall k :: k in s ==> f(k) == 0
    ensures SumSet(s, f) == 0
    decreases |s|
  {
    if s != {} {
      var k :| k in s;
      SumSetRemove(s, k, f);
      SumSetZero(s - {k}, f);
    }
  }

  /** Summing over an injective image. */
  lemma {:induction false} SumSetImage<K, L>(s: set<K>, image: set<L>, f: K -> L, g: L -> int, h: K -> int)
    requires forall j, k :: j in s && k in s && f(j) == f(k) ==> j == k
    requires forall k :: k in s ==> h(k) == g(f(k)) && f(k) in image
    requires forall x :: x in image ==> exists k :: k in s && f(k) == x
    ensures SumSet(image, g) == SumSet(s, h)
    decreases |s|
  {
    if s == {} {
      SumSetZero(image, g);
    } else {
      var k :| k in s;
      SumSetRemove(s, k, h);
      SumSetRemove(image, f(k), g);
      SumSetImage(s - {k}, image - {f(k)}, f, g, h);
    }
  }

  /** Only a part of the set contributes. */
  lemma SumSetPart<K>(s: set<K>, part: set<K>, f: K -> int, g: K -> int)
    requires part <= s && forall k :: k in s ==> f(k) == if k in part then g(k) else 0
    ensures SumSet(s, f) == SumSet(part, g)
  {
    SumSetUnion(part, s - part, f);
    assert part + (s - part) == s;
    SumSetZero(s - part, f);
    SumSetAgree(part, f, g);
  }

  lemma {:induction false} SumSetBound<K>(s: set<K>, g: K -> int)
    requires forall k :: k in s ==> 0 <= g(k)
    ensures 0 <= SumSet(s, g)
    ensures forall k :: k in s ==> g(k) <= SumSet(s, g)
    decreases |s|
  {
    forall k | k in s
      ensures g(k) <= SumSet(s, g)
      ensures 0 <= SumSet(s, g)
    {
      SumSetRemove(s, k, g);
      SumSetBound(s - {k}, g);
    }
  }

  /** The value that f gives to key k of map m, and 0 off the map. */
  ghost function At<K, V>(m: map<K, V>, f: (K, V) -> int): K -> int
  {
    k => if k in m then f(k, m[k]) else 0
  }

  /** The sum of f over all entries of a map. */
  ghost function Total<K, V>(m: map<K, V>, f: (K, V) -> int): int
  {
    SumSet(m.Keys, At(m, f))
  }

  lemma TotalInsert<K, V>(m: map<K, V>, k: K, v: V, f: (K, V) -> int)
    requires k !in m
    ensures Total(m[k := v], f) == Total(m, f) + f(k, v)
  {
    var n := m[k := v];
    assert n.Keys == m.Keys + {k};
    SumSetInsert(m.Keys, k, At(n, f));
    SumSetAgree(m.Keys, At(m, f), At(n, f));
  }

  lemma TotalUpdate<K, V>(m: map<K, V>, k: K, v: V, f: (K, V) -> int)
    requires k in m
    ensures Total(m[k := v], f) == Total(m, f) - f(k, m[k]) + f(k, v)
  {
    var n := m[k := v];
    assert n.Keys == m.Keys;
    SumSetRemove(m.Keys, k, At(m, f));
    SumSetRemove(n.Keys, k, At(n, f));
    SumSetAgree(m.Keys - {k}, At(m, f), At(n, f));
  }

  lemma TotalRemove<K, V>(m: map<K, V>, k: K, f: (K, V) -> int)
    requires k in m
    ensures Total(m - {k}, f) == Total(m, f) - f(k, m[k])
  {
    var n := m - {k};
    assert n.Keys == m.Keys - {k};
    SumSetRemove(m.Keys, k, At(m, f));
    SumSetAgree(n.Keys, At(m, f), At(n, f));
  }

  lemma TotalEmpty<K, V>(m: map<K, V>, f: (K, V) -> int)
    requires m == map[]
    ensures Total(m, f) == 0
  {
    assert m.Keys == {};
  }

  lemma TotalBound<K, V>(m: map<K, V>, f: (K, V) -> int)
    requires forall k :: k in m ==> 0 <= f(k, m[k])
    ensures 0 <= Total(m, f)
    ensures forall k :: k in m ==> f(k, m[k]) <= Total(m, f)
  {
    SumSetBound(m.Keys, At(m, f));
    assert forall k :: k in m ==> At(m, f)(k) == f(k, m[k]);
  }
}
