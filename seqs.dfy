/**
 * Order-preserving grouping of a row sequence by a key: the rows of one
 * group, the set of keys, the keys in order of first appearance, and sums
 * over rows. Every function is defined on the LAST element, so that a loop
 * that has processed `data[..i]` extends each of them by one row.
 */
module Seqs {

  /** The elements of `s` that satisfy `p`, in their order in `s`. */
  function Where<T>(s: seq<T>, p: T -> bool): (r: seq<T>)
    ensures |r| <= |s|
    ensures forall i :: 0 <= i < |r| ==> p(r[i])
  {
    if s == [] then []
    else Where(s[..|s| - 1], p) + (if p(s[|s| - 1]) then [s[|s| - 1]] else [])
  }

  /** `f` applied to each element of `s`, in order. */
  function Mapped<T, U>(s: seq<T>, f: T -> U): (r: seq<U>)
    ensures |r| == |s|
  {
    if s == [] then [] else Mapped(s[..|s| - 1], f) + [f(s[|s| - 1])]
  }

  /** The elements of `s` whose key is `k`, in their order in `s`. */
  function Select<T, K(==, !new)>(s: seq<T>, key: T -> K, k: K): (r: seq<T>)
    ensures |r| <= |s|
    ensures forall i :: 0 <= i < |r| ==> key(r[i]) == k
  {
    if s == [] then []
    else Select(s[..|s| - 1], key, k) + (if key(s[|s| - 1]) == k then [s[|s| - 1]] else [])
  }

  /** The keys that occur in `s`: exactly those whose group is non-empty. */
  function KeysOf<T, K(==, !new)>(s: seq<T>, key: T -> K): (r: set<K>)
    ensures forall i :: 0 <= i < |s| ==> key(s[i]) in r
  {
    if s == [] then {}
    else KeysOf(s[..|s| - 1], key) + {key(s[|s| - 1])}
  }

  /** The distinct keys of `s` in the order in which they first occur. */
  function FirstSeen<T, K(==, !new)>(s: seq<T>, key: T -> K): (r: seq<K>)
    ensures Distinct(r)
  {
    if s == [] then []
    else
      var p := FirstSeen(s[..|s| - 1], key);
      if key(s[|s| - 1]) in p then p else p + [key(s[|s| - 1])]
  }

  /** The index of the first element of `s` whose key is `k`, or `|s|` when there is none. */
  function FirstIndex<T, K(==, !new)>(s: seq<T>, key: T -> K, k: K): (r: nat)
    ensures r <= |s|
    ensures r < |s| ==> key(s[r]) == k
    ensures forall i :: 0 <= i < r && i < |s| ==> key(s[i]) != k
  {
    if s == [] then 0
    else
      var p := FirstIndex(s[..|s| - 1], key, k);
      if p < |s| - 1 then p
      else if key(s[|s| - 1]) == k then |s| - 1
      else |s|
  }

  predicate Distinct<K(==)>(ks: seq<K>)
  {
    forall i, j :: 0 <= i < j < |ks| ==> ks[i] != ks[j]
  }

  /** Updating an element before the last one leaves the last one in place. */
  lemma UpdateAppend<T>(s: seq<T>, x: T, j: nat, y: T)
    requires j < |s|
    ensures (s + [x])[j := y] == s[j := y] + [x]
  {
  }

  /** Updating the last element replaces it. */
  lemma UpdateLast<T>(s: seq<T>, x: T, y: T)
    ensures (s + [x])[|s| := y] == s + [y]
  {
  }

  /** Dropping the last element keeps a sequence duplicate-free and leaves it without that element. */
  lemma DistinctInit<K>(ks: seq<K>)
    requires ks != [] && Distinct(ks)
    ensures Distinct(ks[..|ks| - 1]) && ks[|ks| - 1] !in ks[..|ks| - 1]
  {
    var init := ks[..|ks| - 1];
    forall a, b | 0 <= a < b < |init| ensures init[a] != init[b] {
      assert init[a] == ks[a] && init[b] == ks[b];
    }
  }

  /** Sum of `f` over the elements of `s`. */
  function SumReal<T>(s: seq<T>, f: T -> real): real
  {
    if s == [] then 0.0 else SumReal(s[..|s| - 1], f) + f(s[|s| - 1])
  }

  function SumInt<T>(s: seq<T>, f: T -> int): int
  {
    if s == [] then 0 else SumInt(s[..|s| - 1], f) + f(s[|s| - 1])
  }

  /** Sum, over the keys `ks`, of the per-group sums of `f`. */
  function GroupSums<T, K(==, !new)>(ks: seq<K>, s: seq<T>, key: T -> K, f: T -> real): real
  {
    if ks == [] then 0.0
    else GroupSums(ks[..|ks| - 1], s, key, f) + SumReal(Select(s, key, ks[|ks| - 1]), f)
  }

  // ---------------------------------------------------------------------
  // One more element at the end

  lemma AppendInit<T>(s: seq<T>, x: T)
    ensures (s + [x])[..|s|] == s && (s + [x])[|s|] == x
  {
  }

  /** A loop that has consumed `s[..i]` consumes `s[i]` next. */
  lemma PrefixSnoc<T>(s: seq<T>, i: nat)
    requires i < |s|
    ensures s[..i + 1] == s[..i] + [s[i]]
  {
  }

  lemma {:induction false} MappedAt<T, U>(s: seq<T>, f: T -> U)
    ensures forall k :: 0 <= k < |s| ==> Mapped(s, f)[k] == f(s[k])
  {
    if s != [] {
      var init := s[..|s| - 1];
      MappedAt(init, f);
      forall k | 0 <= k < |s|
        ensures Mapped(s, f)[k] == f(s[k])
      {
        if k < |init| {
          assert s[k] == init[k];
        }
      }
    }
  }

  lemma MappedAppend<T, U>(s: seq<T>, x: T, f: T -> U)
    ensures Mapped(s + [x], f) == Mapped(s, f) + [f(x)]
  {
    AppendInit(s, x);
  }

  lemma SelectAppend<T, K(!new)>(s: seq<T>, x: T, key: T -> K, k: K)
    ensures Select(s + [x], key, k) == Select(s, key, k) + (if key(x) == k then [x] else [])
  {
    AppendInit(s, x);
  }

  lemma WhereAppend<T>(s: seq<T>, x: T, p: T -> bool)
    ensures Where(s + [x], p) == Where(s, p) + (if p(x) then [x] else [])
  {
    AppendInit(s, x);
  }

  lemma KeysOfAppend<T, K(!new)>(s: seq<T>, x: T, key: T -> K)
    ensures KeysOf(s + [x], key) == KeysOf(s, key) + {key(x)}
  {
    AppendInit(s, x);
  }

  /** The keys listed by `FirstSeen` are exactly the keys of `s`. */
  lemma {:induction false} FirstSeenKeys<T, K(!new)>(s: seq<T>, key: T -> K)
    ensures forall k :: k in FirstSeen(s, key) <==> k in KeysOf(s, key)
  {
    if s != [] {
      var s', x := s[..|s| - 1], s[|s| - 1];
      assert s == s' + [x];
      FirstSeenKeys(s', key);
    }
  }

  /** Every key listed by `FirstSeen` has a non-empty group. */
  lemma FirstSeenGroups<T, K(!new)>(s: seq<T>, key: T -> K)
    ensures forall k :: k in FirstSeen(s, key) ==> Select(s, key, k) != []
  {
    FirstSeenKeys(s, key);
    forall k | k in FirstSeen(s, key)
      ensures Select(s, key, k) != []
    {
      KeysOfSelect(s, key, k);
    }
  }

  lemma FirstSeenAppend<T, K(!new)>(s: seq<T>, x: T, key: T -> K)
    ensures FirstSeen(s + [x], key)
            == if key(x) in KeysOf(s, key) then FirstSeen(s, key) else FirstSeen(s, key) + [key(x)]
  {
    AppendInit(s, x);
    FirstSeenKeys(s, key);
  }

  lemma FirstIndexAppend<T, K(!new)>(s: seq<T>, x: T, key: T -> K, k: K)
    ensures FirstIndex(s + [x], key, k)
            == if FirstIndex(s, key, k) < |s| then FirstIndex(s, key, k)
               else if key(x) == k then |s| else |s| + 1
  {
    AppendInit(s, x);
  }

  lemma SumRealAppend<T>(s: seq<T>, x: T, f: T -> real)
    ensures SumReal(s + [x], f) == SumReal(s, f) + f(x)
  {
    AppendInit(s, x);
  }

  lemma SumIntAppend<T>(s: seq<T>, x: T, f: T -> int)
    ensures SumInt(s + [x], f) == SumInt(s, f) + f(x)
  {
    AppendInit(s, x);
  }

  // ---------------------------------------------------------------------
  // Properties of the grouping

  /** A key occurs in `s` exactly when its group is non-empty, and then at `FirstIndex`. */
  lemma {:induction false} KeysOfSelect<T, K(!new)>(s: seq<T>, key: T -> K, k: K)
    ensures k in KeysOf(s, key) <==> Select(s, key, k) != []
    ensures k in KeysOf(s, key) <==> FirstIndex(s, key, k) < |s|
  {
    if s != [] {
      var s', x := s[..|s| - 1], s[|s| - 1];
      AppendInit(s', x);
      assert s == s' + [x];
      KeysOfSelect(s', key, k);
      KeysOfAppend(s', x, key);
      SelectAppend(s', x, key, k);
    }
  }

  /** A group extended by later elements keeps its first element: first write wins. */
  lemma {:induction false} SelectConcat<T, K(!new)>(s: seq<T>, t: seq<T>, key: T -> K, k: K)
    ensures Select(s + t, key, k) == Select(s, key, k) + Select(t, key, k)
    decreases |t|
  {
    if t == [] {
      assert s + t == s;
    } else {
      var t', x := t[..|t| - 1], t[|t| - 1];
      assert t == t' + [x];
      assert s + t == (s + t') + [x];
      SelectConcat(s, t', key, k);
      SelectAppend(s + t', x, key, k);
      SelectAppend(t', x, key, k);
    }
  }

  /** Filtering distributes over concatenation. */
  lemma {:induction false} WhereConcat<T>(s: seq<T>, t: seq<T>, p: T -> bool)
    ensures Where(s + t, p) == Where(s, p) + Where(t, p)
    decreases |t|
  {
    if t == [] {
      assert s + t == s;
    } else {
      var t', x := t[..|t| - 1], t[|t| - 1];
      assert t == t' + [x];
      assert s + t == (s + t') + [x];
      WhereConcat(s, t', p);
      WhereAppend(s + t', x, p);
      WhereAppend(t', x, p);
    }
  }

  /** Every element of `s` belongs to the group of its own key. */
  lemma {:induction false} SelectContains<T, K(!new)>(s: seq<T>, key: T -> K, i: nat)
    requires i < |s|
    ensures s[i] in Select(s, key, key(s[i]))
  {
    var s', x := s[..|s| - 1], s[|s| - 1];
    AppendInit(s', x);
    assert s == s' + [x];
    SelectAppend(s', x, key, key(s[i]));
    if i < |s'| {
      assert s[i] == s'[i];
      SelectContains(s', key, i);
    }
  }

  /** The first element of a group is the first element of `s` bearing that key. */
  lemma {:induction false} SelectHead<T, K(!new)>(s: seq<T>, key: T -> K, k: K)
    requires k in KeysOf(s, key)
    ensures Select(s, key, k) != [] && FirstIndex(s, key, k) < |s|
    ensures Select(s, key, k)[0] == s[FirstIndex(s, key, k)]
  {
    var s', x := s[..|s| - 1], s[|s| - 1];
    AppendInit(s', x);
    assert s == s' + [x];
    SelectAppend(s', x, key, k);
    KeysOfAppend(s', x, key);
    FirstIndexAppend(s', x, key, k);
    KeysOfSelect(s', key, k);
    if k in KeysOf(s', key) {
      SelectHead(s', key, k);
    } else {
      assert Select(s', key, k) == [] && key(x) == k;
    }
  }

  /** Every element of a group is an element of `s`. */
  lemma {:induction false} SelectElements<T, K(!new)>(s: seq<T>, key: T -> K, k: K)
    ensures forall x :: x in Select(s, key, k) ==> x in s
  {
    if s != [] {
      var s', x := s[..|s| - 1], s[|s| - 1];
      assert s == s' + [x];
      SelectElements(s', key, k);
    }
  }

  /** An element of `s` that satisfies `p` survives the filter. */
  lemma {:induction false} WhereContains<T>(s: seq<T>, p: T -> bool, x: T)
    requires x in s && p(x)
    ensures x in Where(s, p)
  {
    var s', y := s[..|s| - 1], s[|s| - 1];
    assert s == s' + [y];
    WhereAppend(s', y, p);
    if x != y {
      WhereContains(s', p, x);
    }
  }

  /** Keys are listed in the order of their first occurrence in `s`. */
  lemma {:induction false} FirstSeenOrder<T, K(!new)>(s: seq<T>, key: T -> K, i: nat, j: nat)
    requires i < j < |FirstSeen(s, key)|
    ensures FirstIndex(s, key, FirstSeen(s, key)[i]) < FirstIndex(s, key, FirstSeen(s, key)[j])
  {
    var s', x := s[..|s| - 1], s[|s| - 1];
    AppendInit(s', x);
    assert s == s' + [x];
    var p := FirstSeen(s', key);
    FirstSeenAppend(s', x, key);
    FirstSeenKeys(s', key);
    var ki, kj := FirstSeen(s, key)[i], FirstSeen(s, key)[j];
    assert ki == p[i] && ki in KeysOf(s', key);
    FirstIndexAppend(s', x, key, ki);
    FirstIndexAppend(s', x, key, kj);
    KeysOfSelect(s', key, ki);
    if j < |p| {
      assert kj == p[j] && kj in KeysOf(s', key);
      FirstSeenOrder(s', key, i, j);
    } else {
      assert kj == key(x) && kj !in KeysOf(s', key);
    }
  }

  /** A map from each key of `s` to `f` of the key's group, and nothing else. */
  ghost predicate GroupedBy<T, K(!new), V>(m: map<K, V>, s: seq<T>, key: T -> K, f: seq<T> -> V)
  {
    && m.Keys == KeysOf(s, key)
    && forall k :: k in m ==> Select(s, key, k) != [] && m[k] == f(Select(s, key, k))
  }

  /** Storing `f` of the grown group of `x`'s key keeps the map grouped. */
  lemma GroupedByStore<T, K(!new), V>(m: map<K, V>, s: seq<T>, x: T, key: T -> K, f: seq<T> -> V)
    requires GroupedBy(m, s, key, f)
    ensures GroupedBy(m[key(x) := f(Select(s, key, key(x)) + [x])], s + [x], key, f)
  {
    KeysOfAppend(s, x, key);
    forall k | k in m[key(x) := f(Select(s, key, key(x)) + [x])]
      ensures Select(s + [x], key, k) == if k == key(x) then Select(s, key, k) + [x] else Select(s, key, k)
    {
      SelectAppend(s, x, key, k);
    }
  }

  /** In a sequence without repetitions there are as many keys as elements. */
  lemma {:induction false} DistinctCard<K>(ks: seq<K>)
    requires Distinct(ks)
    ensures |set k | k in ks| == |ks|
  {
    if ks != [] {
      var ks', x := ks[..|ks| - 1], ks[|ks| - 1];
      assert ks == ks' + [x];
      DistinctCard(ks');
      assert (set k | k in ks) == (set k | k in ks') + {x};
      assert x !in (set k | k in ks');
    }
  }

  /** A map whose keys are exactly the elements of a sequence without repetitions has that many entries. */
  lemma MapSize<K, V>(m: map<K, V>, ks: seq<K>)
    requires Distinct(ks)
    requires forall k :: k in m <==> k in ks
    ensures |m| == |ks|
  {
    DistinctCard(ks);
    assert m.Keys == set k | k in ks;
  }

  lemma FirstSeenCount<T, K(!new)>(s: seq<T>, key: T -> K)
    ensures |KeysOf(s, key)| == |FirstSeen(s, key)|
  {
    var fs := FirstSeen(s, key);
    FirstSeenKeys(s, key);
    DistinctCard(fs);
    assert KeysOf(s, key) == set k | k in fs;
  }

  /** Adding `x` changes the sum over distinct keys by `f(x)` exactly when its key is among them. */
  lemma {:induction false} GroupSumsAppend<T, K(!new)>(ks: seq<K>, s: seq<T>, x: T, key: T -> K, f: T -> real)
    requires Distinct(ks)
    ensures GroupSums(ks, s + [x], key, f)
            == GroupSums(ks, s, key, f) + (if key(x) in ks then f(x) else 0.0)
  {
    if ks != [] {
      var ks', k := ks[..|ks| - 1], ks[|ks| - 1];
      assert ks == ks' + [k];
      assert Distinct(ks');
      assert key(x) in ks <==> key(x) in ks' || key(x) == k;
      assert key(x) == k ==> key(x) !in ks';
      GroupSumsAppend(ks', s, x, key, f);
      SelectAppend(s, x, key, k);
      if key(x) == k {
        SumRealAppend(Select(s, key, k), x, f);
      } else {
        assert Select(s + [x], key, k) == Select(s, key, k) + [];
        assert Select(s, key, k) + [] == Select(s, key, k);
      }
    }
  }

  /** The new element's key either was already listed or ends the list, where it heads a singleton group. */
  lemma {:induction false} GroupSumsNewKey<T, K(!new)>(p: seq<K>, s: seq<T>, x: T, key: T -> K, f: T -> real)
    requires key(x) !in KeysOf(s, key)
    ensures GroupSums(p + [key(x)], s + [x], key, f) == GroupSums(p, s + [x], key, f) + f(x)
  {
    var p' := p + [key(x)];
    assert p'[..|p|] == p && p'[|p|] == key(x);
    assert GroupSums(p', s + [x], key, f)
           == GroupSums(p, s + [x], key, f) + SumReal(Select(s + [x], key, key(x)), f);
    KeysOfSelect(s, key, key(x));
    SelectAppend(s, x, key, key(x));
    var g := Select(s + [x], key, key(x));
    assert g == [x];
    assert g[..0] == [];
    assert SumReal(g, f) == SumReal(g[..0], f) + f(x);
  }

  /** Grouping loses and duplicates nothing: the per-group sums add up to the sum over `s`. */
  lemma {:induction false} GroupingPreservesSum<T, K(!new)>(s: seq<T>, key: T -> K, f: T -> real)
    ensures GroupSums(FirstSeen(s, key), s, key, f) == SumReal(s, f)
  {
    if s != [] {
      var s', x := s[..|s| - 1], s[|s| - 1];
      assert s == s' + [x];
      GroupingPreservesSum(s', key, f);
      GroupingStep(s', x, key, f);
    }
  }

  /** One more element keeps the per-group sums equal to the sum over all elements. */
  lemma GroupingStep<T, K(!new)>(s: seq<T>, x: T, key: T -> K, f: T -> real)
    requires GroupSums(FirstSeen(s, key), s, key, f) == SumReal(s, f)
    ensures GroupSums(FirstSeen(s + [x], key), s + [x], key, f) == SumReal(s + [x], f)
  {
    var p := FirstSeen(s, key);
    FirstSeenAppend(s, x, key);
    FirstSeenKeys(s, key);
    SumRealAppend(s, x, f);
    GroupSumsAppend(p, s, x, key, f);
    if key(x) in KeysOf(s, key) {
      assert FirstSeen(s + [x], key) == p && key(x) in p;
    } else {
      assert FirstSeen(s + [x], key) == p + [key(x)] && key(x) !in p;
      GroupSumsNewKey(p, s, x, key, f);
    }
  }

  /** A sum of non-negative terms is non-negative. */
  lemma {:induction false} SumIntNonNegative<T>(s: seq<T>, f: T -> int)
    requires forall x :: x in s ==> f(x) >= 0
    ensures SumInt(s, f) >= 0
  {
    if s != [] {
      var s', x := s[..|s| - 1], s[|s| - 1];
      assert s == s' + [x];
      SumIntNonNegative(s', f);
    }
  }
}
