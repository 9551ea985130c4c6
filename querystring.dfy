/**
 * `getQueryStr`: the query part of the canonical signing string. The keys of
 * the query object (`Object.keys`, in the object's own order) are sorted in
 * place, each is rendered as `key=value`, and the pairs are joined with `&`.
 * The signer and the receiver in the repository use the same text, so both
 * sides are modelled by this one definition.
 */
module QueryString {
  import opened JsStrings

  predicate Sorted(s: seq<string>)
  {
    forall i, j :: 0 <= i < j < |s| ==> StrLe(s[i], s[j])
  }

  /** Insertion into a sorted sequence; the reference sort the in-place one is checked against. */
  function Insert(k: string, s: seq<string>): seq<string>
    decreases |s|
  {
    if s == [] then [k]
    else if StrLe(k, s[0]) then [k] + s
    else [s[0]] + Insert(k, s[1..])
  }

  function SortStrings(ks: seq<string>): seq<string>
    decreases |ks|
  {
    if ks == [] then [] else Insert(ks[0], SortStrings(ks[1..]))
  }

  /** A key at or below every element of a sorted sequence may be put in front of it. */
  lemma SortedCons(x: string, r: seq<string>)
    requires Sorted(r)
    requires forall j :: 0 <= j < |r| ==> StrLe(x, r[j])
    ensures Sorted([x] + r)
  {
    assert forall j :: 0 < j < |r| + 1 ==> ([x] + r)[j] == r[j - 1];
  }

  lemma {:induction false} InsertElements(k: string, s: seq<string>)
    ensures multiset(Insert(k, s)) == multiset(s) + multiset{k}
    decreases |s|
  {
    if s != [] {
      assert s == [s[0]] + s[1..];
      if !StrLe(k, s[0]) {
        InsertElements(k, s[1..]);
      }
    }
  }

  lemma {:induction false} InsertSpec(k: string, s: seq<string>)
    requires Sorted(s)
    ensures Sorted(Insert(k, s))
    ensures multiset(Insert(k, s)) == multiset(s) + multiset{k}
    decreases |s|
  {
    InsertElements(k, s);
    if s == [] {
    } else if StrLe(k, s[0]) {
      forall j | 0 <= j < |s| ensures StrLe(k, s[j]) {
        if j > 0 { StrLeTrans(k, s[0], s[j]); }
      }
      SortedCons(k, s);
    } else {
      var rest := s[1..];
      assert Sorted(rest);
      InsertSpec(k, rest);
      StrLeTotal(k, s[0]);
      var r := Insert(k, rest);
      forall j | 0 <= j < |r| ensures StrLe(s[0], r[j]) {
        assert r[j] in multiset(r);
        if r[j] != k {
          assert r[j] in multiset(rest);
          var m :| 0 <= m < |rest| && rest[m] == r[j];
          assert rest[m] == s[m + 1];
        }
      }
      SortedCons(s[0], r);
    }
  }

  /** The reference sort returns a sorted permutation of its input. */
  lemma {:induction false} SortStringsSpec(ks: seq<string>)
    ensures Sorted(SortStrings(ks))
    ensures multiset(SortStrings(ks)) == multiset(ks)
    decreases |ks|
  {
    if ks != [] {
      SortStringsSpec(ks[1..]);
      InsertSpec(ks[0], SortStrings(ks[1..]));
      assert ks == [ks[0]] + ks[1..];
    }
  }

  /** Two sorted arrangements of the same keys are the same sequence. */
  lemma {:induction false} SortedUnique(a: seq<string>, b: seq<string>)
    requires Sorted(a) && Sorted(b) && multiset(a) == multiset(b)
    ensures a == b
    decreases |a|
  {
    if a != [] {
      assert |b| == |multiset(b)| == |multiset(a)| == |a|;
      assert a[0] in multiset(b);
      var j :| 0 <= j < |b| && b[j] == a[0];
      assert b[0] in multiset(a);
      var i :| 0 <= i < |a| && a[i] == b[0];
      if a[0] != b[0] {
        assert StrLe(b[0], b[j]) && StrLe(a[0], a[i]);
        StrLeAntisymmetric(a[0], b[0]);
      }
      assert a == [a[0]] + a[1..];
      assert b == [b[0]] + b[1..];
      assert multiset(a[1..]) == multiset(a) - multiset{a[0]};
      assert multiset(b[1..]) == multiset(b) - multiset{b[0]};
      SortedUnique(a[1..], b[1..]);
    } else {
      assert |b| == |multiset(b)| == 0;
    }
  }

  // ---------------------------------------------------------------------------
  // The imperative getQueryStr
  // ---------------------------------------------------------------------------

  method Swap(a: array<string>, i: nat, j: nat)
    requires i < a.Length && j < a.Length
    modifies a
    ensures a[..] == old(a[..])[i := old(a[j])][j := old(a[i])]
    ensures multiset(a[..]) == multiset(old(a[..]))
  {
    a[i], a[j] := a[j], a[i];
  }

  /**
   * The invariant of one insertion step: the key being inserted sits at `j`;
   * the other keys of `s[..i + 1]` are sorted, and the key at `j` is at or
   * below every key after it.
   */
  predicate Inserting(s: seq<string>, j: nat, i: nat)
    requires j <= i < |s|
  {
    && (forall p, q :: 0 <= p < q <= i && p != j && q != j ==> StrLe(s[p], s[q]))
    && (forall q :: j < q <= i ==> StrLe(s[j], s[q]))
  }

  lemma InsertingStart(s: seq<string>, i: nat)
    requires i < |s| && Sorted(s[..i])
    ensures Inserting(s, i, i)
  {
    assert forall p :: 0 <= p < i ==> s[..i][p] == s[p];
  }

  /** `s` differs from `s0` only by a permutation of the prefix `[..i + 1]`. */
  predicate PrefixPermuted(s: seq<string>, s0: seq<string>, i: nat)
  {
    && |s| == |s0| && i < |s|
    && multiset(s[..i + 1]) == multiset(s0[..i + 1])
    && s[i + 1..] == s0[i + 1..]
  }

  /** A swap inside the prefix keeps the prefix a permutation and the rest unchanged. */
  lemma SwapInPrefix(s: seq<string>, s0: seq<string>, j: nat, i: nat)
    requires 0 < j <= i && PrefixPermuted(s, s0, i)
    ensures PrefixPermuted(s[j - 1 := s[j]][j := s[j - 1]], s0, i)
  {
    var s' := s[j - 1 := s[j]][j := s[j - 1]];
    assert s'[..i + 1] == s[..i + 1][j - 1 := s[j]][j := s[j - 1]];
    assert s'[i + 1..] == s[i + 1..];
  }

  /** A permutation of the prefix with the rest unchanged is a permutation of the whole. */
  lemma PrefixPermutedWhole(s: seq<string>, s0: seq<string>, i: nat)
    requires PrefixPermuted(s, s0, i)
    ensures multiset(s) == multiset(s0)
  {
    assert s == s[..i + 1] + s[i + 1..];
    assert s0 == s0[..i + 1] + s0[i + 1..];
  }

  /** Swapping the key at `j` below its greater left neighbour keeps the invariant at `j - 1`. */
  lemma InsertingStep(s: seq<string>, j: nat, i: nat)
    requires 0 < j <= i < |s| && Inserting(s, j, i) && !StrLe(s[j - 1], s[j])
    ensures Inserting(s[j - 1 := s[j]][j := s[j - 1]], j - 1, i)
  {
    StrLeTotal(s[j - 1], s[j]);
  }

  lemma InsertingDone(s: seq<string>, j: nat, i: nat)
    requires j <= i < |s| && Inserting(s, j, i)
    requires j == 0 || StrLe(s[j - 1], s[j])
    ensures Sorted(s[..i + 1])
  {
    forall p | 0 <= p < j ensures StrLe(s[p], s[j]) {
      if p < j - 1 { StrLeTrans(s[p], s[j - 1], s[j]); }
    }
    assert forall p :: 0 <= p <= i ==> s[..i + 1][p] == s[p];
  }

  /**
   * One outer step of the insertion sort: the element at `i` is swapped down
   * until the prefix `a[..i + 1]` is sorted.
   */
  method InsertAt(a: array<string>, i: nat)
    requires i < a.Length && Sorted(a[..i])
    modifies a
    ensures Sorted(a[..i + 1])
    ensures multiset(a[..i + 1]) == multiset(old(a[..i + 1]))
    ensures a[i + 1..] == old(a[i + 1..])
    ensures multiset(a[..]) == multiset(old(a[..]))
  {
    ghost var s0 := a[..];
    var j := i;
    InsertingStart(a[..], i);
    while j > 0 && !StrLe(a[j - 1], a[j])
      invariant 0 <= j <= i
      invariant Inserting(a[..], j, i)
      invariant PrefixPermuted(a[..], s0, i)
    {
      ghost var s := a[..];
      Swap(a, j - 1, j);
      SwapInPrefix(s, s0, j, i);
      InsertingStep(s, j, i);
      j := j - 1;
    }
    InsertingDone(a[..], j, i);
    PrefixPermutedWhole(a[..], s0, i);
  }

  /** `keys.sort()`: an insertion sort by adjacent swaps, in place. */
  method SortKeys(a: array<string>)
    modifies a
    ensures Sorted(a[..])
    ensures multiset(a[..]) == multiset(old(a[..]))
  {
    var i := 0;
    while i < a.Length
      invariant 0 <= i <= a.Length
      invariant Sorted(a[..i])
      invariant multiset(a[..]) == multiset(old(a[..]))
    {
      InsertAt(a, i);
      i := i + 1;
    }
    assert a[..a.Length] == a[..];
  }

  /** `pairs`: `key=value` for each key, in the given order. */
  function Pairs(query: map<string, string>, keys: seq<string>): (ps: seq<string>)
    requires forall k :: k in keys ==> k in query
    ensures |ps| == |keys|
    ensures forall i :: 0 <= i < |keys| ==> ps[i] == keys[i] + "=" + query[keys[i]]
    decreases |keys|
  {
    if keys == [] then [] else [keys[0] + "=" + query[keys[0]]] + Pairs(query, keys[1..])
  }

  /** The query string of `query` whose own keys, in object order, are `keys`. */
  function QueryStr(query: map<string, string>, keys: seq<string>): string
    requires forall k :: k in keys ==> k in query
  {
    SortStringsSpec(keys);
    assert forall k :: k in SortStrings(keys) ==> k in multiset(keys);
    Join(Pairs(query, SortStrings(keys)), "&")
  }

  /** `getQueryStr(query)`, where `keys` is `Object.keys(query)`. */
  method GetQueryStr(query: map<string, string>, keys: seq<string>) returns (s: string)
    requires forall k :: k in keys ==> k in query
    ensures s == QueryStr(query, keys)
  {
    var sorted := new string[|keys|](i requires 0 <= i < |keys| => keys[i]);
    assert sorted[..] == keys;
    SortKeys(sorted);
    var ks := sorted[..];
    assert forall k :: k in ks ==> k in multiset(keys);
    assert forall k :: k in ks ==> k in query;
    var pairs: seq<string> := [];
    for i := 0 to |ks|
      invariant pairs == Pairs(query, ks[..i])
    {
      assert ks[..i + 1] == ks[..i] + [ks[i]];
      pairs := pairs + [ks[i] + "=" + query[ks[i]]];
    }
    assert ks[..|ks|] == ks;
    SortStringsSpec(keys);
    SortedUnique(ks, SortStrings(keys));
    s := Join(pairs, "&");
  }

  // ---------------------------------------------------------------------------
  // Properties
  // ---------------------------------------------------------------------------

  /** An object without own keys gives the empty query string. */
  lemma EmptyQuery(query: map<string, string>)
    ensures QueryStr(query, []) == ""
  {
  }

  /**
   * The query string does not depend on the order of the object's keys: any
   * permutation of them gives the same string.
   */
  lemma QueryStrOrderFree(query: map<string, string>, keys1: seq<string>, keys2: seq<string>)
    requires forall k :: k in keys1 ==> k in query
    requires multiset(keys1) == multiset(keys2)
    ensures forall k :: k in keys2 ==> k in query
    ensures QueryStr(query, keys1) == QueryStr(query, keys2)
  {
    assert forall k :: k in keys2 ==> k in multiset(keys1);
    SortStringsSpec(keys1);
    SortStringsSpec(keys2);
    SortedUnique(SortStrings(keys1), SortStrings(keys2));
  }

  /**
   * The query string lists every key once, in sorted order, as `key=value`,
   * separated by `&`: it is the join of the pairs of some sorted permutation of
   * the keys.
   */
  lemma QueryStrShape(query: map<string, string>, keys: seq<string>)
    requires forall k :: k in keys ==> k in query
    ensures exists sorted: seq<string> ::
      && Sorted(sorted) && multiset(sorted) == multiset(keys)
      && (forall k :: k in sorted ==> k in query)
      && QueryStr(query, keys) == Join(Pairs(query, sorted), "&")
  {
    SortStringsSpec(keys);
    var sorted := SortStrings(keys);
    assert forall k :: k in sorted ==> k in multiset(keys);
  }
}
