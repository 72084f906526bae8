/** Go's string order and `sort.Strings`, and the enumeration of a Go map's
    keys, whose order the runtime leaves unspecified. */
module StringOrder {

  /** Go's `<` on strings. Go compares UTF-8 bytes; UTF-8 preserves the order
      of code points, so comparing characters gives the same answer. */
  predicate Less(a: string, b: string)
    decreases |a|
  {
    if |a| == 0 then |b| > 0
    else if |b| == 0 then false
    else if a[0] != b[0] then a[0] < b[0]
    else Less(a[1..], b[1..])
  }

  lemma {:induction false} LessIrreflexive(a: string)
    ensures !Less(a, a)
  {
    if |a| > 0 { LessIrreflexive(a[1..]); }
  }

  lemma {:induction false} LessTransitive(a: string, b: string, c: string)
    requires Less(a, b) && Less(b, c)
    ensures Less(a, c)
  {
    if |a| > 0 && |b| > 0 && |c| > 0 && a[0] == b[0] && b[0] == c[0] {
      LessTransitive(a[1..], b[1..], c[1..]);
    }
  }

  lemma {:induction false} LessTotal(a: string, b: string)
    ensures a == b || Less(a, b) || Less(b, a)
  {
    if |a| > 0 && |b| > 0 && a[0] == b[0] {
      LessTotal(a[1..], b[1..]);
      if a[1..] == b[1..] {
        assert a == [a[0]] + a[1..] && b == [b[0]] + b[1..];
      }
    }
  }

  lemma {:induction false} LessAsymmetric(a: string, b: string)
    requires Less(a, b)
    ensures !Less(b, a)
  {
    if Less(b, a) {
      LessTransitive(a, b, a);
      LessIrreflexive(a);
    }
  }

  /** The elements of a sequence. */
  function Elems<T>(s: seq<T>): set<T> {
    set x | x in s
  }

  predicate NoDuplicates<T(==)>(s: seq<T>) {
    forall i, j :: 0 <= i < j < |s| ==> s[i] != s[j]
  }

  /** Non-decreasing: what `sort.Strings` produces. */
  predicate Sorted(s: seq<string>) {
    forall i, j :: 0 <= i < j < |s| ==> !Less(s[j], s[i])
  }

  /** Increasing: sorted and without repetitions. */
  predicate StrictlySorted(s: seq<string>) {
    forall i, j :: 0 <= i < j < |s| ==> Less(s[i], s[j])
  }

  /** Inserts `x` right before the first element greater than `x`, or at the
      end when there is none. */
  function InsertBeforeGreater(x: string, q: seq<string>): (r: seq<string>)
    ensures multiset(r) == multiset(q) + multiset{x}
    ensures |r| == |q| + 1
  {
    if q == [] then [x]
    else if Less(x, q[0]) then [x] + q
    else
      assert q == [q[0]] + q[1..];
      [q[0]] + InsertBeforeGreater(x, q[1..])
  }

  /** Inserting into a sorted sequence keeps it sorted. */
  lemma {:induction false} InsertKeepsSorted(x: string, q: seq<string>)
    requires Sorted(q)
    ensures Sorted(InsertBeforeGreater(x, q))
  {
    var r := InsertBeforeGreater(x, q);
    if q == [] {
    } else if Less(x, q[0]) {
      forall j | 0 < j < |r| ensures !Less(r[j], r[0]) {
        assert r[j] == q[j - 1];
        LessTotal(q[0], q[j - 1]);
        if q[j - 1] != q[0] {
          LessTransitive(x, q[0], q[j - 1]);
        }
        LessAsymmetric(x, r[j]);
      }
    } else {
      InsertKeepsSorted(x, q[1..]);
      var rest := InsertBeforeGreater(x, q[1..]);
      assert r == [q[0]] + rest;
      forall j | 0 < j < |r| ensures !Less(r[j], r[0]) {
        assert r[j] in multiset(rest);
        assert r[j] in multiset(q[1..]) || r[j] == x;
        if r[j] != x {
          var k :| 0 <= k < |q[1..]| && q[1..][k] == r[j];
          assert q[k + 1] == r[j];
        }
      }
    }
  }

  /** Inserting a new element into an increasing sequence keeps it increasing. */
  lemma {:induction false} InsertKeepsStrictlySorted(x: string, q: seq<string>)
    requires StrictlySorted(q) && x !in q
    ensures StrictlySorted(InsertBeforeGreater(x, q))
  {
    var r := InsertBeforeGreater(x, q);
    if q == [] {
    } else if Less(x, q[0]) {
      forall j | 1 < j < |r| ensures Less(r[0], r[j]) {
        LessTransitive(x, q[0], q[j - 1]);
      }
    } else {
      InsertKeepsStrictlySorted(x, q[1..]);
      InsertAfterHead(x, q);
    }
  }

  /** Inserting after the head of an increasing sequence puts above the
      head only elements greater than it. */
  lemma InsertAfterHead(x: string, q: seq<string>)
    requires StrictlySorted(q) && x !in q && q != [] && !Less(x, q[0])
    requires StrictlySorted(InsertBeforeGreater(x, q[1..]))
    ensures StrictlySorted(InsertBeforeGreater(x, q))
  {
    var r := InsertBeforeGreater(x, q);
    var rest := InsertBeforeGreater(x, q[1..]);
    assert r == [q[0]] + rest;
    LessTotal(x, q[0]);
    forall j | 0 < j < |r| ensures Less(r[0], r[j]) {
      assert r[j] in multiset(rest);
      assert r[j] in multiset(q[1..]) || r[j] == x;
      if r[j] != x {
        var k :| 0 <= k < |q[1..]| && q[1..][k] == r[j];
        assert q[k + 1] == r[j];
      }
    }
  }

  lemma StrictlyIsSorted(s: seq<string>)
    requires StrictlySorted(s)
    ensures Sorted(s)
  {
    forall i, j | 0 <= i < j < |s| ensures !Less(s[j], s[i]) {
      LessAsymmetric(s[i], s[j]);
    }
  }

  /** In a sequence without repetitions every element occurs once. */
  lemma {:induction false} DistinctElements(q: seq<string>)
    requires StrictlySorted(q)
    ensures forall y :: multiset(q)[y] <= 1
  {
    if q != [] {
      DistinctElements(q[1..]);
      assert q == [q[0]] + q[1..];
      forall j | 0 <= j < |q[1..]| ensures q[1..][j] != q[0] {
        LessIrreflexive(q[0]);
      }
      assert q[0] !in multiset(q[1..]);
    }
  }

  lemma SortedDistinctIsStrict(s: seq<string>)
    requires Sorted(s) && NoDuplicates(s)
    ensures StrictlySorted(s)
  {
    forall i, j | 0 <= i < j < |s| ensures Less(s[i], s[j]) {
      LessTotal(s[i], s[j]);
    }
  }

  /** `sort.Strings`, by insertion. */
  function Sort(s: seq<string>): (r: seq<string>)
    ensures multiset(r) == multiset(s)
    ensures |r| == |s|
  {
    if s == [] then []
    else
      assert s == [s[0]] + s[1..];
      InsertBeforeGreater(s[0], Sort(s[1..]))
  }

  lemma {:induction false} SortIsSorted(s: seq<string>)
    ensures Sorted(Sort(s))
  {
    if s != [] {
      SortIsSorted(s[1..]);
      InsertKeepsSorted(s[0], Sort(s[1..]));
    }
  }

  /** Two sorted sequences with the same elements, counted with multiplicity,
      are equal: the result of sorting does not depend on the input order. */
  lemma {:induction false} SortedUnique(a: seq<string>, b: seq<string>)
    requires Sorted(a) && Sorted(b) && multiset(a) == multiset(b)
    ensures a == b
  {
    if a != [] {
      SortedHeads(a, b);
      SameTails(a, b);
      SortedUnique(a[1..], b[1..]);
      assert a == [a[0]] + a[1..] && b == [b[0]] + b[1..];
    } else {
      assert |b| == |multiset(b)| == 0;
    }
  }

  /** Two sorted sequences with the same elements start alike. */
  lemma SortedHeads(a: seq<string>, b: seq<string>)
    requires Sorted(a) && Sorted(b) && multiset(a) == multiset(b) && a != []
    ensures b != [] && a[0] == b[0]
  {
    assert a[0] in multiset(b);
    assert b[0] in multiset(a);
    var i :| 0 <= i < |a| && a[i] == b[0];
    var j :| 0 <= j < |b| && b[j] == a[0];
    LessTotal(a[0], b[0]);
  }

  /** Two sequences with the same elements and the same head have the same
      elements after it. */
  lemma SameTails(a: seq<string>, b: seq<string>)
    requires multiset(a) == multiset(b) && a != [] && b != [] && a[0] == b[0]
    ensures multiset(a[1..]) == multiset(b[1..])
  {
    assert a == [a[0]] + a[1..] && b == [b[0]] + b[1..];
    assert multiset(a) == multiset{a[0]} + multiset(a[1..]);
    assert multiset(b) == multiset{b[0]} + multiset(b[1..]);
    forall y ensures multiset(a[1..])[y] == multiset(b[1..])[y] {
      assert multiset(a)[y] == multiset{a[0]}[y] + multiset(a[1..])[y];
      assert multiset(b)[y] == multiset{b[0]}[y] + multiset(b[1..])[y];
    }
  }

  /** Sorting a sequence without repetitions gives an increasing sequence with
      the same elements. */
  lemma SortDistinct(s: seq<string>)
    requires NoDuplicates(s)
    ensures StrictlySorted(Sort(s)) && Elems(Sort(s)) == Elems(s)
  {
    var r := Sort(s);
    SortIsSorted(s);
    forall x ensures x in r <==> x in s {
      assert x in r <==> x in multiset(r);
      assert x in s <==> x in multiset(s);
    }
    forall i, j | 0 <= i < j < |r| ensures r[i] != r[j] {
      RepeatedCount(r, i, j);
      NoDuplicatesCount(s, r[i]);
    }
    SortedDistinctIsStrict(r);
  }

  /** An element found at two positions occurs at least twice. */
  lemma RepeatedCount<T>(s: seq<T>, i: int, j: int)
    requires 0 <= i < j < |s|
    ensures s[i] == s[j] ==> multiset(s)[s[i]] >= 2
  {
    assert s == s[..i] + [s[i]] + s[i + 1..j] + [s[j]] + s[j + 1..];
  }

  lemma {:induction false} NoDuplicatesCount<T>(s: seq<T>, x: T)
    requires NoDuplicates(s)
    ensures multiset(s)[x] <= 1
  {
    if s != [] {
      assert s == [s[0]] + s[1..];
      NoDuplicatesCount(s[1..], x);
      if s[0] == x {
        assert x !in s[1..];
      }
    }
  }

  /** Increasing sequences with the same elements are equal. */
  lemma StrictlySortedUnique(a: seq<string>, b: seq<string>)
    requires StrictlySorted(a) && StrictlySorted(b) && Elems(a) == Elems(b)
    ensures a == b
  {
    DistinctElements(a);
    DistinctElements(b);
    forall x ensures multiset(a)[x] == multiset(b)[x] {
      assert x in a <==> x in Elems(a);
      assert x in b <==> x in Elems(b);
    }
    assert multiset(a) == multiset(b);
    StrictlyIsSorted(a);
    StrictlyIsSorted(b);
    SortedUnique(a, b);
  }

  /** First occurrences, in order. */
  function Dedup(s: seq<string>): (r: seq<string>)
    ensures NoDuplicates(r) && Elems(r) == Elems(s)
  {
    if s == [] then []
    else
      var rest := Dedup(s[..|s| - 1]);
      assert Elems(s) == Elems(s[..|s| - 1]) + {s[|s| - 1]} by {
        assert s == s[..|s| - 1] + [s[|s| - 1]];
      }
      if s[|s| - 1] in rest then rest else rest + [s[|s| - 1]]
  }

  /** What the source builds with a `map[string]bool` followed by
      `sort.Strings`: the distinct strings of `s`, increasing. */
  function SortedDistinct(s: seq<string>): (r: seq<string>)
    ensures StrictlySorted(r) && Elems(r) == Elems(s)
  {
    SortDistinct(Dedup(s));
    Sort(Dedup(s))
  }

  /** The values of a map, in the given order of its keys. */
  function ValuesAt<K, V>(m: map<K, V>, order: seq<K>): (vs: seq<V>)
    requires forall i :: 0 <= i < |order| ==> order[i] in m
    ensures |vs| == |order|
    ensures forall i :: 0 <= i < |order| ==> vs[i] == m[order[i]]
  {
    seq(|order|, i requires 0 <= i < |order| => m[order[i]])
  }

  /** Listing one more key lists its value after the others. */
  lemma ValuesAtStep<K, V>(m: map<K, V>, order: seq<K>, i: nat)
    requires i < |order| && forall j :: 0 <= j < |order| ==> order[j] in m
    ensures ValuesAt(m, order[..i + 1]) == ValuesAt(m, order[..i]) + [m[order[i]]]
  {
  }

  /** Every finite set can be listed. */
  lemma {:induction false} SetOrderingExists<T>(s: set<T>)
    ensures exists q :: IsOrdering(q, s)
    decreases |s|
  {
    if s == {} {
      assert IsOrdering([], s);
    } else {
      var x :| x in s;
      SetOrderingExists(s - {x});
      var q :| IsOrdering(q, s - {x});
      ElemsAppend(q, x);
      assert IsOrdering(q + [x], s);
    }
  }

  /** The strings of a set, increasing: what `sort.Strings` makes of the
      keys of a `map[string]bool`, whatever order they were collected in. */
  ghost function SortedSet(s: set<string>): (r: seq<string>)
    ensures StrictlySorted(r) && Elems(r) == s
  {
    SetOrderingExists(s);
    var q :| IsOrdering(q, s);
    SortedDistinct(q)
  }

  /** Taking one more element of a sequence. Stated over any element type,
      where the solver proves it without unfolding the elements' own
      equality. */
  lemma TakeOneMore<T>(s: seq<T>, m: nat)
    requires m < |s|
    ensures s[..m + 1] == s[..m] + [s[m]]
  {
  }

  /** The same, as a function defined from the end unfolds it. */
  lemma TakeStep<T>(s: seq<T>, i: nat)
    requires i < |s|
    ensures s[..i + 1] != [] && s[..i + 1][..i] == s[..i] && s[..i + 1][i] == s[i]
  {
  }

  /** A sequence is its front followed by its last element. */
  lemma AppendLast<T>(a: seq<T>, b: seq<T>)
    requires b != []
    ensures a + b[..|b| - 1] + [b[|b| - 1]] == a + b
  {
  }

  lemma TakeAll<T>(s: seq<T>)
    ensures s[..|s|] == s
  {
  }

  lemma ElemsAppend<T>(s: seq<T>, x: T)
    ensures Elems(s + [x]) == Elems(s) + {x}
  {
  }

  lemma ElemsEmpty<T>()
    ensures Elems<T>([]) == {}
  {
  }

  lemma UpdateTwice<K, V>(m: map<K, V>, k: K, a: V, b: V)
    ensures m[k := a][k := b] == m[k := b]
  {
  }

  lemma DropFirst<T>(s: seq<T>, i: nat)
    requires i < |s|
    ensures s[i..][0] == s[i] && s[i..][1..] == s[i + 1..]
  {
  }

  /** `order` lists each element of `keys` exactly once. */
  predicate IsOrdering<T(==)>(order: seq<T>, keys: set<T>) {
    NoDuplicates(order) && Elems(order) == keys
  }

  /** A sequence without repetitions has as many elements as positions. */
  lemma {:induction false} DistinctCard<T>(s: seq<T>)
    requires NoDuplicates(s)
    ensures |Elems(s)| == |s|
  {
    if s != [] {
      DistinctCard(s[1..]);
      assert s == [s[0]] + s[1..];
      assert Elems(s) == {s[0]} + Elems(s[1..]);
      assert s[0] !in Elems(s[1..]);
    }
  }

  lemma {:induction false} SubsetCard<T>(a: set<T>, b: set<T>)
    requires a <= b
    ensures |a| <= |b|
    ensures |a| == |b| ==> a == b
    decreases |a|
  {
    if a != {} {
      var x :| x in a;
      SubsetCard(a - {x}, b - {x});
      assert a == (a - {x}) + {x} && b == (b - {x}) + {x};
    } else if |b| == 0 {
      assert b == {};
    }
  }

  /** `for k := range m`: the keys of a Go map in an order the runtime picks,
      each exactly once. */
  method EnumerateKeys<K(==), V>(m: map<K, V>) returns (keys: seq<K>)
    ensures NoDuplicates(keys) && Elems(keys) == m.Keys && |keys| == |m|
  {
    keys := [];
    var rest := m.Keys;
    while rest != {}
      invariant rest !! Elems(keys) && rest + Elems(keys) == m.Keys
      invariant NoDuplicates(keys) && |keys| + |rest| == |m|
      decreases |rest|
    {
      var k :| k in rest;
      keys := keys + [k];
      rest := rest - {k};
    }
  }
}
