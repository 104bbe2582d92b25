/** Orders on keys, and sorting by a comparator. */
module Order {

  ghost predicate StrictTotal<K(!new)>(lt: (K, K) -> bool) {
    && (forall a :: !lt(a, a))
    && (forall a, b, c :: lt(a, b) && lt(b, c) ==> lt(a, c))
    && (forall a, b :: a != b ==> lt(a, b) || lt(b, a))
  }

  type Byte = x: nat | x < 256
  type Bytes = seq<Byte>

  /** Byte-wise lexicographic order, as std::string and the default comparator compare keys. */
  predicate BytesLess(a: Bytes, b: Bytes) {
    if b == [] then false
    else if a == [] then true
    else a[0] < b[0] || (a[0] == b[0] && BytesLess(a[1..], b[1..]))
  }

  lemma {:induction false} BytesIrreflexive(a: Bytes)
    ensures !BytesLess(a, a)
  {
    if a != [] { BytesIrreflexive(a[1..]); }
  }

  lemma {:induction false} BytesTransitive(a: Bytes, b: Bytes, c: Bytes)
    requires BytesLess(a, b) && BytesLess(b, c)
    ensures BytesLess(a, c)
  {
    if a != [] && a[0] == b[0] == c[0] { BytesTransitive(a[1..], b[1..], c[1..]); }
  }

  lemma {:induction false} BytesConnected(a: Bytes, b: Bytes)
    requires a != b
    ensures BytesLess(a, b) || BytesLess(b, a)
  {
    if a != [] && b != [] && a[0] == b[0] {
      assert a == [a[0]] + a[1..] && b == [b[0]] + b[1..];
      BytesConnected(a[1..], b[1..]);
    }
  }

  lemma BytesLessIsStrictTotal()
    ensures StrictTotal(BytesLess)
  {
    forall a ensures !BytesLess(a, a) { BytesIrreflexive(a); }
    forall a, b, c | BytesLess(a, b) && BytesLess(b, c) ensures BytesLess(a, c) { BytesTransitive(a, b, c); }
    forall a, b | a != b ensures BytesLess(a, b) || BytesLess(b, a) { BytesConnected(a, b); }
  }

  /** What a comparator sort needs of its comparator, for distinct elements of `s`. */
  ghost predicate StrictWeakAmong<T>(lt: (T, T) -> bool, s: set<T>) {
    && (forall a, b :: a in s && b in s && a != b && lt(a, b) ==> !lt(b, a))
    && (forall a, b, c :: a in s && b in s && c in s && a != b && b != c && a != c && lt(a, b) && lt(b, c) ==> lt(a, c))
    && (forall a, b, c :: a in s && b in s && c in s && a != b && b != c && a != c && Same(lt, a, b) && Same(lt, b, c) ==> Same(lt, a, c))
  }

  ghost predicate Same<T>(lt: (T, T) -> bool, a: T, b: T) {
    !lt(a, b) && !lt(b, a)
  }

  /** No element is less than a different element before it; elements the comparator ties may come in any order. */
  ghost predicate Sorted<T>(lt: (T, T) -> bool, s: seq<T>) {
    forall i, j :: 0 <= i < j < |s| && s[i] != s[j] ==> !lt(s[j], s[i])
  }

  function Elements<T(==)>(s: seq<T>): set<T> {
    set x | x in s
  }

  lemma NotLessAfter<T>(lt: (T, T) -> bool, u: set<T>, x: T, y: T, z: T)
    requires StrictWeakAmong(lt, u) && x in u && y in u && z in u
    requires x != y && lt(x, y)
    requires z != x && (z != y ==> !lt(z, y))
    ensures !lt(z, x)
  {
  }

  lemma InsertedSorted<T>(lt: (T, T) -> bool, s: seq<T>, x: T, p: nat, r: seq<T>)
    requires StrictWeakAmong(lt, Elements(s + [x]))
    requires Sorted(lt, s) && p <= |s|
    requires forall i :: 0 <= i < p ==> s[i] == x || !lt(x, s[i])
    requires p < |s| ==> s[p] != x && lt(x, s[p])
    requires r == s[..p] + [x] + s[p..]
    ensures Sorted(lt, r)
  {
    forall i, j | 0 <= i < j < |r| && r[i] != r[j]
      ensures !lt(r[j], r[i])
    {
      if i == p {
        assert r[j] == s[j - 1] && x == (s + [x])[|s|];
        NotLessAfter(lt, Elements(s + [x]), x, s[p], s[j - 1]);
      } else if j == p {
        assert r[i] == s[i];
      } else {
        var i', j' := if i < p then i else i - 1, if j < p then j else j - 1;
        assert r[i] == s[i'] && r[j] == s[j'];
      }
    }
  }

  ghost predicate Permutes<T>(r: seq<T>, s: seq<T>) {
    multiset(r) == multiset(s)
  }

  /** Places `x` after the elements it is not less than. */
  method Insert<T(==)>(lt: (T, T) -> bool, s: seq<T>, x: T) returns (r: seq<T>)
    requires StrictWeakAmong(lt, Elements(s + [x]))
    requires Sorted(lt, s)
    ensures multiset(r) == multiset(s) + multiset{x}
    ensures Sorted(lt, r)
  {
    var p := 0;
    while p < |s| && (s[p] == x || !lt(x, s[p]))
      invariant 0 <= p <= |s|
      invariant forall i :: 0 <= i < p ==> s[i] == x || !lt(x, s[i])
    {
      p := p + 1;
    }
    r := s[..p] + [x] + s[p..];
    assert s == s[..p] + s[p..];
    InsertedSorted(lt, s, x, p, r);
  }

  /** A comparator sort: some permutation of `s` in which no pair is out of order. */
  method Sort<T(==)>(lt: (T, T) -> bool, s: seq<T>) returns (r: seq<T>)
    requires StrictWeakAmong(lt, Elements(s))
    ensures multiset(r) == multiset(s)
    ensures Sorted(lt, r)
  {
    r := [];
    for i := 0 to |s|
      invariant multiset(r) == multiset(s[..i])
      invariant Sorted(lt, r)
    {
      assert s[..i + 1] == s[..i] + [s[i]];
      SameElements(r, s[..i]);
      StrictWeakSubset(lt, Elements(r + [s[i]]), Elements(s));
      r := Insert(lt, r, s[i]);
    }
    assert s[..|s|] == s;
  }

  lemma SameElements<T>(r: seq<T>, s: seq<T>)
    requires multiset(r) == multiset(s)
    ensures forall x :: x in r <==> x in s
  {
    forall x ensures x in r <==> x in s {
      assert x in r <==> x in multiset(r);
      assert x in s <==> x in multiset(s);
    }
  }

  lemma StrictWeakSubset<T>(lt: (T, T) -> bool, a: set<T>, b: set<T>)
    requires StrictWeakAmong(lt, b) && a <= b
    ensures StrictWeakAmong(lt, a)
  {
  }

  predicate Distinct<T(==)>(s: seq<T>) {
    forall i, j :: 0 <= i < j < |s| ==> s[i] != s[j]
  }

  lemma {:induction false} DistinctOnce<T>(s: seq<T>, x: T)
    requires Distinct(s)
    ensures multiset(s)[x] <= 1
  {
    if s != [] {
      var n := |s| - 1;
      assert s == s[..n] + [s[n]];
      DistinctOnce(s[..n], x);
      assert x == s[n] ==> x !in s[..n];
    }
  }

  lemma PermutedDistinct<T>(r: seq<T>, s: seq<T>)
    requires multiset(r) == multiset(s) && Distinct(s)
    ensures Distinct(r)
  {
    forall i, j | 0 <= i < j < |r| ensures r[i] != r[j] {
      DistinctOnce(s, r[j]);
      assert r == r[..j] + r[j..];
      assert r[j] in r[j..] && r[i] in r[..j];
    }
  }
}
