/** Sorting of content keys. A fixed-width lower-case hex string is modelled by the number it
    writes, so string order and numeric order agree. */
module Ordering {

  ghost predicate Sorted(s: seq<nat>) {
    forall i, j :: 0 <= i < j < |s| ==> s[i] <= s[j]
  }

  ghost predicate Distinct<T>(s: seq<T>) {
    forall i, j :: 0 <= i < j < |s| ==> s[i] != s[j]
  }

  /** The elements of a sequence. */
  function Elements<T>(s: seq<T>): (r: set<T>)
    ensures forall x | x in s :: x in r
    ensures forall x | x in r :: x in s
  {
    set x | x in s
  }

  // ---- a stable sort by a numeric key ----

  function InsertBy<T>(key: T -> nat, x: T, s: seq<T>): (r: seq<T>) {
    if s == [] then [x]
    else if key(x) <= key(s[0]) then [x] + s
    else [s[0]] + InsertBy(key, x, s[1..])
  }

  function SortBy<T>(key: T -> nat, s: seq<T>): (r: seq<T>) {
    if s == [] then [] else InsertBy(key, s[0], SortBy(key, s[1..]))
  }

  function KeysOf<T>(key: T -> nat, s: seq<T>): (r: seq<nat>)
    ensures |r| == |s|
    ensures forall i :: 0 <= i < |s| ==> r[i] == key(s[i])
  {
    seq(|s|, i requires 0 <= i < |s| => key(s[i]))
  }

  ghost predicate SortedBy<T>(key: T -> nat, s: seq<T>) {
    forall i, j :: 0 <= i < j < |s| ==> key(s[i]) <= key(s[j])
  }

  lemma {:induction false} InsertByElements<T>(key: T -> nat, x: T, s: seq<T>)
    ensures multiset(InsertBy(key, x, s)) == multiset(s) + multiset{x}
    ensures |InsertBy(key, x, s)| == |s| + 1
    ensures forall y | y in InsertBy(key, x, s) :: y == x || y in s
  {
    if s != [] && key(x) > key(s[0]) {
      InsertByElements(key, x, s[1..]);
      assert s == [s[0]] + s[1..];
    }
  }

  lemma {:induction false} InsertBySorts<T>(key: T -> nat, x: T, s: seq<T>)
    requires SortedBy(key, s)
    ensures SortedBy(key, InsertBy(key, x, s))
  {
    if s == [] {
    } else if key(x) <= key(s[0]) {
    } else {
      InsertBySorts(key, x, s[1..]);
      InsertByElements(key, x, s[1..]);
      var t := InsertBy(key, x, s[1..]);
      assert InsertBy(key, x, s) == [s[0]] + t;
      forall j | 0 <= j < |t| ensures key(s[0]) <= key(t[j]) {
        assert t[j] in t;
        assert t[j] == x || t[j] in s[1..];
      }
    }
  }

  lemma {:induction false} SortBySorts<T>(key: T -> nat, s: seq<T>)
    ensures SortedBy(key, SortBy(key, s))
    ensures multiset(SortBy(key, s)) == multiset(s)
    ensures |SortBy(key, s)| == |s|
  {
    if s != [] {
      hide SortedBy, InsertBy;
      SortBySorts(key, s[1..]);
      InsertBySorts(key, s[0], SortBy(key, s[1..]));
      InsertByElements(key, s[0], SortBy(key, s[1..]));
      assert s == [s[0]] + s[1..];
    }
  }

  // ---- sorting plain keys ----

  function Same(x: nat): nat { x }

  function Sort(s: seq<nat>): (r: seq<nat>) { SortBy(Same, s) }

  lemma {:induction false} SortByKeys<T>(key: T -> nat, s: seq<T>)
    ensures KeysOf(key, SortBy(key, s)) == Sort(KeysOf(key, s))
  {
    if s != [] {
      SortByKeys(key, s[1..]);
      assert KeysOf(key, s)[1..] == KeysOf(key, s[1..]);
      InsertByKeys(key, s[0], SortBy(key, s[1..]));
    }
  }

  lemma {:induction false} InsertByKeys<T>(key: T -> nat, x: T, s: seq<T>)
    ensures KeysOf(key, InsertBy(key, x, s)) == InsertBy(Same, key(x), KeysOf(key, s))
  {
    if s == [] {
    } else if key(x) <= key(s[0]) {
    } else {
      InsertByKeys(key, x, s[1..]);
      assert KeysOf(key, s)[1..] == KeysOf(key, s[1..]);
    }
  }

  lemma SortSorts(s: seq<nat>)
    ensures Sorted(Sort(s)) && multiset(Sort(s)) == multiset(s) && |Sort(s)| == |s|
  {
    SortBySorts(Same, s);
    var r := Sort(s);
    assert forall i | 0 <= i < |r| :: Same(r[i]) == r[i];
  }

  lemma SortElements(s: seq<nat>)
    ensures forall x :: x in Sort(s) <==> x in s
    ensures Elements(Sort(s)) == Elements(s)
  {
    SortSorts(s);
    forall x ensures x in Sort(s) <==> x in s {
      assert x in Sort(s) <==> x in multiset(Sort(s));
      assert x in s <==> x in multiset(s);
    }
  }

  /** A sorted sequence is determined by its multiset: this is what makes every content order
      independent of arrival order. */
  lemma {:induction false} SortedUnique(a: seq<nat>, b: seq<nat>)
    requires Sorted(a) && Sorted(b) && multiset(a) == multiset(b)
    ensures a == b
  {
    SameMultisetSameLength(a, b);
    if a != [] {
      SortedHead(a, b);
      SortedHead(b, a);
      assert a == [a[0]] + a[1..] && b == [b[0]] + b[1..];
      assert multiset(a[1..]) == multiset(a) - multiset{a[0]};
      assert multiset(b[1..]) == multiset(b) - multiset{b[0]};
      SortedUnique(a[1..], b[1..]);
    }
  }

  lemma SameMultisetSameLength(a: seq<nat>, b: seq<nat>)
    requires multiset(a) == multiset(b)
    ensures |a| == |b|
  {
    assert |a| == |multiset(a)| && |b| == |multiset(b)|;
  }

  lemma SortedHead(a: seq<nat>, b: seq<nat>)
    requires Sorted(a) && multiset(a) == multiset(b) && |a| == |b| > 0
    ensures a[0] <= b[0]
  {
    assert b[0] in multiset(b);
    assert b[0] in a;
  }

  lemma SortOfPermutation(a: seq<nat>, b: seq<nat>)
    requires multiset(a) == multiset(b)
    ensures Sort(a) == Sort(b)
  {
    SortSorts(a);
    SortSorts(b);
    SortedUnique(Sort(a), Sort(b));
  }

  lemma SortOfSorted(a: seq<nat>)
    requires Sorted(a)
    ensures Sort(a) == a
  {
    SortSorts(a);
    SortedUnique(Sort(a), a);
  }

  // ---- distinct sequences and sets ----

  lemma {:induction false} DistinctMultiset<T>(s: seq<T>)
    requires Distinct(s)
    ensures multiset(s) == multiset(Elements(s))
    ensures |Elements(s)| == |s|
  {
    if s != [] {
      DistinctMultiset(s[1..]);
      assert s == [s[0]] + s[1..];
      assert s[0] !in s[1..];
      assert Elements(s) == {s[0]} + Elements(s[1..]);
    }
  }

  lemma DistinctFromMultiset<T>(a: seq<T>, b: seq<T>)
    requires Distinct(a) && multiset(a) == multiset(b)
    ensures Distinct(b)
  {
    forall i, j | 0 <= i < j < |b| ensures b[i] != b[j] {
      if b[i] == b[j] {
        var x := b[i];
        assert b == b[..i] + [x] + b[i + 1..j] + [x] + b[j + 1..];
        assert multiset(b)[x] >= 2;
        DistinctMultiset(a);
        assert false;
      }
    }
  }

  lemma SortDistinct(s: seq<nat>)
    requires Distinct(s)
    ensures Distinct(Sort(s))
  {
    SortSorts(s);
    DistinctFromMultiset(s, Sort(s));
  }

  lemma SortOfSameSet(a: seq<nat>, b: seq<nat>)
    requires Distinct(a) && Distinct(b) && Elements(a) == Elements(b)
    ensures Sort(a) == Sort(b)
  {
    DistinctMultiset(a);
    DistinctMultiset(b);
    SortOfPermutation(a, b);
  }

  /** Keep the elements satisfying p, in order. */
  function Keep<T>(s: seq<T>, p: T -> bool): (r: seq<T>)
    ensures |r| <= |s|
  {
    if s == [] then [] else (if p(s[0]) then [s[0]] else []) + Keep(s[1..], p)
  }

  lemma {:induction false} KeepElements<T>(s: seq<T>, p: T -> bool)
    ensures forall x | x in s :: x in Keep(s, p) <==> p(x)
    ensures forall x | x in Keep(s, p) :: x in s && p(x)
  {
    if s != [] {
      KeepElements(s[1..], p);
      assert s == [s[0]] + s[1..];
    }
  }

  lemma {:induction false} KeepDistinct<T>(s: seq<T>, p: T -> bool)
    requires Distinct(s)
    ensures Distinct(Keep(s, p))
  {
    if s != [] {
      KeepDistinct(s[1..], p);
      KeepElements(s[1..], p);
      assert s[0] !in s[1..];
    }
  }

  lemma {:induction false} KeepAppend<T>(a: seq<T>, b: seq<T>, p: T -> bool)
    ensures Keep(a + b, p) == Keep(a, p) + Keep(b, p)
  {
    if a == [] {
      assert a + b == b;
      assert Keep(a, p) == [];
    } else {
      var h, t, ab := if p(a[0]) then [a[0]] else [], a[1..], a + b;
      assert ab[0] == a[0] && ab[1..] == t + b;
      calc {
        Keep(ab, p);
        { KeepStep(ab, p); }
        h + Keep(t + b, p);
        { KeepAppend(t, b, p); }
        h + (Keep(t, p) + Keep(b, p));
        (h + Keep(t, p)) + Keep(b, p);
        { KeepStep(a, p); }
        Keep(a, p) + Keep(b, p);
      }
    }
  }

  lemma KeepStep<T>(s: seq<T>, p: T -> bool)
    requires s != []
    ensures Keep(s, p) == (if p(s[0]) then [s[0]] else []) + Keep(s[1..], p)
  {
  }

  /** The elements of s that ids names, and those it does not. */
  function Within<T(==)>(s: seq<T>, ids: seq<T>): (r: seq<T>) { Keep(s, x => x in ids) }
  function Without<T(==)>(s: seq<T>, ids: seq<T>): (r: seq<T>) { Keep(s, x => x !in ids) }

  lemma WithinElements<T>(s: seq<T>, ids: seq<T>)
    ensures forall x | x in s :: x in Within(s, ids) <==> x in ids
    ensures forall x | x in Within(s, ids) :: x in s && x in ids
    ensures Distinct(s) ==> Distinct(Within(s, ids))
  {
    KeepElements(s, x => x in ids);
    if Distinct(s) { KeepDistinct(s, x => x in ids); }
  }

  lemma WithoutElements<T>(s: seq<T>, ids: seq<T>)
    ensures forall x | x in s :: x in Without(s, ids) <==> x !in ids
    ensures forall x | x in Without(s, ids) :: x in s && x !in ids
    ensures Distinct(s) ==> Distinct(Without(s, ids))
  {
    KeepElements(s, x => x !in ids);
    if Distinct(s) { KeepDistinct(s, x => x !in ids); }
  }

  /** Consecutive complete chunks of c; a shorter tail is dropped. */
  function Chunks<T>(s: seq<T>, c: nat): (r: seq<seq<T>>)
    requires c > 0
    ensures |r| == |s| / c
    ensures forall k :: 0 <= k < |r| ==> |r[k]| == c
    decreases |s|
  {
    if |s| < c then []
    else
      assert |s[c..]| / c == |s| / c - 1 by { DivStep(|s|, c); }
      [s[..c]] + Chunks(s[c..], c)
  }

  lemma DivStep(n: nat, c: nat)
    requires 0 < c <= n
    ensures (n - c) / c == n / c - 1
  {
    var q, r := n / c, n % c;
    assert n == c * q + r;
    assert n - c == c * (q - 1) + r by { assert c * (q - 1) == c * q - c; }
    DivUnique(n - c, c, q - 1, r);
  }

  lemma DivUnique(n: int, c: nat, q: int, r: int)
    requires c > 0 && 0 <= r < c && n == c * q + r
    ensures n / c == q && n % c == r
  {
    var q', r' := n / c, n % c;
    assert c * q' + r' == c * q + r;
    if q' > q { MulLess(c, q, q'); }
    if q' < q { MulLess(c, q', q); }
  }

  lemma {:induction false} MulLess(c: nat, a: int, b: int)
    requires c > 0 && a < b
    ensures c * a + c <= c * b
    decreases b - a
  {
    if b == a + 1 {
      MulPlusOne(c, a);
    } else {
      MulLess(c, a, b - 1);
      MulPlusOne(c, b - 1);
    }
  }

  lemma MulPlusOne(c: nat, a: int)
    ensures c * (a + 1) == c * a + c
  {
  }

  lemma MulAtMost(c: nat, a: nat, b: nat)
    requires c > 0 && a <= b
    ensures c * a <= c * b && a * c <= b * c && a * c == c * a
  {
    if a < b { MulLess(c, a, b); }
  }

  lemma FloorTimes(n: nat, c: nat)
    requires c > 0
    ensures c * (n / c) <= n < c * (n / c) + c
    ensures n < c ==> n / c == 0
    ensures n >= c ==> n / c >= 1
  {
    assert n == c * (n / c) + n % c;
    if n < c { DivUnique(n, c, 0, n); }
  }

  lemma ChunkBounds<T>(s: seq<T>, c: nat, k: nat)
    requires c > 0 && k <= |Chunks(s, c)|
    ensures k * c <= |s|
    ensures k < |Chunks(s, c)| <==> (k + 1) * c <= |s|
    ensures (k + 1) * c == k * c + c
  {
    FloorTimes(|s|, c);
    MulAtMost(c, k, |s| / c);
    MulPlusOne(c, k);
    if k < |s| / c { MulAtMost(c, k + 1, |s| / c); }
  }

  lemma {:induction false} ChunkAt<T>(s: seq<T>, c: nat, k: nat)
    requires c > 0 && k < |Chunks(s, c)|
    ensures k * c <= (k + 1) * c <= |s| && (k + 1) * c == k * c + c
    ensures Chunks(s, c)[k] == s[k * c..(k + 1) * c]
    decreases k
  {
    ChunkBounds(s, c, k);
    if k > 0 {
      ChunkAt(s[c..], c, k - 1);
      MulPlusOne(c, k - 1);
      DropThenSlice(s, c, (k - 1) * c, k * c);
    }
  }

  lemma DropThenSlice<T>(s: seq<T>, c: nat, i: nat, j: nat)
    requires i <= j && c + j <= |s|
    ensures s[c..][i..j] == s[c + i..c + j]
  {
  }

  lemma DistinctSplit<T>(a: seq<T>, b: seq<T>)
    requires Distinct(a + b)
    ensures forall k | k in a :: k !in b
    ensures Distinct(a) && Distinct(b)
  {
    var s := a + b;
    forall i, j | 0 <= i < |a| && 0 <= j < |b| ensures a[i] != b[j] { assert s[i] == a[i] && s[|a| + j] == b[j]; }
    assert forall i | 0 <= i < |b| :: b[i] == s[|a| + i];
    assert forall i | 0 <= i < |a| :: a[i] == s[i];
  }

  /** Distinct chunks of a distinct sequence share nothing. */
  lemma ChunksDisjoint<T>(s: seq<T>, c: nat, i: nat, j: nat)
    requires c > 0 && Distinct(s) && i < j < |Chunks(s, c)|
    ensures forall k | k in Chunks(s, c)[i] :: k !in Chunks(s, c)[j]
  {
    ChunkAt(s, c, i);
    ChunkAt(s, c, j);
    MulLess(c, i, j);
    var a, b := s[..(i + 1) * c], s[(i + 1) * c..];
    assert s == a + b;
    DistinctSplit(a, b);
    forall k | k in Chunks(s, c)[i] ensures k !in Chunks(s, c)[j] {
      var u :| 0 <= u < c && Chunks(s, c)[i][u] == k;
      assert a[i * c + u] == k;
      forall v | 0 <= v < c ensures Chunks(s, c)[j][v] != k {
        assert Chunks(s, c)[j][v] == b[j * c + v - (i + 1) * c];
      }
    }
  }

  /** With distinct keys, a key-sorted sequence is determined by its elements. */
  lemma SortedByUnique<T>(key: T -> nat, a: seq<T>, b: seq<T>)
    requires SortedBy(key, a) && SortedBy(key, b) && multiset(a) == multiset(b) && Distinct(KeysOf(key, a))
    ensures a == b
  {
    KeysMultiset(key, a, b);
    var ka, kb := KeysOf(key, a), KeysOf(key, b);
    SortedUnique(ka, kb);
    assert |a| == |ka| == |kb| == |b|;
    forall i | 0 <= i < |a| ensures a[i] == b[i] {
      assert b[i] in multiset(b);
      assert b[i] in a;
      var j :| 0 <= j < |a| && a[j] == b[i];
      assert ka[j] == kb[i] == ka[i];
    }
  }

  lemma RemoveOne<T>(s: seq<T>, i: nat)
    requires i < |s|
    ensures multiset(s[..i] + s[i + 1..]) == multiset(s) - multiset{s[i]}
  {
    assert s == s[..i] + [s[i]] + s[i + 1..];
  }

  lemma KeysRemoveOne<T>(key: T -> nat, s: seq<T>, i: nat)
    requires i < |s|
    ensures multiset(KeysOf(key, s[..i] + s[i + 1..])) == multiset(KeysOf(key, s)) - multiset{key(s[i])}
  {
    var ks := KeysOf(key, s);
    RemoveOne(ks, i);
    assert KeysOf(key, s[..i] + s[i + 1..]) == ks[..i] + ks[i + 1..];
  }

  lemma {:induction false} KeysMultiset<T>(key: T -> nat, a: seq<T>, b: seq<T>)
    requires multiset(a) == multiset(b)
    ensures multiset(KeysOf(key, a)) == multiset(KeysOf(key, b))
    decreases |a|
  {
    if a == [] {
      assert |b| == |multiset(b)| == 0;
    } else {
      hide KeysOf;
      assert a[0] in multiset(b);
      var i :| 0 <= i < |b| && b[i] == a[0];
      var a', b' := a[..0] + a[1..], b[..i] + b[i + 1..];
      assert multiset(a') == multiset(b') by {
        RemoveOne(a, 0);
        RemoveOne(b, i);
      }
      KeysMultiset(key, a', b');
      OneKeyBack(key, a, b, 0, i);
    }
  }

  lemma OneKeyBack<T>(key: T -> nat, a: seq<T>, b: seq<T>, i: nat, j: nat)
    requires i < |a| && j < |b| && a[i] == b[j]
    requires multiset(KeysOf(key, a[..i] + a[i + 1..])) == multiset(KeysOf(key, b[..j] + b[j + 1..]))
    ensures multiset(KeysOf(key, a)) == multiset(KeysOf(key, b))
  {
    hide KeysOf;
    KeysRemoveOne(key, a, i);
    KeysRemoveOne(key, b, j);
    KeyIn(key, a, i);
    KeyIn(key, b, j);
    BackFrom(multiset(KeysOf(key, a)), multiset(KeysOf(key, b)), key(a[i]));
  }

  lemma KeyIn<T>(key: T -> nat, s: seq<T>, i: nat)
    requires i < |s|
    ensures key(s[i]) in multiset(KeysOf(key, s))
  {
    assert KeysOf(key, s)[i] in KeysOf(key, s);
  }

  lemma BackFrom<T>(a: multiset<T>, b: multiset<T>, x: T)
    requires x in a && x in b && a - multiset{x} == b - multiset{x}
    ensures a == b
  {
    assert a == (a - multiset{x}) + multiset{x} && b == (b - multiset{x}) + multiset{x};
  }

  lemma {:induction false} KeepAll<T>(s: seq<T>, p: T -> bool)
    requires forall x | x in s :: p(x)
    ensures Keep(s, p) == s
  {
    if s != [] { KeepAll(s[1..], p); }
  }

  lemma {:induction false} KeepCount<T>(s: seq<T>, p: T -> bool, x: T)
    ensures multiset(Keep(s, p))[x] == if p(x) then multiset(s)[x] else 0
  {
    if s != [] {
      KeepCount(s[1..], p, x);
      assert s == [s[0]] + s[1..];
    }
  }

  lemma KeepMultiset<T>(a: seq<T>, b: seq<T>, p: T -> bool)
    requires multiset(a) == multiset(b)
    ensures multiset(Keep(a, p)) == multiset(Keep(b, p))
  {
    var ka, kb := multiset(Keep(a, p)), multiset(Keep(b, p));
    forall x | x in ka ensures ka[x] == kb[x] {
      KeepCount(a, p, x);
      KeepCount(b, p, x);
    }
    forall x | x in kb ensures ka[x] == kb[x] {
      KeepCount(a, p, x);
      KeepCount(b, p, x);
    }
    assert ka == kb;
  }

  lemma {:induction false} KeepPartition<T>(s: seq<T>, p: T -> bool, q: T -> bool)
    requires forall x | x in s :: p(x) <==> !q(x)
    ensures multiset(Keep(s, p)) + multiset(Keep(s, q)) == multiset(s)
  {
    if s == [] {
      assert Keep(s, p) == [] && Keep(s, q) == [];
    } else {
      KeepPartition(s[1..], p, q);
      KeepStep(s, p);
      KeepStep(s, q);
      assert multiset(s) == multiset{s[0]} + multiset(s[1..]) by { assert s == [s[0]] + s[1..]; }
      hide Keep;
      assert p(s[0]) <==> !q(s[0]);
    }
  }

  lemma {:induction false} KeepKeep<T>(s: seq<T>, p: T -> bool, q: T -> bool)
    requires forall x | x in s && p(x) :: q(x)
    ensures Keep(Keep(s, q), p) == Keep(s, p)
  {
    if s == [] {
      assert Keep(s, q) == [];
    } else {
      KeepKeep(s[1..], p, q);
      KeepStep(s, p);
      KeepStep(s, q);
      if q(s[0]) {
        var k := [s[0]] + Keep(s[1..], q);
        KeepStep(k, p);
        assert k[1..] == Keep(s[1..], q);
      } else {
        assert s[0] in s && !p(s[0]);
        assert Keep(s, q) == Keep(s[1..], q) && Keep(s, p) == Keep(s[1..], p);
      }
    }
  }

  lemma {:induction false} KeepSame<T>(s: seq<T>, p: T -> bool, q: T -> bool)
    requires forall x | x in s :: p(x) <==> q(x)
    ensures Keep(s, p) == Keep(s, q)
  {
    if s != [] {
      assert s[0] in s;
      KeepSame(s[1..], p, q);
    }
  }

  lemma {:induction false} KeepNone<T>(s: seq<T>, p: T -> bool)
    requires forall x | x in s :: !p(x)
    ensures Keep(s, p) == []
  {
    if s != [] { KeepNone(s[1..], p); }
  }

  lemma SubsetSize<T>(a: set<T>, b: set<T>)
    requires a <= b
    ensures |a| <= |b| && (|a| == |b| ==> a == b)
  {
    assert b == a + (b - a);
  }
}
