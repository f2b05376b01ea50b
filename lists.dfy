/** The Kotlin collection operations the app relies on (`indexOfFirst`, `find`,
    `filter`, `list - element`, `distinct`, `sumOf`), written over sequences. */
module Lists {
  import opened Wrappers

  /** `indexOfFirst`: the index of the first element satisfying `p`, or -1. */
  function IndexOfFirst<T>(s: seq<T>, p: T -> bool): (k: int)
    ensures -1 <= k < |s|
    ensures 0 <= k ==> p(s[k])
    ensures 0 <= k ==> forall j :: 0 <= j < k ==> !p(s[j])
    ensures k < 0 <==> forall j :: 0 <= j < |s| ==> !p(s[j])
  {
    if s == [] then -1
    else if p(s[0]) then 0
    else
      var k := IndexOfFirst(s[1..], p);
      if k < 0 then -1 else k + 1
  }

  /** `find`: the first element satisfying `p`, or null. */
  function Find<T>(s: seq<T>, p: T -> bool): (r: Option<T>)
    ensures r.None? <==> forall j :: 0 <= j < |s| ==> !p(s[j])
    ensures r.Some? ==> r.value in s && p(r.value)
  {
    var k := IndexOfFirst(s, p);
    if k < 0 then None else Some(s[k])
  }

  /** `filter`: the elements satisfying `p`, in their original order. */
  function Filter<T>(s: seq<T>, p: T -> bool): (r: seq<T>)
    ensures |r| <= |s|
    ensures forall x :: x in r ==> x in s && p(x)
    ensures forall x :: x in s && p(x) ==> x in r
    ensures forall j :: 0 <= j < |r| ==> p(r[j])
  {
    if s == [] then []
    else (if p(s[0]) then [s[0]] else []) + Filter(s[1..], p)
  }

  /** Filtering distributes over concatenation. */
  lemma {:induction false} FilterAppend<T>(a: seq<T>, b: seq<T>, p: T -> bool)
    ensures Filter(a + b, p) == Filter(a, p) + Filter(b, p)
  {
    if a == [] {
      assert a + b == b;
    } else {
      assert (a + b)[1..] == a[1..] + b;
      FilterAppend(a[1..], b, p);
    }
  }

  /** Filtering out at least one element shortens the sequence. */
  lemma {:induction false} FilterShorter<T>(s: seq<T>, p: T -> bool, j: nat)
    requires j < |s| && !p(s[j])
    ensures |Filter(s, p)| < |s|
  {
    if j > 0 {
      FilterShorter(s[1..], p, j - 1);
    }
  }

  /** Filtering keeps a sequence whose every element already passes. */
  lemma {:induction false} FilterAll<T>(s: seq<T>, p: T -> bool)
    requires forall j :: 0 <= j < |s| ==> p(s[j])
    ensures Filter(s, p) == s
  {
    if s != [] {
      FilterAll(s[1..], p);
    }
  }

  /** The sequence without its element at index `k`. */
  function RemoveAt<T>(s: seq<T>, k: nat): (r: seq<T>)
    requires k < |s|
    ensures |r| == |s| - 1
    ensures forall j :: 0 <= j < k ==> r[j] == s[j]
    ensures forall j :: k <= j < |r| ==> r[j] == s[j + 1]
    ensures multiset(r) + multiset{s[k]} == multiset(s)
  {
    assert s == s[..k] + [s[k]] + s[k + 1..];
    s[..k] + s[k + 1..]
  }

  /** Kotlin `list - x`: removes the first element equal to `x`, if any. */
  function RemoveFirst<T(==)>(s: seq<T>, x: T): (r: seq<T>)
    ensures x !in s ==> r == s
    ensures x in s ==> |r| == |s| - 1 && multiset(r) + multiset{x} == multiset(s)
  {
    var k := IndexOfFirst(s, y => y == x);
    if k < 0 then s else RemoveAt(s, k)
  }

  /** Removing the first copy of `s[k]`, where `k` is the first index of some
      property that `s[k]` has, removes exactly index `k`: every equal element
      has that property too. */
  lemma RemoveFirstAtFirstMatch<T>(s: seq<T>, p: T -> bool, k: nat)
    requires k < |s| && k == IndexOfFirst(s, p)
    ensures RemoveFirst(s, s[k]) == RemoveAt(s, k)
  {
    var m := IndexOfFirst(s, y => y == s[k]);
    assert 0 <= m <= k;
  }

  /** `distinct`: the first occurrence of every element, in order. */
  function Distinct<T(==)>(s: seq<T>): (r: seq<T>)
    ensures forall i, j :: 0 <= i < j < |r| ==> r[i] != r[j]
    ensures forall i :: 0 <= i < |r| ==> r[i] in s
    ensures forall i :: 0 <= i < |s| ==> s[i] in r
    ensures |r| <= |s|
  {
    if s == [] then []
    else
      var d := Distinct(s[..|s| - 1]);
      assert forall i :: 0 <= i < |s| - 1 ==> s[i] == s[..|s| - 1][i];
      if s[|s| - 1] in d then d else d + [s[|s| - 1]]
  }

  /** Three pairwise different elements are their own `distinct`. */
  lemma DistinctOfThree<T>(a: T, b: T, c: T)
    requires a != b && a != c && b != c
    ensures Distinct([a, b, c]) == [a, b, c]
  {
    assert [a, b, c][..2] == [a, b];
    assert [a, b][..1] == [a];
    assert [a][..0] == [];
    assert Distinct([a]) == [a];
    assert Distinct([a, b]) == [a, b];
  }

  /** `distinct` keeps the first element in front. */
  lemma {:induction false} DistinctHead<T>(s: seq<T>)
    requires s != []
    ensures Distinct(s) != [] && Distinct(s)[0] == s[0]
  {
    if |s| > 1 {
      var init := s[..|s| - 1];
      DistinctHead(init);
      assert init[0] == s[0];
    }
  }

  /** `sumOf`: the sum of `f` over the elements, in order. */
  function SumOf<T>(s: seq<T>, f: T -> real): real
  {
    if s == [] then 0.0 else SumOf(s[..|s| - 1], f) + f(s[|s| - 1])
  }

  /** The sum of a concatenation is the sum of the parts. */
  lemma {:induction false} SumOfAppend<T>(a: seq<T>, b: seq<T>, f: T -> real)
    ensures SumOf(a + b, f) == SumOf(a, f) + SumOf(b, f)
  {
    if b == [] {
      assert a + b == a;
    } else {
      assert (a + b)[..|a + b| - 1] == a + b[..|b| - 1];
      SumOfAppend(a, b[..|b| - 1], f);
    }
  }

  /** Dropping one element lowers the sum by its value. */
  lemma SumOfRemoveAt<T>(s: seq<T>, k: nat, f: T -> real)
    requires k < |s|
    ensures SumOf(s[..k] + s[k + 1..], f) == SumOf(s, f) - f(s[k])
  {
    var front, back := s[..k], s[k + 1..];
    var upTo := s[..k + 1];
    assert upTo == front + [s[k]];
    assert s == upTo + back;
    SumOfAppend(upTo, back, f);
    SumOfAppend(front, [s[k]], f);
    SumOfAppend(front, back, f);
    assert SumOf([s[k]], f) == f(s[k]) by {
      assert [s[k]][..0] == [];
    }
  }

  /** Replacing one element changes the sum by the difference of the two. */
  lemma SumOfUpdate<T>(s: seq<T>, k: nat, x: T, f: T -> real)
    requires k < |s|
    ensures SumOf(s[k := x], f) == SumOf(s, f) - f(s[k]) + f(x)
  {
    var r := s[k := x];
    assert s == s[..k] + [s[k]] + s[k + 1..];
    assert r == s[..k] + [x] + s[k + 1..];
    SumOfAppend(s[..k] + [s[k]], s[k + 1..], f);
    SumOfAppend(s[..k], [s[k]], f);
    SumOfAppend(s[..k] + [x], s[k + 1..], f);
    SumOfAppend(s[..k], [x], f);
    assert SumOf([s[k]], f) == f(s[k]);
    assert SumOf([x], f) == f(x);
  }

  /** `map`: `f` applied to every element, in order. */
  function MapSeq<T, U>(s: seq<T>, f: T -> U): (r: seq<U>)
    ensures |r| == |s|
    ensures forall i :: 0 <= i < |s| ==> r[i] == f(s[i])
  {
    if s == [] then [] else [f(s[0])] + MapSeq(s[1..], f)
  }

  lemma {:induction false} MapSeqAppend<T, U>(a: seq<T>, b: seq<T>, f: T -> U)
    ensures MapSeq(a + b, f) == MapSeq(a, f) + MapSeq(b, f)
  {
    if a == [] {
      assert a + b == b;
    } else {
      assert (a + b)[1..] == a[1..] + b;
      MapSeqAppend(a[1..], b, f);
    }
  }

  /** `mapNotNull`: the present results of `f`, in order. */
  function MapNotNull<T, U>(s: seq<T>, f: T -> Option<U>): (r: seq<U>)
    ensures |r| <= |s|
  {
    if s == [] then []
    else (if f(s[0]).Some? then [f(s[0]).value] else []) + MapNotNull(s[1..], f)
  }

  /** Concatenation associates. */
  lemma AppendAssociates<T>(a: seq<T>, b: seq<T>, c: seq<T>)
    ensures (a + b) + c == a + (b + c)
  {
  }

  /** The image of a member is in the mapped sequence. */
  lemma MapSeqHas<T, U>(s: seq<T>, f: T -> U, x: T)
    requires x in s
    ensures f(x) in MapSeq(s, f)
  {
    var i :| 0 <= i < |s| && s[i] == x;
    assert MapSeq(s, f)[i] == f(x);
  }

  /** Every element of the mapped sequence is the image of a member. */
  lemma MapSeqFrom<T, U>(s: seq<T>, f: T -> U, y: U)
    requires y in MapSeq(s, f)
    ensures exists x :: x in s && f(x) == y
  {
    var i :| 0 <= i < |s| && MapSeq(s, f)[i] == y;
    assert s[i] in s;
  }

  /** When every element maps to a value, none is dropped. */
  lemma {:induction false} MapNotNullAllSome<T, U>(s: seq<T>, f: T -> Option<U>)
    ensures (forall j :: 0 <= j < |s| ==> f(s[j]).Some?) ==> |MapNotNull(s, f)| == |s|
  {
    if s != [] && forall j :: 0 <= j < |s| ==> f(s[j]).Some? {
      assert forall j :: 0 <= j < |s[1..]| ==> f(s[1..][j]).Some? by {
        forall j | 0 <= j < |s[1..]| ensures f(s[1..][j]).Some? { assert s[1..][j] == s[j + 1]; }
      }
      MapNotNullAllSome(s[1..], f);
    }
  }

  /** A sum of non-negative terms is non-negative. */
  lemma {:induction false} SumOfNonNegative<T>(s: seq<T>, f: T -> real)
    requires forall j :: 0 <= j < |s| ==> f(s[j]) >= 0.0
    ensures SumOf(s, f) >= 0.0
  {
    if s != [] {
      var init := s[..|s| - 1];
      assert forall j :: 0 <= j < |init| ==> init[j] == s[j];
      SumOfNonNegative(init, f);
    }
  }

  /** Decoding encoded elements, when decoding inverts encoding on each of
      them, gives back the elements. */
  lemma {:induction false} MapNotNullInverts<T, U>(xs: seq<U>, enc: U -> T, dec: T -> Option<U>)
    requires forall i :: 0 <= i < |xs| ==> dec(enc(xs[i])) == Some(xs[i])
    ensures MapNotNull(MapSeq(xs, enc), dec) == xs
  {
    if xs != [] {
      var m := MapSeq(xs, enc);
      assert m[1..] == MapSeq(xs[1..], enc);
      assert dec(m[0]) == Some(xs[0]);
      MapNotNullInverts(xs[1..], enc, dec);
    }
  }

  /** Filtering drops a sequence whose every element fails. */
  lemma {:induction false} FilterNone<T>(s: seq<T>, p: T -> bool)
    requires forall j :: 0 <= j < |s| ==> !p(s[j])
    ensures Filter(s, p) == []
  {
    if s != [] {
      FilterNone(s[1..], p);
    }
  }

  /** Every element of a filtered sequence keeps a property all elements of
      the original have. */
  lemma {:induction false} FilterKeeps<T>(s: seq<T>, p: T -> bool, q: T -> bool)
    requires forall j :: 0 <= j < |s| ==> q(s[j])
    ensures forall j :: 0 <= j < |Filter(s, p)| ==> q(Filter(s, p)[j])
  {
    if s != [] {
      FilterKeeps(s[1..], p, q);
      var r := Filter(s, p);
      assert r == (if p(s[0]) then [s[0]] else []) + Filter(s[1..], p);
    }
  }

  // --- Order-free facts: what survives when only the multiset is known ---

  /** `f` with its results wrapped, so that `map` is a `mapNotNull`. */
  function SomeOf<T, U>(f: T -> U): T -> Option<U> {
    (x: T) => Some(f(x))
  }

  /** `p` as a `mapNotNull` filter. */
  function KeepIf<T>(p: T -> bool): T -> Option<T> {
    (x: T) => if p(x) then Some(x) else None
  }

  lemma {:induction false} MapSeqAsMapNotNull<T, U>(s: seq<T>, f: T -> U)
    ensures MapSeq(s, f) == MapNotNull(s, SomeOf(f))
  {
    if s != [] {
      MapSeqAsMapNotNull(s[1..], f);
    }
  }

  lemma {:induction false} FilterAsMapNotNull<T>(s: seq<T>, p: T -> bool)
    ensures Filter(s, p) == MapNotNull(s, KeepIf(p))
  {
    if s != [] {
      FilterAsMapNotNull(s[1..], p);
    }
  }

  lemma {:induction false} MapNotNullAppend<T, U>(a: seq<T>, b: seq<T>, f: T -> Option<U>)
    ensures MapNotNull(a + b, f) == MapNotNull(a, f) + MapNotNull(b, f)
  {
    if a == [] {
      assert a + b == b;
    } else {
      var ab := a + b;
      assert ab[0] == a[0] && ab[1..] == a[1..] + b;
      var c := if f(a[0]).Some? then [f(a[0]).value] else [];
      assert MapNotNull(ab, f) == c + MapNotNull(a[1..] + b, f);
      assert MapNotNull(a, f) == c + MapNotNull(a[1..], f);
      MapNotNullAppend(a[1..], b, f);
    }
  }

  /** `mapNotNull` of a rearrangement is a rearrangement of the results. */
  lemma {:induction false} MapNotNullPermutes<T, U>(a: seq<T>, b: seq<T>, f: T -> Option<U>)
    requires multiset(a) == multiset(b)
    ensures multiset(MapNotNull(a, f)) == multiset(MapNotNull(b, f))
    decreases |a|
  {
    if a == [] {
      assert |b| == |multiset(b)| == 0;
    } else {
      var x := a[0];
      assert x in multiset(b);
      var k :| 0 <= k < |b| && b[k] == x;
      var front, back := b[..k], b[k + 1..];
      assert b == front + [x] + back;
      assert a == [x] + a[1..];
      assert multiset(b) == multiset(front) + multiset{x} + multiset(back);
      assert multiset(a) == multiset{x} + multiset(a[1..]);
      assert multiset(front + back) == multiset(front) + multiset(back);
      forall y ensures multiset(a[1..])[y] == multiset(front + back)[y] {
        assert multiset(a)[y] == multiset(b)[y];
      }
      assert multiset(a[1..]) == multiset(front + back);
      MapNotNullPermutes(a[1..], front + back, f);
      MapNotNullAppend([x], a[1..], f);
      MapNotNullAppend(front, back, f);
      MapNotNullAppend(front + [x], back, f);
      MapNotNullAppend(front, [x], f);
    }
  }

  /** `map` of a rearrangement is a rearrangement of the results. */
  lemma MapSeqPermutes<T, U>(a: seq<T>, b: seq<T>, f: T -> U)
    requires multiset(a) == multiset(b)
    ensures multiset(MapSeq(a, f)) == multiset(MapSeq(b, f))
  {
    MapSeqAsMapNotNull(a, f);
    MapSeqAsMapNotNull(b, f);
    MapNotNullPermutes(a, b, SomeOf(f));
  }

  /** `filter` of a rearrangement is a rearrangement of the results. */
  lemma FilterPermutes<T>(a: seq<T>, b: seq<T>, p: T -> bool)
    requires multiset(a) == multiset(b)
    ensures multiset(Filter(a, p)) == multiset(Filter(b, p))
  {
    FilterAsMapNotNull(a, p);
    FilterAsMapNotNull(b, p);
    MapNotNullPermutes(a, b, KeepIf(p));
  }

  /** No element occurs twice. */
  ghost predicate NoDuplicates<T>(s: seq<T>) {
    forall i, j :: 0 <= i < j < |s| ==> s[i] != s[j]
  }

  /** Each element of a sequence without duplicates occurs once. */
  lemma {:induction false} OccursOnce<T>(s: seq<T>, x: T)
    requires NoDuplicates(s)
    ensures multiset(s)[x] == if x in s then 1 else 0
  {
    if s != [] {
      assert s == [s[0]] + s[1..];
      assert NoDuplicates(s[1..]) by {
        forall i, j | 0 <= i < j < |s[1..]| ensures s[1..][i] != s[1..][j] {
          assert s[1..][i] == s[i + 1] && s[1..][j] == s[j + 1];
        }
      }
      OccursOnce(s[1..], x);
      assert s[0] !in s[1..] by {
        forall i | 0 <= i < |s[1..]| ensures s[1..][i] != s[0] {
          assert s[1..][i] == s[i + 1];
        }
      }
    }
  }

  /** Two sequences without duplicates holding the same elements are
      rearrangements of each other. */
  lemma SameElements<T>(a: seq<T>, b: seq<T>)
    requires NoDuplicates(a) && NoDuplicates(b)
    requires forall x :: x in a <==> x in b
    ensures multiset(a) == multiset(b)
  {
    forall x ensures multiset(a)[x] == multiset(b)[x] {
      OccursOnce(a, x);
      OccursOnce(b, x);
    }
  }
}
