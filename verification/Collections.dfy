/** Ordering of identifiers, and the sequence operations every other module
    builds on: filtering, and sorting with a comparison function. */
module TextOrder {

  /** The string comparison behind every `ID <` in the system: character by
      character, a proper prefix coming first. */
  predicate Less(a: string, b: string)
  {
    if b == [] then false
    else if a == [] then true
    else a[0] < b[0] || (a[0] == b[0] && Less(a[1..], b[1..]))
  }

  /** `a` and `b` agree on their first `k` characters and no further, and `a` ends
      there or has the smaller character. */
  ghost predicate DiffersAt(a: string, b: string, k: nat)
  {
    k <= |a| && k < |b| && a[..k] == b[..k] && (k < |a| ==> a[k] < b[k])
  }

  /** Lexicographic order: decided at the first difference. */
  lemma {:induction false} LessMeans(a: string, b: string)
    ensures Less(a, b) <==> exists k: nat :: DiffersAt(a, b, k)
  {
    if b != [] && a != [] && a[0] == b[0] {
      LessMeans(a[1..], b[1..]);
      if k: nat :| DiffersAt(a[1..], b[1..], k) {
        assert a[..k + 1] == [a[0]] + a[1..][..k] && b[..k + 1] == [b[0]] + b[1..][..k];
        assert DiffersAt(a, b, k + 1);
      }
      if k: nat :| DiffersAt(a, b, k) {
        assert k > 0 && a[1..][..k - 1] == a[..k][1..] && b[1..][..k - 1] == b[..k][1..];
        assert DiffersAt(a[1..], b[1..], k - 1);
      }
    } else if b != [] {
      assert a[..0] == b[..0];
      if a == [] || a[0] < b[0] { assert DiffersAt(a, b, 0); }
      assert forall k: nat :: DiffersAt(a, b, k) && 0 < k ==> a[..k][0] == b[..k][0];
    }
  }

  lemma {:induction false} LessIrreflexive(a: string)
    ensures !Less(a, a)
  {
    if a != [] { LessIrreflexive(a[1..]); }
  }

  lemma {:induction false} LessTransitive(a: string, b: string, c: string)
    requires Less(a, b) && Less(b, c)
    ensures Less(a, c)
  {
    if a != [] && a[0] == b[0] && b[0] == c[0] {
      LessTransitive(a[1..], b[1..], c[1..]);
    }
  }

  lemma {:induction false} LessTotal(a: string, b: string)
    requires a != b
    ensures Less(a, b) || Less(b, a)
  {
    if a != [] && b != [] && a[0] == b[0] {
      assert a == [a[0]] + a[1..] && b == [b[0]] + b[1..];
      LessTotal(a[1..], b[1..]);
    }
  }
}

module Options {
  datatype Option<+T> = None | Some(value: T)
}

module Sorting {

  /** The elements of `s` that satisfy `p`, in order. */
  function Filter<T(!new)>(s: seq<T>, p: T -> bool): seq<T>
  {
    if s == [] then []
    else
      var r := Filter(s[..|s| - 1], p);
      if p(s[|s| - 1]) then r + [s[|s| - 1]] else r
  }

  lemma {:induction false} FilterElements<T(!new)>(s: seq<T>, p: T -> bool)
    ensures forall x :: x in Filter(s, p) <==> x in s && p(x)
  {
    if s != [] {
      assert s == s[..|s| - 1] + [s[|s| - 1]];
      FilterElements(s[..|s| - 1], p);
    }
  }

  lemma {:induction false} FilterCounts<T(!new)>(s: seq<T>, p: T -> bool)
    ensures forall x :: multiset(Filter(s, p))[x] == if p(x) then multiset(s)[x] else 0
  {
    if s != [] {
      assert s == s[..|s| - 1] + [s[|s| - 1]];
      FilterCounts(s[..|s| - 1], p);
    }
  }

  /** Filtering one element more, the step of every loop that appends. */
  lemma FilterSnoc<T(!new)>(s: seq<T>, i: nat, p: T -> bool)
    requires i < |s|
    ensures Filter(s[..i + 1], p) == Filter(s[..i], p) + if p(s[i]) then [s[i]] else []
  {
    assert s[..i + 1][..i] == s[..i];
  }

  lemma FilterAppend<T(!new)>(s: seq<T>, x: T, p: T -> bool)
    ensures Filter(s + [x], p) == Filter(s, p) + if p(x) then [x] else []
  {
    assert (s + [x])[..|s|] == s;
  }

  /** A filtered sequence repeats nothing the original does not repeat. */
  lemma {:induction false} FilterDistinct<T(!new), K(!new)>(s: seq<T>, p: T -> bool, key: T -> K)
    requires DistinctBy(s, key)
    ensures DistinctBy(Filter(s, p), key)
  {
    if s != [] {
      var init := s[..|s| - 1];
      FilterDistinct(init, p, key);
      FilterElements(init, p);
      forall x | x in Filter(init, p) ensures key(x) != key(s[|s| - 1]) {
        var i :| 0 <= i < |init| && init[i] == x;
        assert s[i] == x;
      }
    }
  }

  lemma {:induction false} FilterPrefix<T(!new)>(s: seq<T>, i: nat, p: T -> bool)
    requires i <= |s|
    ensures Filter(s[..i], p) <= Filter(s, p)
  {
    if i == |s| {
      assert s[..i] == s;
    } else {
      assert s[..|s| - 1][..i] == s[..i];
      FilterPrefix(s[..|s| - 1], i, p);
    }
  }

  lemma {:induction false} FilterNoneAfter<T(!new)>(s: seq<T>, i: nat, p: T -> bool)
    requires i <= |s| && forall k :: i <= k < |s| ==> !p(s[k])
    ensures Filter(s, p) == Filter(s[..i], p)
  {
    if i == |s| {
      assert s[..i] == s;
    } else {
      assert s[..|s| - 1][..i] == s[..i];
      FilterNoneAfter(s[..|s| - 1], i, p);
    }
  }

  lemma CountIn<T(!new)>(s: seq<T>, k: nat, p: T -> bool, x: T)
    requires k <= |s|
    requires forall i :: 0 <= i < k ==> p(s[i])
    requires forall i :: k <= i < |s| ==> !p(s[i])
    ensures multiset(s[..k])[x] == if p(x) then multiset(s)[x] else 0
  {
    assert s == s[..k] + s[k..];
    assert multiset(s)[x] == multiset(s[..k])[x] + multiset(s[k..])[x];
    assert x in s[..k] ==> p(x);
    assert x in s[k..] ==> !p(x);
  }

  /** If an arrangement of the elements satisfying `p` has those satisfying
      `keep` first, they are what filtering for `keep` beforehand leaves. */
  lemma FilterArrangedPrefix<T(!new)>(s: seq<T>, q: seq<T>, k: nat, p: T -> bool, keep: T -> bool)
    requires multiset(q) == multiset(Filter(s, p)) && k <= |q|
    requires forall i :: 0 <= i < k ==> keep(q[i])
    requires forall i :: k <= i < |q| ==> !keep(q[i])
    ensures multiset(q[..k]) == multiset(Filter(Filter(s, keep), p))
  {
    FilterCounts(s, p);
    FilterCounts(s, keep);
    FilterCounts(Filter(s, keep), p);
    forall x ensures multiset(q[..k])[x] == multiset(Filter(Filter(s, keep), p))[x] {
      CountIn(q, k, keep, x);
      assert multiset(q)[x] == multiset(Filter(s, p))[x];
    }
  }

  /** No two positions carry the same key. */
  ghost predicate DistinctBy<T(!new), K(!new)>(s: seq<T>, key: T -> K)
  {
    forall i, j :: 0 <= i < j < |s| ==> key(s[i]) != key(s[j])
  }

  /** `less` is a strict total order on the elements of `s`. */
  ghost predicate StrictOrderOn<T(!new)>(less: (T, T) -> bool, s: seq<T>)
  {
    && (forall a :: a in s ==> !less(a, a))
    && (forall a, b, c :: a in s && b in s && c in s && less(a, b) && less(b, c) ==> less(a, c))
    && (forall a, b :: a in s && b in s && a != b ==> less(a, b) || less(b, a))
  }

  ghost predicate Sorted<T(!new)>(s: seq<T>, less: (T, T) -> bool)
  {
    forall i, j :: 0 <= i < j < |s| ==> !less(s[j], s[i])
  }

  function Insert<T(!new)>(x: T, s: seq<T>, less: (T, T) -> bool): (r: seq<T>)
    ensures multiset(r) == multiset(s) + multiset{x}
    ensures |r| == |s| + 1
  {
    if s == [] || !less(s[0], x) then [x] + s
    else
      assert s == [s[0]] + s[1..];
      [s[0]] + Insert(x, s[1..], less)
  }

  /** Stable sorting, as the library sort does it for a comparison function. */
  function Sort<T(!new)>(s: seq<T>, less: (T, T) -> bool): (r: seq<T>)
    ensures multiset(r) == multiset(s)
    ensures |r| == |s|
  {
    if s == [] then []
    else
      assert s == [s[0]] + s[1..];
      Insert(s[0], Sort(s[1..], less), less)
  }

  lemma SameElements<T(!new)>(s: seq<T>, t: seq<T>)
    requires multiset(s) == multiset(t)
    ensures forall x :: x in s <==> x in t
    ensures |s| == |t|
  {
    forall x ensures x in s <==> x in t {
      assert x in s <==> x in multiset(s);
      assert x in t <==> x in multiset(t);
    }
    assert |multiset(s)| == |s| && |multiset(t)| == |t|;
  }

  lemma {:induction false} InsertSorted<T(!new)>(x: T, s: seq<T>, less: (T, T) -> bool)
    requires Sorted(s, less) && StrictOrderOn(less, s + [x])
    ensures Sorted(Insert(x, s, less), less)
  {
    if s != [] && less(s[0], x) {
      assert x in s + [x] && s[0] in s + [x];
      assert forall y :: y in s[1..] + [x] ==> y in s + [x];
      InsertSorted(x, s[1..], less);
      var r := Insert(x, s[1..], less);
      forall j | 0 <= j < |r| ensures !less(r[j], s[0]) {
        assert r[j] in multiset(r);
        assert r[j] in s[1..] || r[j] == x;
      }
    } else if s != [] {
      forall j | 0 <= j < |s| ensures !less(s[j], x) {
        assert s[j] in s + [x] && s[0] in s + [x] && x in s + [x];
      }
    }
  }

  lemma {:induction false} SortSorted<T(!new)>(s: seq<T>, less: (T, T) -> bool)
    requires StrictOrderOn(less, s)
    ensures Sorted(Sort(s, less), less)
  {
    if s != [] {
      assert forall y :: y in s[1..] ==> y in s;
      SortSorted(s[1..], less);
      SameElements(Sort(s[1..], less), s[1..]);
      assert forall y :: y in Sort(s[1..], less) + [s[0]] ==> y in s;
      InsertSorted(s[0], Sort(s[1..], less), less);
    }
  }

  lemma SameLeast<T(!new)>(s: seq<T>, t: seq<T>, less: (T, T) -> bool)
    requires multiset(s) == multiset(t) && StrictOrderOn(less, s) && s != [] && t != []
    requires Sorted(s, less) && Sorted(t, less)
    ensures s[0] == t[0]
  {
    SameElements(s, t);
    assert s[0] in t && t[0] in s;
    var i :| 0 <= i < |t| && t[i] == s[0];
    var k :| 0 <= k < |s| && s[k] == t[0];
  }

  /** Two sorted arrangements of the same elements are the same sequence. */
  lemma {:induction false} SortedUnique<T(!new)>(s: seq<T>, t: seq<T>, less: (T, T) -> bool)
    requires multiset(s) == multiset(t) && StrictOrderOn(less, s)
    requires Sorted(s, less) && Sorted(t, less)
    ensures s == t
  {
    if s != [] {
      assert |multiset(s)| == |multiset(t)|;
      SameLeast(s, t, less);
      assert s == [s[0]] + s[1..] && t == [t[0]] + t[1..];
      assert multiset(s[1..]) == multiset(s) - multiset{s[0]};
      assert multiset(t[1..]) == multiset(t) - multiset{t[0]};
      SortedUnique(s[1..], t[1..], less);
    }
  }

  /** Sorting forgets the original arrangement. */
  lemma SortCanonical<T(!new)>(s: seq<T>, t: seq<T>, less: (T, T) -> bool)
    requires multiset(s) == multiset(t) && StrictOrderOn(less, s)
    ensures Sort(s, less) == Sort(t, less)
  {
    SameElements(s, t);
    SortSorted(s, less);
    SortSorted(t, less);
    SameElements(Sort(s, less), s);
    SortedUnique(Sort(s, less), Sort(t, less), less);
  }

  lemma DistinctSnoc<T(!new), K(!new)>(s: seq<T>, x: T, key: T -> K)
    requires DistinctBy(s, key) && forall y :: y in s ==> key(y) != key(x)
    ensures DistinctBy(s + [x], key)
  {
  }

  /** Rearranging a sequence keeps its keys distinct. */
  lemma {:induction false} RearrangedDistinct<T(!new), K(!new)>(s: seq<T>, t: seq<T>, key: T -> K)
    requires multiset(s) == multiset(t) && DistinctBy(s, key)
    ensures DistinctBy(t, key)
  {
    SameElements(s, t);
    forall i, j | 0 <= i < j < |t| ensures key(t[i]) != key(t[j]) {
      if key(t[i]) == key(t[j]) {
        assert t[i] in s && t[j] in s;
        var a :| 0 <= a < |s| && s[a] == t[i];
        var b :| 0 <= b < |s| && s[b] == t[j];
        assert a == b;
        CountsTwice(t, i, j);
        CountsOnce(s, a, key);
        assert false;
      }
    }
  }

  lemma CountsTwice<T(!new)>(t: seq<T>, i: nat, j: nat)
    requires i < j < |t| && t[i] == t[j]
    ensures multiset(t)[t[i]] >= 2
  {
    assert t == t[..j] + [t[j]] + t[j + 1..];
    assert t[i] in t[..j];
    assert multiset(t[..j])[t[i]] >= 1;
  }

  lemma CountsOnce<T(!new), K(!new)>(s: seq<T>, a: nat, key: T -> K)
    requires a < |s| && DistinctBy(s, key)
    ensures multiset(s)[s[a]] == 1
  {
    assert s == s[..a] + [s[a]] + s[a + 1..];
    assert s[a] !in s[..a] && s[a] !in s[a + 1..];
    assert multiset(s[..a])[s[a]] == 0 && multiset(s[a + 1..])[s[a]] == 0;
  }
}
