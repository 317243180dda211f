/** Generic sequence facts: filtering (Array.prototype.filter), first-match search
    and the subsequence order that both keep. */
module Seqs {

  function Min(a: int, b: int): int { if a <= b then a else b }
  function Max(a: int, b: int): int { if a <= b then b else a }

  predicate NoDuplicates<T(==)>(s: seq<T>) {
    forall i, j :: 0 <= i < j < |s| ==> s[i] != s[j]
  }

  /** The elements of `s` satisfying `p`, in their original order. */
  function Filter<T(==)>(s: seq<T>, p: T -> bool): (r: seq<T>)
    ensures |r| <= |s|
    ensures forall i :: 0 <= i < |r| ==> r[i] in s && p(r[i])
    ensures forall i :: 0 <= i < |s| && p(s[i]) ==> s[i] in r
    decreases |s|
  {
    if s == [] then []
    else (if p(s[0]) then [s[0]] else []) + Filter(s[1..], p)
  }

  lemma {:induction false} FilterAppend<T>(a: seq<T>, b: seq<T>, p: T -> bool)
    ensures Filter(a + b, p) == Filter(a, p) + Filter(b, p)
    decreases |a|
  {
    if a == [] {
      assert a + b == b;
    } else {
      assert (a + b)[1..] == a[1..] + b;
      FilterAppend(a[1..], b, p);
    }
  }

  /** Filtering one more element appends it when it satisfies `p`. */
  lemma {:induction false} FilterSnoc<T>(a: seq<T>, x: T, p: T -> bool)
    ensures Filter(a + [x], p) == Filter(a, p) + (if p(x) then [x] else [])
  {
    FilterAppend(a, [x], p);
    assert [x][1..] == [];
  }

  /** `a` can be obtained from `b` by deleting elements. */
  predicate IsSubsequence<T(==)>(a: seq<T>, b: seq<T>)
    decreases |b|
  {
    a == [] ||
    (b != [] && ((a[0] == b[0] && IsSubsequence(a[1..], b[1..])) || IsSubsequence(a, b[1..])))
  }

  lemma {:induction false} SubsequenceTransitive<T>(a: seq<T>, b: seq<T>, c: seq<T>)
    requires IsSubsequence(a, b) && IsSubsequence(b, c)
    ensures IsSubsequence(a, c)
    decreases |c|
  {
    if a == [] {
    } else if b == [] {
    } else if b[0] == c[0] && IsSubsequence(b[1..], c[1..]) {
      if a[0] == b[0] && IsSubsequence(a[1..], b[1..]) {
        SubsequenceTransitive(a[1..], b[1..], c[1..]);
      } else {
        SubsequenceTransitive(a, b[1..], c[1..]);
      }
    } else {
      SubsequenceTransitive(a, b, c[1..]);
    }
  }

  /** Every contiguous slice of `s` is a subsequence of `s`. */
  lemma {:induction false} SliceIsSubsequence<T>(s: seq<T>, lo: nat, hi: nat)
    requires lo <= hi <= |s|
    ensures IsSubsequence(s[lo..hi], s)
    decreases |s|
  {
    var a := s[lo..hi];
    if lo == hi {
    } else if lo > 0 {
      var t := s[1..];
      assert t[lo - 1..hi - 1] == a;
      SliceIsSubsequence(t, lo - 1, hi - 1);
    } else {
      var t := s[1..];
      assert a[0] == s[0];
      assert a[1..] == t[0..hi - 1];
      SliceIsSubsequence(t, 0, hi - 1);
    }
  }

  lemma {:induction false} FilterIsSubsequence<T>(s: seq<T>, p: T -> bool)
    ensures IsSubsequence(Filter(s, p), s)
    decreases |s|
  {
    if s != [] {
      FilterIsSubsequence(s[1..], p);
      var f := Filter(s, p);
      if p(s[0]) {
        assert f == [s[0]] + Filter(s[1..], p);
        assert f[0] == s[0] && f[1..] == Filter(s[1..], p);
      } else {
        assert f == Filter(s[1..], p);
      }
    }
  }

  /** Filtering a longer prefix only extends the filtered sequence. */
  lemma {:induction false} FilterPrefix<T>(s: seq<T>, i: nat, j: nat, p: T -> bool)
    requires i <= j <= |s|
    ensures Filter(s[..j], p) == Filter(s[..i], p) + Filter(s[i..j], p)
  {
    assert s[..j] == s[..i] + s[i..j];
    FilterAppend(s[..i], s[i..j], p);
  }

  /** Adjacent slices join into one. */
  lemma {:induction false} SliceConcat<T>(s: seq<T>, a: nat, b: nat, c: nat)
    requires a <= b <= c <= |s|
    ensures s[a..b] + s[b..c] == s[a..c]
  {
  }

  /** Index of the first element satisfying `p`, or |s| when there is none. */
  function FirstWhere<T>(s: seq<T>, p: T -> bool): (r: nat)
    ensures r <= |s|
    ensures forall i :: 0 <= i < r ==> !p(s[i])
    ensures r < |s| ==> p(s[r])
    decreases |s|
  {
    if s == [] then 0
    else if p(s[0]) then 0
    else 1 + FirstWhere(s[1..], p)
  }

  /** Past a prefix with no match, the search continues in the rest. */
  lemma {:induction false} FirstWhereSkip<T>(s: seq<T>, n: nat, p: T -> bool)
    requires n <= |s|
    requires forall i :: 0 <= i < n ==> !p(s[i])
    ensures FirstWhere(s, p) == n + FirstWhere(s[n..], p)
    decreases n
  {
    if n > 0 {
      var t := s[1..];
      assert t[n - 1..] == s[n..];
      assert forall i :: 0 <= i < n - 1 ==> t[i] == s[i + 1];
      FirstWhereSkip(t, n - 1, p);
    }
  }

  /** Index of the first occurrence of `x` in `s`, or |s| when it does not occur. */
  function IndexOf<T(==)>(s: seq<T>, x: T): (r: nat)
    ensures r <= |s|
    ensures r < |s| <==> x in s
    ensures r < |s| ==> s[r] == x
    decreases |s|
  {
    if s == [] then 0
    else if s[0] == x then 0
    else 1 + IndexOf(s[1..], x)
  }

  /** In a sequence without duplicates, each element's first occurrence is its place. */
  lemma IndexOfDistinct<T>(s: seq<T>, i: nat)
    requires NoDuplicates(s) && i < |s|
    ensures IndexOf(s, s[i]) == i
  {
  }

  /** Appending an element moves no first occurrence, and places the first occurrence of
      a new element at the end. */
  lemma {:induction false} IndexOfSnoc<T>(p: seq<T>, y: T, x: T)
    ensures x in p ==> IndexOf(p + [y], x) == IndexOf(p, x)
    ensures x !in p && x == y ==> IndexOf(p + [y], x) == |p|
    decreases |p|
  {
    if p != [] {
      assert (p + [y])[1..] == p[1..] + [y];
      IndexOfSnoc(p[1..], y, x);
    }
  }

  /** The distinct elements of `s` in order of first occurrence: the order in which a
      JavaScript Set receives them. */
  function Dedup<T(==)>(s: seq<T>): seq<T>
    decreases |s|
  {
    if s == [] then []
    else
      var p, x := s[..|s| - 1], s[|s| - 1];
      if x in p then Dedup(p) else Dedup(p) + [x]
  }

  /** Adding an element keeps the collection unchanged when it is present and appends it
      otherwise. */
  lemma {:induction false} DedupSnoc<T>(p: seq<T>, x: T)
    ensures Dedup(p + [x]) == if x in p then Dedup(p) else Dedup(p) + [x]
  {
    assert (p + [x])[..|p|] == p;
  }

  lemma {:induction false} DedupMember<T>(s: seq<T>, y: T)
    ensures y in Dedup(s) <==> y in s
  {
    DedupMembers(s);
  }

  lemma {:induction false} DedupMembers<T>(s: seq<T>)
    ensures forall x :: x in Dedup(s) <==> x in s
    decreases |s|
  {
    if s != [] {
      var p := s[..|s| - 1];
      DedupMembers(p);
      assert s == p + [s[|s| - 1]];
    }
  }

  lemma {:induction false} DedupNoDuplicates<T>(s: seq<T>)
    ensures NoDuplicates(Dedup(s))
    decreases |s|
  {
    if s != [] {
      var p := s[..|s| - 1];
      DedupNoDuplicates(p);
      DedupMembers(p);
    }
  }

  /** The collected elements are ordered by their first occurrence in `s`. */
  lemma {:induction false} DedupFirstOccurrence<T>(s: seq<T>)
    ensures forall i, j :: 0 <= i < j < |Dedup(s)| ==> IndexOf(s, Dedup(s)[i]) < IndexOf(s, Dedup(s)[j])
    decreases |s|
  {
    if s != [] {
      var p, x := s[..|s| - 1], s[|s| - 1];
      assert s == p + [x];
      var d := Dedup(p);
      DedupFirstOccurrence(p);
      forall y | y in d
        ensures IndexOf(s, y) == IndexOf(p, y) < |p|
      {
        DedupMember(p, y);
        IndexOfSnoc(p, x, y);
      }
      if x !in p {
        IndexOfSnoc(p, x, x);
      }
    }
  }
}
