/**
 * The array operations behind every list the dashboard shows: `filter`,
 * `[...new Set(xs)]` (distinct values in first-occurrence order) and
 * `filter((_, i) => i !== index)`.
 */
module Lists {

  // ---------------------------------------------------------------------------
  // Order-preserving sublists
  // ---------------------------------------------------------------------------

  /** `a` is obtained from `b` by deleting elements, without reordering. */
  predicate IsSubsequence<T(==)>(a: seq<T>, b: seq<T>)
    decreases |b|
  {
    if a == [] then true
    else if b == [] then false
    else (a[0] == b[0] && IsSubsequence(a[1..], b[1..])) || IsSubsequence(a, b[1..])
  }

  lemma {:induction false} SubsequenceRefl<T>(s: seq<T>)
    ensures IsSubsequence(s, s)
  {
    if s != [] {
      SubsequenceRefl(s[1..]);
    }
  }

  /** A subsequence's elements all come from the sequence it was taken from. */
  lemma {:induction false} SubsequenceElements<T>(a: seq<T>, b: seq<T>)
    requires IsSubsequence(a, b)
    ensures |a| <= |b|
    ensures forall x :: x in a ==> x in b
    decreases |b|
  {
    if a != [] {
      if a[0] == b[0] && IsSubsequence(a[1..], b[1..]) {
        SubsequenceElements(a[1..], b[1..]);
        assert forall x :: x in a ==> x == a[0] || x in a[1..];
      } else {
        SubsequenceElements(a, b[1..]);
      }
    }
  }

  // ---------------------------------------------------------------------------
  // Array.prototype.filter
  // ---------------------------------------------------------------------------

  /** `s.filter(keep)`: the elements satisfying `keep`, in their original order. */
  function Filter<T(==,!new)>(s: seq<T>, keep: T -> bool): (r: seq<T>)
    ensures forall x :: x in r <==> x in s && keep(x)
    ensures IsSubsequence(r, s)
  {
    if s == [] then []
    else
      var rest := Filter(s[1..], keep);
      assert forall x :: x in s <==> x == s[0] || x in s[1..];
      if keep(s[0]) then
        assert ([s[0]] + rest)[1..] == rest;
        [s[0]] + rest
      else
        rest
  }

  /** A filter every element passes keeps the whole sequence. */
  lemma {:induction false} FilterKeepsAll<T(!new)>(s: seq<T>, keep: T -> bool)
    requires forall x :: x in s ==> keep(x)
    ensures Filter(s, keep) == s
  {
    if s != [] {
      assert forall x :: x in s[1..] ==> x in s;
      FilterKeepsAll(s[1..], keep);
    }
  }

  /** Filtering distributes over concatenation. */
  lemma {:induction false} FilterConcat<T(!new)>(a: seq<T>, b: seq<T>, keep: T -> bool)
    ensures Filter(a + b, keep) == Filter(a, keep) + Filter(b, keep)
  {
    if a != [] {
      var ab := a + b;
      assert ab[0] == a[0] && ab[1..] == a[1..] + b;
      FilterConcat(a[1..], b, keep);
      var head := if keep(a[0]) then [a[0]] else [];
      assert Filter(ab, keep) == head + Filter(a[1..] + b, keep);
      assert Filter(a, keep) == head + Filter(a[1..], keep);
      assert head + (Filter(a[1..], keep) + Filter(b, keep))
          == (head + Filter(a[1..], keep)) + Filter(b, keep);
    } else {
      assert a + b == b;
    }
  }

  /** A weaker test keeps more: a stricter filter's result is a sublist of a looser one's. */
  lemma {:induction false} FilterMonotone<T(!new)>(s: seq<T>, strict: T -> bool, loose: T -> bool)
    requires forall x :: x in s && strict(x) ==> loose(x)
    ensures IsSubsequence(Filter(s, strict), Filter(s, loose))
  {
    if s != [] {
      assert forall x :: x in s[1..] ==> x in s;
      FilterMonotone(s[1..], strict, loose);
      var a, b := Filter(s[1..], strict), Filter(s[1..], loose);
      if strict(s[0]) {
        assert ([s[0]] + a)[1..] == a && ([s[0]] + b)[1..] == b;
      } else if loose(s[0]) {
        SubsequenceDropHead(a, s[0], b);
      }
    }
  }

  /** Putting an element in front of the larger sequence keeps a subsequence a subsequence. */
  lemma SubsequenceDropHead<T>(a: seq<T>, x: T, b: seq<T>)
    requires IsSubsequence(a, b)
    ensures IsSubsequence(a, [x] + b)
  {
    assert ([x] + b)[1..] == b;
  }

  /** A filter that rejects exactly one position removes that element and nothing else. */
  lemma {:induction false} FilterRemovesOne<T(!new)>(s: seq<T>, keep: T -> bool, k: nat)
    requires k < |s| && !keep(s[k])
    requires forall j :: 0 <= j < |s| && j != k ==> keep(s[j])
    ensures Filter(s, keep) == s[..k] + s[k + 1..]
    decreases k
  {
    if k == 0 {
      AllKept(s, keep, 1, |s|);
      FilterSkipsHead(s, keep);
    } else {
      var tail := s[1..];
      forall j | 0 <= j < |tail| && j != k - 1 ensures keep(tail[j]) {
        assert tail[j] == s[j + 1];
      }
      FilterRemovesOne(tail, keep, k - 1);
      FilterKeepsHead(s, keep, s[..k] + s[k + 1..]);
    }
  }

  /** A rejected head is dropped, and a tail every element of which is kept survives whole. */
  lemma FilterSkipsHead<T(!new)>(s: seq<T>, keep: T -> bool)
    requires s != [] && !keep(s[0])
    requires forall x :: x in s[1..] ==> keep(x)
    ensures Filter(s, keep) == s[..0] + s[1..]
  {
    FilterKeepsAll(s[1..], keep);
  }

  /** A kept head stays in front of the filtered tail. */
  lemma FilterKeepsHead<T(!new)>(s: seq<T>, keep: T -> bool, r: seq<T>)
    requires s != [] && keep(s[0])
    requires r != [] && r[0] == s[0] && Filter(s[1..], keep) == r[1..]
    ensures Filter(s, keep) == r
  {
  }

  /** Every element of the slice `s[lo..hi]` passes `keep` when every position in it does. */
  lemma AllKept<T>(s: seq<T>, keep: T -> bool, lo: nat, hi: nat)
    requires lo <= hi <= |s|
    requires forall j :: lo <= j < hi ==> keep(s[j])
    ensures forall x :: x in s[lo..hi] ==> keep(x)
  {
    forall x | x in s[lo..hi] ensures keep(x) {
      var j :| 0 <= j < hi - lo && s[lo..hi][j] == x;
      assert s[lo + j] == x;
    }
  }

  // ---------------------------------------------------------------------------
  // xs.map(x => p(x) ? f(x) : x)
  // ---------------------------------------------------------------------------

  /** Applies `f` to the elements satisfying `p` and leaves the others as they are, in place. */
  function MapWhere<T>(s: seq<T>, p: T -> bool, f: T -> T): (r: seq<T>)
    ensures |r| == |s|
    ensures forall i :: 0 <= i < |s| ==> r[i] == if p(s[i]) then f(s[i]) else s[i]
  {
    if s == [] then [] else [if p(s[0]) then f(s[0]) else s[0]] + MapWhere(s[1..], p, f)
  }

  // ---------------------------------------------------------------------------
  // [...new Set(xs)]
  // ---------------------------------------------------------------------------

  predicate NoDuplicates<T(==)>(s: seq<T>)
  {
    forall i, j :: 0 <= i < j < |s| ==> s[i] != s[j]
  }

  /** The position of the first occurrence of `x` in `s`. */
  function FirstIndex<T(==)>(s: seq<T>, x: T): (k: nat)
    requires x in s
    ensures k < |s| && s[k] == x && x !in s[..k]
  {
    if s[0] == x then 0
    else
      var k := FirstIndex(s[1..], x);
      assert s[..k + 1] == [s[0]] + s[1..][..k];
      k + 1
  }

  /** The first occurrence is the only position holding `x` with no `x` before it. */
  lemma FirstIndexUnique<T>(s: seq<T>, x: T, k: nat)
    requires k < |s| && s[k] == x && x !in s[..k]
    ensures FirstIndex(s, x) == k
  {
  }

  /**
   * The distinct elements of `s`, each once, in the order of their first
   * occurrence: what spreading a `Set` built from `s` yields, since a `Set`
   * iterates in insertion order.
   */
  function Distinct<T(==,!new)>(s: seq<T>): (r: seq<T>)
    ensures NoDuplicates(r)
    ensures forall x :: x in r <==> x in s
    decreases |s|
  {
    if s == [] then []
    else
      var front := Distinct(s[..|s| - 1]);
      var x := s[|s| - 1];
      assert forall y :: y in s <==> y in s[..|s| - 1] || y == x by {
        assert s == s[..|s| - 1] + [x];
      }
      if x in front then front else front + [x]
  }

  /** Prefix-closed first occurrences: the first `x` in a prefix is the first `x` in the whole. */
  lemma FirstIndexInPrefix<T>(s: seq<T>, n: nat, x: T)
    requires n <= |s| && x in s[..n]
    ensures FirstIndex(s, x) == FirstIndex(s[..n], x)
  {
    var k := FirstIndex(s[..n], x);
    assert s[..n][..k] == s[..k];
    FirstIndexUnique(s, x, k);
  }

  /** The elements of `Distinct(s)` are listed in the order in which they first occur in `s`. */
  lemma {:induction false} DistinctFirstOccurrenceOrder<T(!new)>(s: seq<T>)
    ensures forall i, j :: 0 <= i < j < |Distinct(s)| ==>
      FirstIndex(s, Distinct(s)[i]) < FirstIndex(s, Distinct(s)[j])
    decreases |s|
  {
    if s != [] {
      var p := s[..|s| - 1];
      var x := s[|s| - 1];
      var front := Distinct(p);
      DistinctFirstOccurrenceOrder(p);
      forall y | y in front ensures FirstIndex(s, y) == FirstIndex(p, y) {
        FirstIndexInPrefix(s, |s| - 1, y);
      }
      if x !in front {
        assert x !in s[..|s| - 1];
        FirstIndexUnique(s, x, |s| - 1);
        var r := front + [x];
        assert forall y :: y in p ==> y in s;
        assert forall y :: y in r ==> y in s;
        forall i, j | 0 <= i < j < |r| ensures FirstIndex(s, r[i]) < FirstIndex(s, r[j]) {
          if j < |front| {
          } else {
            assert r[i] in front;
          }
        }
      }
    }
  }

  /** `s.map(f)`. */
  function Map<T, U>(s: seq<T>, f: T -> U): (r: seq<U>)
    ensures |r| == |s|
    ensures forall i :: 0 <= i < |s| ==> r[i] == f(s[i])
  {
    if s == [] then [] else [f(s[0])] + Map(s[1..], f)
  }

  /** `[...new Set(s.map(f))]`: every value of `f` on `s`, once each. */
  function DistinctValues<T, U(==,!new)>(s: seq<T>, f: T -> U): (r: seq<U>)
    ensures NoDuplicates(r)
    ensures forall v :: v in r <==> exists i :: 0 <= i < |s| && f(s[i]) == v
  {
    var m := Map(s, f);
    assert forall v :: v in m <==> exists i :: 0 <= i < |s| && f(s[i]) == v by {
      forall v | v in m ensures exists i :: 0 <= i < |s| && f(s[i]) == v {
        var i :| 0 <= i < |m| && m[i] == v;
        assert f(s[i]) == v;
      }
      forall v | exists i :: 0 <= i < |s| && f(s[i]) == v ensures v in m {
        var i :| 0 <= i < |s| && f(s[i]) == v;
        assert m[i] == v;
      }
    }
    Distinct(m)
  }

  /** The values are listed in the order in which they first appear along `s`. */
  lemma DistinctValuesOrder<T, U(!new)>(s: seq<T>, f: T -> U)
    ensures forall i, j :: 0 <= i < j < |DistinctValues(s, f)| ==>
      FirstIndex(Map(s, f), DistinctValues(s, f)[i]) < FirstIndex(Map(s, f), DistinctValues(s, f)[j])
  {
    DistinctFirstOccurrenceOrder(Map(s, f));
  }

  // ---------------------------------------------------------------------------
  // filter((_, i) => i !== index)
  // ---------------------------------------------------------------------------

  /**
   * Drops the element at position `index`, keeping every other element in
   * order; an index outside the sequence (negative or too large) drops nothing.
   */
  function RemoveAt<T>(s: seq<T>, index: int): (r: seq<T>)
    ensures 0 <= index < |s| ==> r == s[..index] + s[index + 1..]
    ensures !(0 <= index < |s|) ==> r == s
  {
    if s == [] then []
    else
      var rest := RemoveAt(s[1..], index - 1);
      if index == 0 then rest
      else
        assert 0 < index < |s| ==> s[..index] == [s[0]] + s[1..][..index - 1];
        [s[0]] + rest
  }
}
