/**
 * Style annotations of `crates/app/src/format.rs`: a half-open byte range over
 * the flattened text plus a style, ordered by `(start, end)` only, and the
 * stable sort (`Vec::sort`) that puts them in that order.
 */
module Styles {

  /** `Style`; the `Size` factor is an `f64` in the source, carried as an opaque `real`. */
  datatype Style = Italic | Font(family: string) | Size(factor: real)

  /** `StyleAnnotation { range: start..end, style }`. */
  datatype StyleAnnotation = StyleAnnotation(start: nat, end: nat, style: Style)

  datatype Ordering = Less | Equal | Greater

  function CompareNat(a: nat, b: nat): Ordering {
    if a < b then Less else if a == b then Equal else Greater
  }

  /** `impl Ord for StyleAnnotation`: by start, ties broken by end; the style is ignored. */
  function Compare(a: StyleAnnotation, b: StyleAnnotation): (o: Ordering)
    ensures o == Equal <==> a.start == b.start && a.end == b.end
    ensures o == Less <==> a.start < b.start || (a.start == b.start && a.end < b.end)
  {
    var starts := CompareNat(a.start, b.start);
    if starts == Equal then CompareNat(a.end, b.end) else starts
  }

  /** The comparator is antisymmetric and transitive: a total preorder on annotations. */
  lemma CompareAntisymmetric(a: StyleAnnotation, b: StyleAnnotation)
    ensures Compare(a, b) == Less <==> Compare(b, a) == Greater
    ensures Compare(a, b) == Equal <==> Compare(b, a) == Equal
  {
  }

  lemma CompareTransitive(a: StyleAnnotation, b: StyleAnnotation, c: StyleAnnotation)
    requires Compare(a, b) != Greater && Compare(b, c) != Greater
    ensures Compare(a, c) != Greater
  {
  }

  /** `a` may precede `b` in sorted order: `Compare(a, b) != Greater`. */
  predicate Le(a: StyleAnnotation, b: StyleAnnotation) {
    a.start < b.start || (a.start == b.start && a.end <= b.end)
  }

  lemma LeIsCompare(a: StyleAnnotation, b: StyleAnnotation)
    ensures Le(a, b) <==> Compare(a, b) != Greater
  {
  }

  predicate Sorted(s: seq<StyleAnnotation>) {
    forall i, j :: 0 <= i < j < |s| ==> Le(s[i], s[j])
  }

  /**
   * Inserts `x` in front of the first element it does not exceed, so `x` goes
   * BEFORE the elements with an equal range that already are in `t`.
   */
  function Insert(x: StyleAnnotation, t: seq<StyleAnnotation>): (r: seq<StyleAnnotation>)
    ensures |r| == |t| + 1
  {
    if t == [] || Le(x, t[0]) then [x] + t else [t[0]] + Insert(x, t[1..])
  }

  lemma {:induction false} InsertPermutes(x: StyleAnnotation, t: seq<StyleAnnotation>)
    ensures multiset(Insert(x, t)) == multiset(t) + multiset{x}
  {
    if t != [] && !Le(x, t[0]) {
      InsertPermutes(x, t[1..]);
      assert t == [t[0]] + t[1..];
    }
  }

  /** Everything in `Insert(x, t)` is `x` or comes from `t`. */
  lemma {:induction false} InsertMember(x: StyleAnnotation, t: seq<StyleAnnotation>, y: StyleAnnotation)
    requires y in Insert(x, t)
    ensures y == x || y in t
  {
    if t != [] && !Le(x, t[0]) && y != t[0] {
      InsertMember(x, t[1..], y);
    }
  }

  lemma {:induction false} InsertSorted(x: StyleAnnotation, t: seq<StyleAnnotation>)
    requires Sorted(t)
    ensures Sorted(Insert(x, t))
  {
    if t != [] && !Le(x, t[0]) {
      var rest := Insert(x, t[1..]);
      InsertSorted(x, t[1..]);
      forall k | 0 <= k < |rest| ensures Le(t[0], rest[k]) {
        InsertMember(x, t[1..], rest[k]);
        if rest[k] != x {
          var j :| 0 <= j < |t[1..]| && t[1..][j] == rest[k];
          assert t[j + 1] == rest[k];
        }
      }
      var r := [t[0]] + rest;
      forall i, j | 0 <= i < j < |r| ensures Le(r[i], r[j]) {
        if i > 0 {
          assert r[i] == rest[i - 1] && r[j] == rest[j - 1];
        }
      }
    }
  }

  /**
   * `annotations.sort()`: a stable sort by `Compare`. The result is sorted;
   * `SortPermutes` shows it is a permutation of the input and `SortStable`
   * that annotations with equal ranges keep the order in which they were emitted.
   */
  function SortAnnotations(s: seq<StyleAnnotation>): (r: seq<StyleAnnotation>)
    ensures Sorted(r)
    ensures |r| == |s|
  {
    if s == [] then []
    else
      InsertSorted(s[0], SortAnnotations(s[1..]));
      Insert(s[0], SortAnnotations(s[1..]))
  }

  /** Sorting neither loses nor duplicates an annotation. */
  lemma {:induction false} SortPermutes(s: seq<StyleAnnotation>)
    ensures multiset(SortAnnotations(s)) == multiset(s)
  {
    if s != [] {
      SortPermutes(s[1..]);
      InsertPermutes(s[0], SortAnnotations(s[1..]));
      assert s == [s[0]] + s[1..];
    }
  }

  /** The annotations of `s` whose range is `start..end`, in their order in `s`. */
  function WithRange(s: seq<StyleAnnotation>, start: nat, end: nat): seq<StyleAnnotation> {
    if s == [] then []
    else (if s[0].start == start && s[0].end == end then [s[0]] else []) + WithRange(s[1..], start, end)
  }

  lemma WithRangeCons(a: StyleAnnotation, s: seq<StyleAnnotation>, start: nat, end: nat)
    ensures WithRange([a] + s, start, end)
         == (if a.start == start && a.end == end then [a] else []) + WithRange(s, start, end)
  {
    assert ([a] + s)[1..] == s;
  }

  lemma {:induction false} InsertWithRange(x: StyleAnnotation, t: seq<StyleAnnotation>, start: nat, end: nat)
    ensures WithRange(Insert(x, t), start, end)
         == (if x.start == start && x.end == end then [x] else []) + WithRange(t, start, end)
  {
    if t == [] || Le(x, t[0]) {
      WithRangeCons(x, t, start, end);
    } else {
      InsertWithRange(x, t[1..], start, end);
      WithRangeCons(t[0], Insert(x, t[1..]), start, end);
      WithRangeCons(t[0], t[1..], start, end);
      assert [t[0]] + t[1..] == t;
      assert Insert(x, t) == [t[0]] + Insert(x, t[1..]);
      var rest := WithRange(t[1..], start, end);
      if x.start == start && x.end == end {
        assert !(t[0].start == start && t[0].end == end);
        assert WithRange(Insert(x, t), start, end) == [x] + rest;
        assert WithRange(t, start, end) == rest;
      } else if t[0].start == start && t[0].end == end {
        assert WithRange(Insert(x, t), start, end) == [t[0]] + rest;
      } else {
        assert WithRange(Insert(x, t), start, end) == rest;
      }
    }
  }

  /** Stability: sorting keeps the relative order of annotations with the same range. */
  lemma {:induction false} SortStable(s: seq<StyleAnnotation>, start: nat, end: nat)
    ensures WithRange(SortAnnotations(s), start, end) == WithRange(s, start, end)
  {
    if s != [] {
      SortStable(s[1..], start, end);
      InsertWithRange(s[0], SortAnnotations(s[1..]), start, end);
    }
  }

  /** An already sorted list is left as it is. */
  lemma {:induction false} SortSorted(s: seq<StyleAnnotation>)
    requires Sorted(s)
    ensures SortAnnotations(s) == s
  {
    if s != [] {
      SortSorted(s[1..]);
      var t := s[1..];
      if t != [] {
        assert Le(s[0], t[0]);
      }
    }
  }
}
