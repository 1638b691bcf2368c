/**
 * The two pieces of logic in the command-line pipeline
 * (`crates/app/src/main.rs`): which directory entries are read as decks,
 * and the order in which a deck's exported images are handed on, so that
 * the front and back of the same page are next to each other.
 */
module Pipeline {
  import opened Wrappers
  import Carp
  import Sheets
  import Styles

  /** What `DirEntry::file_type` reports. */
  datatype FileType = File | Directory | Symlink

  /** A directory entry as `read_dir` yields it: an error, or an entry with its (fallible) type, file name and path. */
  datatype DirEntry = Unreadable | Entry(fileType: Option<FileType>, fileName: string, path: string)

  /** The index of the last `.` of `s`, if any. */
  function LastDot(s: string): (r: Option<nat>)
    ensures r.Some? ==> r.value < |s| && s[r.value] == '.' && '.' !in s[r.value + 1..]
    ensures r.None? <==> '.' !in s
  {
    if s == [] then None
    else if s[|s| - 1] == '.' then Some(|s| - 1)
    else
      var r := LastDot(s[..|s| - 1]);
      assert s == s[..|s| - 1] + [s[|s| - 1]];
      if r.Some? then
        assert s[r.value + 1..] == s[..|s| - 1][r.value + 1..] + [s[|s| - 1]];
        r
      else r
  }

  /**
   * `Path::extension` of a file name: what follows the last `.`; none when
   * there is no dot, when the only dot starts the name, or for `..`.
   */
  function Extension(fileName: string): Option<string> {
    if fileName == ".." then None
    else match LastDot(fileName)
      case None => None
      case Some(k) => if k == 0 then None else Some(fileName[k + 1..])
  }

  /** The entry is a regular file whose extension is exactly `xml` or `deck`. */
  predicate Accepted(entry: DirEntry) {
    && entry.Entry?
    && entry.fileType == Some(File)
    && Extension(entry.fileName) in {Some("xml"), Some("deck")}
  }

  /** The `filter_map` over the input directory: the paths of the accepted entries, in directory order. */
  function InputPaths(entries: seq<DirEntry>): (r: seq<string>)
    ensures |r| <= |entries|
    ensures forall p :: p in r ==> exists e :: e in entries && Accepted(e) && e.path == p
  {
    if entries == [] then []
    else
      var rest := InputPaths(entries[1..]);
      if Accepted(entries[0]) then [entries[0].path] + rest else rest
  }

  /** Every accepted entry's path is read; an unaccepted entry adds nothing. */
  lemma {:induction false} InputPathsComplete(entries: seq<DirEntry>, e: DirEntry)
    requires e in entries && Accepted(e)
    ensures e.path in InputPaths(entries)
  {
    if entries[0] != e {
      assert e in entries[1..];
      InputPathsComplete(entries[1..], e);
    }
  }

  /**
   * The extension is `ext` exactly when the name is a non-empty stem, a dot
   * and `ext`: `a.xml` and `b.c.deck` are read, `.xml`, `xml`, `a.XML` and
   * `a.xml.bak` are not.
   */
  lemma ExtensionIs(fileName: string, ext: string)
    requires ext != [] && '.' !in ext
    ensures Extension(fileName) == Some(ext) <==>
      |fileName| > |ext| + 1 && fileName[|fileName| - |ext| - 1..] == "." + ext
  {
    var n := |fileName|;
    if Extension(fileName) == Some(ext) {
      var k := LastDot(fileName).value;
      assert fileName[k..] == "." + ext;
    }
    if n > |ext| + 1 && fileName[n - |ext| - 1..] == "." + ext {
      var k := n - |ext| - 1;
      assert fileName[k] == '.';
      assert fileName[k + 1..] == ext;
      assert fileName != "..";
    }
  }

  /** The comparator `main` sorts a deck's images with. */
  function CompareAmount(a: Sheets.Amount, b: Sheets.Amount): Styles.Ordering {
    match (a, b)
    case (Single, Single) => Styles.Equal
    case (Single, Multiple(_, _)) => Styles.Less
    case (Multiple(_, _), Single) => Styles.Greater
    case (Multiple(ia, _), Multiple(ib, _)) =>
      if ia < ib then Styles.Less else if ia == ib then Styles.Equal else Styles.Greater
  }

  /** The position an amount sorts to: a single image before every page, pages by their number. */
  function Rank(a: Sheets.Amount): int {
    if a.Single? then -1 else a.index
  }

  /**
   * The comparator orders amounts by `Rank` alone (the page total plays no
   * part), so it is a total preorder: reflexive, antisymmetric in its
   * answers, and transitive.
   */
  lemma CompareIsRank(a: Sheets.Amount, b: Sheets.Amount)
    ensures CompareAmount(a, b) == Styles.Less <==> Rank(a) < Rank(b)
    ensures CompareAmount(a, b) == Styles.Equal <==> Rank(a) == Rank(b)
    ensures CompareAmount(a, b) == Styles.Greater <==> Rank(a) > Rank(b)
  {
  }

  /** In a sorted sequence of images. */
  predicate Sorted<D>(s: seq<Sheets.Artifact<D>>) {
    forall i, j :: 0 <= i < j < |s| ==> CompareAmount(s[i].amount, s[j].amount) != Styles.Greater
  }

  /**
   * `sort_unstable_by` with the comparator, as an in-place insertion sort:
   * the images are rearranged, none lost or added, into comparator order.
   */
  method SortImages<D>(a: array<Sheets.Artifact<D>>)
    modifies a
    ensures Sorted(a[..])
    ensures multiset(a[..]) == multiset(old(a[..]))
  {
    for i := 0 to a.Length
      invariant RanksSorted(a[..], 0, i)
      invariant multiset(a[..]) == multiset(old(a[..]))
    {
      Insert(a, i);
    }
    forall i, j | 0 <= i < j < a.Length
      ensures CompareAmount(a[i].amount, a[j].amount) != Styles.Greater
    {
      CompareIsRank(a[i].amount, a[j].amount);
    }
  }

  /** Moves `a[i]` down into the sorted prefix `a[..i]` by swaps, so that `a[..i + 1]` is sorted. */
  method Insert<D>(a: array<Sheets.Artifact<D>>, i: nat)
    requires i < a.Length && RanksSorted(a[..], 0, i)
    modifies a
    ensures RanksSorted(a[..], 0, i + 1)
    ensures multiset(a[..]) == multiset(old(a[..]))
  {
    var j := i;
    while j > 0 && Rank(a[j - 1].amount) > Rank(a[j].amount)
      invariant 0 <= j <= i
      invariant RanksSorted(a[..], 0, j) && RanksSorted(a[..], j, i + 1)
      invariant 0 < j < i ==> Rank(a[j - 1].amount) <= Rank(a[j + 1].amount)
      invariant multiset(a[..]) == multiset(old(a[..]))
    {
      SwapStep(a[..], j, i);
      SwapDown(a, j);
      j := j - 1;
    }
    InsertDone(a[..], j, i);
  }

  /** Exchanges `a[k - 1]` and `a[k]`. */
  method SwapDown<D>(a: array<Sheets.Artifact<D>>, k: nat)
    requires 0 < k < a.Length
    modifies a
    ensures a[..] == old(a[..])[k - 1 := old(a[k])][k := old(a[k - 1])]
    ensures multiset(a[..]) == multiset(old(a[..]))
  {
    a[k - 1], a[k] := a[k], a[k - 1];
  }

  /** Swapping the out-of-order pair at `j - 1` moves the gap one place down and keeps both runs sorted. */
  lemma SwapStep<D>(s: seq<Sheets.Artifact<D>>, j: nat, i: nat)
    requires 0 < j <= i < |s|
    requires RanksSorted(s, 0, j) && RanksSorted(s, j, i + 1)
    requires j < i ==> Rank(s[j - 1].amount) <= Rank(s[j + 1].amount)
    requires Rank(s[j - 1].amount) > Rank(s[j].amount)
    ensures var t := s[j - 1 := s[j]][j := s[j - 1]];
      RanksSorted(t, 0, j - 1) && RanksSorted(t, j - 1, i + 1) &&
      (0 < j - 1 ==> Rank(t[j - 2].amount) <= Rank(t[j].amount))
  {
  }

  /** When the gap is at the front or in order, the whole prefix up to `i` is sorted. */
  lemma InsertDone<D>(s: seq<Sheets.Artifact<D>>, j: nat, i: nat)
    requires j <= i < |s|
    requires RanksSorted(s, 0, j) && RanksSorted(s, j, i + 1)
    requires 0 < j ==> Rank(s[j - 1].amount) <= Rank(s[j].amount)
    ensures RanksSorted(s, 0, i + 1)
  {
  }

  /** The ranks of `s[lo..hi]` do not decrease. */
  predicate RanksSorted<D>(s: seq<Sheets.Artifact<D>>, lo: nat, hi: nat)
    requires lo <= hi <= |s|
  {
    forall k, l :: lo <= k < l < hi ==> Rank(s[k].amount) <= Rank(s[l].amount)
  }

  /**
   * What the sort achieves: all single images come first, and the pages
   * follow in non-decreasing page number (`SortedPairsFrontsAndBacks`
   * draws from this that a page's front and back end up side by side).
   */
  lemma SortedGroupsPages<D>(s: seq<Sheets.Artifact<D>>)
    requires Sorted(s)
    ensures forall i, j :: 0 <= i < j < |s| && s[j].amount.Single? ==> s[i].amount.Single?
    ensures forall i, j :: 0 <= i < j < |s| && s[i].amount.Multiple? && s[j].amount.Multiple? ==>
      s[i].amount.index <= s[j].amount.index
  {
    forall i, j | 0 <= i < j < |s|
      ensures Rank(s[i].amount) <= Rank(s[j].amount)
    {
      CompareIsRank(s[i].amount, s[j].amount);
    }
  }

  /** The images of `s` ranked below `v`, in order. */
  function Below<D>(s: seq<Sheets.Artifact<D>>, v: int): seq<Sheets.Artifact<D>> {
    if s == [] then []
    else (if Rank(s[0].amount) < v then [s[0]] else []) + Below(s[1..], v)
  }

  /** Taking the images ranked below `v` keeps each of them as often as it occurs, and no other. */
  lemma {:induction false} BelowCounts<D>(s: seq<Sheets.Artifact<D>>, v: int)
    ensures forall x: Sheets.Artifact<D> :: multiset(Below(s, v))[x] == if Rank(x.amount) < v then multiset(s)[x] else 0
  {
    if s != [] {
      BelowCounts(s[1..], v);
      assert s == [s[0]] + s[1..];
    }
  }

  /** Two arrangements of the same paths have the same paths ranked below `v`. */
  lemma BelowPermutes(s: seq<Sheets.Artifact<string>>, t: seq<Sheets.Artifact<string>>, v: int)
    requires multiset(s) == multiset(t)
    ensures multiset(Below(s, v)) == multiset(Below(t, v))
  {
    forall x: Sheets.Artifact<string>
      ensures multiset(Below(s, v))[x] == multiset(Below(t, v))[x]
    {
      BelowCount(s, v, x);
      BelowCount(t, v, x);
    }
  }

  /** `BelowCounts` for one image. */
  lemma BelowCount<D>(s: seq<Sheets.Artifact<D>>, v: int, x: Sheets.Artifact<D>)
    ensures multiset(Below(s, v))[x] == if Rank(x.amount) < v then multiset(s)[x] else 0
  {
    BelowCounts(s, v);
  }

  /** Nothing is ranked below `v` when every rank is at least `v`. */
  lemma {:induction false} BelowNone<D>(s: seq<Sheets.Artifact<D>>, v: int)
    requires forall k :: 0 <= k < |s| ==> Rank(s[k].amount) >= v
    ensures Below(s, v) == []
  {
    if s != [] {
      BelowNone(s[1..], v);
    }
  }

  /** In rank order, the images ranked below `v` are a prefix. */
  lemma {:induction false} SortedBelowPrefix<D>(s: seq<Sheets.Artifact<D>>, v: int)
    requires RanksSorted(s, 0, |s|)
    ensures |Below(s, v)| <= |s| && Below(s, v) == s[..|Below(s, v)|]
  {
    if s != [] {
      if Rank(s[0].amount) < v {
        assert RanksSorted(s[1..], 0, |s| - 1);
        SortedBelowPrefix(s[1..], v);
        var k := |Below(s[1..], v)|;
        assert Below(s, v) == [s[0]] + s[1..][..k];
        assert [s[0]] + s[1..][..k] == s[..k + 1];
      } else {
        BelowNone(s, v);
      }
    }
  }

  /** Below `v` works piece by piece. */
  lemma {:induction false} BelowAppend<D>(a: seq<Sheets.Artifact<D>>, b: seq<Sheets.Artifact<D>>, v: int)
    ensures Below(a + b, v) == Below(a, v) + Below(b, v)
  {
    if a == [] {
      assert a + b == b;
    } else {
      assert (a + b)[0] == a[0] && (a + b)[1..] == a[1..] + b;
      BelowAppend(a[1..], b, v);
    }
  }

  /** Of images ranked `c`, `c + 1`, ... in turn, those ranked below `v` are the first `v - c`. */
  lemma {:induction false} BelowConsecutive<D>(s: seq<Sheets.Artifact<D>>, c: int, v: int)
    requires forall k :: 0 <= k < |s| ==> Rank(s[k].amount) == c + k
    requires c <= v <= c + |s|
    ensures Below(s, v) == s[..v - c]
  {
    if v == c {
      BelowNone(s, v);
    } else {
      BelowConsecutive(s[1..], c + 1, v);
      assert s[..v - c] == [s[0]] + s[1..][..v - c - 1];
    }
  }

  /**
   * The images of a deck of `n` pages with unique backs, in the order
   * `TTS::build` yields them: front page `k` carries `Multiple(k + 1, n)`,
   * then back page `k` carries the same amount.
   */
  predicate FrontsThenBacks<D>(t: seq<Sheets.Artifact<D>>, n: nat) {
    |t| == 2 * n &&
    (forall k :: 0 <= k < n ==> t[k].amount == Sheets.Multiple(k + 1, n) && t[k].side == Carp.Front) &&
    (forall k :: n <= k < 2 * n ==> t[k].amount == Sheets.Multiple(k - n + 1, n) && t[k].side == Carp.Back)
  }

  /**
   * The images handed on after export: one per result of `TTS::build`,
   * every result unwrapped, each image keeping its artifact's side and amount.
   */
  predicate ExportedFrom<D, E>(r: seq<Result<Sheets.Artifact<D>, string>>, t: seq<Sheets.Artifact<E>>) {
    |t| == |r| &&
    forall i :: 0 <= i < |r| ==> r[i].Ok? && t[i].amount == r[i].value.amount && t[i].side == r[i].value.side
  }

  /** A deck of more than one sheet with unique backs is exported as its fronts, then its backs, page by page. */
  lemma BuildFrontsThenBacks<C, D, E>(deck: Sheets.DeckView<C>, createSheet: (nat, seq<C>, Carp.Side) -> Result<D, string>,
                                      createCard: (C, nat) -> Result<D, string>, t: seq<Sheets.Artifact<E>>)
    requires deck.shareBack == Carp.Unique && |deck.cards| > Carp.PER_SHEET
    requires ExportedFrom(Sheets.Build(deck, createSheet, createCard), t)
    ensures FrontsThenBacks(t, Sheets.SheetCount(|deck.cards|))
  {
    var n := Sheets.SheetCount(|deck.cards|);
    Sheets.BuildUnique(deck, createSheet, createCard);
    var r := Sheets.Build(deck, createSheet, createCard);
    var fronts := Sheets.RenderSheet(deck, Carp.Front, createSheet);
    var backs := Sheets.RenderSheet(deck, Carp.Back, createSheet);
    forall k | 0 <= k < n
      ensures t[k].amount == Sheets.Multiple(k + 1, n) && t[k].side == Carp.Front
    {
      assert r[k] == fronts[k];
    }
    forall k | n <= k < 2 * n
      ensures t[k].amount == Sheets.Multiple(k - n + 1, n) && t[k].side == Carp.Back
    {
      assert r[k] == backs[k - n];
    }
  }

  /** A sequence sorted by the comparator has non-decreasing ranks. */
  lemma SortedRanks<D>(s: seq<Sheets.Artifact<D>>)
    requires Sorted(s)
    ensures RanksSorted(s, 0, |s|)
  {
    forall k, l | 0 <= k < l < |s|
      ensures Rank(s[k].amount) <= Rank(s[l].amount)
    {
      CompareIsRank(s[k].amount, s[l].amount);
    }
  }

  /** Of a deck's fronts then backs, those of pages `1..p` are the first `p` fronts and the first `p` backs. */
  lemma BelowFrontsThenBacks<D>(t: seq<Sheets.Artifact<D>>, n: nat, p: nat)
    requires FrontsThenBacks(t, n) && p <= n
    ensures Below(t, p + 1) == t[..p] + t[n..n + p]
  {
    var fronts, backs := t[..n], t[n..];
    assert t == fronts + backs;
    forall k | 0 <= k < |fronts|
      ensures Rank(fronts[k].amount) == 1 + k
    {
      assert fronts[k] == t[k];
    }
    forall k | 0 <= k < |backs|
      ensures Rank(backs[k].amount) == 1 + k
    {
      assert backs[k] == t[n + k];
    }
    BelowAppend(fronts, backs, p + 1);
    BelowConsecutive(fronts, 1, p + 1);
    BelowConsecutive(backs, 1, p + 1);
    assert fronts[..p] == t[..p];
    assert backs[..p] == t[n..n + p];
  }

  /** Sorted by rank, the paths of pages `1..p` are the first `2 * p`, once the unsorted ones are known to be. */
  lemma PagesPrefix(s: seq<Sheets.Artifact<string>>, t: seq<Sheets.Artifact<string>>, n: nat, p: nat)
    requires RanksSorted(s, 0, |s|) && multiset(s) == multiset(t) && p <= n && 2 * n == |t|
    requires Below(t, p + 1) == t[..p] + t[n..n + p]
    ensures 2 * p <= |s| && multiset(s[..2 * p]) == multiset(t[..p] + t[n..n + p])
  {
    BelowPermutes(s, t, p + 1);
    var below := Below(s, p + 1);
    assert |multiset(below)| == |below|;
    SortedBelowPrefix(s, p + 1);
    assert below == s[..2 * p];
  }

  /** Sorted by rank, positions `2p` and `2p + 1` hold front `p` and back `p` as a pair. */
  lemma SortedPair(s: seq<Sheets.Artifact<string>>, t: seq<Sheets.Artifact<string>>, n: nat, p: nat)
    requires RanksSorted(s, 0, |s|) && multiset(s) == multiset(t) && p < n && 2 * n == |t|
    requires Below(t, p + 1) == t[..p] + t[n..n + p]
    requires Below(t, p + 2) == t[..p + 1] + t[n..n + (p + 1)]
    ensures 2 * p + 2 <= |s| && multiset{s[2 * p], s[2 * p + 1]} == multiset{t[p], t[n + p]}
  {
    PairPrefixes(s, t, n, p);
    NextPair(s, 2 * p, 2 * (p + 1), multiset(t[..p] + t[n..n + p]), t[p], t[n + p]);
  }

  /** The sorted prefixes through pages `p` and `p + 1`, the second one page's front and back longer. */
  lemma PairPrefixes(s: seq<Sheets.Artifact<string>>, t: seq<Sheets.Artifact<string>>, n: nat, p: nat)
    requires RanksSorted(s, 0, |s|) && multiset(s) == multiset(t) && p < n && 2 * n == |t|
    requires Below(t, p + 1) == t[..p] + t[n..n + p]
    requires Below(t, p + 2) == t[..p + 1] + t[n..n + (p + 1)]
    ensures 2 * (p + 1) <= |s| && multiset(s[..2 * p]) == multiset(t[..p] + t[n..n + p])
    ensures multiset(s[..2 * (p + 1)]) == multiset(t[..p] + t[n..n + p]) + multiset{t[p], t[n + p]}
  {
    PagesPrefix(s, t, n, p);
    PagesPrefix(s, t, n, p + 1);
    PrefixesGrowByPair(t, n, p);
  }

  /** Two images with different sides that form the same pair as `a` and `b` are `a` and `b` in some order. */
  lemma PairSides(x: Sheets.Artifact<string>, y: Sheets.Artifact<string>, a: Sheets.Artifact<string>, b: Sheets.Artifact<string>)
    requires multiset{x, y} == multiset{a, b} && a.side != b.side
    ensures (x == a && y == b) || (x == b && y == a)
  {
    assert x in multiset{a, b} && y in multiset{a, b};
  }

  /** When a prefix of `u` grows by two elements and its multiset by `x` and `y`, those two elements are `x` and `y`. */
  lemma NextPair(u: seq<Sheets.Artifact<string>>, k: nat, l: nat, a: multiset<Sheets.Artifact<string>>,
                 x: Sheets.Artifact<string>, y: Sheets.Artifact<string>)
    requires l == k + 2 <= |u| && multiset(u[..k]) == a && multiset(u[..l]) == a + multiset{x, y}
    ensures multiset{u[k], u[k + 1]} == multiset{x, y}
  {
    PrefixGrowsByPair(u, k);
    Cancel(a, multiset{u[k], u[k + 1]}, multiset{x, y});
  }

  /** Two more elements of a prefix add them to its multiset. */
  lemma PrefixGrowsByPair(s: seq<Sheets.Artifact<string>>, i: nat)
    requires i + 2 <= |s|
    ensures multiset(s[..i + 2]) == multiset(s[..i]) + multiset{s[i], s[i + 1]}
  {
    assert s[..i + 2] == s[..i] + [s[i], s[i + 1]];
  }

  /** One more front and one more back add them to the multiset of both prefixes. */
  lemma PrefixesGrowByPair(t: seq<Sheets.Artifact<string>>, n: nat, p: nat)
    requires p < n && 2 * n <= |t|
    ensures multiset(t[..p + 1] + t[n..n + (p + 1)]) == multiset(t[..p] + t[n..n + p]) + multiset{t[p], t[n + p]}
  {
    assert t[..p + 1] + t[n..n + (p + 1)] == t[..p] + [t[p]] + t[n..n + p] + [t[n + p]];
  }

  /** Multiset sums cancel. */
  lemma Cancel(a: multiset<Sheets.Artifact<string>>, x: multiset<Sheets.Artifact<string>>, y: multiset<Sheets.Artifact<string>>)
    requires a + x == a + y
    ensures x == y
  {
    forall e
      ensures x[e] == y[e]
    {
      assert (a + x)[e] == (a + y)[e];
    }
  }

  /**
   * After sorting the fronts then backs of a deck of `n` pages, positions
   * `2p` and `2p + 1` hold page `p + 1`, one front and one back.
   */
  lemma SortedPagePair(s: seq<Sheets.Artifact<string>>, t: seq<Sheets.Artifact<string>>, n: nat, p: nat)
    requires FrontsThenBacks(t, n) && Sorted(s) && multiset(s) == multiset(t) && p < n
    ensures |s| == 2 * n
    ensures s[2 * p].amount == s[2 * p + 1].amount == Sheets.Multiple(p + 1, n)
    ensures {s[2 * p].side, s[2 * p + 1].side} == {Carp.Front, Carp.Back}
  {
    assert |s| == 2 * n by {
      assert |multiset(s)| == |s|;
    }
    assert Below(t, p + 1) == t[..p] + t[n..n + p] by {
      BelowFrontsThenBacks(t, n, p);
    }
    assert Below(t, p + 2) == t[..p + 1] + t[n..n + (p + 1)] by {
      BelowFrontsThenBacks(t, n, p + 1);
    }
    SortedRanks(s);
    SortedPair(s, t, n, p);
    assert t[p].amount == t[n + p].amount == Sheets.Multiple(p + 1, n);
    FrontAndBack(s[2 * p], s[2 * p + 1], t[p], t[n + p]);
  }

  /** The pair of a front and a back of one page, in either order, has that page's amount and both sides. */
  lemma FrontAndBack(x: Sheets.Artifact<string>, y: Sheets.Artifact<string>, a: Sheets.Artifact<string>, b: Sheets.Artifact<string>)
    requires multiset{x, y} == multiset{a, b} && a.side == Carp.Front && b.side == Carp.Back && a.amount == b.amount
    ensures x.amount == y.amount == a.amount
    ensures {x.side, y.side} == {Carp.Front, Carp.Back}
  {
    PairSides(x, y, a, b);
  }

  /**
   * What the sort is for: once the exported paths of a deck of more than one
   * sheet with unique backs are sorted, positions `2p` and `2p + 1` hold the
   * front and the back of page `p + 1`, in either order.
   */
  lemma SortedPairsFrontsAndBacks<C, D>(deck: Sheets.DeckView<C>, createSheet: (nat, seq<C>, Carp.Side) -> Result<D, string>,
                                        createCard: (C, nat) -> Result<D, string>,
                                        t: seq<Sheets.Artifact<string>>, s: seq<Sheets.Artifact<string>>, p: nat)
    requires deck.shareBack == Carp.Unique && |deck.cards| > Carp.PER_SHEET
    requires ExportedFrom(Sheets.Build(deck, createSheet, createCard), t)
    requires Sorted(s) && multiset(s) == multiset(t)
    requires p < Sheets.SheetCount(|deck.cards|)
    ensures |s| == 2 * Sheets.SheetCount(|deck.cards|)
    ensures s[2 * p].amount == s[2 * p + 1].amount == Sheets.Multiple(p + 1, Sheets.SheetCount(|deck.cards|))
    ensures {s[2 * p].side, s[2 * p + 1].side} == {Carp.Front, Carp.Back}
  {
    BuildFrontsThenBacks(deck, createSheet, createCard, t);
    SortedPagePair(s, t, Sheets.SheetCount(|deck.cards|), p);
  }
}
