/**
 * The older sheet export (`src/util/deck.rs`): the same pagination as the
 * Tabletop Simulator export, but every image is named after the deck, and a
 * deck either has one backside card for all cards or draws every card's
 * back on sheets like the fronts.
 */
module Naming {
  import opened Wrappers
  import opened Text
  import opened Carp
  import Sheets

  /** `util::deck::Deck`: the cards, the optional shared backside card, and the name. */
  datatype Deck<C> = Deck(cards: seq<C>, backside: Option<C>, name: string)

  /** An image with the name it is exported under. */
  datatype Named<D> = Named(name: string, data: D)

  /** Whether the deck fits on one sheet. */
  predicate SingleSheet(n: nat) {
    n <= PER_SHEET
  }

  /** What a front sheet's name adds to the deck name: nothing on a single sheet, else `-` and the 0-based page. */
  function FrontTail(single: bool, page: nat): string {
    if single then "" else "-" + Decimal(page)
  }

  /** What a back sheet's name adds to the deck name: `-back`, or `-back-` and the page. */
  function BackTail(single: bool, page: nat): string {
    if single then "-back" else "-back-" + Decimal(page)
  }

  /** What the shared backside card's name adds to the deck name. */
  const SHARED_BACK_TAIL: string := "-back-single"

  /** The names of the front sheets of a deck of `n` cards, page by page. */
  function FrontNames(name: string, n: nat): (r: seq<string>)
    ensures |r| == Sheets.SheetCount(n)
  {
    seq(Sheets.SheetCount(n), page requires 0 <= page => name + FrontTail(SingleSheet(n), page))
  }

  /** The names of the backs: one for a shared backside card, else one per page. */
  function BackNames(name: string, n: nat, shared: bool): (r: seq<string>)
    ensures |r| == if shared then 1 else Sheets.SheetCount(n)
  {
    if shared then [name + SHARED_BACK_TAIL]
    else seq(Sheets.SheetCount(n), page requires 0 <= page => name + BackTail(SingleSheet(n), page))
  }

  /** The name of every image `render` makes, fronts first. */
  function Names(name: string, n: nat, shared: bool): seq<string> {
    FrontNames(name, n) + BackNames(name, n, shared)
  }

  /** A named image from the renderer's result. */
  function NameImage<D>(name: string, image: Result<D, string>): (r: Result<Named<D>, string>)
    ensures r.Ok? <==> image.Ok?
    ensures r.Ok? ==> r.value == Named(name, image.value)
    ensures r.Err? ==> r.error == image.error
  {
    match image
    case Err(e) => Err(e)
    case Ok(data) => Ok(Named(name, data))
  }

  /**
   * `Deck::render`: one front sheet per chunk of `ROWS * COLUMNS` cards, then
   * either one image of the backside card or one back sheet per chunk. The
   * renderer is a parameter: `createSheet(chunk, drawBack)` and
   * `createCard(card)`.
   */
  function Render<C, D>(deck: Deck<C>, createSheet: (seq<C>, bool) -> Result<D, string>,
                        createCard: C -> Result<D, string>): (r: seq<Result<Named<D>, string>>)
    ensures |r| == |Names(deck.name, |deck.cards|, deck.backside.Some?)|
    ensures forall i :: 0 <= i < |r| && r[i].Ok? ==> r[i].value.name == Names(deck.name, |deck.cards|, deck.backside.Some?)[i]
  {
    Sheets.ChunkCount(deck.cards);
    var chunks := Sheets.Chunks(deck.cards, PER_SHEET);
    var front := SheetImages(chunks, FrontNames(deck.name, |deck.cards|), false, createSheet);
    var back := match deck.backside
      case Some(card) => [NameImage(BackNames(deck.name, |deck.cards|, true)[0], createCard(card))]
      case None => SheetImages(chunks, BackNames(deck.name, |deck.cards|, false), true, createSheet);
    front + back
  }

  /** The images of the chunks, one sheet each, under the given names. */
  function SheetImages<C, D>(chunks: seq<seq<C>>, names: seq<string>, drawBack: bool,
                             createSheet: (seq<C>, bool) -> Result<D, string>): (r: seq<Result<Named<D>, string>>)
    requires |names| == |chunks|
    ensures |r| == |chunks|
    ensures forall p :: 0 <= p < |r| ==> r[p] == NameImage(names[p], createSheet(chunks[p], drawBack))
  {
    seq(|chunks|, page requires 0 <= page < |chunks| => NameImage(names[page], createSheet(chunks[page], drawBack)))
  }

  /**
   * What `render` asks the renderer for: page `p` of the fronts is the
   * sheet of the `p`-th chunk under the `p`-th front name, and after the
   * fronts come the backs: the backside card's image alone, or the back of
   * each chunk in turn under its back name. An error is the renderer's own.
   */
  lemma RenderPages<C, D>(deck: Deck<C>, createSheet: (seq<C>, bool) -> Result<D, string>,
                          createCard: C -> Result<D, string>)
    ensures var r := Render(deck, createSheet, createCard);
      var chunks := Sheets.Chunks(deck.cards, PER_SHEET);
      |chunks| == Sheets.SheetCount(|deck.cards|) &&
      (forall p :: 0 <= p < |chunks| ==>
        r[p] == NameImage(FrontNames(deck.name, |deck.cards|)[p], createSheet(chunks[p], false))) &&
      (deck.backside.Some? ==> (|r| == |chunks| + 1 &&
        r[|chunks|] == NameImage(deck.name + SHARED_BACK_TAIL, createCard(deck.backside.value)))) &&
      (deck.backside.None? ==> (|r| == 2 * |chunks| &&
        forall p :: 0 <= p < |chunks| ==>
          r[|chunks| + p] == NameImage(BackNames(deck.name, |deck.cards|, false)[p], createSheet(chunks[p], true))))
  {
    Sheets.ChunkCount(deck.cards);
  }

  /** A deck of one sheet is exported as the deck name and its `-back` or `-back-single` companion. */
  lemma SingleSheetNames(name: string, n: nat, shared: bool)
    requires 0 < n <= PER_SHEET
    ensures Names(name, n, shared) == [name, name + (if shared then "-back-single" else "-back")]
  {
    assert Sheets.SheetCount(n) == 1;
    assert FrontNames(name, n) == [name + ""];
    assert name + "" == name;
  }

  /** Pages of a deck of several sheets are told apart by their number. */
  lemma MultiSheetNames(name: string, n: nat, shared: bool, page: nat)
    requires n > PER_SHEET && page < Sheets.SheetCount(n)
    ensures FrontNames(name, n)[page] == name + "-" + Decimal(page)
    ensures !shared ==> BackNames(name, n, shared)[page] == name + "-back-" + Decimal(page)
  {
    assert name + ("-" + Decimal(page)) == name + "-" + Decimal(page);
    assert name + ("-back-" + Decimal(page)) == name + "-back-" + Decimal(page);
  }

  /** The name of every image a render makes is different from all the others. */
  lemma NamesDistinct(name: string, n: nat, shared: bool)
    ensures var r := Names(name, n, shared);
      forall i, j :: 0 <= i < j < |r| ==> r[i] != r[j]
  {
    var tails := Tails(n, shared);
    TailsDistinct(n, shared);
    var r := Names(name, n, shared);
    forall i, j | 0 <= i < j < |r|
      ensures r[i] != r[j]
    {
      NameHasTail(name, n, shared, i);
      NameHasTail(name, n, shared, j);
      if r[i] == r[j] {
        SamePrefix(name, tails[i], tails[j]);
      }
    }
  }

  /** What each name adds to the deck name, in the order of `Names`. */
  function Tails(n: nat, shared: bool): (r: seq<string>)
    ensures |r| == |Names([], n, shared)|
  {
    var single := SingleSheet(n);
    var count := Sheets.SheetCount(n);
    seq(count, page requires 0 <= page => FrontTail(single, page)) +
    (if shared then [SHARED_BACK_TAIL] else seq(count, page requires 0 <= page => BackTail(single, page)))
  }

  lemma NameHasTail(name: string, n: nat, shared: bool, i: nat)
    requires i < |Names(name, n, shared)|
    ensures |Tails(n, shared)| == |Names(name, n, shared)|
    ensures Names(name, n, shared)[i] == name + Tails(n, shared)[i]
  {
    var count := Sheets.SheetCount(n);
    if i >= count {
      assert Names(name, n, shared)[i] == BackNames(name, n, shared)[i - count];
    }
  }

  lemma SamePrefix(p: string, s: string, t: string)
    requires p + s == p + t
    ensures s == t
  {
    assert s == (p + s)[|p|..];
    assert t == (p + t)[|p|..];
  }

  /** The tails of one render are pairwise different. */
  lemma TailsDistinct(n: nat, shared: bool)
    ensures var t := Tails(n, shared);
      forall i, j :: 0 <= i < j < |t| ==> t[i] != t[j]
  {
    var t := Tails(n, shared);
    forall i, j | 0 <= i < j < |t|
      ensures t[i] != t[j]
    {
      TailPairDiffers(n, shared, i, j);
    }
  }

  lemma TailPairDiffers(n: nat, shared: bool, i: nat, j: nat)
    requires i < j < |Tails(n, shared)|
    ensures Tails(n, shared)[i] != Tails(n, shared)[j]
  {
    var single := SingleSheet(n);
    var count := Sheets.SheetCount(n);
    var t := Tails(n, shared);
    assert single ==> count <= 1;
    if j < count {
      FrontTailsDiffer(single, i, j);
    } else if i < count {
      assert t[j] == (if shared then SHARED_BACK_TAIL else BackTail(single, j - count));
      FrontBeforeBack(single, i, t[j], j - count);
    } else {
      assert t[i] == BackTail(single, i - count);
      BackTailsDiffer(single, i - count, j - count);
    }
  }

  lemma FrontTailsDiffer(single: bool, i: nat, j: nat)
    requires !single && i != j
    ensures FrontTail(single, i) != FrontTail(single, j)
  {
    if FrontTail(single, i) == FrontTail(single, j) {
      SamePrefix("-", Decimal(i), Decimal(j));
      DecimalInjective(i, j);
    }
  }

  lemma BackTailsDiffer(single: bool, i: nat, j: nat)
    requires !single && i != j
    ensures BackTail(single, i) != BackTail(single, j)
  {
    if BackTail(single, i) == BackTail(single, j) {
      SamePrefix("-back-", Decimal(i), Decimal(j));
      DecimalInjective(i, j);
    }
  }

  /** A front tail is empty or a dash and a digit; every back tail is a dash and a `b`. */
  lemma FrontBeforeBack(single: bool, i: nat, back: string, j: nat)
    requires back == SHARED_BACK_TAIL || back == BackTail(single, j)
    ensures FrontTail(single, i) != back
  {
    assert back[..2] == "-b";
    if !single {
      assert FrontTail(single, i)[1] == Decimal(i)[0];
    }
  }

  /** A card drawn on a sheet: the cell its own index gives it, and which face is drawn. */
  datatype Placed<C> = Placed(column: nat, row: nat, drawBack: bool, card: C)

  /**
   * The draws `render_sheet` makes for a chunk: each card at column
   * `index % COLUMNS` and row `index / COLUMNS` of its own index.
   */
  function Placement<C>(cards: seq<C>, index: C -> nat, drawBack: bool): (r: seq<Placed<C>>)
    ensures |r| == |cards|
  {
    seq(|cards|, i requires 0 <= i < |cards| =>
      Placed(index(cards[i]) % COLUMNS, index(cards[i]) / COLUMNS, drawBack, cards[i]))
  }

  /** A render context, reduced to the cards drawn on it. */
  class SheetCanvas<C> {
    var drawn: seq<Placed<C>>

    constructor()
      ensures drawn == []
    {
      drawn := [];
    }

    /** `render_sheet`: every card of the chunk drawn in order, front or back. */
    method RenderSheet(cards: seq<C>, index: C -> nat, drawBack: bool)
      modifies this
      ensures drawn == old(drawn) + Placement(cards, index, drawBack)
    {
      ghost var before := drawn;
      for i := 0 to |cards|
        invariant drawn == before + Placement(cards[..i], index, drawBack)
      {
        var card := cards[i];
        assert Placement(cards[..i + 1], index, drawBack) == Placement(cards[..i], index, drawBack)
          + [Placed(index(card) % COLUMNS, index(card) / COLUMNS, drawBack, card)];
        drawn := drawn + [Placed(index(card) % COLUMNS, index(card) / COLUMNS, drawBack, card)];
      }
      assert cards[..|cards|] == cards;
    }
  }

  /**
   * The cell follows the card's own index: it lies on the sheet exactly when
   * the index is below `ROWS * COLUMNS`, and cards with different indices
   * get different cells.
   */
  lemma PlacementByIndex<C>(cards: seq<C>, index: C -> nat, drawBack: bool)
    ensures var r := Placement(cards, index, drawBack);
      forall i :: 0 <= i < |r| ==> r[i].column < COLUMNS && (r[i].row < ROWS <==> index(cards[i]) < PER_SHEET)
    ensures var r := Placement(cards, index, drawBack);
      forall i, j :: 0 <= i < |r| && 0 <= j < |r| && index(cards[i]) != index(cards[j]) ==>
        (r[i].column, r[i].row) != (r[j].column, r[j].row)
  {
    var r := Placement(cards, index, drawBack);
    forall i, j | 0 <= i < |r| && 0 <= j < |r| && index(cards[i]) != index(cards[j])
      ensures (r[i].column, r[i].row) != (r[j].column, r[j].row)
    {
      assert index(cards[i]) == r[i].row * COLUMNS + r[i].column;
      assert index(cards[j]) == r[j].row * COLUMNS + r[j].column;
    }
  }
}
