/**
 * The Tabletop Simulator export of a deck (`crates/carp/src/tts.rs`): the
 * cards are cut into sheets of `ROWS * COLUMNS`, every sheet becomes one
 * artifact, and the backs are either one shared card or sheets like the
 * fronts. The renderer is opaque: rendering a sheet or a single card is a
 * parameter that returns the image or an error.
 */
module Sheets {
  import opened Wrappers
  import opened Carp
  import Geometry

  /** `Content`: a sheet of cards, or one card on its own. */
  datatype Content = Sheet(rows: nat, columns: nat, total: nat) | Single

  /** `Amount`: the only artifact of its side, or the `index`-th of `total` (counted from 1). */
  datatype Amount = Single | Multiple(index: nat, total: nat)

  /** One rendered image and what the host needs to know about it. */
  datatype Artifact<D> = Artifact(
    deck: string,
    data: D,
    side: Side,
    shared: Backside,
    content: Content,
    amount: Amount,
    aspectRatio: Option<Geometry.AspectRatio>,
    extension: Option<string>)

  /** What the export reads of a deck: its name, its cards and how its backs are made. */
  datatype DeckView<C> = DeckView(name: string, cards: seq<C>, shareBack: Backside)

  /** `slice::chunks(size)`: consecutive pieces of `size`, the last one possibly shorter, none empty. */
  function Chunks<C>(cards: seq<C>, size: nat): (r: seq<seq<C>>)
    requires size > 0
    ensures forall i :: 0 <= i < |r| ==> 0 < |r[i]| <= size
    ensures forall i :: 0 <= i < |r| - 1 ==> |r[i]| == size
    decreases |cards|
  {
    if cards == [] then []
    else if |cards| <= size then [cards]
    else [cards[..size]] + Chunks(cards[size..], size)
  }

  /** The pieces concatenated in order. */
  function Concat<C>(pieces: seq<seq<C>>): seq<C> {
    if pieces == [] then [] else pieces[0] + Concat(pieces[1..])
  }

  /** Number of sheets of `n` cards: `n / per` rounded up, as `tts.rs` computes it. */
  function SheetCount(n: nat): nat {
    n / PER_SHEET + (if n % PER_SHEET > 0 then 1 else 0)
  }

  /** The chunks put back together are the cards: nothing is lost, repeated or reordered. */
  lemma {:induction false} ChunksConcat<C>(cards: seq<C>)
    ensures Concat(Chunks(cards, PER_SHEET)) == cards
    decreases |cards|
  {
    if cards == [] {
    } else if |cards| <= PER_SHEET {
      assert Chunks(cards, PER_SHEET) == [cards];
      assert [cards][1..] == [];
      assert cards + [] == cards;
    } else {
      var rest := cards[PER_SHEET..];
      ChunksConcat(rest);
      assert Chunks(cards, PER_SHEET)[1..] == Chunks(rest, PER_SHEET);
      assert cards[..PER_SHEET] + rest == cards;
    }
  }

  /** There are `SheetCount` chunks. */
  lemma {:induction false} ChunkCount<C>(cards: seq<C>)
    ensures |Chunks(cards, PER_SHEET)| == SheetCount(|cards|)
    decreases |cards|
  {
    if |cards| > PER_SHEET {
      ChunkCount(cards[PER_SHEET..]);
      SheetCountStep(|cards|);
    }
  }

  /** A deck longer than a sheet needs one sheet more than the deck without its first sheet. */
  lemma SheetCountStep(n: nat)
    requires n > PER_SHEET
    ensures SheetCount(n) == SheetCount(n - PER_SHEET) + 1
  {
  }

  /** `render_sheet`'s `amount`: `Single` on a deck of at most one sheet, otherwise the 1-based page of all pages. */
  function PageAmount(inDeck: nat, page: nat): (a: Amount)
    ensures a.Single? <==> inDeck <= PER_SHEET
    ensures a.Multiple? ==> a.index == page + 1 && a.total == SheetCount(inDeck)
  {
    if inDeck <= PER_SHEET then Amount.Single
    else Multiple(page + 1, SheetCount(inDeck))
  }

  /** Every page of a deck of several sheets is numbered between 1 and the number of sheets. */
  lemma AmountNumbersPages(inDeck: nat, page: nat)
    requires page < SheetCount(inDeck)
    ensures inDeck <= PER_SHEET ==> PageAmount(inDeck, page) == Amount.Single
    ensures inDeck > PER_SHEET ==>
      PageAmount(inDeck, page).Multiple? &&
      1 <= PageAmount(inDeck, page).index <= PageAmount(inDeck, page).total == SheetCount(inDeck)
  {
  }

  /** `SheetCount` is `n / 70` rounded up: the least count of sheets that holds all `n` cards. */
  lemma SheetCountIsCeiling(n: nat)
    ensures SheetCount(n) * PER_SHEET >= n
    ensures SheetCount(n) == 0 || (SheetCount(n) - 1) * PER_SHEET < n
  {
  }

  /** The artifact of one rendered sheet. */
  function SheetArtifact<C, D>(deck: DeckView<C>, side: Side, page: nat, chunk: seq<C>, image: D): (a: Artifact<D>)
    ensures a.deck == deck.name && a.side == side && a.shared == deck.shareBack && a.data == image
    ensures a.content == Sheet(ROWS, COLUMNS, |chunk|)
    ensures a.amount == PageAmount(|deck.cards|, page)
  {
    Artifact(deck.name, image, side, deck.shareBack, Sheet(ROWS, COLUMNS, |chunk|),
      PageAmount(|deck.cards|, page), None, None)
  }

  /** The result of rendering page `page`: the renderer's error, or the sheet's artifact. */
  function RenderPage<C, D>(deck: DeckView<C>, side: Side, page: nat, chunk: seq<C>,
                            createSheet: (nat, seq<C>, Side) -> Result<D, string>): Result<Artifact<D>, string>
  {
    match createSheet(page, chunk, side)
    case Err(e) => Err(e)
    case Ok(image) => Ok(SheetArtifact(deck, side, page, chunk, image))
  }

  /** `render_sheet`: one result per chunk of the deck, in card order. */
  function RenderSheet<C, D>(deck: DeckView<C>, side: Side,
                             createSheet: (nat, seq<C>, Side) -> Result<D, string>): (r: seq<Result<Artifact<D>, string>>)
    ensures |r| == |Chunks(deck.cards, PER_SHEET)|
    ensures forall p :: 0 <= p < |r| ==>
      r[p] == RenderPage(deck, side, p, Chunks(deck.cards, PER_SHEET)[p], createSheet)
  {
    var chunks := Chunks(deck.cards, PER_SHEET);
    seq(|chunks|, p requires 0 <= p < |chunks| => RenderPage(deck, side, p, chunks[p], createSheet))
  }

  /**
   * The shared back: the first card's back, drawn with deck index 0 and
   * rendered as a single card. `createCard(card, index)` stands for the
   * renderer drawing `card`'s back at `index`.
   */
  function SharedBack<C, D>(deck: DeckView<C>, createCard: (C, nat) -> Result<D, string>): (r: Result<Artifact<D>, string>)
    requires |deck.cards| > 0
    ensures r.Ok? <==> createCard(deck.cards[0], 0).Ok?
    ensures r.Ok? ==> (r.value.side == Back && r.value.content == Content.Single
      && r.value.amount == Amount.Single && r.value.data == createCard(deck.cards[0], 0).value)
  {
    match createCard(deck.cards[0], 0)
    case Err(e) => Err(e)
    case Ok(image) => Ok(Artifact(deck.name, image, Back, deck.shareBack, Content.Single, Amount.Single, None, None))
  }

  /**
   * `TTS::build`: the fronts, then the backs. A shared back needs a first
   * card (the source unwraps it).
   */
  function Build<C, D>(deck: DeckView<C>, createSheet: (nat, seq<C>, Side) -> Result<D, string>,
                       createCard: (C, nat) -> Result<D, string>): (r: seq<Result<Artifact<D>, string>>)
    requires deck.shareBack == Shared ==> |deck.cards| > 0
    ensures |r| == SheetCount(|deck.cards|) + (if deck.shareBack == Shared then 1 else SheetCount(|deck.cards|))
  {
    ChunkCount(deck.cards);
    var fronts := RenderSheet(deck, Front, createSheet);
    var backs := if deck.shareBack == Shared then [SharedBack(deck, createCard)] else RenderSheet(deck, Back, createSheet);
    fronts + backs
  }

  /** `Build` is the front sheets followed by the backs it makes for the deck's kind of backside. */
  lemma BuildSplits<C, D>(deck: DeckView<C>, createSheet: (nat, seq<C>, Side) -> Result<D, string>,
                          createCard: (C, nat) -> Result<D, string>)
    requires deck.shareBack == Shared ==> |deck.cards| > 0
    ensures Build(deck, createSheet, createCard) == RenderSheet(deck, Front, createSheet) +
      (if deck.shareBack == Shared then [SharedBack(deck, createCard)] else RenderSheet(deck, Back, createSheet))
  {
  }

  /**
   * Every artifact `Build` returns belongs to the deck, and all fronts come
   * first with the backs after them.
   */
  lemma BuildOrder<C, D>(deck: DeckView<C>, createSheet: (nat, seq<C>, Side) -> Result<D, string>,
                         createCard: (C, nat) -> Result<D, string>)
    requires deck.shareBack == Shared ==> |deck.cards| > 0
    ensures var r := Build(deck, createSheet, createCard);
      forall i :: 0 <= i < |r| && r[i].Ok? ==>
        r[i].value.deck == deck.name && r[i].value.shared == deck.shareBack &&
        (r[i].value.side == Front <==> i < SheetCount(|deck.cards|))
  {
    ChunkCount(deck.cards);
    BuildSplits(deck, createSheet, createCard);
    var r := Build(deck, createSheet, createCard);
    var n := SheetCount(|deck.cards|);
    var fronts := RenderSheet(deck, Front, createSheet);
    var backs := if deck.shareBack == Shared then [SharedBack(deck, createCard)] else RenderSheet(deck, Back, createSheet);
    SheetSides(deck, Front, createSheet);
    SheetSides(deck, Back, createSheet);
    forall i | 0 <= i < |r| && r[i].Ok?
      ensures r[i].value.deck == deck.name && r[i].value.shared == deck.shareBack
      ensures r[i].value.side == Front <==> i < n
    {
      if i < n {
        assert r[i] == fronts[i];
      } else {
        assert r[i] == backs[i - n];
      }
    }
  }

  /** Every sheet `RenderSheet` makes carries the deck's name, its kind of backside and the side asked for. */
  lemma SheetSides<C, D>(deck: DeckView<C>, side: Side, createSheet: (nat, seq<C>, Side) -> Result<D, string>)
    ensures var r := RenderSheet(deck, side, createSheet);
      forall p :: 0 <= p < |r| && r[p].Ok? ==>
        r[p].value.deck == deck.name && r[p].value.shared == deck.shareBack && r[p].value.side == side
  {
  }

  /** A deck with unique backs gets one back sheet per front sheet, page by page. */
  lemma UniqueBacksPaged<C, D>(deck: DeckView<C>, createSheet: (nat, seq<C>, Side) -> Result<D, string>,
                               createCard: (C, nat) -> Result<D, string>)
    requires deck.shareBack == Unique
    ensures var r := Build(deck, createSheet, createCard);
      var n := SheetCount(|deck.cards|);
      forall p :: 0 <= p < n ==>
        r[n + p] == RenderPage(deck, Back, p, Chunks(deck.cards, PER_SHEET)[p], createSheet)
  {
    var n := SheetCount(|deck.cards|);
    forall p | 0 <= p < n
      ensures BackPage(deck, createSheet, createCard, p)
    {
      UniqueBackPage(deck, createSheet, createCard, p);
    }
  }

  /** Result `SheetCount + p` of `Build` is back sheet `p`. */
  ghost predicate BackPage<C, D>(deck: DeckView<C>, createSheet: (nat, seq<C>, Side) -> Result<D, string>,
                           createCard: (C, nat) -> Result<D, string>, p: nat)
    requires deck.shareBack == Unique && p < SheetCount(|deck.cards|)
  {
    ChunkCount(deck.cards);
    var r := Build(deck, createSheet, createCard);
    var n := SheetCount(|deck.cards|);
    r[n + p] == RenderPage(deck, Back, p, Chunks(deck.cards, PER_SHEET)[p], createSheet)
  }

  lemma UniqueBackPage<C, D>(deck: DeckView<C>, createSheet: (nat, seq<C>, Side) -> Result<D, string>,
                             createCard: (C, nat) -> Result<D, string>, p: nat)
    requires deck.shareBack == Unique && p < SheetCount(|deck.cards|)
    ensures BackPage(deck, createSheet, createCard, p)
  {
    BuildUnique(deck, createSheet, createCard);
    var backs := RenderSheet(deck, Back, createSheet);
    assert Build(deck, createSheet, createCard)[SheetCount(|deck.cards|) + p] == backs[p];
  }

  /** With unique backs, `Build` is the front sheets followed by as many back sheets. */
  lemma BuildUnique<C, D>(deck: DeckView<C>, createSheet: (nat, seq<C>, Side) -> Result<D, string>,
                          createCard: (C, nat) -> Result<D, string>)
    requires deck.shareBack == Unique
    ensures Build(deck, createSheet, createCard) == RenderSheet(deck, Front, createSheet) + RenderSheet(deck, Back, createSheet)
    ensures |RenderSheet(deck, Front, createSheet)| == |RenderSheet(deck, Back, createSheet)| == SheetCount(|deck.cards|)
  {
    ChunkCount(deck.cards);
  }

  /**
   * Sheet contents: each sheet says how many cards it holds, every sheet but
   * the last holds a full `ROWS * COLUMNS`, and the counts add up to the deck.
   */
  lemma SheetTotals<C, D>(deck: DeckView<C>, side: Side, createSheet: (nat, seq<C>, Side) -> Result<D, string>)
    ensures var r := RenderSheet(deck, side, createSheet);
      forall p :: 0 <= p < |r| && r[p].Ok? ==>
        r[p].value.content.Sheet? &&
        r[p].value.content.rows == ROWS && r[p].value.content.columns == COLUMNS &&
        0 < r[p].value.content.total <= PER_SHEET &&
        (p < |r| - 1 ==> r[p].value.content.total == PER_SHEET)
  {
  }

  /** One card drawn on a sheet: its cell, the deck index the card is told, the side and the card. */
  datatype Draw<C> = Draw(column: nat, row: nat, deckIndex: nat, side: Side, card: C)

  /**
   * What `draw_sheet` asks of the render context, card by card: the card at
   * local index `i` goes to column `i % COLUMNS`, row `i / COLUMNS`, and is
   * told the deck index `page * ROWS * COLUMNS` (the local index is not
   * added).
   */
  function Placements<C>(page: nat, cards: seq<C>, side: Side): (r: seq<Draw<C>>)
    ensures |r| == |cards|
  {
    seq(|cards|, i requires 0 <= i < |cards| => Draw(i % COLUMNS, i / COLUMNS, page * PER_SHEET, side, cards[i]))
  }

  /** A render context, reduced to the draws it has received. */
  class Canvas<C> {
    var draws: seq<Draw<C>>

    constructor()
      ensures draws == []
    {
      draws := [];
    }

    /** `draw_sheet`: draws every card of the chunk in order, each in its own cell. */
    method DrawSheet(page: nat, cards: seq<C>, side: Side)
      modifies this
      ensures draws == old(draws) + Placements(page, cards, side)
    {
      ghost var before := draws;
      for i := 0 to |cards|
        invariant draws == before + Placements(page, cards[..i], side)
      {
        assert Placements(page, cards[..i + 1], side) == Placements(page, cards[..i], side)
          + [Draw(i % COLUMNS, i / COLUMNS, page * PER_SHEET, side, cards[i])];
        draws := draws + [Draw(i % COLUMNS, i / COLUMNS, page * PER_SHEET, side, cards[i])];
      }
      assert cards[..|cards|] == cards;
    }
  }

  /**
   * On a sheet of at most `ROWS * COLUMNS` cards every card gets a cell of
   * the grid, no two cards share a cell, and every card is told the same deck
   * index, that of the page's first card.
   */
  lemma PlacementsFitSheet<C>(page: nat, cards: seq<C>, side: Side)
    requires |cards| <= PER_SHEET
    ensures var r := Placements(page, cards, side);
      forall i :: 0 <= i < |r| ==> r[i].column < COLUMNS && r[i].row < ROWS && r[i].deckIndex == page * PER_SHEET
    ensures var r := Placements(page, cards, side);
      forall i, j :: 0 <= i < j < |r| ==> (r[i].column, r[i].row) != (r[j].column, r[j].row)
  {
    var r := Placements(page, cards, side);
    forall i, j | 0 <= i < j < |r|
      ensures (r[i].column, r[i].row) != (r[j].column, r[j].row)
    {
      assert i == r[i].row * COLUMNS + r[i].column;
      assert j == r[j].row * COLUMNS + r[j].column;
    }
  }
}
