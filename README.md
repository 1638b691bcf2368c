# carp: card markup, flattening and sheet export, modelled in Dafny

carp turns decks of playing cards written in a small XML dialect into
printable and Tabletop Simulator images. This project models the parts of it
that decide what ends up on those images.

- **Card markup.** The `Markup` tree of `crates/app/src/format.rs` covers:
  - how a card cleans itself up (trimming its outer edges and the edges of
    its bottom section, then dropping empty nodes);
  - its human-readable `Display`;
  - how `styled_segments` flattens a card into plain text plus style
    annotations over byte ranges;
  - the stable sort of those annotations by range.
- **Reading decks.** `crates/app/src/format/xml.rs` and `error.rs` cover the
  deck, theme and back attributes, the tag dispatch of card content, and the
  error kinds with their messages.
- **Geometry.** `crates/carp/src/dimensions.rs` covers aspect ratios, their
  parsing, and the pixel size of a sheet of 10 by 7 cards.
- **Pagination.** `crates/carp/src/tts.rs` and the older `src/util/deck.rs`
  cut a deck into sheets of 70, number the pages, name the images, and place
  each card on its sheet.
- **The application pipeline.** `crates/app/src/main.rs` picks the input
  files and orders the exported images. `karten/src/tts.rs` spawns a deck in
  Tabletop Simulator from the images.
- **Soft hyphens.** The builder in `crates/breakshy/src/lib.rs` decides
  whether a range attribute covers the whole text.
- **Library constants.** `carp/src/lib.rs` defines the sheet grid, the base
  ratio, and the `Side` and `Backside` enums.

Strings are sequences of Unicode scalar values, and UTF-8 byte lengths are
computed explicitly (`Text.ByteLen`), because the annotation ranges and
the `text_length` of the soft-hyphen builder count bytes.

Floating-point values are modelled as `real`. Float parsing, the renderer,
the drawing callbacks and the editor API are parameters of the model.

Module per source file:

| module | source file |
|---|---|
| `Markup` | `crates/app/src/format.rs`: the markup tree, its trimming and `Display` |
| `Flatten` | `crates/app/src/format.rs`: `styled_segments` |
| `Styles` | `crates/app/src/format.rs`: style annotations and their order |
| `Cards` | `crates/app/src/format.rs`: the card, `cleanup` and the entry points |
| `Xml` | `crates/app/src/format/xml.rs` |
| `Errors` | `crates/app/src/format/error.rs` |
| `Carp` | `carp/src/lib.rs` |
| `Geometry` | `crates/carp/src/dimensions.rs` |
| `Sheets` | `crates/carp/src/tts.rs` |
| `Naming` | `src/util/deck.rs` |
| `Pipeline` | `crates/app/src/main.rs` |
| `Spawn` | `karten/src/tts.rs` |
| `Breakshy` | `crates/breakshy/src/lib.rs` |
| `Text`, `Wrappers` | shared string functions and `Option`/`Result` |

Facts about the code that the model keeps:

- **`cleanup` is not idempotent.** A node that the removal of empty nodes
  exposes at an edge is not trimmed again (`crates/app/src/format.rs:31-42`).
  `Cards.CleanupNotIdempotent` proves this on two text nodes.
- **Owned and borrowed text.** Text nodes read from XML are owned strings
  (`crates/app/src/format/xml.rs:113-115`). Literals such as the newline of
  `br` are borrowed (`crates/app/src/format/xml.rs:120`). `trim_end` trims a
  borrowed string exactly, but on an owned one it pops a count of bytes
  (`crates/app/src/format.rs:107-113`). The `cow` field of `Markup.Plain`
  records which kind a text is, and `Cards.CleanedUp` applies the trim the
  code applies to it.
- **Deck index on a sheet.** `draw` and `draw_back` receive `page * 70` for
  every card of a sheet (`crates/carp/src/tts.rs:128`), not the card's own
  place in the deck. `Sheets.Canvas.DrawSheet` records exactly that.

## Model

| member | source | states |
|---|---|---|
| Carp.GridConstants | carp/src/lib.rs:8-11 | A sheet holds 70 cards. The base card ratio 5/7.2 is below 7/10, the ratio at which a 10 by 7 grid of cards is square. |
| Carp.SideNameInjective | carp/src/lib.rs:33-40 | The two sides display as different names ("front", "back"). |
| Markup.IsEmptyCases | crates/app/src/format.rs:74-85 | A text node is empty iff its text is. A blank is never empty. Every other node is empty iff it has no children. |
| Markup.TrimmedStart | crates/app/src/format.rs:87-100 | Only a text node changes, and it keeps its ownership. It becomes a suffix of its text, everything dropped is whitespace, and the result starts with a non-whitespace character or is empty. |
| Markup.TrimStartMarkup | crates/app/src/format.rs:87-100 | The method trimming the start of a node in place leaves `TrimmedStart` of the node. |
| Markup.TrimmedEnd | crates/app/src/format.rs:102-117 | The end trim as intended. Only a text node changes, and it keeps its ownership. It becomes a prefix of its text, everything dropped is whitespace, and the result ends in a non-whitespace character or is empty. |
| Markup.TrimmedEndAsWritten | crates/app/src/format.rs:102-117 | `trim_end` as written. Only a text node changes, and it keeps its ownership. A borrowed text is trimmed exactly as `TrimmedEnd` trims it. An owned text keeps a prefix of its trimmed text, so at least all trailing whitespace goes. |
| Markup.TrimmedEndAsWrittenAscii | crates/app/src/format.rs:102-117 | When the trailing whitespace is ASCII, `trim_end` as written agrees with the intended trim. |
| Markup.TrimmedEndAsWrittenWhitespace | crates/app/src/format.rs:102-117 | A text of whitespace only, owned or borrowed, is emptied by `trim_end` as written. |
| Markup.TrimmedEndAsWrittenKeeps | crates/app/src/format.rs:102-117 | A text without trailing whitespace, owned or borrowed, is kept by `trim_end` as written. |
| Markup.TrimEndMarkup | crates/app/src/format.rs:102-117 | `trim_end` in place, as written: the borrowed branch and the owned pop loop together leave `TrimmedEndAsWritten` of the node. |
| Markup.TrimEndMarkupIntended | crates/app/src/format.rs:107-113 | The pop loop with the trailing whitespace counted in characters leaves `TrimmedEnd` of the node. |
| Markup.PopByteCount | crates/app/src/format.rs:107-113 | The owned-string branch as written pops `len - trim_end().len()` characters, a count of bytes. What is left is a prefix of the text that is no longer than its trimmed form. |
| Markup.PopTrailingAsWritten | crates/app/src/format.rs:107-113 | The pop loop as written leaves `PopByteCount` of the text. |
| Markup.TrimEndBytes | crates/app/src/format.rs:110 | Trimming removes at least as many bytes as characters. So `initial - s.trim_end().len()` does not underflow, and the loop pops at least every trailing whitespace character. |
| Markup.PopByteCountAscii | crates/app/src/format.rs:107-113 | When the trailing whitespace is ASCII, the loop as written agrees with `TrimmedEnd`. |
| Markup.PopByteCountEatsText | crates/app/src/format.rs:107-113 | "Hello" followed by U+00A0 is trimmed to "Hell". The two-byte space costs two pops, and the second pop removes a letter. |
| Markup.ContentStringAppend | crates/app/src/format.rs:45-52 | Displaying a card is displaying its nodes one after another. |
| Markup.ThreeDisplay | crates/app/src/format.rs:120-165 | A list of three nodes displays as the concatenation of their displays. |
| Markup.TextThenBlankString | crates/app/src/format.rs:125-126 | Text followed by a blank displays as the text and `____`. |
| Styles.Compare | crates/app/src/format.rs:273-283 | Annotations compare by start, then by end. The result is Equal iff the ranges are equal, and Less iff the range is lexicographically smaller. |
| Styles.CompareAntisymmetric | crates/app/src/format.rs:273-283 | Swapping the arguments reverses the ordering. |
| Styles.CompareTransitive | crates/app/src/format.rs:273-283 | The ordering is transitive. |
| Styles.LeIsCompare | crates/app/src/format.rs:273-283 | `Le` is "not Greater" under `Ord`. |
| Styles.SortAnnotations | crates/app/src/format.rs:178 | The sorted list is ordered by range and has the input's length. |
| Styles.SortPermutes | crates/app/src/format.rs:178 | Sorting permutes the annotations: the multiset is unchanged. |
| Styles.SortStable | crates/app/src/format.rs:178 | Sorting is stable. The annotations over any one range keep their emission order. |
| Styles.SortSorted | crates/app/src/format.rs:178 | Sorting a sorted list changes nothing. |
| Styles.InsertSorted | crates/app/src/format.rs:178 | Inserting into a sorted list keeps it sorted. |
| Flatten.StyledSegments | crates/app/src/format.rs:199-241 | Appends the content's flattened text to `render` and the content's annotations, offset by the UTF-8 length of `render`, to `annotations`. |
| Flatten.StyledNode | crates/app/src/format.rs:204-240 | The per-node closure appends the node's flattened text to `render`, and the node's annotations, offset by the byte length of `render`, to `annotations`. |
| Flatten.SpannedSplit | crates/app/src/format.rs:210-236 | Italic, Tiny and Font emit their children's annotations first, then their own over the bytes their children filled. |
| Flatten.NodeAnnotsWithin | crates/app/src/format.rs:210-236 | Every annotation a node emits lies within the bytes that node adds. |
| Flatten.StyledSpan | crates/app/src/format.rs:211-213 | The recursive call is bracketed by `render.len()`. `start` is the old byte length and `end` is `start` plus the children's width. |
| Flatten.WidthIsByteLen | crates/app/src/format.rs:211-213 | The width a node adds to `render` is the UTF-8 length of its text. |
| Flatten.ContentTextAppend | crates/app/src/format.rs:204 | The flattened text of two lists concatenated is the concatenation of their texts. |
| Flatten.ContentAnnotsAppend | crates/app/src/format.rs:204 | The annotations of two lists concatenated are those of the first, then those of the second shifted by the first's width. |
| Flatten.AnnotationsInText | crates/app/src/format.rs:199-241 | Every emitted annotation has start ≤ end ≤ the byte length of the flattened text. |
| Flatten.EmptyAppendsNothing | crates/app/src/format.rs:74-85 | A node that `is_empty` adds no text and no width to `render`. |
| Flatten.UnstyledContentDisplayIsText | crates/app/src/format.rs:120-165 | For content of text, blanks and fonts only, the `Display` string equals the flattened text. |
| Cards.TrimFirst | crates/app/src/format.rs:32 | Only the first node changes, to its start-trimmed form. The length is kept. |
| Cards.TrimLast | crates/app/src/format.rs:33 | Only the last node changes, to its end-trimmed form: `trim_end` as written by default, or the intended trim. The length is kept. |
| Cards.TrimBottomEdges | crates/app/src/format.rs:34-39 | A bottom node gets the first and last of its children trimmed. Other nodes are kept. |
| Cards.TrimBottoms | crates/app/src/format.rs:34-39 | Every node is replaced by its bottom-trimmed form, in place. |
| Cards.RemoveEmpty | crates/app/src/format.rs:41 | No empty node is left, and the list is no longer than before. |
| Cards.RemoveEmptyMembers | crates/app/src/format.rs:41 | A node survives `retain` iff it was present and is not empty. |
| Cards.RemoveEmptyKeepsAll | crates/app/src/format.rs:41 | A list without empty nodes is kept unchanged. |
| Cards.CleanedUp | crates/app/src/format.rs:31-42 | After cleanup no node is empty, and the card is no longer than before. `CleanedUp(c)` is `cleanup` as written, and `CleanedUp(c, Intended)` uses the intended end trim. |
| Cards.CleanupNoBreakSpace | crates/app/src/format.rs:31-42 | Take any word of at least two characters without whitespace at its edges, followed by U+00A0. As an owned text node, `cleanup` as written also drops the word's last character. The intended end trim keeps the word. As a borrowed text, the word is kept. |
| Cards.SingleCleanedUp | crates/app/src/format.rs:31-42 | A card of one text node is trimmed at both ends, and it is kept iff that leaves some text. |
| Cards.CleanedUpMembers | crates/app/src/format.rs:31-42 | Exactly the non-empty nodes of the trimmed card survive. |
| Cards.CleanupKeepsText | crates/app/src/format.rs:31-42 | The flattened text after cleanup is the text with its outer edges trimmed. |
| Cards.CleanupNotIdempotent | crates/app/src/format.rs:31-42 | `[" ", " a"]` cleans to `[" a"]`, and a second cleanup gives `["a"]`. |
| Cards.TrimEdges | crates/app/src/format.rs:32-33 | Trims the first node's start, then the last node's end. |
| Cards.TrimBottomMarkup | crates/app/src/format.rs:35-38 | The closure applied to each node equals `TrimBottomEdges`. |
| Cards.Card.Cleanup | crates/app/src/format.rs:31-42 | Cleanup in place leaves `CleanedUp` of the old content. |
| Cards.Card.TrimBottomsInPlace | crates/app/src/format.rs:34-39 | The `iter_mut` pass leaves `TrimBottoms` of the old content. |
| Cards.Card.Display | crates/app/src/format.rs:45-52 | The loop that writes each node's display in turn yields `ContentString` of the content. So the display of a card is its nodes' displays concatenated in order (`Markup.ContentStringAppend`). |
| Cards.TopSegments | crates/app/src/format.rs:170-182 | The result is None iff the card is empty or starts with a bottom node. Otherwise the text is the whole card flattened, with bottom nodes contributing nothing, and the annotations are sorted. |
| Cards.BottomSegments | crates/app/src/format.rs:184-197 | The result is Some iff the last node is a bottom node. The text is that node's children flattened, and the annotations are sorted. |
| Cards.Card.AnnotatedTop | crates/app/src/format.rs:170-182 | Returns `TopSegments` of the card. |
| Cards.Card.AnnotatedBottom | crates/app/src/format.rs:184-197 | Returns `BottomSegments` of the card. |
| Cards.SegmentsPermute | crates/app/src/format.rs:177-178 | The returned annotations are a permutation of those `styled_segments` emitted. |
| Cards.StyledSegmentsExample | crates/app/src/format.rs:291-328 | The first test card flattens to "Hello____World! Italic inside Tiny ____Italic" with ranges 9..35 Italic, 14..35 Size(0.5), 15..35 Italic and 39..45 Italic. Its bottom flattens to "Bottom" with no annotations. |
| Cards.StyledSegments2Example | crates/app/src/format.rs:330-357 | The second test card's top is "Glück". Its bottom is "Auf der Steiger kommt" with 0..21 Size(0.5) and 8..21 Italic. |
| Cards.StyledCardSort | crates/app/src/format.rs:314-322 | Sorting the emitted order 15..35, 14..35, 9..35, 39..45 gives the order the test expects. |
| Errors.KindMessage | crates/app/src/format/error.rs:60-83 | Each kind's fixed message or message prefix. |
| Errors.FromKind | crates/app/src/format/error.rs:51-58 | Keeps the kind, and the error displays as the kind's message. |
| Errors.FromXml | crates/app/src/format/error.rs:33-49 | An unexpected close tag becomes `UnexpectedTag` with the same names, and any other parser error becomes `Parse`. The error displays as the parser's text. |
| Errors.MessageInitial | crates/app/src/format/error.rs:60-83 | Every message is non-empty and starts with a letter that depends only on the kind. |
| Errors.MessagesTellKindsApart | crates/app/src/format/error.rs:60-83 | Two kinds with the same message are the same variant. |
| Errors.ThemeAllowedDebug | crates/app/src/format/error.rs:80 | The allowed themes print as `["light", "dark"]`. |
| Xml.Lookup | crates/app/src/format/xml.rs:37 | An attribute is found iff some attribute has that name, and the first such value is returned. |
| Xml.ParseTheme | crates/app/src/format/xml.rs:40-51 | Light iff the attribute is absent or one of the three spellings of light. Dark iff one of the three spellings of dark. Anything else is `InvalidAttribueValue` naming deck, theme and the value. |
| Xml.ParseBack | crates/app/src/format/xml.rs:52-63 | Shared iff the attribute is absent or "shared". Unique iff "unique". Anything else is `InvalidAttribueValue`. |
| Xml.BackNameRoundTrip | crates/app/src/format/xml.rs:52-63 | Parsing the displayed name of a backside gives that backside back. |
| Xml.BackIsCaseSensitive | crates/app/src/format/xml.rs:42-56 | "Shared" is rejected as a back value, while "Light" is accepted as a theme. |
| Xml.FontSize | crates/app/src/format/xml.rs:150-152 | No size iff there is no attribute. Otherwise the trimmed value parsed, or 1.0 when it does not parse. |
| Xml.TagDispatch | crates/app/src/format/xml.rs:112-190 | Maps blank, br, italic/i, tiny, bottom and font to their nodes. Any other tag becomes `Unknown` with its attributes and converted children. |
| Xml.MarkupNeverFails | crates/app/src/format/xml.rs:112-190 | Converting a node to markup never fails. |
| Xml.ContentNeverFails | crates/app/src/format/xml.rs:121-128 | Converting any list of children never fails. |
| Xml.ToContent | crates/app/src/format/xml.rs:122-127 | A successful conversion has one node per child. |
| Xml.ToContentSnoc | crates/app/src/format/xml.rs:124-126 | Converting one more child appends its node. |
| Xml.ConvertChildren | crates/app/src/format/xml.rs:122-127 | The push loop returns `ToContent` of the children. |
| Xml.ConvertNode | crates/app/src/format/xml.rs:112-190 | The conversion with its push loops returns `ToMarkup` of the node. |
| Xml.CardContent | crates/app/src/format/xml.rs:85-106 | A node that is not `card` is `UnexpectedTag` naming card and the actual tag. A card's content has no empty node. |
| Xml.CardIsCleanedUp | crates/app/src/format/xml.rs:92-104 | A card element's content is its converted children, whose text nodes are owned, after `cleanup` as written. |
| Xml.CardFromNode | crates/app/src/format/xml.rs:85-106 | Fails iff `CardContent` fails, with the same error. Otherwise returns a fresh card holding `CardContent`. |
| Xml.CardNodes | crates/app/src/format/xml.rs:66-68 | Keeps only `card` children, in order. |
| Xml.CardNodesMembers | crates/app/src/format/xml.rs:66-68 | A child is kept iff it is tagged `card`. |
| Xml.CardsNeverFail | crates/app/src/format/xml.rs:64-77 | Converting card nodes never fails, and card i is `CardContent` of node i. |
| Xml.RequireName | crates/app/src/format/xml.rs:36-39 | A missing name is `MissingDeckName`. A present name is returned. |
| Xml.DeckReadsIff | crates/app/src/format/xml.rs:34-79 | A deck reads iff it has a name and valid theme and back values, and every error is a missing name or an invalid value. The checks run in order: without a name the error is `MissingDeckName`; else an invalid theme gives the theme's error; else an invalid back gives the back's error. |
| Xml.DeckCards | crates/app/src/format/xml.rs:64-77 | A deck that reads has one card per `card` child, each the cleaned-up conversion of that child. |
| Xml.ConvertCards | crates/app/src/format/xml.rs:64-77 | The card loop returns one fresh card per `card` child, holding its cleaned-up content. |
| Xml.DeckFromNode | crates/app/src/format/xml.rs:34-79 | Fails iff `DeckOf` fails, with the same error. Otherwise the name, theme, back and cards are those of `DeckOf`. |
| Xml.TrimmingExample | crates/app/src/format/xml.rs:244-252 | The `trimming` test card reads as `[Plain("Hallo!!!!!", Owned), Blank]` and displays as "Hallo!!!!!____". |
| Xml.BottomExample | crates/app/src/format/xml.rs:254-263 | The `bottom` test card keeps its bottom section and displays with the blank line before "ASDF". |
| Xml.SampleCardsDisplay | crates/app/src/format/xml.rs:232-242 | The three sample cards display as in the `display` test. |
| Geometry.New | crates/carp/src/dimensions.rs:11-13 | The ratio times the height is the width. |
| Geometry.Orientation | crates/carp/src/dimensions.rs:15-25 | Every ratio is exactly one of landscape and portrait, and a square ratio is portrait. |
| Geometry.WiderTallerDual | crates/carp/src/dimensions.rs:27-33 | a is wider than b iff b is taller than a. No ratio is wider or taller than itself. |
| Geometry.NewLandscapeIff | crates/carp/src/dimensions.rs:11-25 | With a positive height, the ratio is landscape iff width > height, and square iff they are equal. |
| Geometry.FromStr | crates/carp/src/dimensions.rs:36-62 | No `/` gives the trimmed number or the float error. One `/` gives width over height, or the width or height error. More gives the parts error. |
| Geometry.FromStrFraction | crates/carp/src/dimensions.rs:48-58 | "w/h" reads as `New(w, h)`. |
| Geometry.FromStrSingle | crates/carp/src/dimensions.rs:43-47 | A single number reads as itself. |
| Geometry.ToU32 | crates/carp/src/dimensions.rs:91 | The `as u32` cast truncates toward zero and saturates to 0..u32::MAX. |
| Geometry.WidthDriven | crates/carp/src/dimensions.rs:86-94 | The width is `max_side`. The height is the truncated height of 7 rows of cards a tenth of the width wide. `pix_scale` is the height over 4096. |
| Geometry.Square | crates/carp/src/dimensions.rs:95-101 | Both sides are `max_side`. `pix_scale` is `max_side` over 4096. |
| Geometry.HeightDriven | crates/carp/src/dimensions.rs:102-110 | The height is `max_side`. The width is the truncated width of 10 columns of cards a seventh of the height tall. `pix_scale` is the width over 4096. |
| Geometry.NewDimensions | crates/carp/src/dimensions.rs:78-118 | Wider than the base ratio takes the width-driven sheet, the base ratio the square sheet, and a narrower ratio the height-driven sheet. |
| Geometry.DrivenSides | crates/carp/src/dimensions.rs:86-110 | The side not driven is the exact size of 7 by 10 cards of the ratio, truncated: it is within one pixel below. |
| Geometry.CardKeepsRatio | crates/carp/src/dimensions.rs:93-94 | Off the square sheet, the logical card has the requested ratio. |
| Geometry.SquareCardRatio | crates/carp/src/dimensions.rs:95-101 | On the square sheet the card has ratio 0.7, not the base ratio. |
| Geometry.MaxSideExceeded | crates/carp/src/dimensions.rs:86-94 | Ratio 0.695 on a 4096 sheet takes the width-driven branch and gives height 4125 > 4096. |
| Geometry.TallerThanMaxSide | crates/carp/src/dimensions.rs:86-91 | For every ratio strictly between 5/7.2 and 0.7, the width-driven height exceeds `max_side`. |
| Geometry.NewDimensionsFitted | crates/carp/src/dimensions.rs:78-118 | The corrected sheet has both sides ≤ `max_side`, and one side equal to it. |
| Sheets.Chunks | crates/carp/src/tts.rs:65-66 | Pieces are non-empty, at most 70 long, and all but the last are exactly 70. |
| Sheets.ChunksConcat | crates/carp/src/tts.rs:65-66 | The pieces concatenated are the cards. |
| Sheets.ChunkCount | crates/carp/src/tts.rs:65-96 | There are as many chunks as the page total the amount computes. |
| Sheets.SheetCountIsCeiling | crates/carp/src/tts.rs:94-96 | The page count is the least number of sheets of 70 holding all cards. |
| Sheets.PageAmount | crates/carp/src/tts.rs:84-100 | The amount is Single iff the deck fits on one sheet. Otherwise page `p` is numbered `p + 1` of `SheetCount` pages, so different pages get different numbers. |
| Sheets.AmountNumbersPages | crates/carp/src/tts.rs:88-99 | Pages of a multi-sheet deck are numbered 1..total, with total the page count. |
| Sheets.SheetArtifact | crates/carp/src/tts.rs:73-101 | A sheet's artifact has the deck name, the side, the backside, a 7 by 10 grid of `chunk.len()` cards and the page amount. |
| Sheets.RenderSheet | crates/carp/src/tts.rs:55-104 | There is one result per chunk of 70, in page order. Result p renders chunk p. |
| Sheets.SharedBack | crates/carp/src/tts.rs:27-47 | Succeeds iff the renderer succeeds in drawing the first card's back at deck index 0. The artifact is then that image, a single card of the back side, with amount Single. |
| Sheets.Build | crates/carp/src/tts.rs:16-53 | There is one result per front page, plus one shared back or one back per page. |
| Sheets.BuildSplits | crates/carp/src/tts.rs:16-53 | The first results are the front sheets. The rest is the shared back or the back sheets. |
| Sheets.BuildUnique | crates/carp/src/tts.rs:16-53 | With unique backs, the results are the front sheets followed by the back sheets, with as many of each as the deck has sheets. |
| Sheets.BuildOrder | crates/carp/src/tts.rs:16-53 | Every artifact carries the deck's name and backside. It is a front iff it is among the first page-count results. |
| Sheets.SheetSides | crates/carp/src/tts.rs:73-77 | Every artifact of a side's sheets carries that side. |
| Sheets.UniqueBacksPaged | crates/carp/src/tts.rs:49 | With unique backs, back p after the fronts is page p of the back side, made from the same chunk as front p. |
| Sheets.SheetTotals | crates/carp/src/tts.rs:79-83 | Every sheet is a 7 by 10 grid holding 1 to 70 cards, and every sheet but the last holds 70. |
| Sheets.Canvas.DrawSheet | crates/carp/src/tts.rs:106-138 | Records one draw per card, in order. The grid cell is index % 10 and index / 10, the face is the side, and the deck index is page*70. |
| Sheets.PlacementsFitSheet | crates/carp/src/tts.rs:120-133 | A sheet of at most 70 cards places them in distinct cells inside the 10 by 7 grid. |
| Naming.FrontNames | src/util/deck.rs:43-47 | One front name per page. |
| Naming.BackNames | src/util/deck.rs:52-84 | One back name for a shared backside card, otherwise one per page. |
| Naming.NameImage | src/util/deck.rs:42-49 | The named image is Ok iff the renderer succeeded, and then carries the given name and the rendered image. An error is the renderer's own error. |
| Naming.Render | src/util/deck.rs:27-90 | There is one result per name, and every successful result carries its name. |
| Naming.SheetImages | src/util/deck.rs:33-50 | Page p's result is the renderer on chunk p under name p. |
| Naming.RenderPages | src/util/deck.rs:27-90 | Result p is chunk p's front sheet, named with front name p. The backs follow. A shared backside is the backside card's image, named `-back-single`. Otherwise result n + p is chunk p's back sheet, named with back name p. |
| Naming.SingleSheetNames | src/util/deck.rs:31-80 | A one-sheet deck is named `name` and `name-back` or `name-back-single`. |
| Naming.MultiSheetNames | src/util/deck.rs:43-80 | Multi-sheet pages are `name-p` and `name-back-p`. |
| Naming.NamesDistinct | src/util/deck.rs:43-89 | No two images of one render share a name. |
| Naming.TailsDistinct | src/util/deck.rs:43-89 | What the names add to the deck name is pairwise different. |
| Naming.SheetCanvas.RenderSheet | src/util/deck.rs:92-116 | Every card is drawn in order, front or back, in the cell of its own index. |
| Naming.PlacementByIndex | src/util/deck.rs:102-105 | The cell is index % 10 and index / 10. Cards with different indices below 70 get different cells. |
| Pipeline.LastDot | crates/app/src/main.rs:115 | Finds the position of the last `.`, if any. |
| Pipeline.ExtensionIs | crates/app/src/main.rs:115 | The extension is `ext` iff the file name ends in `.ext` after a non-empty stem. |
| Pipeline.InputPaths | crates/app/src/main.rs:109-121 | Every path picked is a regular file with extension xml or deck. |
| Pipeline.InputPathsComplete | crates/app/src/main.rs:109-121 | Every such file is picked. |
| Pipeline.CompareIsRank | crates/app/src/main.rs:135-142 | The comparator orders by rank: Single first, then pages by index. |
| Pipeline.SortImages | crates/app/src/main.rs:135-142 | In place, the images end up ordered by the comparator, as a permutation of the input. |
| Pipeline.SortedGroupsPages | crates/app/src/main.rs:134-142 | After sorting, single images come first and pages follow in non-decreasing page number. |
| Pipeline.BuildFrontsThenBacks | crates/app/src/main.rs:127-132 | For a deck of more than one sheet with unique backs, the exported images are front pages 1..n, then back pages 1..n, each carrying `Multiple(page, n)`. |
| Pipeline.SortedPagePair | crates/app/src/main.rs:134-142 | Sorting the fronts then backs of n pages puts page p + 1 at positions 2p and 2p + 1, one front and one back. |
| Pipeline.SortedPairsFrontsAndBacks | crates/app/src/main.rs:127-142 | After `SortImages` (or any comparator-sorted permutation) of the exported images of a unique-back deck of more than 70 cards, a page's front and back are adjacent: positions 2p and 2p + 1 both carry page p + 1, one Front and one Back. |
| Pipeline.BelowPermutes | crates/app/src/main.rs:134-142 | Two arrangements of the same images have the same images of rank below v. |
| Pipeline.SortedBelowPrefix | crates/app/src/main.rs:134-142 | In comparator order, the images of rank below v form a prefix. |
| Spawn.ReplaceBackslashes | karten/src/tts.rs:48-52 | No backslash is left, and each backslash became two characters. |
| Spawn.ReplaceBackslashesAppend | karten/src/tts.rs:48 | Replacement distributes over concatenation. |
| Spawn.ReplaceBackslashesKeeps | karten/src/tts.rs:48 | A path without backslashes is unchanged. |
| Spawn.Url | karten/src/tts.rs:48-55 | The backslash-replaced path is kept as the result's tail. The result is that path exactly when it starts with `http`, and `file://` followed by it otherwise. No backslash is left. |
| Spawn.WindowsPathUrl | karten/src/tts.rs:48-51 | `a\b` becomes `file://a//b`. |
| Spawn.SpawnScript | karten/src/tts.rs:57-98 | A sheet spawns a `DeckCustom` with its columns, rows and total. A single card spawns a `CardCustom`. Both carry the URLs and flags. |
| Spawn.OfSide | karten/src/tts.rs:18-25 | Keeps only the artifacts of one side. |
| Spawn.OfSideComplete | karten/src/tts.rs:18-25 | Every artifact of the side is kept. |
| Spawn.OfSideAppend | karten/src/tts.rs:18-25 | The filter works piece by piece, so the kept artifacts stay in deck order. |
| Spawn.DeckScripts | karten/src/tts.rs:18-35 | There is one script per front when some back exists, and none otherwise. |
| Spawn.DeckScriptPairs | karten/src/tts.rs:18-35 | Front i is paired with back i mod the number of backs (the cycle). The script is a deck iff the front is a sheet, and it is sideways iff the front's ratio is landscape. |
| Spawn.EmptyDeckSpawnsNothing | karten/src/tts.rs:14-16 | An empty deck sends nothing. |
| Spawn.EditorApi.Execute | karten/src/tts.rs:28 | Records the script and returns the editor's reply. |
| Spawn.SendAll | karten/src/tts.rs:23-37 | Sends the scripts up to and including the first that fails, and returns that script's error. If none fails, it sends all of them and returns Ok. |
| Spawn.SpawnDeck | karten/src/tts.rs:9-38 | Sends `DeckScripts` in order and stops at the first error. |
| Breakshy.CoversTextAsWrittenMisjudges | crates/breakshy/src/lib.rs:146-157 | The test as written rejects `0..=len-1` and `0..=len`, and accepts `0..=0` through the wrap-around. |
| Breakshy.CoversTextIffContainsAll | crates/breakshy/src/lib.rs:146-159 | On a non-empty text, the corrected test holds iff the range contains every byte. |
| Breakshy.CoversTextAgreesOffInclusive | crates/breakshy/src/lib.rs:152-157 | For exclusive and open ends, the corrected test and the test as written agree. |
| Breakshy.Builder.DefaultAttribute | crates/breakshy/src/lib.rs:130-139 | Remembers the attribute in call order and forwards it. |
| Breakshy.Builder.RangeAttribute | crates/breakshy/src/lib.rs:141-167 | As written: a range that passes the test `b - 1 >= text_length` (`CoversTextAsWritten`) becomes a default attribute. Any other range is forwarded and not remembered. |
| Breakshy.Builder.RangeAttributeIntended | crates/breakshy/src/lib.rs:141-167 | With the corrected test, a range becomes a default attribute iff it covers the whole text (`CoversTextIffContainsAll`). Any other range is forwarded and not remembered. |
| Breakshy.NewTextLayout | crates/breakshy/src/lib.rs:19-32 | One `-` dash slot per piece between soft hyphens, and the text length in UTF-8 bytes. |
| Breakshy.ShyTakesTwoBytes | crates/breakshy/src/lib.rs:23-29 | A soft hyphen takes two bytes. |
| Text.SplitJoin | crates/carp/src/dimensions.rs:40 | Splitting pieces that were joined by a separator they do not contain gives the pieces back. |
| Text.DecimalRoundTrip | src/util/deck.rs:46 | The decimal rendering of a page number parses back to it. |
| Text.DecimalInjective | src/util/deck.rs:46 | Different page numbers render differently. |

## Left out

- The XML parser (roxmltree): the model starts from an already parsed node tree. `Xml.Node` stands for roxmltree's node. Only unexpected close tags are told apart among parser errors.
- Rendering, drawing and text layout (piet): the renderer is a parameter, and the drawing callbacks are reduced to recording which card is drawn where. The clip and transform are left out, and so is the `RoundedRect` border.
- `BreakingTextLayoutBuilder::build` (crates/breakshy/src/lib.rs:169-214) and `draw_breaking_text`: they depend on line metrics and hit-testing of the layout engine, which is not part of this model.
- I/O, the command line, `dotenv`, logging, the PNG and S3 exporters, the device pool and the threads of `main.rs`: not part of this model. `Pipeline.InputPaths` takes the directory listing as a value.
- The Tabletop Simulator editor API: `Spawn.EditorApi` records the scripts and returns a reply given as a parameter. The Lua script text and the `f32` position formatting are replaced by the record `Spawn.Script` of the fields the script sets.
- Geometry.New: requires a non-zero height. `AspectRatio::new` (crates/carp/src/dimensions.rs:11-13) accepts a zero height and yields an infinite or NaN `f64`, which `real` cannot represent.
- Geometry.FromStr: a zero height is excluded by `FiniteRatio`. With a zero height the source produces an infinite or NaN `f64`, which `real` cannot represent.
- Geometry.ToU32: rounding to the nearest `f64` before the cast is not modelled. Arithmetic is exact on `real`.
- `AspectRatio`'s `Display` (`{:.2}` formatting) is not modelled.
- Sheets.PageAmount: the `u16` and `u32` casts of `page + 1` and the page total are not modelled. They wrap only for decks of more than 65535 sheets.
- Sheets.Canvas.DrawSheet: `page * 70` is not reduced modulo 2^32.
- Sheets.Build: an empty deck with a shared back makes the source panic, because it unwraps the missing first card (crates/carp/src/tts.rs:31-33). `main.rs` reaches this for an empty deck with the default back (crates/app/src/main.rs:126-128). The model requires a first card instead of modelling the panic.
- Sheets.SharedBack: requires a first card, for the same panic as `Sheets.Build`.
- Breakshy.Builder.RangeAttribute: an inclusive end of 0 uses the release-build wrap of `0 - 1`. A debug build panics on that overflow instead.
- Styles.SortAnnotations: `Vec::sort` is modelled by a particular stable insertion sort. Any stable sort gives the same list, but the proof covers this one only.
- Pipeline.SortedPairsFrontsAndBacks: the exporters are not modelled. The lemma assumes each exported image keeps its artifact's side and amount, as `FileExporter` does (crates/carp/src/export.rs:38-41). Decks with a shared back are not covered, because their single back sorts first instead of next to a front.
- Pipeline.SortImages: `sort_unstable_by` is modelled by an in-place insertion sort, which fixes the order of images of equal rank. The unstable sort may order them differently.
- `Style::Size` and the font size are opaque `real` values. Only their position in the annotation list is modelled.
- The older copies of the same code (`carp/src/tts.rs`, `carp/src/dimensions.rs`, `karten/src/format.rs` and others) are not modelled.

## Findings

| source | as written | input that shows it | evidently intended | confidence | as-written member | corrected member |
|---|---|---|---|---|---|---|
| crates/app/src/format.rs:107-113 | `trim_end` on an owned string pops `len - trim_end().len()` characters, a count of bytes | "Hello\u{00A0}" (text nodes from XML are owned) becomes "Hell" | pop only the trailing whitespace characters | medium, not executed | Cards.CleanupNoBreakSpace | Markup.TrimEndMarkupIntended |
| crates/breakshy/src/lib.rs:153 | an inclusive end `b` covers the text when `b - 1 >= text_length` | `0..=len-1` covers the text but is forwarded. `0..=0` is taken for the whole text because `0 - 1` wraps (a panic in debug builds). | `b + 1 >= text_length` | medium, not executed | Breakshy.CoversTextAsWrittenMisjudges | Breakshy.Builder.RangeAttributeIntended |
| crates/carp/src/dimensions.rs:86-91 | the width-driven branch is taken for any ratio above 5/7.2 | ratio 0.695 with `max_side` 4096 gives a sheet 4125 pixels tall | switch branches at 7/10, where the 10 by 7 sheet is square, so no side exceeds `max_side` | medium, not executed | Geometry.MaxSideExceeded | Geometry.NewDimensionsFitted |
