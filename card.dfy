/**
 * A card and a deck of `crates/app/src/format.rs`: the in-place `cleanup`,
 * the card's `Display`, and the two flattening entry points `annotated_top`
 * and `annotated_bottom`.
 */
module Cards {
  import opened Wrappers
  import opened Text
  import opened Markup
  import opened Styles
  import opened Flatten
  import Carp

  datatype Theme = Light | Dark

  /** `#[default]` of `Theme`. */
  const DEFAULT_THEME: Theme := Light

  /** Trims the start of the first node, if there is one (`first_mut().map(trim_start)`). */
  function TrimFirst(content: seq<Markup>): (r: seq<Markup>)
    ensures |r| == |content|
    ensures content != [] ==> r[0] == TrimmedStart(content[0]) && r[1..] == content[1..]
  {
    if content == [] then [] else content[0 := TrimmedStart(content[0])]
  }

  /**
   * Which end trim a cleanup applies: `trim_end` as written
   * (`TrimmedEndAsWritten`, what `Card::cleanup` does), or the
   * character-count trim it intends (`TrimmedEnd`).
   */
  datatype EndTrim = AsWritten | Intended

  function TrimmedEndBy(m: Markup, how: EndTrim): Markup {
    if how == AsWritten then TrimmedEndAsWritten(m) else TrimmedEnd(m)
  }

  /** Trims the end of the last node, if there is one (`last_mut().map(trim_end)`). */
  function TrimLast(content: seq<Markup>, how: EndTrim := AsWritten): (r: seq<Markup>)
    ensures |r| == |content|
    ensures content != [] ==> r[|r| - 1] == TrimmedEndBy(content[|content| - 1], how) && r[..|r| - 1] == content[..|content| - 1]
  {
    if content == [] then [] else content[|content| - 1 := TrimmedEndBy(content[|content| - 1], how)]
  }

  /** A bottom node gets both edges of its own children trimmed; other nodes are kept. */
  function TrimBottomEdges(m: Markup, how: EndTrim := AsWritten): (r: Markup)
    ensures !m.Bottom? ==> r == m
    ensures m.Bottom? ==> r.Bottom? && r.content == TrimLast(TrimFirst(m.content), how)
  {
    if m.Bottom? then Bottom(TrimLast(TrimFirst(m.content), how)) else m
  }

  /** `retain(|markup| !markup.is_empty())`: drops empty nodes and keeps the order of the rest. */
  function RemoveEmpty(content: seq<Markup>): (r: seq<Markup>)
    ensures |r| <= |content|
    ensures forall i :: 0 <= i < |r| ==> !IsEmpty(r[i])
  {
    if content == [] then []
    else
      var last := content[|content| - 1];
      var kept := RemoveEmpty(content[..|content| - 1]);
      if IsEmpty(last) then kept else kept + [last]
  }

  /** `retain` keeps exactly the non-empty nodes. */
  lemma {:induction false} RemoveEmptyMembers(content: seq<Markup>)
    ensures forall m :: m in RemoveEmpty(content) <==> m in content && !IsEmpty(m)
  {
    if content != [] {
      var init := content[..|content| - 1];
      RemoveEmptyMembers(init);
      assert content == init + [content[|content| - 1]];
    }
  }

  /** Trims the first and the last node of a content list, in that order. */
  method TrimEdges(content: seq<Markup>) returns (r: seq<Markup>)
    ensures r == TrimLast(TrimFirst(content))
  {
    r := content;
    if |r| > 0 {
      var first := TrimStartMarkup(r[0]);
      r := r[0 := first];
    }
    if |r| > 0 {
      var last := TrimEndMarkup(r[|r| - 1]);
      r := r[|r| - 1 := last];
    }
  }

  /** The closure `cleanup` applies to every top-level node. */
  method TrimBottomMarkup(m: Markup) returns (r: Markup)
    ensures r == TrimBottomEdges(m)
  {
    r := m;
    if m.Bottom? {
      var children := TrimEdges(m.content);
      r := Bottom(children);
    }
  }

  /** Every node with its bottom edges trimmed (the `for_each` of `cleanup`). */
  function TrimBottoms(content: seq<Markup>, how: EndTrim := AsWritten): (r: seq<Markup>)
    ensures |r| == |content|
    ensures forall i :: 0 <= i < |r| ==> r[i] == TrimBottomEdges(content[i], how)
  {
    seq(|content|, i requires 0 <= i < |content| => TrimBottomEdges(content[i], how))
  }

  /**
   * The content `cleanup` leaves: the outer edges and the edges inside every
   * bottom node trimmed, then every empty node dropped. `CleanedUp(content)`
   * is `cleanup` as written; `CleanedUp(content, Intended)` the cleanup with
   * the corrected end trim.
   */
  function CleanedUp(content: seq<Markup>, how: EndTrim := AsWritten): (r: seq<Markup>)
    ensures |r| <= |content|
    ensures forall i :: 0 <= i < |r| ==> !IsEmpty(r[i])
  {
    RemoveEmpty(TrimBottoms(TrimLast(TrimFirst(content), how), how))
  }

  /** Exactly the non-empty trimmed nodes survive `cleanup`. */
  lemma CleanedUpMembers(content: seq<Markup>, how: EndTrim)
    ensures forall m :: m in CleanedUp(content, how) <==> m in TrimBottoms(TrimLast(TrimFirst(content), how), how) && !IsEmpty(m)
  {
    RemoveEmptyMembers(TrimBottoms(TrimLast(TrimFirst(content), how), how));
  }

  /**
   * The two readings of `cleanup` part on an owned text ending in a no-break
   * space (two bytes in UTF-8): as written the trim pops two characters and
   * so also eats the last letter, as intended it stops at the letter. A
   * borrowed text is trimmed exactly.
   */
  lemma CleanupNoBreakSpace(word: string)
    requires |word| >= 2 && !IsWhitespace(word[0]) && !IsWhitespace(word[|word| - 1])
    ensures CleanedUp([Plain(word + "\U{00A0}", Owned)]) == [Plain(word[..|word| - 1], Owned)]
    ensures CleanedUp([Plain(word + "\U{00A0}", Owned)], Intended) == [Plain(word, Owned)]
    ensures CleanedUp([Plain(word + "\U{00A0}")]) == [Plain(word)]
  {
    var s := word + "\U{00A0}";
    TrimStartKeeps(s);
    assert TrimEnd(s) == word by {
      assert s[..|s| - 1] == word;
      TrimEndKeeps(word);
    }
    assert PopByteCount(s) == word[..|word| - 1] by {
      ByteLenAppend(word, "\U{00A0}");
      assert ByteLen("\U{00A0}") == 2;
    }
    assert TrimmedStart(Plain(s, Owned)) == Plain(s, Owned) && TrimmedStart(Plain(s)) == Plain(s);
    assert CleanedUp([Plain(s, Owned)]) == [Plain(word[..|word| - 1], Owned)] by {
      SingleCleanedUp(Plain(s, Owned), AsWritten);
    }
    assert CleanedUp([Plain(s, Owned)], Intended) == [Plain(word, Owned)] by {
      SingleCleanedUp(Plain(s, Owned), Intended);
    }
    assert CleanedUp([Plain(s)]) == [Plain(word)] by {
      SingleCleanedUp(Plain(s), AsWritten);
    }
  }

  /** A card of one text node: `cleanup` trims it at both ends and keeps it unless that empties it. */
  lemma SingleCleanedUp(m: Markup, how: EndTrim)
    requires m.Plain?
    ensures CleanedUp([m], how) == if IsEmpty(TrimmedEndBy(TrimmedStart(m), how)) then [] else [TrimmedEndBy(TrimmedStart(m), how)]
  {
    var t := TrimmedEndBy(TrimmedStart(m), how);
    assert TrimLast(TrimFirst([m]), how) == [t];
    assert TrimBottoms([t], how) == [t];
    assert [t][..0] == [];
  }

  /** One card: the list of top-level markup nodes, edited in place by `Cleanup`. */
  class Card {
    var content: seq<Markup>

    constructor(content: seq<Markup>)
      ensures this.content == content
    {
      this.content := content;
    }

    /** `Card::cleanup`. */
    method Cleanup()
      modifies this
      ensures content == CleanedUp(old(content))
    {
      content := TrimEdges(content);
      TrimBottomsInPlace();
      content := RemoveEmpty(content);
    }

    /** The `iter_mut` pass of `cleanup`: trims the edges of every bottom section, in place. */
    method TrimBottomsInPlace()
      modifies this
      ensures content == TrimBottoms(old(content))
    {
      ghost var edges := content;
      for i := 0 to |content|
        invariant |content| == |edges|
        invariant forall j :: 0 <= j < i ==> content[j] == TrimBottomEdges(edges[j])
        invariant forall j :: i <= j < |content| ==> content[j] == edges[j]
      {
        var trimmed := TrimBottomMarkup(content[i]);
        content := content[i := trimmed];
      }
    }

    /** `impl Display for Card`: writes every node's display, in order. */
    method Display() returns (s: string)
      ensures s == ContentString(content)
    {
      s := "";
      for i := 0 to |content|
        invariant s == ContentString(content[..i])
      {
        assert content[..i + 1] == content[..i] + [content[i]];
        ContentStringAppend(content[..i], [content[i]]);
        assert [content[i]][1..] == [];
        s := s + MarkupString(content[i]);
      }
      assert content[..|content|] == content;
    }

    /** `Card::annotated_top`. */
    method AnnotatedTop() returns (r: Option<(string, seq<StyleAnnotation>)>)
      ensures r == TopSegments(content)
    {
      if content == [] || content[0].Bottom? {
        return None;
      }
      var render, annotations := StyledSegments(content, "", []);
      assert ByteLen("") == 0 && "" + ContentText(content) == ContentText(content);
      assert [] + ContentAnnots(content, 0) == ContentAnnots(content, 0);
      annotations := SortAnnotations(annotations);
      return Some((render, annotations));
    }

    /** `Card::annotated_bottom`. */
    method AnnotatedBottom() returns (r: Option<(string, seq<StyleAnnotation>)>)
      ensures r == BottomSegments(content)
    {
      if content != [] && content[|content| - 1].Bottom? {
        var children := content[|content| - 1].content;
        var render, annotations := StyledSegments(children, "", []);
        assert ByteLen("") == 0 && "" + ContentText(children) == ContentText(children);
        assert [] + ContentAnnots(children, 0) == ContentAnnots(children, 0);
        annotations := SortAnnotations(annotations);
        return Some((render, annotations));
      }
      return None;
    }
  }

  /** What `annotated_top` returns for `content`. */
  function TopSegments(content: seq<Markup>): (r: Option<(string, seq<StyleAnnotation>)>)
    ensures r.None? <==> content == [] || content[0].Bottom?
    ensures r.Some? ==> r.value.0 == ContentText(content)
    ensures r.Some? ==> Sorted(r.value.1)
  {
    if content == [] || content[0].Bottom? then None
    else Some((ContentText(content), SortAnnotations(ContentAnnots(content, 0))))
  }

  /** What `annotated_bottom` returns for `content`: only a last bottom node's children. */
  function BottomSegments(content: seq<Markup>): (r: Option<(string, seq<StyleAnnotation>)>)
    ensures r.Some? <==> content != [] && content[|content| - 1].Bottom?
    ensures r.Some? ==> r.value.0 == ContentText(content[|content| - 1].content)
    ensures r.Some? ==> Sorted(r.value.1)
  {
    if content != [] && content[|content| - 1].Bottom? then
      var children := content[|content| - 1].content;
      Some((ContentText(children), SortAnnotations(ContentAnnots(children, 0))))
    else None
  }

  /** Dropping empty nodes does not change the flattened text. */
  lemma {:induction false} RemoveEmptyKeepsText(content: seq<Markup>)
    ensures ContentText(RemoveEmpty(content)) == ContentText(content)
  {
    if content != [] {
      var init := content[..|content| - 1];
      var last := content[|content| - 1];
      RemoveEmptyKeepsText(init);
      assert content == init + [last];
      ContentTextAppend(init, [last]);
      assert ContentText([last]) == NodeText(last) + ContentText([]);
      if IsEmpty(last) {
        EmptyAppendsNothing(last);
      } else {
        ContentTextAppend(RemoveEmpty(init), [last]);
      }
    }
  }

  /** Trimming inside bottom nodes does not change the flattened text, which skips them. */
  lemma {:induction false} TrimBottomsKeepsText(content: seq<Markup>, how: EndTrim)
    ensures ContentText(TrimBottoms(content, how)) == ContentText(content)
  {
    if content != [] {
      TrimBottomsKeepsText(content[1..], how);
      assert TrimBottoms(content, how)[1..] == TrimBottoms(content[1..], how);
    }
  }

  /**
   * The flattened text after `cleanup` is the text with only the outer edges
   * trimmed: the bottom trims and the removal of empty nodes leave it alone.
   */
  lemma CleanupKeepsText(content: seq<Markup>, how: EndTrim)
    ensures ContentText(CleanedUp(content, how)) == ContentText(TrimLast(TrimFirst(content), how))
  {
    var edges := TrimLast(TrimFirst(content), how);
    RemoveEmptyKeepsText(TrimBottoms(edges, how));
    TrimBottomsKeepsText(edges, how);
  }

  /**
   * `cleanup` is not idempotent: a node the removal exposes at an edge is not
   * trimmed again, so a second pass still changes the card.
   */
  lemma CleanupNotIdempotent()
    ensures CleanedUp([Plain(" "), Plain(" a")]) == [Plain(" a")]
    ensures CleanedUp([Plain(" a")]) == [Plain("a")]
  {
    CleanupFirstPass();
    CleanupSecondPass();
  }

  /** The first pass empties the leading blank node and drops it, leaving the space of the next one. */
  lemma CleanupFirstPass()
    ensures CleanedUp([Plain(" "), Plain(" a")]) == [Plain(" a")]
  {
    var spaced := Plain(" a");
    TrimSpaceLiterals();
    var edges := TrimLast(TrimFirst([Plain(" "), spaced]));
    assert edges == [Plain(""), spaced];
    assert TrimBottoms(edges) == edges;
    assert edges[..1] == [Plain("")] && [Plain("")][..0] == [];
    assert RemoveEmpty(edges) == RemoveEmpty([Plain("")]) + [spaced];
  }

  /** The second pass trims the space the first one left. */
  lemma CleanupSecondPass()
    ensures CleanedUp([Plain(" a")]) == [Plain("a")]
  {
    var bare := Plain("a");
    TrimSpaceLiterals();
    var edges := TrimLast(TrimFirst([Plain(" a")]));
    assert edges == [bare];
    assert TrimBottoms(edges) == edges;
    assert [bare][..0] == [];
    assert RemoveEmpty(edges) == RemoveEmpty([]) + [bare];
  }

  lemma TrimSpaceLiterals()
    ensures TrimmedStart(Plain(" ")) == Plain("")
    ensures TrimmedStart(Plain(" a")) == Plain("a")
    ensures TrimmedEndAsWritten(Plain(" a")) == Plain(" a")
    ensures TrimmedEndAsWritten(Plain("a")) == Plain("a")
  {
    assert " "[1..] == "" && " a"[1..] == "a";
  }

  /** An ASCII string is one byte per character. */
  lemma AsciiByteLen(s: string)
    requires forall i :: 0 <= i < |s| ==> s[i] as int < 0x80
    ensures ByteLen(s) == |s|
  {
    TrailingAsciiBytes(s, 0);
    assert s[0..] == s;
  }

  /** The shape of the card of the `styled_segments` unit test, over its texts. */
  function StyledCard(hello: string, world: string, bang: string, spaced: string, word: string, bottom: string): seq<Markup> {
    [Plain(hello), Blank]
    + ([Markup.Italic([Plain(world), Tiny([Plain(bang), Markup.Italic([Plain(spaced)])])]), Blank]
    + [Markup.Italic([Plain(word)]), Bottom([Plain(bottom)])])
  }

  /**
   * The expected output of the `styled_segments` unit test: the nested spans
   * are emitted innermost first and come back ordered by start.
   */
  lemma StyledSegmentsExample()
    ensures TopSegments(StyledCard("Hello", "World", "!", " Italic inside Tiny ", "Italic", "Bottom")) == Some(("Hello____World! Italic inside Tiny ____Italic", [
      StyleAnnotation(9, 35, Styles.Italic), StyleAnnotation(14, 35, Size(0.5)),
      StyleAnnotation(15, 35, Styles.Italic), StyleAnnotation(39, 45, Styles.Italic)]))
    ensures BottomSegments(StyledCard("Hello", "World", "!", " Italic inside Tiny ", "Italic", "Bottom")) == Some(("Bottom", []))
  {
    var card := StyledCard("Hello", "World", "!", " Italic inside Tiny ", "Italic", "Bottom");
    StyledTopText();
    StyledTopAnnots();
    TopIs(card, "Hello____World! Italic inside Tiny ____Italic", [
      StyleAnnotation(9, 35, Styles.Italic), StyleAnnotation(14, 35, Size(0.5)),
      StyleAnnotation(15, 35, Styles.Italic), StyleAnnotation(39, 45, Styles.Italic)]);
    StyledBottom();
    BottomIs(card, [Plain("Bottom")], "Bottom", []);
  }

  /** `TopSegments` of a card that does not start with a bottom node, from its text and sorted annotations. */
  lemma TopIs(content: seq<Markup>, text: string, annotations: seq<StyleAnnotation>)
    requires content != [] && !content[0].Bottom?
    requires ContentText(content) == text && SortAnnotations(ContentAnnots(content, 0)) == annotations
    ensures TopSegments(content) == Some((text, annotations))
  {
  }

  /** `BottomSegments` of a card that ends with a bottom node, from that node's text and sorted annotations. */
  lemma BottomIs(content: seq<Markup>, children: seq<Markup>, text: string, annotations: seq<StyleAnnotation>)
    requires content != [] && content[|content| - 1] == Bottom(children)
    requires ContentText(children) == text && SortAnnotations(ContentAnnots(children, 0)) == annotations
    ensures BottomSegments(content) == Some((text, annotations))
  {
  }

  lemma StyledTopText()
    ensures ContentText(StyledCard("Hello", "World", "!", " Italic inside Tiny ", "Italic", "Bottom")) == "Hello____World! Italic inside Tiny ____Italic"
  {
    StyledCardText("Hello", "World", "!", " Italic inside Tiny ", "Italic", "Bottom");
    StyledTextLiteral();
  }

  lemma StyledTextLiteral()
    ensures "Hello" + "____" + "World" + "!" + " Italic inside Tiny " + "____" + "Italic"
         == "Hello____World! Italic inside Tiny ____Italic"
  {
    assert "Hello" + "____" == "Hello____";
    assert "Hello____" + "World" == "Hello____World";
    assert "Hello____World" + "!" == "Hello____World!";
    assert "Hello____World!" + " Italic inside Tiny " == "Hello____World! Italic inside Tiny ";
    assert "Hello____World! Italic inside Tiny " + "____" == "Hello____World! Italic inside Tiny ____";
  }

  lemma StyledTopAnnots()
    ensures SortAnnotations(ContentAnnots(StyledCard("Hello", "World", "!", " Italic inside Tiny ", "Italic", "Bottom"), 0)) == [
      StyleAnnotation(9, 35, Styles.Italic), StyleAnnotation(14, 35, Size(0.5)),
      StyleAnnotation(15, 35, Styles.Italic), StyleAnnotation(39, 45, Styles.Italic)]
  {
    StyledTopEmitted();
    StyledCardSort();
  }

  lemma StyledTopEmitted()
    ensures ContentAnnots(StyledCard("Hello", "World", "!", " Italic inside Tiny ", "Italic", "Bottom"), 0) == [
      StyleAnnotation(15, 35, Styles.Italic), StyleAnnotation(14, 35, Size(0.5)),
      StyleAnnotation(9, 35, Styles.Italic), StyleAnnotation(39, 45, Styles.Italic)]
  {
    AsciiByteLen("Hello");
    AsciiByteLen("World");
    AsciiByteLen("!");
    AsciiByteLen(" Italic inside Tiny ");
    AsciiByteLen("Italic");
    StyledCardAnnots("Hello", "World", "!", " Italic inside Tiny ", "Italic", "Bottom", 5, 5, 1, 20, 6);
  }

  lemma StyledBottom()
    ensures |StyledCard("Hello", "World", "!", " Italic inside Tiny ", "Italic", "Bottom")| == 6
    ensures StyledCard("Hello", "World", "!", " Italic inside Tiny ", "Italic", "Bottom")[5] == Bottom([Plain("Bottom")])
    ensures ContentText([Plain("Bottom")]) == "Bottom"
    ensures SortAnnotations(ContentAnnots([Plain("Bottom")], 0)) == []
  {
    SingleFlattens(Plain("Bottom"), 0);
    SingleText(Plain("Bottom"));
  }

  /** The text of the `styled_segments` card: a blank is four underscores, the bottom is skipped. */
  lemma StyledCardText(hello: string, world: string, bang: string, spaced: string, word: string, bottom: string)
    ensures ContentText(StyledCard(hello, world, bang, spaced, word, bottom))
         == hello + "____" + world + bang + spaced + "____" + word
  {
    assert BLANK == "____";
    var inner := Markup.Italic([Plain(spaced)]);
    var tiny := Tiny([Plain(bang), inner]);
    var outer := Markup.Italic([Plain(world), tiny]);
    var a, b, c := [Plain(hello), Blank], [outer, Blank], [Markup.Italic([Plain(word)]), Bottom([Plain(bottom)])];
    ContentTextAppend(a, b + c);
    ContentTextAppend(b, c);
    SingleText(Plain(spaced));
    PairText(Plain(bang), inner);
    PairText(Plain(world), tiny);
    SingleText(Plain(word));
    PairText(Plain(hello), Blank);
    PairText(outer, Blank);
    PairText(c[0], c[1]);
  }

  /**
   * The annotations of the `styled_segments` card in emission order: the
   * innermost span first, each over the bytes its children appended.
   */
  lemma StyledCardAnnots(hello: string, world: string, bang: string, spaced: string, word: string, bottom: string,
                         h: nat, w: nat, b: nat, sp: nat, wd: nat)
    requires ByteLen(hello) == h && ByteLen(world) == w && ByteLen(bang) == b
    requires ByteLen(spaced) == sp && ByteLen(word) == wd
    ensures ContentAnnots(StyledCard(hello, world, bang, spaced, word, bottom), 0)
         == [StyleAnnotation(h + 4 + w + b, h + 4 + w + b + sp, Styles.Italic),
             StyleAnnotation(h + 4 + w, h + 4 + w + b + sp, Size(0.5)),
             StyleAnnotation(h + 4, h + 4 + w + b + sp, Styles.Italic),
             StyleAnnotation(h + 8 + w + b + sp, h + 8 + w + b + sp + wd, Styles.Italic)]
  {
    var base, tail := h + 4, h + 8 + w + b + sp;
    var outer := OuterSpan(world, bang, spaced, base, w, b, sp);
    var last := LoneSpan(word, tail, wd);
    var spans := NodeAnnots(outer, base);
    var lone := NodeAnnots(last, tail);
    ThreeThenOne(spans, lone,
      StyleAnnotation(base + w + b, base + w + b + sp, Styles.Italic),
      StyleAnnotation(base + w, base + w + b + sp, Size(0.5)),
      StyleAnnotation(base, base + w + b + sp, Styles.Italic),
      StyleAnnotation(tail, tail + wd, Styles.Italic));
    CardShapeAnnots(StyledCard(hello, world, bang, spaced, word, bottom), hello, outer, last, Bottom([Plain(bottom)]), h, tail);
    StyledCardPositions(h, w, b, sp, wd, base, tail);
  }

  /** The emitted positions written relative to the spans, and relative to the start of the card. */
  lemma StyledCardPositions(h: nat, w: nat, b: nat, sp: nat, wd: nat, base: nat, tail: nat)
    requires base == h + 4 && tail == h + 8 + w + b + sp
    ensures [StyleAnnotation(base + w + b, base + w + b + sp, Styles.Italic),
             StyleAnnotation(base + w, base + w + b + sp, Size(0.5)),
             StyleAnnotation(base, base + w + b + sp, Styles.Italic),
             StyleAnnotation(tail, tail + wd, Styles.Italic)]
         == [StyleAnnotation(h + 4 + w + b, h + 4 + w + b + sp, Styles.Italic),
             StyleAnnotation(h + 4 + w, h + 4 + w + b + sp, Size(0.5)),
             StyleAnnotation(h + 4, h + 4 + w + b + sp, Styles.Italic),
             StyleAnnotation(h + 8 + w + b + sp, h + 8 + w + b + sp + wd, Styles.Italic)]
  {
  }

  /** The shape of the `styled_segments` card: a text, a blank, a node, a blank, a node and a bottom. */
  lemma CardShapeAnnots(card: seq<Markup>, hello: string, outer: Markup, last: Markup, bottom: Markup, h: nat, tail: nat)
    requires card == [Plain(hello), Blank] + ([outer, Blank] + [last, bottom])
    requires ByteLen(hello) == h && bottom.Bottom? && tail == h + 8 + NodeWidth(outer)
    ensures ContentAnnots(card, 0) == NodeAnnots(outer, h + 4) + NodeAnnots(last, tail)
  {
    var z := [last, bottom];
    calc {
      ContentAnnots([Plain(hello), Blank] + ([outer, Blank] + z), 0);
    == { PlainBlankThen(hello, h, [outer, Blank] + z); }
      ContentAnnots([outer, Blank] + z, h + 4);
    == { NodeBlankThen(outer, z, h + 4); }
      NodeAnnots(outer, h + 4) + ContentAnnots(z, tail);
    == { PairFlattens(last, bottom, tail); assert NodeAnnots(bottom, tail + NodeWidth(last)) == []; }
      NodeAnnots(outer, h + 4) + (NodeAnnots(last, tail) + []);
    ==
      NodeAnnots(outer, h + 4) + NodeAnnots(last, tail);
    }
  }

  lemma ThreeThenOne(x: seq<StyleAnnotation>, y: seq<StyleAnnotation>,
                      a: StyleAnnotation, b: StyleAnnotation, c: StyleAnnotation, d: StyleAnnotation)
    requires x == [a, b, c] && y == [d]
    ensures x + y == [a, b, c, d]
  {
  }

  /** A text of `width` bytes and a blank, then `rest`. */
  lemma PlainBlankThen(text: string, width: nat, rest: seq<Markup>)
    requires ByteLen(text) == width
    ensures ContentAnnots([Plain(text), Blank] + rest, 0) == ContentAnnots(rest, width + 4)
  {
    NodeBlankThen(Plain(text), rest, 0);
  }

  /** A node and a blank, then `rest`. */
  lemma NodeBlankThen(m: Markup, rest: seq<Markup>, base: nat)
    ensures ContentAnnots([m, Blank] + rest, base) == NodeAnnots(m, base) + ContentAnnots(rest, base + NodeWidth(m) + 4)
  {
    assert [m, Blank] + rest == [m] + ([Blank] + rest);
    ContentAnnotsCons(m, [Blank] + rest, base);
    ContentAnnotsCons(Blank, rest, base + NodeWidth(m));
    assert NodeAnnots(Blank, base + NodeWidth(m)) == [];
  }

  /** An italic span around one text of `width` bytes. */
  lemma LoneSpan(text: string, base: nat, width: nat) returns (m: Markup)
    requires ByteLen(text) == width
    ensures m == Markup.Italic([Plain(text)])
    ensures NodeWidth(m) == width
    ensures NodeAnnots(m, base) == [StyleAnnotation(base, base + width, Styles.Italic)]
  {
    m := Markup.Italic([Plain(text)]);
    SingleFlattens(Plain(text), base);
  }

  /** The italic span around a text and a tiny span around a text and an italic span. */
  lemma OuterSpan(world: string, bang: string, spaced: string, base: nat, w: nat, b: nat, sp: nat) returns (m: Markup)
    requires ByteLen(world) == w && ByteLen(bang) == b && ByteLen(spaced) == sp
    ensures m == Markup.Italic([Plain(world), Tiny([Plain(bang), Markup.Italic([Plain(spaced)])])])
    ensures NodeWidth(m) == w + b + sp
    ensures NodeAnnots(m, base) == [StyleAnnotation(base + w + b, base + w + b + sp, Styles.Italic),
      StyleAnnotation(base + w, base + w + b + sp, Size(0.5)), StyleAnnotation(base, base + w + b + sp, Styles.Italic)]
  {
    var inner := LoneSpan(spaced, base + w + b, sp);
    m := Markup.Italic([Plain(world), Tiny([Plain(bang), inner])]);
    var second := StyleAnnotation(base + w, base + w + b + sp, Size(0.5));
    var third := StyleAnnotation(base, base + w + (b + sp), Styles.Italic);
    ItalicOverTiny(world, bang, inner, base, w, b, sp);
    Nested(NodeAnnots(inner, base + w + b), StyleAnnotation(base + w + b, base + w + b + sp, Styles.Italic), second, third);
    OuterPositions(base, w, b, sp);
  }

  /** An italic span around a text and a tiny span around a text and `inner`. */
  lemma ItalicOverTiny(world: string, bang: string, inner: Markup, base: nat, w: nat, b: nat, ni: nat)
    requires ByteLen(world) == w && ByteLen(bang) == b && NodeWidth(inner) == ni
    ensures NodeWidth(Markup.Italic([Plain(world), Tiny([Plain(bang), inner])])) == w + (b + ni)
    ensures NodeAnnots(Markup.Italic([Plain(world), Tiny([Plain(bang), inner])]), base)
         == (NodeAnnots(inner, base + w + b) + [StyleAnnotation(base + w, base + w + b + ni, Size(0.5))])
            + [StyleAnnotation(base, base + w + (b + ni), Styles.Italic)]
  {
    var tiny := Tiny([Plain(bang), inner]);
    TinyAfterText(bang, inner, base + w, b);
    ItalicAfterText(world, tiny, base, w);
    var italic := StyleAnnotation(base, base + w + (b + ni), Styles.Italic);
    assert NodeAnnots(Markup.Italic([Plain(world), tiny]), base) == NodeAnnots(tiny, base + w) + [italic];
  }

  /** Appending the annotations of two enclosing spans to that of the innermost one. */
  lemma Nested(x: seq<StyleAnnotation>, a: StyleAnnotation, b: StyleAnnotation, c: StyleAnnotation)
    requires x == [a]
    ensures (x + [b]) + [c] == [a, b, c]
  {
  }

  /** The ends of the nested spans of `OuterSpan`, once the widths are known. */
  lemma OuterPositions(base: nat, w: nat, b: nat, sp: nat)
    ensures [StyleAnnotation(base + w + b, base + w + b + sp, Styles.Italic),
             StyleAnnotation(base + w, base + w + b + sp, Size(0.5)),
             StyleAnnotation(base, base + w + (b + sp), Styles.Italic)]
         == [StyleAnnotation(base + w + b, base + w + b + sp, Styles.Italic),
             StyleAnnotation(base + w, base + w + b + sp, Size(0.5)),
             StyleAnnotation(base, base + w + b + sp, Styles.Italic)]
  {
  }

  /** A text of `width` bytes followed by one node. */
  lemma PlainThen(text: string, x: Markup, base: nat, width: nat)
    requires ByteLen(text) == width
    ensures ContentAnnots([Plain(text), x], base) == NodeAnnots(x, base + width)
    ensures ContentWidth([Plain(text), x]) == width + NodeWidth(x)
  {
    PairFlattens(Plain(text), x, base);
  }

  /** Sorting the emitted annotations moves the outer span before the inner ones. */
  lemma StyledCardSort()
    ensures SortAnnotations([StyleAnnotation(15, 35, Styles.Italic), StyleAnnotation(14, 35, Size(0.5)),
      StyleAnnotation(9, 35, Styles.Italic), StyleAnnotation(39, 45, Styles.Italic)])
      == [StyleAnnotation(9, 35, Styles.Italic), StyleAnnotation(14, 35, Size(0.5)),
      StyleAnnotation(15, 35, Styles.Italic), StyleAnnotation(39, 45, Styles.Italic)]
  {
    var e1, e2, e3, e4 := StyleAnnotation(15, 35, Styles.Italic), StyleAnnotation(14, 35, Size(0.5)),
      StyleAnnotation(9, 35, Styles.Italic), StyleAnnotation(39, 45, Styles.Italic);
    calc {
      SortAnnotations([e1, e2, e3, e4]);
    == { SortCons(e1, [e2, e3, e4]); assert [e1] + [e2, e3, e4] == [e1, e2, e3, e4]; }
      Insert(e1, SortAnnotations([e2, e3, e4]));
    == { SortCons(e2, [e3, e4]); assert [e2] + [e3, e4] == [e2, e3, e4]; }
      Insert(e1, Insert(e2, SortAnnotations([e3, e4])));
    == { SortPair(e3, e4); }
      Insert(e1, Insert(e2, [e3, e4]));
    == { InsertCons(e2, e3, [e4]); assert [e3] + [e4] == [e3, e4]; }
      Insert(e1, [e3] + Insert(e2, [e4]));
    == { assert Insert(e2, [e4]) == [e2, e4]; }
      Insert(e1, [e3, e2, e4]);
    == { InsertCons(e1, e3, [e2, e4]); assert [e3] + [e2, e4] == [e3, e2, e4]; }
      [e3] + Insert(e1, [e2, e4]);
    == { InsertCons(e1, e2, [e4]); assert [e2] + [e4] == [e2, e4]; }
      [e3] + ([e2] + Insert(e1, [e4]));
    == { assert Insert(e1, [e4]) == [e1, e4]; }
      [e3, e2, e1, e4];
    }
  }

  /** The shape of the card of the `styled_segments2` unit test, over its texts. */
  function GlueckCard(glueck: string, auf: string, steiger: string, kommt: string): seq<Markup> {
    [Plain(glueck), Bottom(GlueckBottom(auf, steiger, kommt))]
  }

  function GlueckBottom(auf: string, steiger: string, kommt: string): seq<Markup> {
    [Tiny([Plain(auf), Markup.Italic([Plain(steiger), Plain(kommt)])])]
  }

  /** The expected output of the `styled_segments2` unit test. */
  lemma StyledSegments2Example()
    ensures TopSegments(GlueckCard("Glück", "Auf der ", "Steiger", " kommt")) == Some(("Glück", []))
    ensures BottomSegments(GlueckCard("Glück", "Auf der ", "Steiger", " kommt")) == Some(("Auf der Steiger kommt", [
      StyleAnnotation(0, 21, Size(0.5)), StyleAnnotation(8, 21, Styles.Italic)]))
  {
    GlueckTop("Glück", "Auf der ", "Steiger", " kommt");
    assert SortAnnotations([]) == [];
    GlueckBottomExample();
  }

  lemma GlueckBottomExample()
    ensures ContentText(GlueckBottom("Auf der ", "Steiger", " kommt")) == "Auf der Steiger kommt"
    ensures SortAnnotations(ContentAnnots(GlueckBottom("Auf der ", "Steiger", " kommt"), 0))
         == [StyleAnnotation(0, 21, Size(0.5)), StyleAnnotation(8, 21, Styles.Italic)]
  {
    GlueckBottomTextExample();
    GlueckBottomEmitted();
    GlueckBottomSort();
  }

  lemma GlueckBottomTextExample()
    ensures ContentText(GlueckBottom("Auf der ", "Steiger", " kommt")) == "Auf der Steiger kommt"
  {
    GlueckBottomText("Auf der ", "Steiger", " kommt");
    GlueckTextLiteral();
  }

  lemma GlueckTextLiteral()
    ensures "Auf der " + "Steiger" + " kommt" == "Auf der Steiger kommt"
  {
    assert "Auf der " + "Steiger" == "Auf der Steiger";
  }

  lemma GlueckBottomEmitted()
    ensures ContentAnnots(GlueckBottom("Auf der ", "Steiger", " kommt"), 0)
         == [StyleAnnotation(8, 21, Styles.Italic), StyleAnnotation(0, 21, Size(0.5))]
  {
    AsciiByteLen("Auf der ");
    AsciiByteLen("Steiger");
    AsciiByteLen(" kommt");
    GlueckBottomFlattens("Auf der ", "Steiger", " kommt", 8, 7, 6);
  }

  lemma GlueckBottomSort()
    ensures SortAnnotations([StyleAnnotation(8, 21, Styles.Italic), StyleAnnotation(0, 21, Size(0.5))])
         == [StyleAnnotation(0, 21, Size(0.5)), StyleAnnotation(8, 21, Styles.Italic)]
  {
    SortPair(StyleAnnotation(8, 21, Styles.Italic), StyleAnnotation(0, 21, Size(0.5)));
  }

  /** The top of the `styled_segments2` card is its text alone, without annotations. */
  lemma GlueckTop(glueck: string, auf: string, steiger: string, kommt: string)
    ensures ContentText(GlueckCard(glueck, auf, steiger, kommt)) == glueck
    ensures ContentAnnots(GlueckCard(glueck, auf, steiger, kommt), 0) == []
  {
    var card := GlueckCard(glueck, auf, steiger, kommt);
    PairFlattens(card[0], card[1], 0);
    PairText(card[0], card[1]);
  }

  /** The bottom of the `styled_segments2` card: the italic inside the tiny span is emitted first. */
  lemma GlueckBottomFlattens(auf: string, steiger: string, kommt: string, a: nat, s: nat, k: nat)
    requires ByteLen(auf) == a && ByteLen(steiger) == s && ByteLen(kommt) == k
    ensures ContentAnnots(GlueckBottom(auf, steiger, kommt), 0)
         == [StyleAnnotation(a, a + s + k, Styles.Italic), StyleAnnotation(0, a + s + k, Size(0.5))]
  {
    var italic := ItalicPair(steiger, kommt, a, s, k);
    TinyAfterText(auf, italic, 0, a);
    SingleFlattens(Tiny([Plain(auf), italic]), 0);
  }

  lemma GlueckBottomText(auf: string, steiger: string, kommt: string)
    ensures ContentText(GlueckBottom(auf, steiger, kommt)) == auf + steiger + kommt
  {
    var italic := Markup.Italic([Plain(steiger), Plain(kommt)]);
    PairText(Plain(steiger), Plain(kommt));
    PairText(Plain(auf), italic);
    SingleText(Tiny([Plain(auf), italic]));
  }

  /** An italic span around two texts. */
  lemma ItalicPair(x: string, y: string, base: nat, wx: nat, wy: nat) returns (m: Markup)
    requires ByteLen(x) == wx && ByteLen(y) == wy
    ensures m == Markup.Italic([Plain(x), Plain(y)])
    ensures NodeWidth(m) == wx + wy
    ensures NodeAnnots(m, base) == [StyleAnnotation(base, base + wx + wy, Styles.Italic)]
  {
    m := Markup.Italic([Plain(x), Plain(y)]);
    PlainThen(x, Plain(y), base, wx);
  }

  /** An italic span around a text of `width` bytes and one more node. */
  lemma ItalicAfterText(text: string, x: Markup, base: nat, width: nat)
    requires ByteLen(text) == width
    ensures NodeWidth(Markup.Italic([Plain(text), x])) == width + NodeWidth(x)
    ensures NodeAnnots(Markup.Italic([Plain(text), x]), base)
         == NodeAnnots(x, base + width) + [StyleAnnotation(base, base + width + NodeWidth(x), Styles.Italic)]
  {
    PlainThen(text, x, base, width);
  }

  /** A tiny span around a text of `width` bytes and one more node. */
  lemma TinyAfterText(text: string, x: Markup, base: nat, width: nat)
    requires ByteLen(text) == width
    ensures NodeWidth(Tiny([Plain(text), x])) == width + NodeWidth(x)
    ensures NodeAnnots(Tiny([Plain(text), x]), base)
         == NodeAnnots(x, base + width) + [StyleAnnotation(base, base + width + NodeWidth(x), Size(0.5))]
  {
    PlainThen(text, x, base, width);
  }

  /** Flattening a two-node list. */
  lemma PairFlattens(x: Markup, y: Markup, base: nat)
    ensures ContentAnnots([x, y], base) == NodeAnnots(x, base) + NodeAnnots(y, base + NodeWidth(x))
    ensures ContentWidth([x, y]) == NodeWidth(x) + NodeWidth(y)
  {
    assert [x, y] == [x] + [y];
    ContentAnnotsCons(x, [y], base);
    ContentWidthCons(x, [y]);
    SingleFlattens(y, base + NodeWidth(x));
  }

  lemma SingleFlattens(x: Markup, base: nat)
    ensures ContentAnnots([x], base) == NodeAnnots(x, base)
    ensures ContentWidth([x]) == NodeWidth(x)
  {
    assert [x][1..] == [];
  }

  lemma PairText(x: Markup, y: Markup)
    ensures ContentText([x, y]) == NodeText(x) + NodeText(y)
  {
    assert [x, y][1..] == [y];
    SingleText(y);
  }

  lemma SingleText(x: Markup)
    ensures ContentText([x]) == NodeText(x)
  {
    assert [x][1..] == [];
  }

  lemma SortCons(x: StyleAnnotation, s: seq<StyleAnnotation>)
    ensures SortAnnotations([x] + s) == Insert(x, SortAnnotations(s))
  {
    assert ([x] + s)[1..] == s;
  }

  lemma InsertCons(x: StyleAnnotation, y: StyleAnnotation, s: seq<StyleAnnotation>)
    requires !Le(x, y)
    ensures Insert(x, [y] + s) == [y] + Insert(x, s)
  {
    assert ([y] + s)[1..] == s;
  }

  /** Sorting two annotations. */
  lemma SortPair(a: StyleAnnotation, b: StyleAnnotation)
    ensures SortAnnotations([a, b]) == if Le(a, b) then [a, b] else [b, a]
  {
    SortCons(a, [b]);
    assert [a] + [b] == [a, b];
    SortCons(b, []);
    assert [b] + [] == [b];
    assert SortAnnotations([]) == [];
    assert Insert(b, []) == [b];
    if !Le(a, b) {
      assert [b][1..] == [];
      assert Insert(a, []) == [a];
    }
  }

  /** The annotations either entry point returns are exactly those the flattening emitted. */
  lemma SegmentsPermute(content: seq<Markup>)
    ensures TopSegments(content).Some? ==>
      multiset(TopSegments(content).value.1) == multiset(ContentAnnots(content, 0))
    ensures BottomSegments(content).Some? ==>
      multiset(BottomSegments(content).value.1) == multiset(ContentAnnots(content[|content| - 1].content, 0))
  {
    SortPermutes(ContentAnnots(content, 0));
    if content != [] && content[|content| - 1].Bottom? {
      SortPermutes(ContentAnnots(content[|content| - 1].content, 0));
    }
  }

  /** A deck as the document describes it. */
  datatype Deck = Deck(name: string, cards: seq<Card>, theme: Theme, back: Carp.Backside)

  /** Trimming the edges of a three-node card touches only its first and its last node. */
  lemma TrimmedThree(a: Markup, b: Markup, c: Markup)
    requires !a.Bottom? && !b.Bottom? && !c.Bottom?
    ensures TrimBottoms(TrimLast(TrimFirst([a, b, c]))) == [TrimmedStart(a), b, TrimmedEndAsWritten(c)]
  {
    assert TrimFirst([a, b, c]) == [TrimmedStart(a), b, c];
  }

  /** Dropping the empty nodes of a three-node list whose last node alone is empty. */
  lemma RemoveEmptyThree(a: Markup, b: Markup, c: Markup)
    requires !IsEmpty(a) && !IsEmpty(b) && IsEmpty(c)
    ensures RemoveEmpty([a, b, c]) == [a, b]
  {
    RemoveEmptySnoc([a, b], c);
    assert [a, b] + [c] == [a, b, c];
    RemoveEmptyKeepsAll([a, b]);
  }

  /** The cleanup of the trimming card's markup: the indent and the whitespace node go. */
  lemma CleanedIndentBlankSpace(indent: string, word: string, space: string, cow: Cow)
    requires AllWhitespace(indent) && AllWhitespace(space)
    requires word != [] && !IsWhitespace(word[0])
    ensures CleanedUp([Plain(indent + word, cow), Blank, Plain(space, cow)]) == [Plain(word, cow), Blank]
  {
    var a, c := Plain(indent + word, cow), Plain(space, cow);
    assert TrimmedStart(a) == Plain(word, cow) by {
      TrimStartSkips(indent, word);
    }
    assert TrimmedEndAsWritten(c) == Plain([], cow) by {
      TrimmedEndAsWrittenWhitespace(space, cow);
    }
    CleanedThree(a, Blank, c);
  }

  /** `cleanup` of three nodes, none a bottom, whose last node alone trims to nothing. */
  lemma CleanedThree(a: Markup, b: Markup, c: Markup)
    requires !a.Bottom? && !b.Bottom? && !c.Bottom?
    requires !IsEmpty(TrimmedStart(a)) && !IsEmpty(b) && IsEmpty(TrimmedEndAsWritten(c))
    ensures CleanedUp([a, b, c]) == [TrimmedStart(a), b]
  {
    TrimmedThree(a, b, c);
    RemoveEmptyThree(TrimmedStart(a), b, TrimmedEndAsWritten(c));
  }

  /** The cleanup of the bottom card's markup: the bottom's own edges are already trimmed. */
  lemma CleanedIndentBlankBottomSpace(indent: string, word: string, bottom: string, space: string, cow: Cow)
    requires AllWhitespace(indent) && AllWhitespace(space)
    requires word != [] && !IsWhitespace(word[0])
    requires bottom != [] && !IsWhitespace(bottom[0]) && !IsWhitespace(bottom[|bottom| - 1])
    ensures CleanedUp([Plain(indent + word, cow), Blank, Bottom([Plain(bottom, cow)]), Plain(space, cow)])
      == [Plain(word, cow), Blank, Bottom([Plain(bottom, cow)])]
  {
    IndentBlankBottomTrims(indent, word, bottom, space, cow);
    CleanedFour(Plain(indent + word, cow), Blank, Bottom([Plain(bottom, cow)]), Plain(space, cow));
  }

  /** How the nodes of the bottom card trim: the indent goes, the bottom stays, the trailing whitespace empties. */
  lemma IndentBlankBottomTrims(indent: string, word: string, bottom: string, space: string, cow: Cow)
    requires AllWhitespace(indent) && AllWhitespace(space)
    requires word != [] && !IsWhitespace(word[0])
    requires bottom != [] && !IsWhitespace(bottom[0]) && !IsWhitespace(bottom[|bottom| - 1])
    ensures TrimmedStart(Plain(indent + word, cow)) == Plain(word, cow)
    ensures TrimmedEndAsWritten(Plain(space, cow)) == Plain([], cow)
    ensures TrimBottomEdges(Bottom([Plain(bottom, cow)])) == Bottom([Plain(bottom, cow)])
  {
    TrimStartSkips(indent, word);
    TrimmedEndAsWrittenWhitespace(space, cow);
    BottomEdgesKept(bottom, cow);
  }

  /** `cleanup` of four nodes, a bottom third, whose last node alone trims to nothing. */
  lemma CleanedFour(a: Markup, b: Markup, c: Markup, d: Markup)
    requires !a.Bottom? && !b.Bottom? && c.Bottom? && !d.Bottom?
    requires !IsEmpty(TrimmedStart(a)) && !IsEmpty(b) && !IsEmpty(TrimBottomEdges(c)) && IsEmpty(TrimmedEndAsWritten(d))
    ensures CleanedUp([a, b, c, d]) == [TrimmedStart(a), b, TrimBottomEdges(c)]
  {
    TrimmedFour(a, b, c, d);
    RemoveEmptyFour(TrimmedStart(a), b, TrimBottomEdges(c), TrimmedEndAsWritten(d));
  }

  /** A bottom holding one word without whitespace at its edges is left as it is. */
  lemma BottomEdgesKept(bottom: string, cow: Cow)
    requires bottom != [] && !IsWhitespace(bottom[0]) && !IsWhitespace(bottom[|bottom| - 1])
    ensures TrimBottomEdges(Bottom([Plain(bottom, cow)])) == Bottom([Plain(bottom, cow)])
  {
    TrimStartKeeps(bottom);
    TrimmedEndAsWrittenKeeps(bottom, cow);
    assert TrimFirst([Plain(bottom, cow)]) == [Plain(bottom, cow)];
    assert TrimLast([Plain(bottom, cow)]) == [Plain(bottom, cow)];
  }

  /** Trimming the edges of a four-node card whose third node alone is a bottom. */
  lemma TrimmedFour(a: Markup, b: Markup, c: Markup, d: Markup)
    requires !a.Bottom? && !b.Bottom? && c.Bottom? && !d.Bottom?
    ensures TrimBottoms(TrimLast(TrimFirst([a, b, c, d]))) == [TrimmedStart(a), b, TrimBottomEdges(c), TrimmedEndAsWritten(d)]
  {
    assert TrimFirst([a, b, c, d]) == [TrimmedStart(a), b, c, d];
  }

  /** Dropping the empty nodes of a four-node list whose last node alone is empty. */
  lemma RemoveEmptyFour(a: Markup, b: Markup, c: Markup, d: Markup)
    requires !IsEmpty(a) && !IsEmpty(b) && !IsEmpty(c) && IsEmpty(d)
    ensures RemoveEmpty([a, b, c, d]) == [a, b, c]
  {
    RemoveEmptySnoc([a, b, c], d);
    assert [a, b, c] + [d] == [a, b, c, d];
    RemoveEmptyKeepsAll([a, b, c]);
  }

  /** `retain` on one more node: it is kept exactly when it is not empty. */
  lemma RemoveEmptySnoc(init: seq<Markup>, last: Markup)
    ensures RemoveEmpty(init + [last]) == if IsEmpty(last) then RemoveEmpty(init) else RemoveEmpty(init) + [last]
  {
    assert (init + [last])[..|init|] == init;
  }

  /** `retain` keeps a list without empty nodes as it is. */
  lemma {:induction false} RemoveEmptyKeepsAll(content: seq<Markup>)
    requires forall i :: 0 <= i < |content| ==> !IsEmpty(content[i])
    ensures RemoveEmpty(content) == content
  {
    if content != [] {
      RemoveEmptyKeepsAll(content[..|content| - 1]);
      assert content[..|content| - 1] + [content[|content| - 1]] == content;
    }
  }
}
