/**
 * Reading a deck from an XML document (`crates/app/src/format/xml.rs`). The
 * XML parser itself is not part of this model: conversion starts from the
 * parsed node tree. Parsing a font size as a float is the parameter `parse`.
 */
module Xml {
  import opened Wrappers
  import opened Text
  import opened Markup
  import opened Errors
  import opened Cards
  import Carp

  /**
   * A node of the parsed document, as far as the conversion looks at it: a text
   * node, an element (local tag name, attributes in document order, children),
   * or any other node (a comment or a processing instruction), which has no
   * tag name, no attributes and no children.
   */
  datatype Node =
    | TextNode(text: string)
    | Element(tag: string, attributes: seq<(string, string)>, children: seq<Node>)
    | Other

  /** The node's tag name, empty for anything but an element. */
  function TagName(node: Node): string {
    if node.Element? then node.tag else ""
  }

  function Attributes(node: Node): seq<(string, string)> {
    if node.Element? then node.attributes else []
  }

  function Children(node: Node): seq<Node> {
    if node.Element? then node.children else []
  }

  /** `Node::has_tag_name`: only an element has a tag name. */
  predicate HasTagName(node: Node, name: string) {
    node.Element? && node.tag == name
  }

  /** `Node::attribute`: the value of the first attribute called `name`. */
  function Lookup(attributes: seq<(string, string)>, name: string): (r: Option<string>)
    ensures r.None? <==> forall i :: 0 <= i < |attributes| ==> attributes[i].0 != name
    ensures r.Some? ==> exists i :: (0 <= i < |attributes| && attributes[i] == (name, r.value)
      && forall j :: 0 <= j < i ==> attributes[j].0 != name)
  {
    if attributes == [] then None
    else if attributes[0].0 == name then Some(attributes[0].1)
    else
      var r := Lookup(attributes[1..], name);
      assert forall i :: 1 <= i < |attributes| ==> attributes[i] == attributes[1..][i - 1];
      r
  }

  function Attribute(node: Node, name: string): Option<string> {
    Lookup(Attributes(node), name)
  }

  const THEMES: seq<string> := ["light", "dark"]
  const BACKS: seq<string> := ["shared", "unique"]

  /** The deck's `theme` attribute: absent means the default, three spellings per theme. */
  function ParseTheme(value: Option<string>): (r: Result<Theme, Error>)
    ensures r == Ok(Light) <==> value.None? || value.value in {"light", "Light", "LIGHT"}
    ensures r == Ok(Dark) <==> value.Some? && value.value in {"dark", "Dark", "DARK"}
    ensures r.Err? ==> r.error.kind == InvalidAttribueValue("deck", "theme", value.value, THEMES)
  {
    match value
    case None => Ok(DEFAULT_THEME)
    case Some(s) =>
      if s == "light" || s == "Light" || s == "LIGHT" then Ok(Light)
      else if s == "dark" || s == "Dark" || s == "DARK" then Ok(Dark)
      else Err(FromKind(InvalidAttribueValue("deck", "theme", s, THEMES)))
  }

  /** The deck's `back` attribute: absent means the default, otherwise exactly one spelling each. */
  function ParseBack(value: Option<string>): (r: Result<Carp.Backside, Error>)
    ensures r == Ok(Carp.Shared) <==> value.None? || value.value == "shared"
    ensures r == Ok(Carp.Unique) <==> value == Some("unique")
    ensures r.Err? ==> r.error.kind == InvalidAttribueValue("deck", "back", value.value, BACKS)
  {
    match value
    case None => Ok(Carp.DEFAULT_BACKSIDE)
    case Some(s) =>
      if s == "shared" then Ok(Carp.Shared)
      else if s == "unique" then Ok(Carp.Unique)
      else Err(FromKind(InvalidAttribueValue("deck", "back", s, BACKS)))
  }

  /** The name a backside displays as is the attribute value that selects it. */
  lemma BackNameRoundTrip(b: Carp.Backside)
    ensures ParseBack(Some(Carp.BacksideName(b))) == Ok(b)
  {
  }

  /** The `back` attribute is matched case-sensitively, unlike `theme`. */
  lemma BackIsCaseSensitive()
    ensures ParseBack(Some("Shared")).Err?
    ensures ParseTheme(Some("Light")) == Ok(Light)
  {
  }

  /** A font's `size` attribute: trimmed and parsed, 1.0 when it does not parse. */
  function FontSize(value: Option<string>, parse: string -> Option<real>): (r: Option<real>)
    ensures r.None? <==> value.None?
    ensures value.Some? && parse(Trim(value.value)).Some? ==> r == parse(Trim(value.value))
    ensures value.Some? && parse(Trim(value.value)).None? ==> r == Some(1.0)
  {
    match value
    case None => None
    case Some(s) => Some(parse(Trim(s)).UnwrapOr(1.0))
  }

  /** `impl TryFrom<Node> for Markup`: one node and, below it, its children. */
  function ToMarkup(node: Node, parse: string -> Option<real>): Result<Markup, Error>
    decreases node, 1
  {
    match node
    case TextNode(text) => Ok(Plain(text, Owned))
    case Other => Ok(Unknown("", [], []))
    case Element(tag, attributes, children) =>
      if tag == "blank" then Ok(Blank)
      else if tag == "br" then Ok(Plain("\n"))
      else
        var content :- ToContent(children, parse);
        if tag == "italic" || tag == "i" then Ok(Markup.Italic(content))
        else if tag == "tiny" then Ok(Tiny(content))
        else if tag == "bottom" then Ok(Bottom(content))
        else if tag == "font" then
          Ok(Font(Lookup(attributes, "family"), FontSize(Lookup(attributes, "size"), parse), content))
        else Ok(Unknown(tag, attributes, content))
  }

  /** The children in document order; the first child that fails fails the list. */
  function ToContent(children: seq<Node>, parse: string -> Option<real>): (r: Result<seq<Markup>, Error>)
    ensures r.Ok? ==> |r.value| == |children|
    decreases children, 0
  {
    if children == [] then Ok([])
    else
      var head :- ToMarkup(children[0], parse);
      var tail :- ToContent(children[1..], parse);
      Ok([head] + tail)
  }

  /** Converting a node never fails: no tag is rejected, so no child error ever reaches `?`. */
  lemma {:induction false} MarkupNeverFails(node: Node, parse: string -> Option<real>)
    ensures ToMarkup(node, parse).Ok?
    decreases node, 1
  {
    if node.Element? {
      ContentNeverFails(node.children, parse);
    }
  }

  lemma {:induction false} ContentNeverFails(children: seq<Node>, parse: string -> Option<real>)
    ensures ToContent(children, parse).Ok?
    decreases children, 0
  {
    if children != [] {
      MarkupNeverFails(children[0], parse);
      ContentNeverFails(children[1..], parse);
    }
  }

  /** Converting the children one by one: the list so far grows by the next child's markup. */
  lemma {:induction false} ToContentSnoc(prefix: seq<Node>, child: Node, parse: string -> Option<real>)
    requires ToContent(prefix, parse).Ok? && ToMarkup(child, parse).Ok?
    ensures ToContent(prefix + [child], parse) == Ok(ToContent(prefix, parse).value + [ToMarkup(child, parse).value])
  {
    if prefix == [] {
      assert prefix + [child] == [child];
      assert [child][1..] == [];
      assert ToContent([], parse) == Ok([]);
      assert [ToMarkup(child, parse).value] + [] == [] + [ToMarkup(child, parse).value];
    } else {
      var t := prefix[1..];
      var h, m := ToMarkup(prefix[0], parse).value, ToMarkup(child, parse).value;
      assert ToContent(t, parse).Ok?;
      ToContentSnoc(t, child, parse);
      assert (prefix + [child])[1..] == t + [child];
      assert (prefix + [child])[0] == prefix[0];
      assert [h] + (ToContent(t, parse).value + [m]) == ([h] + ToContent(t, parse).value) + [m];
    }
  }

  /**
   * The `for child in node.children()` loop: converts the children in order.
   * Its `?` never returns early, since no node fails to convert (`MarkupNeverFails`).
   */
  method ConvertChildren(children: seq<Node>, parse: string -> Option<real>) returns (r: Result<seq<Markup>, Error>)
    ensures r == ToContent(children, parse)
    decreases children, 1
  {
    var result: seq<Markup> := [];
    for i := 0 to |children|
      invariant ToContent(children[..i], parse) == Ok(result)
    {
      var m := ConvertNode(children[i], parse);
      MarkupNeverFails(children[i], parse);
      assert children[..i + 1] == children[..i] + [children[i]];
      ToContentSnoc(children[..i], children[i], parse);
      result := result + [m.value];
    }
    assert children[..|children|] == children;
    return Ok(result);
  }

  /** `Markup::try_from(node)`: dispatch on the node kind and the tag name. */
  method ConvertNode(node: Node, parse: string -> Option<real>) returns (r: Result<Markup, Error>)
    ensures r == ToMarkup(node, parse)
    decreases node, 0
  {
    match node
    case TextNode(text) => return Ok(Plain(text, Owned));
    case Other => return Ok(Unknown("", [], []));
    case Element(tag, attributes, children) =>
      if tag == "blank" {
        return Ok(Blank);
      } else if tag == "br" {
        return Ok(Plain("\n"));
      }
      var content := ConvertChildren(children, parse);
      ContentNeverFails(children, parse);
      if tag == "italic" || tag == "i" {
        r := Ok(Markup.Italic(content.value));
      } else if tag == "tiny" {
        r := Ok(Tiny(content.value));
      } else if tag == "bottom" {
        r := Ok(Bottom(content.value));
      } else if tag == "font" {
        var family := Lookup(attributes, "family");
        var size := FontSize(Lookup(attributes, "size"), parse);
        r := Ok(Font(family, size, content.value));
      } else {
        r := Ok(Unknown(tag, attributes, content.value));
      }
  }

  /** `impl TryFrom<Node> for Card`: only a `card` element, whose converted children are cleaned up once. */
  function CardContent(node: Node, parse: string -> Option<real>): (r: Result<seq<Markup>, Error>)
    ensures !HasTagName(node, "card") ==> r == Err(FromKind(UnexpectedTag("card", TagName(node))))
    ensures r.Ok? ==> forall i :: 0 <= i < |r.value| ==> !IsEmpty(r.value[i])
  {
    if !HasTagName(node, "card") then Err(FromKind(UnexpectedTag("card", TagName(node))))
    else
      var content :- ToContent(node.children, parse);
      Ok(CleanedUp(content))
  }

  /** `Card::try_from(node)`: the loop over the children, then `cleanup` on the new card. */
  method CardFromNode(node: Node, parse: string -> Option<real>) returns (r: Result<Card, Error>)
    ensures r.Err? <==> CardContent(node, parse).Err?
    ensures r.Err? ==> r.error == CardContent(node, parse).error
    ensures r.Ok? ==> fresh(r.value) && Ok(r.value.content) == CardContent(node, parse)
  {
    if !HasTagName(node, "card") {
      return Err(FromKind(UnexpectedTag("card", TagName(node))));
    }
    var content := ConvertChildren(node.children, parse);
    ContentNeverFails(node.children, parse);
    var card := new Card(content.value);
    card.Cleanup();
    return Ok(card);
  }

  /** The children of a deck that are `card` elements, in document order. */
  function CardNodes(children: seq<Node>): (r: seq<Node>)
    ensures |r| <= |children|
    ensures forall i :: 0 <= i < |r| ==> HasTagName(r[i], "card")
  {
    if children == [] then []
    else (if HasTagName(children[0], "card") then [children[0]] else []) + CardNodes(children[1..])
  }

  /** `CardNodes` keeps every `card` child and nothing else. */
  lemma {:induction false} CardNodesMembers(children: seq<Node>)
    ensures forall n :: n in CardNodes(children) <==> n in children && HasTagName(n, "card")
  {
    if children != [] {
      CardNodesMembers(children[1..]);
      assert children == [children[0]] + children[1..];
    }
  }

  /** The cards of the card nodes, in order; the first card that fails fails the deck. */
  function CardContents(nodes: seq<Node>, parse: string -> Option<real>): (r: Result<seq<seq<Markup>>, Error>)
    ensures r.Ok? ==> |r.value| == |nodes|
  {
    if nodes == [] then Ok([])
    else
      var head :- CardContent(nodes[0], parse);
      var tail :- CardContents(nodes[1..], parse);
      Ok([head] + tail)
  }

  /** The deck as read from its element: the name, the theme, the back and the cards' contents. */
  datatype DeckContents = DeckContents(name: string, theme: Theme, back: Carp.Backside, cards: seq<seq<Markup>>)

  function RequireName(value: Option<string>): (r: Result<string, Error>)
    ensures value.None? ==> r == Err(FromKind(MissingDeckName))
    ensures value.Some? ==> r == Ok(value.value)
  {
    match value
    case None => Err(FromKind(MissingDeckName))
    case Some(name) => Ok(name)
  }

  /**
   * `impl TryFrom<Node> for Deck`: the fields in the order they are written,
   * name, theme, back, cards, so the first failing one decides the error. The
   * element's own tag is not looked at.
   */
  function DeckOf(node: Node, parse: string -> Option<real>): Result<DeckContents, Error> {
    var name :- RequireName(Attribute(node, "name"));
    var theme :- ParseTheme(Attribute(node, "theme"));
    var back :- ParseBack(Attribute(node, "back"));
    var cards :- CardContents(CardNodes(Children(node)), parse);
    Ok(DeckContents(name, theme, back, cards))
  }

  /** A `card` element always converts: its children, cleaned up. */
  lemma CardIsCleanedUp(node: Node, parse: string -> Option<real>)
    requires HasTagName(node, "card")
    ensures ToContent(node.children, parse).Ok?
    ensures CardContent(node, parse) == Ok(CleanedUp(ToContent(node.children, parse).value))
  {
    ContentNeverFails(node.children, parse);
  }

  /** Cards converted from `card` elements never fail. */
  lemma {:induction false} CardsNeverFail(nodes: seq<Node>, parse: string -> Option<real>)
    requires forall i :: 0 <= i < |nodes| ==> HasTagName(nodes[i], "card")
    ensures CardContents(nodes, parse).Ok?
    ensures forall i :: 0 <= i < |nodes| ==> CardContent(nodes[i], parse) == Ok(CardContents(nodes, parse).value[i])
  {
    if nodes != [] {
      CardIsCleanedUp(nodes[0], parse);
      CardsNeverFail(nodes[1..], parse);
      var tail := CardContents(nodes[1..], parse).value;
      var head := CardContent(nodes[0], parse).value;
      assert CardContents(nodes, parse) == Ok([head] + tail);
      forall i | 0 <= i < |nodes|
        ensures CardContent(nodes[i], parse) == Ok(([head] + tail)[i])
      {
        if i > 0 {
          assert nodes[1..][i - 1] == nodes[i];
          assert CardContent(nodes[1..][i - 1], parse) == Ok(tail[i - 1]);
          assert ([head] + tail)[i] == tail[i - 1];
        }
      }
    }
  }

  /**
   * A deck reads exactly when it has a name and valid `theme` and `back`
   * attributes: no card can fail, so no other error reaches the caller, and
   * the first of the three checks that fails gives the error.
   */
  lemma DeckReadsIff(node: Node, parse: string -> Option<real>)
    ensures DeckOf(node, parse).Ok? <==>
      Attribute(node, "name").Some? && ParseTheme(Attribute(node, "theme")).Ok? && ParseBack(Attribute(node, "back")).Ok?
    ensures DeckOf(node, parse).Err? ==>
      DeckOf(node, parse).error.kind.MissingDeckName? || DeckOf(node, parse).error.kind.InvalidAttribueValue?
    ensures Attribute(node, "name").None? ==> DeckOf(node, parse) == Err(FromKind(MissingDeckName))
    ensures Attribute(node, "name").Some? && ParseTheme(Attribute(node, "theme")).Err? ==>
      DeckOf(node, parse) == Err(ParseTheme(Attribute(node, "theme")).error)
    ensures Attribute(node, "name").Some? && ParseTheme(Attribute(node, "theme")).Ok? && ParseBack(Attribute(node, "back")).Err? ==>
      DeckOf(node, parse) == Err(ParseBack(Attribute(node, "back")).error)
  {
    CardsNeverFail(CardNodes(Children(node)), parse);
  }

  /** A deck's cards are the conversions of its `card` children, in document order. */
  lemma DeckCards(node: Node, parse: string -> Option<real>)
    requires DeckOf(node, parse).Ok?
    ensures |DeckOf(node, parse).value.cards| == |CardNodes(Children(node))|
    ensures forall i :: 0 <= i < |CardNodes(Children(node))| ==>
      CardContent(CardNodes(Children(node))[i], parse) == Ok(DeckOf(node, parse).value.cards[i])
  {
    var nodes := CardNodes(Children(node));
    CardsNeverFail(nodes, parse);
    assert DeckOf(node, parse).value.cards == CardContents(nodes, parse).value;
  }


  /**
   * The loop of `Deck::try_from` that pushes one new card per `card` child.
   * Its early return on a card error is never taken: every node it converts
   * is a `card` element, and those always convert (`CardIsCleanedUp`).
   */
  method ConvertCards(children: seq<Node>, parse: string -> Option<real>) returns (cards: seq<Card>)
    ensures |cards| == |CardNodes(children)|
    ensures forall j :: 0 <= j < |cards| ==>
      fresh(cards[j]) && Ok(cards[j].content) == CardContent(CardNodes(children)[j], parse)
  {
    var nodes := CardNodes(children);
    cards := [];
    for i := 0 to |nodes|
      invariant |cards| == i
      invariant forall j :: 0 <= j < i ==> fresh(cards[j]) && Ok(cards[j].content) == CardContent(nodes[j], parse)
    {
      CardIsCleanedUp(nodes[i], parse);
      var card := CardFromNode(nodes[i], parse);
      cards := cards + [card.value];
    }
  }



  /**
   * `Deck::try_from(node)`: the attributes in field order, each failing with
   * its own error, then the cards.
   */
  method DeckFromNode(node: Node, parse: string -> Option<real>) returns (r: Result<Deck, Error>)
    ensures r.Err? <==> DeckOf(node, parse).Err?
    ensures r.Err? ==> r.error == DeckOf(node, parse).error
    ensures r.Ok? ==> (r.value.name == DeckOf(node, parse).value.name
      && r.value.theme == DeckOf(node, parse).value.theme
      && r.value.back == DeckOf(node, parse).value.back
      && |r.value.cards| == |DeckOf(node, parse).value.cards|)
    ensures r.Ok? ==> forall i :: 0 <= i < |r.value.cards| ==>
      fresh(r.value.cards[i]) && r.value.cards[i].content == DeckOf(node, parse).value.cards[i]
  {
    var name := RequireName(Attribute(node, "name"));
    if name.Err? {
      return Err(name.error);
    }
    var theme := ParseTheme(Attribute(node, "theme"));
    if theme.Err? {
      return Err(theme.error);
    }
    var back := ParseBack(Attribute(node, "back"));
    if back.Err? {
      return Err(back.error);
    }
    var cards := ConvertCards(Children(node), parse);
    CardsNeverFail(CardNodes(Children(node)), parse);
    return Ok(Deck(name.value, cards, theme.value, back.value));
  }




  /**
   * The tag table of `Markup::try_from`: what each element becomes, with its
   * children converted in order (never failing).
   */
  lemma TagDispatch(tag: string, attributes: seq<(string, string)>, children: seq<Node>, parse: string -> Option<real>)
    ensures ToContent(children, parse).Ok?
    ensures tag == "blank" ==> ToMarkup(Element(tag, attributes, children), parse) == Ok(Blank)
    ensures tag == "br" ==> ToMarkup(Element(tag, attributes, children), parse) == Ok(Plain("\n"))
    ensures tag == "italic" || tag == "i" ==>
      ToMarkup(Element(tag, attributes, children), parse) == Ok(Markup.Italic(ToContent(children, parse).value))
    ensures tag == "tiny" ==> ToMarkup(Element(tag, attributes, children), parse) == Ok(Tiny(ToContent(children, parse).value))
    ensures tag == "bottom" ==> ToMarkup(Element(tag, attributes, children), parse) == Ok(Bottom(ToContent(children, parse).value))
    ensures tag == "font" ==> (ToMarkup(Element(tag, attributes, children), parse) ==
      Ok(Font(Lookup(attributes, "family"), FontSize(Lookup(attributes, "size"), parse), ToContent(children, parse).value)))
    ensures tag !in ["blank", "br", "italic", "i", "tiny", "bottom", "font"] ==>
      ToMarkup(Element(tag, attributes, children), parse) == Ok(Unknown(tag, attributes, ToContent(children, parse).value))
  {
    ContentNeverFails(children, parse);
  }

  /** The children's markup list starts with the first child's markup. */
  lemma ToContentCons(child: Node, rest: seq<Node>, parse: string -> Option<real>)
    ensures ToMarkup(child, parse).Ok? && ToContent(rest, parse).Ok?
    ensures ToContent([child] + rest, parse) == Ok([ToMarkup(child, parse).value] + ToContent(rest, parse).value)
  {
    MarkupNeverFails(child, parse);
    ContentNeverFails(rest, parse);
    assert ([child] + rest)[0] == child;
    assert ([child] + rest)[1..] == rest;
  }

  /** The `blank` element with no attributes and no children. */
  const BLANK_ELEMENT: Node := Element("blank", [], [])

  /**
   * A card holding indented text, a blank and trailing whitespace: the indent
   * and the trailing whitespace node go, the text and the blank stay.
   */
  lemma TrimmedCard(indent: string, word: string, space: string, parse: string -> Option<real>)
    requires AllWhitespace(indent) && AllWhitespace(space)
    requires word != [] && !IsWhitespace(word[0])
    ensures CardContent(Element("card", [], [TextNode(indent + word), BLANK_ELEMENT, TextNode(space)]), parse)
      == Ok([Plain(word, Owned), Blank])
  {
    var children := [TextNode(indent + word), BLANK_ELEMENT, TextNode(space)];
    assert ToContent(children, parse) == Ok([Plain(indent + word, Owned), Blank, Plain(space, Owned)]) by {
      ThreeChildren(TextNode(indent + word), BLANK_ELEMENT, TextNode(space), parse);
      assert ToMarkup(BLANK_ELEMENT, parse) == Ok(Blank);
    }
    CleanedIndentBlankSpace(indent, word, space, Owned);
  }

  /** Three children convert to their three markups. */
  lemma ThreeChildren(x: Node, y: Node, z: Node, parse: string -> Option<real>)
    ensures ToMarkup(x, parse).Ok? && ToMarkup(y, parse).Ok? && ToMarkup(z, parse).Ok?
    ensures ToContent([x, y, z], parse) == Ok([ToMarkup(x, parse).value, ToMarkup(y, parse).value, ToMarkup(z, parse).value])
  {
    MarkupNeverFails(x, parse);
    MarkupNeverFails(y, parse);
    MarkupNeverFails(z, parse);
    var mx, my, mz := ToMarkup(x, parse).value, ToMarkup(y, parse).value, ToMarkup(z, parse).value;
    assert ToContent([], parse) == Ok([]);
    ToContentCons(z, [], parse);
    assert [z] + [] == [z] && [mz] + [] == [mz];
    assert ToContent([z], parse) == Ok([mz]);
    ToContentCons(y, [z], parse);
    assert [y] + [z] == [y, z] && [my] + [mz] == [my, mz];
    assert ToContent([y, z], parse) == Ok([my, mz]);
    ToContentCons(x, [y, z], parse);
    assert [x] + [y, z] == [x, y, z];
    assert [mx] + [my, mz] == [mx, my, mz];
  }

  /** `trimming`: `<card>` + newline and indent + `Hallo!!!!!<blank/> </card>` displays as `Hallo!!!!!____`. */
  lemma TrimmingExample(parse: string -> Option<real>)
    ensures CardContent(Element("card", [], [TextNode(INDENT + "Hallo!!!!!"), BLANK_ELEMENT, TextNode(" ")]), parse)
      == Ok([Plain("Hallo!!!!!", Owned), Blank])
    ensures ContentString([Plain("Hallo!!!!!", Owned), Blank]) == "Hallo!!!!!____"
  {
    IndentIsWhitespace();
    TrimmedCard(INDENT, "Hallo!!!!!", " ", parse);
    TextThenBlankString("Hallo!!!!!");
  }

  /** Four children convert to their four markups. */
  lemma FourChildren(w: Node, x: Node, y: Node, z: Node, parse: string -> Option<real>)
    ensures ToMarkup(w, parse).Ok? && ToMarkup(x, parse).Ok? && ToMarkup(y, parse).Ok? && ToMarkup(z, parse).Ok?
    ensures ToContent([w, x, y, z], parse) ==
      Ok([ToMarkup(w, parse).value, ToMarkup(x, parse).value, ToMarkup(y, parse).value, ToMarkup(z, parse).value])
  {
    ThreeChildren(x, y, z, parse);
    ToContentCons(w, [x, y, z], parse);
    assert [w] + [x, y, z] == [w, x, y, z];
    var mw, mx, my, mz := ToMarkup(w, parse).value, ToMarkup(x, parse).value, ToMarkup(y, parse).value, ToMarkup(z, parse).value;
    assert [mw] + [mx, my, mz] == [mw, mx, my, mz];
  }

  /**
   * A card holding indented text, a blank, a bottom with one word, and trailing
   * whitespace: only the indent and the whitespace node go.
   */
  lemma BottomCard(indent: string, word: string, bottom: string, space: string, parse: string -> Option<real>)
    requires AllWhitespace(indent) && AllWhitespace(space)
    requires word != [] && !IsWhitespace(word[0])
    requires bottom != [] && !IsWhitespace(bottom[0]) && !IsWhitespace(bottom[|bottom| - 1])
    ensures CardContent(Element("card", [], [TextNode(indent + word), BLANK_ELEMENT,
      Element("bottom", [], [TextNode(bottom)]), TextNode(space)]), parse)
      == Ok([Plain(word, Owned), Blank, Bottom([Plain(bottom, Owned)])])
  {
    BottomChildren(indent + word, bottom, space, parse);
    CleanedIndentBlankBottomSpace(indent, word, bottom, space, Owned);
  }

  /** Before clean-up: a text, `<blank/>`, a `<bottom>` and a text become four nodes in that order. */
  lemma BottomChildren(text: string, bottom: string, space: string, parse: string -> Option<real>)
    ensures ToContent([TextNode(text), BLANK_ELEMENT, Element("bottom", [], [TextNode(bottom)]), TextNode(space)], parse)
      == Ok([Plain(text, Owned), Blank, Bottom([Plain(bottom, Owned)]), Plain(space, Owned)])
  {
    FourChildren(TextNode(text), BLANK_ELEMENT, Element("bottom", [], [TextNode(bottom)]), TextNode(space), parse);
    assert ToMarkup(BLANK_ELEMENT, parse) == Ok(Blank);
    BottomElement(bottom, parse);
  }

  /** A `bottom` element holding one text node. */
  lemma BottomElement(bottom: string, parse: string -> Option<real>)
    ensures ToMarkup(Element("bottom", [], [TextNode(bottom)]), parse) == Ok(Bottom([Plain(bottom, Owned)]))
  {
    TagDispatch("bottom", [], [TextNode(bottom)], parse);
    ToContentCons(TextNode(bottom), [], parse);
    assert [TextNode(bottom)] + [] == [TextNode(bottom)];
    assert ToContent([], parse) == Ok([]);
    assert [Plain(bottom, Owned)] + [] == [Plain(bottom, Owned)];
  }

  /** The indent of the sample cards: a newline and eight spaces. */
  const INDENT: string := "\n        "

  lemma IndentIsWhitespace()
    ensures AllWhitespace(INDENT) && AllWhitespace(" ")
  {
    assert |INDENT| == 9;
  }

  /**
   * `bottom`: the card of indented `ÖÖÖÖÖÖÖÄ???ASD<blank/><bottom>ASDF</bottom>`
   * and a closing indent displays as `ÖÖÖÖÖÖÖÄ???ASD____` + two newlines + `ASDF`.
   */
  lemma BottomExample(parse: string -> Option<real>)
    ensures CardContent(Element("card", [], [TextNode(INDENT + "ÖÖÖÖÖÖÖÄ???ASD"), BLANK_ELEMENT,
      Element("bottom", [], [TextNode("ASDF")]), TextNode(INDENT)]), parse)
      == Ok([Plain("ÖÖÖÖÖÖÖÄ???ASD", Owned), Blank, Bottom([Plain("ASDF", Owned)])])
    ensures ContentString([Plain("ÖÖÖÖÖÖÖÄ???ASD", Owned), Blank, Bottom([Plain("ASDF", Owned)])]) == "ÖÖÖÖÖÖÖÄ???ASD____\n\nASDF"
  {
    IndentIsWhitespace();
    BottomCard(INDENT, "ÖÖÖÖÖÖÖÄ???ASD", "ASDF", INDENT, parse);
    WordBlankBottomDisplay("ÖÖÖÖÖÖÖÄ???ASD", "ASDF");
    BottomLiteral();
  }

  /** A word, a blank and a bottom word display as the word, the placeholder, a blank line and the bottom word. */
  lemma WordBlankBottomDisplay(word: string, bottom: string)
    ensures ContentString([Plain(word, Owned), Blank, Bottom([Plain(bottom, Owned)])]) == word + BLANK + ("\n\n" + bottom)
  {
    ThreeDisplay(Plain(word, Owned), Blank, Bottom([Plain(bottom, Owned)]));
    SingleDisplay(Plain(bottom, Owned));
  }

  lemma BottomLiteral()
    ensures "ÖÖÖÖÖÖÖÄ???ASD" + BLANK + ("\n\n" + "ASDF") == "ÖÖÖÖÖÖÖÄ???ASD____\n\nASDF"
  {
  }

  /** `display`: the three cards of the sample deck as `Display` writes them. */
  lemma SampleCardsDisplay()
    ensures ContentString([Plain("The first card contains a "), Blank, Plain(".")]) == "The first card contains a ____."
    ensures ContentString([Markup.Italic([Blank])]) == "*____*"
    ensures ContentString([Plain("This is "), Markup.Italic([Plain("very")]), Plain(" good.")]) == "This is *very* good."
  {
    ThreeDisplay(Plain("The first card contains a "), Blank, Plain("."));
    FirstSampleLiteral();
    SingleDisplay(Markup.Italic([Blank]));
    SingleDisplay(Blank);
    ThreeDisplay(Plain("This is "), Markup.Italic([Plain("very")]), Plain(" good."));
    SingleDisplay(Plain("very"));
  }

  lemma FirstSampleLiteral()
    ensures "The first card contains a " + BLANK + "." == "The first card contains a ____."
  {
  }
}
