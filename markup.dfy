/**
 * The card markup tree of `crates/app/src/format.rs`: the recursive `Markup`
 * sum type, its emptiness test, whitespace trimming of `Plain` nodes and the
 * human-readable `Display`.
 */
module Markup {
  import opened Wrappers
  import opened Text

  /**
   * Whether the text of a `Plain` node is a `Cow::Borrowed` slice of the
   * document or an owned `String`; the two trim differently at the end.
   */
  datatype Cow = Borrowed | Owned

  /**
   * One node of a card's content. `Font.size` is an `f64` in the source; it is
   * carried here as an opaque `real`. A `Plain` node made from a literal is
   * borrowed; the text nodes the XML reader builds are owned.
   */
  datatype Markup =
    | Plain(text: string, cow: Cow := Borrowed)
    | Blank
    | Italic(content: seq<Markup>)
    | Font(family: Option<string>, size: Option<real>, content: seq<Markup>)
    | Tiny(content: seq<Markup>)
    | Bottom(content: seq<Markup>)
    | Unknown(tag: string, attributes: seq<(string, string)>, content: seq<Markup>)

  /** The placeholder a `Blank` stands for, in the display and in the flattened text. */
  const BLANK: string := "____"

  /** `Markup::is_empty`. */
  predicate IsEmpty(m: Markup) {
    match m
    case Plain(text, _) => text == []
    case Blank => false
    case _ => m.content == []
  }

  /**
   * The cases of `is_empty`: a text node is empty exactly when its text is,
   * a blank never is, and every other node exactly when it has no children.
   */
  lemma IsEmptyCases(m: Markup)
    ensures m.Plain? ==> (IsEmpty(m) <==> |m.text| == 0)
    ensures m.Blank? ==> !IsEmpty(m)
    ensures !m.Plain? && !m.Blank? ==> (IsEmpty(m) <==> |m.content| == 0)
  {
  }

  /** What `Markup::trim_start` leaves: only a `Plain` node changes. */
  function TrimmedStart(m: Markup): (r: Markup)
    ensures !m.Plain? ==> r == m
    ensures m.Plain? ==> r.Plain? && r.cow == m.cow && |r.text| <= |m.text| && r.text == m.text[|m.text| - |r.text|..]
    ensures m.Plain? ==> forall i :: 0 <= i < |m.text| - |r.text| ==> IsWhitespace(m.text[i])
    ensures m.Plain? ==> r.text == [] || !IsWhitespace(r.text[0])
  {
    if m.Plain? then Plain(TrimStart(m.text), m.cow) else m
  }

  /** What `Markup::trim_end` is meant to leave: only a `Plain` node changes. */
  function TrimmedEnd(m: Markup): (r: Markup)
    ensures !m.Plain? ==> r == m
    ensures m.Plain? ==> r.Plain? && r.cow == m.cow && |r.text| <= |m.text| && r.text == m.text[..|r.text|]
    ensures m.Plain? ==> forall i :: |r.text| <= i < |m.text| ==> IsWhitespace(m.text[i])
    ensures m.Plain? ==> r.text == [] || !IsWhitespace(r.text[|r.text| - 1])
  {
    if m.Plain? then Plain(TrimEnd(m.text), m.cow) else m
  }

  /**
   * `Markup::trim_start` on an owned string: drains the byte range of the
   * leading whitespace. Byte and character positions agree here because the
   * range removed is exactly the leading whitespace.
   */
  method TrimStartMarkup(m: Markup) returns (r: Markup)
    ensures r == TrimmedStart(m)
  {
    r := m;
    if m.Plain? {
      var s := m.text;
      if |s| > 0 {
        var keep := TrimStart(s);
        s := s[|s| - |keep|..];
      }
      r := Plain(s, m.cow);
    }
  }

  /**
   * What `Markup::trim_end` as written leaves: a borrowed string loses its
   * trailing whitespace, an owned one loses `PopByteCount`'s characters,
   * which is at least that whitespace and, when it holds characters wider
   * than one byte, more.
   */
  function TrimmedEndAsWritten(m: Markup): (r: Markup)
    ensures !m.Plain? ==> r == m
    ensures m.Plain? ==> r.Plain? && r.cow == m.cow && |r.text| <= |TrimEnd(m.text)| && r.text == m.text[..|r.text|]
    ensures m.Plain? && m.cow == Borrowed ==> r == TrimmedEnd(m)
  {
    if m.Plain? && m.cow == Owned then Plain(PopByteCount(m.text), Owned) else TrimmedEnd(m)
  }

  /** With ASCII trailing whitespace the two readings of `trim_end` agree. */
  lemma TrimmedEndAsWrittenAscii(m: Markup)
    requires m.Plain? ==> forall i :: |TrimEnd(m.text)| <= i < |m.text| ==> m.text[i] as int < 0x80
    ensures TrimmedEndAsWritten(m) == TrimmedEnd(m)
  {
    if m.Plain? {
      PopByteCountAscii(m.text);
    }
  }

  /** A text of whitespace only is emptied by `trim_end` as written, owned or borrowed. */
  lemma TrimmedEndAsWrittenWhitespace(s: string, cow: Cow)
    requires AllWhitespace(s)
    ensures TrimmedEndAsWritten(Plain(s, cow)) == Plain([], cow)
  {
    TrimWhitespaceOnly(s);
  }

  /** A text without trailing whitespace is kept by `trim_end` as written, owned or borrowed. */
  lemma TrimmedEndAsWrittenKeeps(s: string, cow: Cow)
    requires s == [] || !IsWhitespace(s[|s| - 1])
    ensures TrimmedEndAsWritten(Plain(s, cow)) == Plain(s, cow)
  {
    TrimEndKeeps(s);
  }

  /** `Markup::trim_end` as written. */
  method TrimEndMarkup(m: Markup) returns (r: Markup)
    ensures r == TrimmedEndAsWritten(m)
  {
    r := m;
    if m.Plain? {
      if m.cow == Borrowed {
        r := Plain(TrimEnd(m.text));
      } else {
        var s := PopTrailingAsWritten(m.text);
        r := Plain(s, Owned);
      }
    }
  }

  /**
   * `Markup::trim_end` with the number of `pop` calls counted in characters,
   * as the trimming intends.
   */
  method TrimEndMarkupIntended(m: Markup) returns (r: Markup)
    ensures r == TrimmedEnd(m)
  {
    r := m;
    if m.Plain? {
      var s := m.text;
      var initial := |s|;
      if initial > 0 {
        var n := initial - |TrimEnd(s)|;
        for k := 0 to n
          invariant s == m.text[..initial - k]
        {
          s := s[..|s| - 1];
        }
      }
      r := Plain(s, m.cow);
    }
  }

  /**
   * The owned-string branch of `trim_end` as written: the loop runs
   * `len() - trim_end().len()` times, a count of BYTES, and each `pop`
   * removes one CHARACTER (a `pop` on an empty string does nothing).
   */
  function PopByteCount(s: string): (r: string)
    ensures |r| <= |TrimEnd(s)| && r == s[..|r|]
  {
    TrimEndBytes(s);
    var n := ByteLen(s) - ByteLen(TrimEnd(s));
    if n >= |s| then [] else s[..|s| - n]
  }

  /** Trimming removes at least as many bytes as characters. */
  lemma TrimEndBytes(s: string)
    ensures ByteLen(s) - ByteLen(TrimEnd(s)) >= |s| - |TrimEnd(s)|
  {
    var r := TrimEnd(s);
    assert r + s[|r|..] == s;
    ByteLenAppend(r, s[|r|..]);
  }

  /** The loop of `trim_end` on an owned string, as written. */
  method PopTrailingAsWritten(s: string) returns (t: string)
    ensures t == PopByteCount(s)
  {
    t := s;
    var initial := ByteLen(s);
    if initial > 0 {
      TrimEndBytes(s);
      var n := initial - ByteLen(TrimEnd(s));
      for k := 0 to n
        invariant t == if k >= |s| then [] else s[..|s| - k]
      {
        if |t| > 0 {
          t := t[..|t| - 1];
        }
      }
    }
  }

  /**
   * With ASCII trailing whitespace the byte count equals the character
   * count, and the loop as written trims exactly the trailing whitespace.
   */
  lemma {:induction false} PopByteCountAscii(s: string)
    requires forall i :: |TrimEnd(s)| <= i < |s| ==> s[i] as int < 0x80
    ensures PopByteCount(s) == TrimEnd(s)
  {
    var r := TrimEnd(s);
    TrailingAsciiBytes(s, |r|);
    ByteLenAppend(r, s[|r|..]);
    assert r + s[|r|..] == s;
  }

  lemma {:induction false} TrailingAsciiBytes(s: string, k: nat)
    requires k <= |s|
    requires forall i :: k <= i < |s| ==> s[i] as int < 0x80
    ensures ByteLen(s[k..]) == |s| - k
  {
    if k < |s| {
      var t := s[k..];
      assert t[..|t| - 1] == s[..|s| - 1][k..];
      TrailingAsciiBytes(s[..|s| - 1], k);
    }
  }

  /**
   * A trailing no-break space (two bytes in UTF-8) makes the loop pop two
   * characters: "Hello" followed by U+00A0 loses its final 'o' as well.
   */
  lemma PopByteCountEatsText()
    ensures TrimEnd("Hello\U{00A0}") == "Hello"
    ensures PopByteCount("Hello\U{00A0}") == "Hell"
  {
    var s := "Hello\U{00A0}";
    assert IsWhitespace(s[5]) && !IsWhitespace(s[4]);
    assert s[..5] == "Hello";
    assert TrimEnd(s) == TrimEnd(s[..5]) == "Hello";
    TrailingAsciiBytes(s[..5], 0);
    assert s[..5][0..] == s[..5];
    assert ByteLen(s) == ByteLen(s[..5]) + Utf8Width(s[5]) == 7;
  }

  /** Display of an attribute list: ` key="value"` per pair, in order. */
  function AttributesString(attributes: seq<(string, string)>): string {
    if attributes == [] then ""
    else " " + attributes[0].0 + "=\"" + attributes[0].1 + "\"" + AttributesString(attributes[1..])
  }

  /** `impl Display for Markup`. */
  function MarkupString(m: Markup): string
    decreases m, 1
  {
    match m
    case Plain(text, _) => text
    case Blank => BLANK
    case Italic(content) => "*" + ContentString(content) + "*"
    case Tiny(content) => "*" + ContentString(content) + "*"
    case Bottom(content) => "\n\n" + ContentString(content)
    case Unknown(tag, attributes, content) =>
      "<" + tag + AttributesString(attributes) + ">" + ContentString(content) + "</" + tag + ">"
    case Font(_, _, content) => ContentString(content)
  }

  /** Each node's display, one after the other (`impl Display for Card`). */
  function ContentString(content: seq<Markup>): string
    decreases content, 0
  {
    if content == [] then "" else MarkupString(content[0]) + ContentString(content[1..])
  }

  /** A text followed by a blank displays as the text and the blank's underscores. */
  lemma TextThenBlankString(text: string)
    ensures ContentString([Plain(text), Blank]) == text + BLANK
  {
    assert [Plain(text), Blank][1..] == [Blank];
    assert [Blank][1..] == [];
  }

  lemma {:induction false} ContentStringAppend(a: seq<Markup>, b: seq<Markup>)
    ensures ContentString(a + b) == ContentString(a) + ContentString(b)
  {
    if a == [] {
      assert a + b == b;
    } else {
      assert (a + b)[1..] == a[1..] + b;
      ContentStringAppend(a[1..], b);
    }
  }

  /** A three-node card displays as its nodes' displays in order. */
  lemma ThreeDisplay(a: Markup, b: Markup, c: Markup)
    ensures ContentString([a, b, c]) == MarkupString(a) + MarkupString(b) + MarkupString(c)
  {
    SingleDisplay(c);
    assert [b, c][1..] == [c];
    assert ContentString([b, c]) == MarkupString(b) + MarkupString(c);
    assert [a, b, c][1..] == [b, c];
  }

  /** A one-node card displays as its node. */
  lemma SingleDisplay(a: Markup)
    ensures ContentString([a]) == MarkupString(a)
  {
    assert [a][1..] == [];
    assert ContentString([]) == "";
  }
}
