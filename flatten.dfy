/**
 * Flattening a card's markup into plain text plus style annotations
 * (`Card::styled_segments` of `crates/app/src/format.rs`). The pure functions
 * `ContentText` and `ContentAnnots` say what one pass produces; the methods
 * `StyledSegments` and `StyledNode` are the recursive, appending procedure of
 * the source and are proved to produce exactly that.
 *
 * Byte offsets are computed structurally (`NodeWidth`, `ContentWidth`);
 * `WidthIsByteLen` shows they are the UTF-8 lengths of the flattened text,
 * i.e. the `render.len()` values the source reads.
 */
module Flatten {
  import opened Wrappers
  import opened Text
  import opened Markup
  import opened Styles

  /** The text one node appends: `Bottom` appends nothing, at any depth. */
  function NodeText(m: Markup): string
    decreases m, 1
  {
    match m
    case Plain(text, _) => text
    case Blank => BLANK
    case Bottom(_) => ""
    case Italic(content) => ContentText(content)
    case Tiny(content) => ContentText(content)
    case Font(_, _, content) => ContentText(content)
    case Unknown(_, _, content) => ContentText(content)
  }

  /** The flattened text of a content list: its nodes' texts in order. */
  function ContentText(content: seq<Markup>): string
    decreases content, 0
  {
    if content == [] then "" else NodeText(content[0]) + ContentText(content[1..])
  }

  /** The number of bytes a node appends. */
  function NodeWidth(m: Markup): nat
    decreases m, 1
  {
    match m
    case Plain(text, _) => ByteLen(text)
    case Blank => 4
    case Bottom(_) => 0
    case Italic(content) => ContentWidth(content)
    case Tiny(content) => ContentWidth(content)
    case Font(_, _, content) => ContentWidth(content)
    case Unknown(_, _, content) => ContentWidth(content)
  }

  function ContentWidth(content: seq<Markup>): nat
    decreases content, 0
  {
    if content == [] then 0 else NodeWidth(content[0]) + ContentWidth(content[1..])
  }

  /** The widths are the UTF-8 byte lengths of the flattened text. */
  lemma {:induction false} WidthIsByteLen(m: Markup)
    ensures NodeWidth(m) == ByteLen(NodeText(m))
    decreases m, 1
  {
    match m
    case Plain(_, _) =>
    case Blank =>
      TrailingAsciiBytes(BLANK, 0);
      assert BLANK[0..] == BLANK;
    case Bottom(_) =>
    case Italic(content) => ContentWidthIsByteLen(content);
    case Tiny(content) => ContentWidthIsByteLen(content);
    case Font(_, _, content) => ContentWidthIsByteLen(content);
    case Unknown(_, _, content) => ContentWidthIsByteLen(content);
  }

  lemma {:induction false} ContentWidthIsByteLen(content: seq<Markup>)
    ensures ContentWidth(content) == ByteLen(ContentText(content))
    decreases content, 0
  {
    if content != [] {
      WidthIsByteLen(content[0]);
      ContentWidthIsByteLen(content[1..]);
      ByteLenAppend(NodeText(content[0]), ContentText(content[1..]));
    }
  }

  /**
   * The annotations an italic, tiny or font node pushes for the byte range
   * `start..end` its children appended, in push order (a font's family first).
   */
  function OwnAnnots(m: Markup, start: nat, end: nat): seq<StyleAnnotation> {
    match m
    case Italic(_) => [StyleAnnotation(start, end, Styles.Italic)]
    case Tiny(_) => [StyleAnnotation(start, end, Size(0.5))]
    case Font(family, size, _) =>
      (if family.Some? then [StyleAnnotation(start, end, Styles.Font(family.value))] else [])
      + (if size.Some? then [StyleAnnotation(start, end, Size(size.value))] else [])
    case _ => []
  }

  /**
   * The annotations a node emits when the text before it is `base` bytes long:
   * first those of its children, then its own over the bytes its children appended.
   */
  function NodeAnnots(m: Markup, base: nat): seq<StyleAnnotation>
    decreases m, 1
  {
    match m
    case Plain(_, _) => []
    case Blank => []
    case Bottom(_) => []
    case Unknown(_, _, content) => ContentAnnots(content, base)
    case Italic(content) => ContentAnnots(content, base) + OwnAnnots(m, base, base + ContentWidth(content))
    case Tiny(content) => ContentAnnots(content, base) + OwnAnnots(m, base, base + ContentWidth(content))
    case Font(_, _, content) => ContentAnnots(content, base) + OwnAnnots(m, base, base + ContentWidth(content))
  }

  function ContentAnnots(content: seq<Markup>, base: nat): seq<StyleAnnotation>
    decreases content, 0
  {
    if content == [] then []
    else NodeAnnots(content[0], base) + ContentAnnots(content[1..], base + NodeWidth(content[0]))
  }

  lemma {:induction false} ContentTextAppend(a: seq<Markup>, b: seq<Markup>)
    ensures ContentText(a + b) == ContentText(a) + ContentText(b)
  {
    if a == [] {
      assert a + b == b;
    } else {
      assert (a + b)[1..] == a[1..] + b;
      ContentTextAppend(a[1..], b);
    }
  }

  /** Unfolds `ContentAnnots` once at a head node. */
  lemma ContentAnnotsCons(x: Markup, rest: seq<Markup>, base: nat)
    ensures ContentAnnots([x] + rest, base)
         == NodeAnnots(x, base) + ContentAnnots(rest, base + NodeWidth(x))
  {
    assert ([x] + rest)[0] == x;
    assert ([x] + rest)[1..] == rest;
  }

  lemma ContentWidthCons(x: Markup, rest: seq<Markup>)
    ensures ContentWidth([x] + rest) == NodeWidth(x) + ContentWidth(rest)
  {
    assert ([x] + rest)[0] == x;
    assert ([x] + rest)[1..] == rest;
  }

  /** Flattening `a + b` is flattening `a`, then `b` from where `a` ended. */
  lemma {:induction false} ContentAnnotsAppend(a: seq<Markup>, b: seq<Markup>, base: nat)
    ensures ContentAnnots(a + b, base)
         == ContentAnnots(a, base) + ContentAnnots(b, base + ContentWidth(a))
  {
    if a == [] {
      assert a + b == b;
    } else {
      var x, rest := a[0], a[1..];
      var b0 := base + NodeWidth(x);
      assert a == [x] + rest;
      assert a + b == [x] + (rest + b);
      var bRest := b0 + ContentWidth(rest);
      ContentWidthCons(x, rest);
      calc {
        ContentAnnots(a + b, base);
        { ContentAnnotsCons(x, rest + b, base); }
        NodeAnnots(x, base) + ContentAnnots(rest + b, b0);
        { ContentAnnotsAppend(rest, b, b0); }
        NodeAnnots(x, base) + (ContentAnnots(rest, b0) + ContentAnnots(b, bRest));
        (NodeAnnots(x, base) + ContentAnnots(rest, b0)) + ContentAnnots(b, bRest);
        { ContentAnnotsCons(x, rest, base); }
        ContentAnnots(a, base) + ContentAnnots(b, bRest);
      }
    }
  }

  /** `Card::styled_segments`: appends to `render` and `annotations` node by node. */
  method StyledSegments(content: seq<Markup>, render: string, annotations: seq<StyleAnnotation>)
    returns (render': string, annotations': seq<StyleAnnotation>)
    ensures render' == render + ContentText(content)
    ensures annotations' == annotations + ContentAnnots(content, ByteLen(render))
    decreases content, 1
  {
    render', annotations' := render, annotations;
    for i := 0 to |content|
      invariant render' == render + ContentText(content[..i])
      invariant annotations' == annotations + ContentAnnots(content[..i], ByteLen(render))
    {
      ghost var emitted := annotations';
      ByteLenAppend(render, ContentText(content[..i]));
      ContentWidthIsByteLen(content[..i]);
      render', annotations' := StyledNode(content[i], render', annotations');
      assert content[..i + 1] == content[..i] + [content[i]];
      TextStep(content[..i], content[i], render);
      AnnotsStep(content[..i], content[i], ByteLen(render), annotations, emitted, annotations');
    }
    assert content[..|content|] == content;
  }

  /** The closure `styled_segments` applies to each node. */
  method StyledNode(markup: Markup, render: string, annotations: seq<StyleAnnotation>)
    returns (render': string, annotations': seq<StyleAnnotation>)
    ensures render' == render + NodeText(markup)
    ensures annotations' == annotations + NodeAnnots(markup, ByteLen(render))
    decreases markup, 0
  {
    render', annotations' := render, annotations;
    match markup {
      case Plain(text, _) =>
        render' := render' + text;
      case Blank =>
        render' := render' + BLANK;
      case Bottom(_) =>
      case Italic(children) =>
        var start, end;
        render', annotations', start, end := StyledSpan(children, render', annotations');
        ghost var inner := annotations';
        annotations' := annotations' + [StyleAnnotation(start, end, Styles.Italic)];
        OwnStep(markup, start, annotations, inner, annotations');
      case Font(family, size, children) =>
        var start, end;
        render', annotations', start, end := StyledSpan(children, render', annotations');
        ghost var inner := annotations';
        if family.Some? {
          annotations' := annotations' + [StyleAnnotation(start, end, Styles.Font(family.value))];
        }
        ghost var middle := annotations';
        if size.Some? {
          annotations' := annotations' + [StyleAnnotation(start, end, Size(size.value))];
        }
        FontOwn(markup, start, end, inner, middle, annotations');
        OwnStep(markup, start, annotations, inner, annotations');
      case Tiny(children) =>
        var start, end;
        render', annotations', start, end := StyledSpan(children, render', annotations');
        ghost var inner := annotations';
        annotations' := annotations' + [StyleAnnotation(start, end, Size(0.5))];
        OwnStep(markup, start, annotations, inner, annotations');
      case Unknown(_, _, children) =>
        render', annotations' := StyledSegments(children, render', annotations');
    }
  }

  /**
   * `let start = render.len(); styled_segments(content, ..); let end = render.len();`,
   * the prologue an italic, font or tiny node shares: `start..end` is the byte
   * range the children appended.
   */
  method StyledSpan(children: seq<Markup>, render: string, annotations: seq<StyleAnnotation>)
    returns (render': string, annotations': seq<StyleAnnotation>, start: nat, end: nat)
    ensures render' == render + ContentText(children)
    ensures annotations' == annotations + ContentAnnots(children, ByteLen(render))
    ensures start == ByteLen(render) && end == start + ContentWidth(children)
    decreases children, 2
  {
    start := ByteLen(render);
    render', annotations' := StyledSegments(children, render, annotations);
    end := ByteLen(render');
    ByteLenAppend(render, ContentText(children));
    ContentWidthIsByteLen(children);
  }

  /**
   * An italic, tiny or font node starting at byte `b`: the children's pass
   * followed by the node's own annotations over the bytes the children appended.
   */
  lemma OwnStep(m: Markup, b: nat, emitted: seq<StyleAnnotation>,
                inner: seq<StyleAnnotation>, emitted': seq<StyleAnnotation>)
    requires m.Italic? || m.Tiny? || m.Font?
    requires inner == emitted + ContentAnnots(m.content, b)
    requires emitted' == inner + OwnAnnots(m, b, b + ContentWidth(m.content))
    ensures emitted' == emitted + NodeAnnots(m, b)
  {
    var x := ContentAnnots(m.content, b);
    var y := OwnAnnots(m, b, b + ContentWidth(m.content));
    assert NodeAnnots(m, b) == x + y;
    assert (emitted + x) + y == emitted + (x + y);
  }

  /** The two optional pushes of a font node emit its own annotations, family first. */
  lemma FontOwn(m: Markup, start: nat, end: nat, inner: seq<StyleAnnotation>,
                middle: seq<StyleAnnotation>, after: seq<StyleAnnotation>)
    requires m.Font?
    requires middle == inner + (if m.family.Some? then [StyleAnnotation(start, end, Styles.Font(m.family.value))] else [])
    requires after == middle + (if m.size.Some? then [StyleAnnotation(start, end, Size(m.size.value))] else [])
    ensures after == inner + OwnAnnots(m, start, end)
  {
    var f := if m.family.Some? then [StyleAnnotation(start, end, Styles.Font(m.family.value))] else [];
    var z := if m.size.Some? then [StyleAnnotation(start, end, Size(m.size.value))] else [];
    assert OwnAnnots(m, start, end) == f + z;
    assert (inner + f) + z == inner + (f + z);
  }

  /** One iteration of the loop in `StyledSegments`, for the text. */
  lemma TextStep(prefix: seq<Markup>, m: Markup, render: string)
    ensures (render + ContentText(prefix)) + NodeText(m) == render + ContentText(prefix + [m])
  {
    var x, y := ContentText(prefix), NodeText(m);
    assert ContentText(prefix + [m]) == x + y by {
      ContentTextAppend(prefix, [m]);
      assert [m][1..] == [];
      assert ContentText([m]) == y + "" == y;
    }
    assert (render + x) + y == render + (x + y);
  }

  /** One iteration of the loop in `StyledSegments`, for the annotations. */
  lemma AnnotsStep(prefix: seq<Markup>, m: Markup, base: nat,
                   annotations: seq<StyleAnnotation>, emitted: seq<StyleAnnotation>, emitted': seq<StyleAnnotation>)
    requires emitted == annotations + ContentAnnots(prefix, base)
    requires emitted' == emitted + NodeAnnots(m, base + ContentWidth(prefix))
    ensures emitted' == annotations + ContentAnnots(prefix + [m], base)
  {
    var x, y := ContentAnnots(prefix, base), NodeAnnots(m, base + ContentWidth(prefix));
    ContentAnnotsSnoc(prefix, m, base);
    assert (annotations + x) + y == annotations + (x + y);
  }

  /** Flattening one more node appends that node's annotations. */
  lemma ContentAnnotsSnoc(prefix: seq<Markup>, m: Markup, base: nat)
    ensures ContentAnnots(prefix + [m], base)
         == ContentAnnots(prefix, base) + NodeAnnots(m, base + ContentWidth(prefix))
  {
    var at := base + ContentWidth(prefix);
    ContentAnnotsAppend(prefix, [m], base);
    ContentAnnotsCons(m, [], at);
    assert [m] + [] == [m];
  }

  /** Every annotation in `annotations` lies within the byte range `lo..hi`. */
  predicate Within(annotations: seq<StyleAnnotation>, lo: nat, hi: nat) {
    forall k :: 0 <= k < |annotations| ==> lo <= annotations[k].start <= annotations[k].end <= hi
  }

  lemma WithinAppend(a: seq<StyleAnnotation>, b: seq<StyleAnnotation>, lo: nat, hi: nat)
    requires Within(a, lo, hi) && Within(b, lo, hi)
    ensures Within(a + b, lo, hi)
  {
    forall k | 0 <= k < |a + b|
      ensures lo <= (a + b)[k].start <= (a + b)[k].end <= hi
    {
      if k >= |a| {
        assert (a + b)[k] == b[k - |a|];
      }
    }
  }

  lemma WithinWiden(a: seq<StyleAnnotation>, lo: nat, hi: nat, lo': nat, hi': nat)
    requires Within(a, lo, hi) && lo' <= lo && hi <= hi'
    ensures Within(a, lo', hi')
  {
  }

  /** A node's annotations lie within the bytes the node appends. */
  lemma {:induction false} NodeAnnotsWithin(m: Markup, base: nat)
    ensures Within(NodeAnnots(m, base), base, base + NodeWidth(m))
    decreases m, 1
  {
    match m
    case Plain(_, _) =>
    case Blank =>
    case Bottom(_) =>
    case Unknown(_, _, content) =>
      ContentAnnotsWithin(content, base);
    case Italic(content) =>
      ContentAnnotsWithin(content, base);
      SpannedWithin(m, base);
    case Tiny(content) =>
      ContentAnnotsWithin(content, base);
      SpannedWithin(m, base);
    case Font(_, _, content) =>
      ContentAnnotsWithin(content, base);
      SpannedWithin(m, base);
  }

  /** The step of `NodeAnnotsWithin` for a node that annotates its children's range. */
  lemma SpannedWithin(m: Markup, base: nat)
    requires m.Italic? || m.Tiny? || m.Font?
    requires Within(ContentAnnots(m.content, base), base, base + ContentWidth(m.content))
    ensures Within(NodeAnnots(m, base), base, base + NodeWidth(m))
  {
    var end := base + ContentWidth(m.content);
    OwnWithin(m, base, end);
    WithinAppend(ContentAnnots(m.content, base), OwnAnnots(m, base, end), base, end);
    SpannedSplit(m, base);
  }

  lemma SpannedSplit(m: Markup, base: nat)
    requires m.Italic? || m.Tiny? || m.Font?
    ensures NodeAnnots(m, base) == ContentAnnots(m.content, base) + OwnAnnots(m, base, base + ContentWidth(m.content))
    ensures NodeWidth(m) == ContentWidth(m.content)
  {
  }

  /** A node's own annotations cover exactly the range they are given. */
  lemma OwnWithin(m: Markup, start: nat, end: nat)
    requires start <= end
    ensures Within(OwnAnnots(m, start, end), start, end)
  {
  }

  lemma {:induction false} ContentAnnotsWithin(content: seq<Markup>, base: nat)
    ensures Within(ContentAnnots(content, base), base, base + ContentWidth(content))
    decreases content, 0
  {
    if content != [] {
      var b0 := base + NodeWidth(content[0]);
      var hi := base + ContentWidth(content);
      NodeAnnotsWithin(content[0], base);
      ContentAnnotsWithin(content[1..], b0);
      WithinWiden(NodeAnnots(content[0], base), base, b0, base, hi);
      WithinWiden(ContentAnnots(content[1..], b0), b0, hi, base, hi);
      WithinAppend(NodeAnnots(content[0], base), ContentAnnots(content[1..], b0), base, hi);
    }
  }

  /**
   * Every range `styled_segments` produces is a valid slice of the text it
   * produces: `start <= end <= render.len()`.
   */
  lemma AnnotationsInText(content: seq<Markup>)
    ensures Within(ContentAnnots(content, 0), 0, ByteLen(ContentText(content)))
  {
    ContentAnnotsWithin(content, 0);
    ContentWidthIsByteLen(content);
  }

  /** A node `Markup::is_empty` calls empty appends no text. */
  lemma EmptyAppendsNothing(m: Markup)
    requires IsEmpty(m)
    ensures NodeText(m) == "" && NodeWidth(m) == 0
  {
  }

  /** A node built only from text, blanks and fonts, at any depth. */
  predicate Unstyled(m: Markup)
    decreases m, 1
  {
    match m
    case Plain(_, _) => true
    case Blank => true
    case Font(_, _, content) => UnstyledContent(content)
    case _ => false
  }

  predicate UnstyledContent(content: seq<Markup>)
    decreases content, 0
  {
    forall i :: 0 <= i < |content| ==> Unstyled(content[i])
  }

  /**
   * For content without italic, tiny, bottom or unknown nodes the human-readable
   * display and the flattened text agree: both write text verbatim, a blank as
   * the placeholder and a font as its children.
   */
  lemma {:induction false} UnstyledDisplayIsText(m: Markup)
    requires Unstyled(m)
    ensures MarkupString(m) == NodeText(m)
    decreases m, 1
  {
    if m.Font? {
      UnstyledContentDisplayIsText(m.content);
    }
  }

  lemma {:induction false} UnstyledContentDisplayIsText(content: seq<Markup>)
    requires UnstyledContent(content)
    ensures ContentString(content) == ContentText(content)
    decreases content, 0
  {
    if content != [] {
      UnstyledDisplayIsText(content[0]);
      UnstyledContentDisplayIsText(content[1..]);
    }
  }
}
