/**
 * The bookkeeping of the soft-hyphen text layout builder
 * (`crates/breakshy/src/lib.rs`). A text with soft hyphens (U+00AD) gets
 * one dash layout per piece between them; attributes for the whole text are
 * remembered so that they can also be applied to those dashes. The inner
 * layout builder is opaque: the model records the calls forwarded to it.
 */
module Breakshy {
  import opened Wrappers
  import opened Text

  /** The soft hyphen. */
  const SHY: char := '\U{00AD}'

  /** The largest `usize` on a 64-bit target. */
  const USIZE_MAX: nat := 0xFFFF_FFFF_FFFF_FFFF

  /** `std::ops::Bound` over byte offsets. */
  datatype Bound = Included(at: nat) | Excluded(at: nat) | Unbounded

  /** A `RangeBounds<usize>`, by its two bounds. */
  datatype Range = Range(start: Bound, end: Bound)

  /** Whether the range contains byte offset `i`. */
  predicate Contains(range: Range, i: nat) {
    && (match range.start
        case Included(s) => s <= i
        case Excluded(s) => s < i
        case Unbounded => true)
    && (match range.end
        case Included(e) => i <= e
        case Excluded(e) => i < e
        case Unbounded => true)
  }

  /** The start test of `range_attribute`: the range starts at the first byte. */
  predicate StartsAtBeginning(start: Bound) {
    start == Included(0) || start == Unbounded
  }

  /** `usize` subtraction of 1 as a release build computes it: 0 wraps to the largest value. */
  function WrappingPred(b: nat): (r: nat)
    ensures b > 0 ==> r == b - 1
    ensures b == 0 ==> r == USIZE_MAX
  {
    if b == 0 then USIZE_MAX else b - 1
  }

  /** The end test of `range_attribute` as written: an inclusive end `b` must satisfy `b - 1 >= text_length`. */
  predicate EndReachesEndAsWritten(end: Bound, textLength: nat) {
    match end
    case Included(b) => WrappingPred(b) >= textLength
    case Excluded(b) => b >= textLength
    case Unbounded => true
  }

  /** Whether `range_attribute` as written treats the range as covering the whole text. */
  predicate CoversTextAsWritten(range: Range, textLength: nat) {
    StartsAtBeginning(range.start) && EndReachesEndAsWritten(range.end, textLength)
  }

  /** The end test that matches the bound's meaning: an inclusive end must reach the last byte. */
  predicate EndReachesEnd(end: Bound, textLength: nat) {
    match end
    case Included(b) => b + 1 >= textLength
    case Excluded(b) => b >= textLength
    case Unbounded => true
  }

  /** Whether the range covers the whole text, as the bound test intends. */
  predicate CoversText(range: Range, textLength: nat) {
    StartsAtBeginning(range.start) && EndReachesEnd(range.end, textLength)
  }

  /** On a non-empty text, the corrected test holds exactly when the range contains every byte of it. */
  lemma CoversTextIffContainsAll(range: Range, textLength: nat)
    requires textLength > 0
    ensures CoversText(range, textLength) <==> forall i :: 0 <= i < textLength ==> Contains(range, i)
  {
    if forall i :: 0 <= i < textLength ==> Contains(range, i) {
      assert Contains(range, 0);
      assert Contains(range, textLength - 1);
    }
  }

  /**
   * The test as written misses ranges that do cover the text: `0..=len-1`
   * (exactly the text) and `0..=len` are both forwarded as range attributes.
   * It also takes `0..=0`, which covers one byte, for the whole text,
   * because `0 - 1` wraps around.
   */
  lemma CoversTextAsWrittenMisjudges(textLength: nat)
    requires 2 <= textLength <= USIZE_MAX
    ensures var exact := Range(Included(0), Included(textLength - 1));
      CoversText(exact, textLength) && !CoversTextAsWritten(exact, textLength)
    ensures !CoversTextAsWritten(Range(Included(0), Included(textLength)), textLength)
    ensures var first := Range(Included(0), Included(0));
      CoversTextAsWritten(first, textLength) && !Contains(first, 1)
  {
  }

  /** Both tests agree on exclusive and open ends. */
  lemma CoversTextAgreesOffInclusive(range: Range, textLength: nat)
    requires !range.end.Included?
    ensures CoversTextAsWritten(range, textLength) == CoversText(range, textLength)
  {
  }

  /** A call the builder forwards to the inner layout builder. */
  datatype InnerCall<A> = SetDefault(attribute: A) | SetRange(range: Range, attribute: A)

  /** `BreakingTextLayoutBuilder`: the wrapped builder, its text's length, the dash slots and the attributes kept. */
  class Builder<A> {
    var inner: seq<InnerCall<A>>
    const textLength: nat
    const dashes: seq<Option<string>>
    var defaultAttributes: seq<A>
    var attributes: seq<(Range, A)>

    /** `BreakingTextLayoutBuilder::new`: nothing forwarded and no attributes yet. */
    constructor(textLength: nat, dashes: seq<Option<string>>)
      ensures this.textLength == textLength && this.dashes == dashes
      ensures inner == [] && defaultAttributes == [] && attributes == []
    {
      this.textLength := textLength;
      this.dashes := dashes;
      inner := [];
      defaultAttributes := [];
      attributes := [];
    }

    /** `default_attribute`: remembered in call order, and forwarded. */
    method DefaultAttribute(attribute: A)
      modifies this
      ensures defaultAttributes == old(defaultAttributes) + [attribute]
      ensures inner == old(inner) + [SetDefault(attribute)]
      ensures attributes == old(attributes)
    {
      defaultAttributes := defaultAttributes + [attribute];
      inner := inner + [SetDefault(attribute)];
    }

    /**
     * `range_attribute` as written: a range that `CoversTextAsWritten` judges
     * to span the whole text becomes a default attribute; any other range is
     * forwarded unchanged and not remembered.
     */
    method RangeAttribute(range: Range, attribute: A)
      modifies this
      ensures CoversTextAsWritten(range, textLength) ==>
        defaultAttributes == old(defaultAttributes) + [attribute] &&
        inner == old(inner) + [SetDefault(attribute)]
      ensures !CoversTextAsWritten(range, textLength) ==>
        defaultAttributes == old(defaultAttributes) &&
        inner == old(inner) + [SetRange(range, attribute)]
      ensures attributes == old(attributes)
    {
      if CoversTextAsWritten(range, textLength) {
        DefaultAttribute(attribute);
      } else {
        inner := inner + [SetRange(range, attribute)];
      }
    }

    /**
     * `range_attribute` with the corrected test: exactly a range containing
     * every byte position of the text (`CoversTextIffContainsAll`) becomes a
     * default attribute.
     */
    method RangeAttributeIntended(range: Range, attribute: A)
      modifies this
      ensures CoversText(range, textLength) ==>
        defaultAttributes == old(defaultAttributes) + [attribute] &&
        inner == old(inner) + [SetDefault(attribute)]
      ensures !CoversText(range, textLength) ==>
        defaultAttributes == old(defaultAttributes) &&
        inner == old(inner) + [SetRange(range, attribute)]
      ensures attributes == old(attributes)
    {
      if CoversText(range, textLength) {
        DefaultAttribute(attribute);
      } else {
        inner := inner + [SetRange(range, attribute)];
      }
    }
  }

  /**
   * `new_text_layout`: one dash layout `"-"` per piece of the text between
   * soft hyphens, and the text's length in UTF-8 bytes.
   */
  method NewTextLayout<A>(text: string) returns (b: Builder<A>)
    ensures fresh(b)
    ensures |b.dashes| == Count(text, SHY) + 1
    ensures forall i :: 0 <= i < |b.dashes| ==> b.dashes[i] == Some("-")
    ensures b.textLength == ByteLen(text)
    ensures b.inner == [] && b.defaultAttributes == [] && b.attributes == []
  {
    var pieces := Split(text, SHY);
    b := new Builder(ByteLen(text), seq(|pieces|, _ => Some("-")));
  }

  /** Every soft hyphen takes two bytes, so a text of them alone is twice as long in bytes as in characters. */
  lemma {:induction false} ShyTakesTwoBytes(text: string)
    requires forall i :: 0 <= i < |text| ==> text[i] == SHY
    ensures ByteLen(text) == 2 * |text|
    ensures Count(text, SHY) == |text|
  {
    if text != [] {
      ShyTakesTwoBytes(text[..|text| - 1]);
      ShyTakesTwoBytes(text[1..]);
    }
  }
}
