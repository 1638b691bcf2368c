/**
 * Card and sheet geometry (`crates/carp/src/dimensions.rs`): the aspect ratio
 * of a card, its parsing from text, and the pixel size of a sheet of cards.
 * `f64` values are `real`s, so rounding is not modelled; an `as u32` cast is
 * the saturating truncation `ToU32`; a quotient whose divisor is zero, which
 * `f64` turns into an infinity, is `None`. Parsing a float is the parameter
 * `parse`.
 */
module Geometry {
  import opened Wrappers
  import opened Text
  import opened Carp

  /** Width over height of a card. */
  datatype AspectRatio = AspectRatio(value: real)

  /** `AspectRatio::new`: the ratio of a width to a height. */
  function New(width: real, height: real): (r: AspectRatio)
    requires height != 0.0
    ensures r.value * height == width
  {
    AspectRatio(width / height)
  }

  predicate IsLandscape(a: AspectRatio) {
    a.value > 1.0
  }

  predicate IsPortrait(a: AspectRatio) {
    a.value <= 1.0
  }

  predicate IsSquare(a: AspectRatio) {
    a.value == 1.0
  }

  predicate IsWiderThan(a: AspectRatio, other: AspectRatio) {
    a.value > other.value
  }

  predicate IsTallerThan(a: AspectRatio, other: AspectRatio) {
    a.value < other.value
  }

  /** Every ratio is landscape or portrait and never both; a square one is portrait. */
  lemma Orientation(a: AspectRatio)
    ensures IsLandscape(a) != IsPortrait(a)
    ensures IsSquare(a) ==> IsPortrait(a) && !IsLandscape(a)
  {
  }

  /** Being wider than another ratio is the other being taller; no ratio is both against the same one. */
  lemma WiderTallerDual(a: AspectRatio, b: AspectRatio)
    ensures IsWiderThan(a, b) <==> IsTallerThan(b, a)
    ensures !(IsWiderThan(a, b) && IsTallerThan(a, b))
    ensures !IsWiderThan(a, a) && !IsTallerThan(a, a)
  {
  }

  /** A card of positive height is landscape exactly when it is wider than tall. */
  lemma NewLandscapeIff(width: real, height: real)
    requires height > 0.0
    ensures IsLandscape(New(width, height)) <==> width > height
    ensures IsSquare(New(width, height)) <==> width == height
  {
    var r := New(width, height).value;
    if r > 1.0 {
      assert r * height > 1.0 * height;
    } else if r < 1.0 {
      assert r * height < 1.0 * height;
    }
  }

  /** The error of a single number that does not parse. */
  function FloatMessage(s: string): string {
    "invalid aspect ratio: " + s + " (could not parse as float)"
  }

  /** The error of a width that does not parse. */
  function WidthMessage(s: string): string {
    "Invalid aspect ratio: " + s + " (could not parse width)"
  }

  /** The error of a height that does not parse. */
  function HeightMessage(s: string): string {
    "Invalid aspect ratio: " + s + " (could not parse height)"
  }

  /** The error of more than one `/`. The misspelling is the source's. */
  function PartsMessage(s: string): string {
    "cannot parse an aspec ratio from this: " + s
  }

  /**
   * The inputs whose ratio is a finite `f64`: a `width/height` text whose
   * height parses as zero gives an infinite or undefined ratio, which a
   * `real` cannot hold.
   */
  predicate FiniteRatio(s: string, parse: string -> Option<real>) {
    var parts := Split(s, '/');
    |parts| == 2 && parse(Trim(parts[1])).Some? ==> parse(Trim(parts[1])).value != 0.0
  }

  /**
   * `impl FromStr for AspectRatio`: split on `/`; one part is the ratio
   * itself, two parts are the width and the height (the width is parsed
   * first), more parts are an error. Each part is trimmed before parsing.
   */
  function FromStr(s: string, parse: string -> Option<real>): (r: Result<AspectRatio, string>)
    requires FiniteRatio(s, parse)
    ensures Count(s, '/') == 0 ==>
      (r.Ok? <==> parse(Trim(s)).Some?) &&
      (r.Ok? ==> r.value.value == parse(Trim(s)).value) &&
      (r.Err? ==> r.error == FloatMessage(s))
    ensures Count(s, '/') == 1 ==>
      var parts := Split(s, '/');
      (r.Ok? <==> parse(Trim(parts[0])).Some? && parse(Trim(parts[1])).Some?) &&
      (r.Ok? ==> (parse(Trim(parts[1])).value != 0.0 &&
        r.value == New(parse(Trim(parts[0])).value, parse(Trim(parts[1])).value))) &&
      (parse(Trim(parts[0])).None? ==> r == Err(WidthMessage(s))) &&
      (parse(Trim(parts[0])).Some? && parse(Trim(parts[1])).None? ==> r == Err(HeightMessage(s)))
    ensures Count(s, '/') >= 2 ==> r == Err(PartsMessage(s))
  {
    var parts := Split(s, '/');
    if |parts| == 1 then
      match parse(Trim(parts[0]))
      case Some(x) => Ok(AspectRatio(x))
      case None => Err(FloatMessage(s))
    else if |parts| == 2 then
      match parse(Trim(parts[0]))
      case None => Err(WidthMessage(s))
      case Some(width) =>
        match parse(Trim(parts[1]))
        case None => Err(HeightMessage(s))
        case Some(height) => Ok(New(width, height))
    else
      Err(PartsMessage(s))
  }

  /** A `width/height` text reads as the ratio of its two numbers. */
  lemma FromStrFraction(width: string, height: string, w: real, h: real, parse: string -> Option<real>)
    requires '/' !in width && '/' !in height
    requires parse(Trim(width)) == Some(w) && parse(Trim(height)) == Some(h) && h != 0.0
    ensures FiniteRatio(width + "/" + height, parse)
    ensures FromStr(width + "/" + height, parse) == Ok(New(w, h))
  {
    FractionParts(width, height);
  }

  /** A text with one `/` splits into what is before and what is after it. */
  lemma FractionParts(width: string, height: string)
    requires '/' !in width && '/' !in height
    ensures Split(width + "/" + height, '/') == [width, height]
  {
    SplitPrefix(width, height, '/');
    SplitNoSeparator(height, '/');
  }

  /** A text without `/` reads as one number. */
  lemma FromStrSingle(s: string, x: real, parse: string -> Option<real>)
    requires '/' !in s && parse(Trim(s)) == Some(x)
    ensures FiniteRatio(s, parse)
    ensures FromStr(s, parse) == Ok(AspectRatio(x))
  {
    SplitNoSeparator(s, '/');
  }

  /** The largest `u32`. */
  const U32_MAX: nat := 0xFFFF_FFFF

  /** `x as u32` for a finite `x`: truncated toward zero, saturating at both ends of the `u32` range. */
  function ToU32(x: real): (n: nat)
    ensures n <= U32_MAX
    ensures 0.0 <= x < (U32_MAX + 1) as real ==> n as real <= x < n as real + 1.0
    ensures x < 1.0 ==> n == 0
    ensures x >= U32_MAX as real ==> n == U32_MAX
  {
    if x <= 0.0 then 0 else if x >= U32_MAX as real then U32_MAX else x.Floor
  }

  /** A card size in logical units. */
  datatype Size = Size(width: real, height: real)

  /**
   * `Dimensions`: the sheet's pixel height and width, the card's logical size
   * (`None` where it is infinite because the pixel scale is zero) and the
   * pixel scale.
   */
  datatype Dimensions = Dimensions(height: nat, width: nat, card: Option<Size>, pixScale: real)

  /** An `f64` quotient, `None` where the divisor is zero and the quotient infinite. */
  function Quotient(a: real, b: real): (q: Option<real>)
    ensures q.None? <==> b == 0.0
    ensures q.Some? ==> q.value * b == a
  {
    if b == 0.0 then None else Some(a / b)
  }

  /** A card size from its width, the height following from the ratio. */
  function FromWidth(width: Option<real>, ratio: real): (size: Option<Size>)
    requires ratio != 0.0
    ensures size.Some? <==> width.Some?
    ensures size.Some? ==> size.value.width == width.value && size.value.height * ratio == width.value
  {
    match width
    case None => None
    case Some(w) => Some(Size(w, w / ratio))
  }

  /** A card size from its height, the width following from the ratio. */
  function FromHeight(height: Option<real>, ratio: real): (size: Option<Size>)
    ensures size.Some? <==> height.Some?
    ensures size.Some? ==> size.value.height == height.value && size.value.width == height.value * ratio
  {
    match height
    case None => None
    case Some(h) => Some(Size(h * ratio, h))
  }

  /** The sheet driven by its width: `max_side` columns of pixels, the height following from the ratio. */
  function WidthDriven(maxSide: nat, ratio: real): (d: Dimensions)
    requires ratio > 0.0
    ensures d.width == maxSide
    ensures d.height == ToU32(maxSide as real / COLUMNS as real / ratio * ROWS as real)
    ensures d.pixScale * BASE_RESOLUTION as real == d.height as real
  {
    var height := ToU32(maxSide as real / COLUMNS as real / ratio * ROWS as real);
    var pixScale := height as real / BASE_RESOLUTION as real;
    Dimensions(height, maxSide, FromWidth(Quotient(BASE_RESOLUTION as real / COLUMNS as real, pixScale), ratio), pixScale)
  }

  /** The sheet driven by its height: `max_side` rows of pixels, the width following from the ratio. */
  function HeightDriven(maxSide: nat, ratio: real): (d: Dimensions)
    ensures d.height == maxSide
    ensures d.width == ToU32(maxSide as real / ROWS as real * ratio * COLUMNS as real)
    ensures d.pixScale * BASE_RESOLUTION as real == d.width as real
  {
    var width := ToU32(maxSide as real / ROWS as real * ratio * COLUMNS as real);
    var pixScale := width as real / BASE_RESOLUTION as real;
    Dimensions(maxSide, width, FromHeight(Quotient(BASE_RESOLUTION as real / ROWS as real, pixScale), ratio), pixScale)
  }

  /** The square power-of-two sheet of the base ratio. */
  function Square(maxSide: nat): (d: Dimensions)
    ensures d.height == maxSide && d.width == maxSide
    ensures d.pixScale * BASE_RESOLUTION as real == maxSide as real
  {
    Dimensions(maxSide, maxSide,
      Some(Size(BASE_RESOLUTION as real / COLUMNS as real, BASE_RESOLUTION as real / ROWS as real)),
      maxSide as real / BASE_RESOLUTION as real)
  }

  /**
   * `Dimensions::new` as written: a ratio wider than the base ratio drives
   * the sheet by its width, the base ratio gives the square sheet, any other
   * ratio drives the sheet by its height.
   */
  function NewDimensions(maxSide: nat, ratio: AspectRatio): (d: Dimensions)
    requires maxSide <= U32_MAX
    ensures IsWiderThan(ratio, AspectRatio(BASE_ASPECT_RATIO)) ==> d == WidthDriven(maxSide, ratio.value)
    ensures ratio.value == BASE_ASPECT_RATIO ==> d == Square(maxSide)
    ensures ratio.value < BASE_ASPECT_RATIO ==> d == HeightDriven(maxSide, ratio.value)
  {
    if IsWiderThan(ratio, AspectRatio(BASE_ASPECT_RATIO)) then WidthDriven(maxSide, ratio.value)
    else if ratio == AspectRatio(BASE_ASPECT_RATIO) then Square(maxSide)
    else HeightDriven(maxSide, ratio.value)
  }

  /**
   * The driving side is `max_side` and the other side is the truncation of
   * what the ratio makes of it: the sheet holds `ROWS` by `COLUMNS` cards of
   * the given ratio, up to less than one pixel.
   */
  lemma DrivenSides(maxSide: nat, ratio: real)
    requires 0 < maxSide <= U32_MAX && ratio > 0.0
    ensures var d := WidthDriven(maxSide, ratio);
      var exact := maxSide as real * ROWS as real / (COLUMNS as real * ratio);
      exact < (U32_MAX + 1) as real ==> d.height as real <= exact < d.height as real + 1.0
    ensures var d := HeightDriven(maxSide, ratio);
      var exact := maxSide as real * ratio * COLUMNS as real / ROWS as real;
      exact < (U32_MAX + 1) as real ==> d.width as real <= exact < d.width as real + 1.0
  {
    assert maxSide as real / COLUMNS as real / ratio * ROWS as real
      == maxSide as real * ROWS as real / (COLUMNS as real * ratio);
    assert maxSide as real / ROWS as real * ratio * COLUMNS as real
      == maxSide as real * ratio * COLUMNS as real / ROWS as real;
  }

  /** Off the square sheet the logical card keeps the requested ratio, wherever it is finite. */
  lemma CardKeepsRatio(maxSide: nat, ratio: AspectRatio)
    requires maxSide <= U32_MAX && ratio.value != BASE_ASPECT_RATIO
    ensures var d := NewDimensions(maxSide, ratio);
      d.card.Some? ==> d.card.value.width == d.card.value.height * ratio.value
  {
  }

  /**
   * The square sheet's card is a tenth of the base resolution wide and a
   * seventh high: its ratio is `COLUMNS`-to-`ROWS` 0.7, not the base ratio.
   */
  lemma SquareCardRatio(maxSide: nat)
    requires maxSide <= U32_MAX
    ensures NewDimensions(maxSide, AspectRatio(BASE_ASPECT_RATIO)).card.Some?
    ensures var c := NewDimensions(maxSide, AspectRatio(BASE_ASPECT_RATIO)).card.value;
      c.width == c.height * 0.7 && c.width != c.height * BASE_ASPECT_RATIO
  {
  }

  /**
   * As written, a card ratio between the base ratio and 0.7 makes the sheet
   * taller than `max_side`: 4096 pixels and a ratio of 0.695 give a sheet
   * 4125 pixels high. The width-driven branch is meant for sheets wider than
   * tall, that is for `COLUMNS * ratio > ROWS`.
   */
  lemma MaxSideExceeded()
    ensures IsWiderThan(AspectRatio(0.695), AspectRatio(BASE_ASPECT_RATIO))
    ensures NewDimensions(4096, AspectRatio(0.695)).height == 4125
  {
    var x := 4096.0 / 10.0 / 0.695 * 7.0;
    assert 4125.0 <= x < 4126.0;
    assert x.Floor == 4125;
  }

  /** The unrounded height exceeds `max_side` for every ratio strictly between the base ratio and 0.7. */
  lemma TallerThanMaxSide(maxSide: nat, ratio: real)
    requires 0 < maxSide && BASE_ASPECT_RATIO < ratio < 0.7
    ensures maxSide as real / COLUMNS as real / ratio * ROWS as real > maxSide as real
  {
    var x := maxSide as real / COLUMNS as real / ratio * ROWS as real;
    assert x * ratio == maxSide as real * 0.7;
    assert maxSide as real * 0.7 > maxSide as real * ratio;
  }

  /** The ratio of a sheet that is exactly as wide as it is tall: `ROWS` over `COLUMNS`. */
  const SQUARE_SHEET_RATIO: real := ROWS as real / COLUMNS as real

  /**
   * `Dimensions::new` with the width-driven branch taken exactly for sheets
   * wider than tall; the base ratio, narrower than that, still gets the
   * square sheet.
   */
  function NewDimensionsFitted(maxSide: nat, ratio: AspectRatio): (d: Dimensions)
    requires maxSide <= U32_MAX
    ensures d.height <= maxSide && d.width <= maxSide
    ensures d.height == maxSide || d.width == maxSide
  {
    if ratio.value > SQUARE_SHEET_RATIO then
      FitsWhenWider(maxSide, ratio.value);
      WidthDriven(maxSide, ratio.value)
    else if ratio == AspectRatio(BASE_ASPECT_RATIO) then Square(maxSide)
    else
      FitsWhenNarrower(maxSide, ratio.value);
      HeightDriven(maxSide, ratio.value)
  }

  lemma FitsWhenWider(maxSide: nat, ratio: real)
    requires maxSide <= U32_MAX && ratio > SQUARE_SHEET_RATIO
    ensures WidthDriven(maxSide, ratio).height <= maxSide
  {
    var x := maxSide as real / COLUMNS as real / ratio * ROWS as real;
    assert x * ratio == maxSide as real * 0.7;
    assert maxSide as real * 0.7 <= maxSide as real * ratio;
    assert x <= maxSide as real;
  }

  lemma FitsWhenNarrower(maxSide: nat, ratio: real)
    requires maxSide <= U32_MAX && ratio <= SQUARE_SHEET_RATIO
    ensures HeightDriven(maxSide, ratio).width <= maxSide
  {
    var x := maxSide as real / ROWS as real * ratio * COLUMNS as real;
    assert x == maxSide as real * (ratio / 0.7);
    if ratio > 0.0 {
      assert ratio / 0.7 <= 1.0;
      assert maxSide as real * (ratio / 0.7) <= maxSide as real * 1.0;
    }
  }
}
