/**
 * The library-wide constants and enums of `carp/src/lib.rs`: the sheet grid,
 * the base resolution and card aspect ratio, the side of a card and whether
 * the backs of a deck are shared.
 */
module Carp {

  /** Pixels along the driving side of a sheet at scale 1. */
  const BASE_RESOLUTION: nat := 4096
  /** Width over height of a card (an `f64` in the source). */
  const BASE_ASPECT_RATIO: real := 5.0 / 7.2
  const ROWS: nat := 7
  const COLUMNS: nat := 10
  /** Cards on one sheet. */
  const PER_SHEET: nat := ROWS * COLUMNS

  /**
   * A sheet holds 70 cards, and the base card ratio is narrower than the
   * ratio 0.7 at which a 10 by 7 grid of cards is exactly square.
   */
  lemma GridConstants()
    ensures PER_SHEET == 70
    ensures BASE_ASPECT_RATIO < ROWS as real / COLUMNS as real
  {
  }

  datatype Side = Front | Back

  /** `impl Display for Side`. */
  function SideName(side: Side): string {
    match side
    case Front => "front"
    case Back => "back"
  }

  /** Distinct sides display differently. */
  lemma SideNameInjective(a: Side, b: Side)
    requires SideName(a) == SideName(b)
    ensures a == b
  {
  }

  /** One back for the whole deck, or one per card. */
  datatype Backside = Shared | Unique

  /** `#[default]` of `Backside`. */
  const DEFAULT_BACKSIDE: Backside := Shared

  /** `impl Display for Backside`. */
  function BacksideName(back: Backside): string {
    match back
    case Shared => "shared"
    case Unique => "unique"
  }
}
