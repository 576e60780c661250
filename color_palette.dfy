/** The heatmap's intensity classification (void./Shared/Styles/ColorPalette.swift,
    `heatmapColor` and `glowColor`). Colours are the palette's primary colour at
    some opacity, or clear; scores are reals. */
module ColorPalette {

  datatype Color = Clear | Primary(opacity: real)

  /** The opacity bucket of a score: [0,0.2) → 0.1, [0.2,0.4) → 0.3,
      [0.4,0.7) → 0.6; everything else, negative scores included, → 1.0. */
  function HeatmapOpacity(score: real): (opacity: real)
  {
    if 0.0 <= score < 0.2 then 0.1
    else if 0.2 <= score < 0.4 then 0.3
    else if 0.4 <= score < 0.7 then 0.6
    else 1.0
  }

  function HeatmapColor(score: real): (c: Color)
    ensures c.Primary? && c.opacity == HeatmapOpacity(score)
  {
    Primary(HeatmapOpacity(score))
  }

  /** Half-opaque primary above 0.4, clear otherwise. */
  function GlowColor(score: real): (c: Color)
    ensures c != Clear <==> score > 0.4
    ensures c != Clear ==> c == Primary(0.5)
  {
    if score > 0.4 then Primary(0.5) else Clear
  }

  /** Only four opacities occur, each between 0.1 and 1. */
  lemma HeatmapOpacityLevels(score: real)
    ensures HeatmapOpacity(score) in {0.1, 0.3, 0.6, 1.0}
    ensures 0.1 <= HeatmapOpacity(score) <= 1.0
  {
  }

  /** The buckets, stated as the range each opacity is used for. */
  lemma HeatmapOpacityBuckets(score: real)
    ensures HeatmapOpacity(score) == 0.1 <==> 0.0 <= score < 0.2
    ensures HeatmapOpacity(score) == 0.3 <==> 0.2 <= score < 0.4
    ensures HeatmapOpacity(score) == 0.6 <==> 0.4 <= score < 0.7
    ensures HeatmapOpacity(score) == 1.0 <==> score < 0.0 || score >= 0.7
  {
  }

  /** A higher non-negative score is never lighter. */
  lemma HeatmapOpacityMonotone(a: real, b: real)
    requires 0.0 <= a <= b
    ensures HeatmapOpacity(a) <= HeatmapOpacity(b)
  {
  }

  /** A negative score falls through to the default case and is drawn fully opaque. */
  lemma NegativeScoreIsOpaque(score: real)
    requires score < 0.0
    ensures HeatmapOpacity(score) == 1.0
  {
  }

  /** Wherever a tile glows, it is drawn at opacity 0.6 or more. */
  lemma GlowImpliesStrongTile(score: real)
    requires GlowColor(score) != Clear
    ensures HeatmapOpacity(score) >= 0.6
  {
  }

  /** Every score in [0,1] gets one of the four tile shades, and glows exactly
      above 0.4. */
  lemma ScoreRangeShades(score: real)
    requires 0.0 <= score <= 1.0
    ensures HeatmapColor(score) in {Primary(0.1), Primary(0.3), Primary(0.6), Primary(1.0)}
    ensures GlowColor(score) == if score > 0.4 then Primary(0.5) else Clear
  {
  }
}
