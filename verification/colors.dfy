/**
 The colour representation shared by the compositor and the normalisation
 step: four exact `real` channels. A colour is "normalised" when every channel
 lies in the closed unit interval, which is the form the compositor expects
 its inputs in and promises its outputs in.
 */
module Colors {

  /** A plain rgba colour. The compositor works on channels in [0,1]; nothing
      in the type enforces that, because the colour-stack library does not
      check it either. */
  datatype Color = Color(r: real, g: real, b: real, a: real)

  /** Fully transparent black, the colour of an empty stack. */
  const TransparentBlack: Color := Color(0.0, 0.0, 0.0, 0.0)

  predicate InUnit(x: real) {
    0.0 <= x <= 1.0
  }

  /** All four channels lie in [0,1]. */
  predicate Normalised(c: Color) {
    InUnit(c.r) && InUnit(c.g) && InUnit(c.b) && InUnit(c.a)
  }

  /** Every colour of a stack is normalised. */
  predicate AllNormalised(cs: seq<Color>) {
    forall i :: 0 <= i < |cs| ==> Normalised(cs[i])
  }

  /** No colour channel exceeds the alpha channel: the shape of every colour
      the blend produces from normalised inputs, since its rgb channels are
      weighted by alpha. */
  predicate ChannelsWithinAlpha(c: Color) {
    c.r <= c.a && c.g <= c.a && c.b <= c.a
  }
}
