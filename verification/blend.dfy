/**
 The "normal" (source-over) blend of one colour drawn over another, exactly as
 the colour-stack compositor writes it:

   r' = top.r * top.a + bottom.r * bottom.a * (1 - top.a)     (and g, b alike)
   a' = top.a + bottom.a * (1 - top.a)

 The rgb result is not divided back by a', so a blended colour carries
 alpha-weighted channels. The lemmas below state what this formula does and
 does not promise.
 */
module Blending {
  import opened Colors

  /** One blended rgb channel. */
  function Channel(bottomC: real, bottomA: real, topC: real, topA: real): (c: real) {
    topC * topA + bottomC * bottomA * (1.0 - topA)
  }

  /** Draws `top` over `bottom`. An opaque top hides the bottom completely. */
  function Blend(bottom: Color, top: Color): (r: Color)
    ensures top.a == 1.0 ==> r == Color(top.r, top.g, top.b, 1.0)
  {
    Color(Channel(bottom.r, bottom.a, top.r, top.a),
          Channel(bottom.g, bottom.a, top.g, top.a),
          Channel(bottom.b, bottom.a, top.b, top.a),
          top.a + bottom.a * (1.0 - top.a))
  }

  /** The light let through by a blend is the product of the light let
      through by the two layers. */
  lemma BlendAlpha(bottom: Color, top: Color)
    ensures 1.0 - Blend(bottom, top).a == (1.0 - bottom.a) * (1.0 - top.a)
  {
  }

  /** A product of a unit-interval factor and a non-negative number stays
      between zero and that number. */
  lemma ScaleWithin(x: real, y: real)
    requires InUnit(x) && 0.0 <= y
    ensures 0.0 <= x * y <= y
  {
    assert y - x * y == (1.0 - x) * y;
  }

  /** Bounds of one blended channel, given unit-interval inputs. */
  lemma ChannelWithin(bc: real, ba: real, tc: real, ta: real)
    requires InUnit(bc) && InUnit(ba) && InUnit(tc) && InUnit(ta)
    ensures 0.0 <= Channel(bc, ba, tc, ta) <= ta + ba * (1.0 - ta)
  {
    var hidden := ba * (1.0 - ta);
    ScaleWithin(tc, ta);
    ScaleWithin(ba, 1.0 - ta);
    ScaleWithin(bc, hidden);
    assert bc * ba * (1.0 - ta) == bc * hidden;
    var shown := tc * ta;
    var seen := bc * hidden;
    assert Channel(bc, ba, tc, ta) == shown + seen;
    assert shown <= ta;
    assert 0.0 <= hidden;
    assert seen <= hidden;
    assert shown + seen <= ta + hidden;
  }

  /** Blending two normalised colours gives a normalised colour whose rgb
      channels never exceed its alpha, and whose alpha is at least the alpha
      of either input: the output is in the same format as the inputs and
      adding a layer never makes the result more transparent. */
  lemma BlendStaysNormalised(bottom: Color, top: Color)
    requires Normalised(bottom) && Normalised(top)
    ensures Normalised(Blend(bottom, top))
    ensures ChannelsWithinAlpha(Blend(bottom, top))
    ensures bottom.a <= Blend(bottom, top).a
    ensures top.a <= Blend(bottom, top).a
  {
    var r := Blend(bottom, top);
    BlendAlphaWithin(bottom, top);
    BlendChannelWithin(bottom, top, r.r, bottom.r, top.r);
    BlendChannelWithin(bottom, top, r.g, bottom.g, top.g);
    BlendChannelWithin(bottom, top, r.b, bottom.b, top.b);
  }

  /** One rgb channel of a blend of normalised colours lies between zero and
      the blended alpha. */
  lemma BlendChannelWithin(bottom: Color, top: Color, c: real, bc: real, tc: real)
    requires Normalised(bottom) && Normalised(top) && InUnit(bc) && InUnit(tc)
    requires c == Channel(bc, bottom.a, tc, top.a)
    ensures 0.0 <= c <= Blend(bottom, top).a
  {
    ChannelWithin(bc, bottom.a, tc, top.a);
  }

  /** The blended alpha lies between the larger input alpha and one. */
  lemma BlendAlphaWithin(bottom: Color, top: Color)
    requires InUnit(bottom.a) && InUnit(top.a)
    ensures bottom.a <= Blend(bottom, top).a <= 1.0
    ensures top.a <= Blend(bottom, top).a
  {
    BlendAlphaAtMostOne(bottom, top);
    BlendAlphaCoversBottom(bottom, top);
    BlendAlphaCoversTop(bottom, top);
  }

  lemma BlendAlphaAtMostOne(bottom: Color, top: Color)
    requires InUnit(bottom.a) && InUnit(top.a)
    ensures Blend(bottom, top).a <= 1.0
  {
    BlendAlpha(bottom, top);
    ScaleWithin(1.0 - bottom.a, 1.0 - top.a);
  }

  lemma BlendAlphaCoversBottom(bottom: Color, top: Color)
    requires InUnit(bottom.a) && InUnit(top.a)
    ensures bottom.a <= Blend(bottom, top).a
  {
    var extra := top.a * (1.0 - bottom.a);
    ScaleWithin(top.a, 1.0 - bottom.a);
    assert Blend(bottom, top).a - bottom.a == extra;
  }

  lemma BlendAlphaCoversTop(bottom: Color, top: Color)
    requires InUnit(bottom.a) && InUnit(top.a)
    ensures top.a <= Blend(bottom, top).a
  {
    assert Blend(bottom, top).a == top.a + bottom.a * (1.0 - top.a);
    ScaleWithin(bottom.a, 1.0 - top.a);
  }

  /** A fully transparent top layer does not leave the bottom unchanged in
      general: the bottom's rgb comes back multiplied by its own alpha. */
  lemma TransparentTopPremultipliesBottom(bottom: Color, top: Color)
    requires top.a == 0.0
    ensures Blend(bottom, top)
         == Color(bottom.r * bottom.a, bottom.g * bottom.a, bottom.b * bottom.a, bottom.a)
  {
  }

  /** Over an opaque bottom a fully transparent top is a no-op. */
  lemma TransparentTopOverOpaque(bottom: Color, top: Color)
    requires top.a == 0.0 && bottom.a == 1.0
    ensures Blend(bottom, top) == bottom
  {
  }

  /** A channel scaled by a factor other than one is unchanged only when it
      is zero. */
  lemma ZeroFactor(x: real, a: real)
    requires x * a == x && a != 1.0
    ensures x == 0.0
  {
    assert x * (a - 1.0) == 0.0;
  }

  /** A fully transparent top leaves the bottom unchanged exactly when the
      bottom is opaque or black. */
  lemma TransparentTopKeepsBottomIff(bottom: Color, top: Color)
    requires top.a == 0.0
    ensures Blend(bottom, top) == bottom
        <==> bottom.a == 1.0 || (bottom.r == 0.0 && bottom.g == 0.0 && bottom.b == 0.0)
  {
    TransparentTopPremultipliesBottom(bottom, top);
    if Blend(bottom, top) == bottom && bottom.a != 1.0 {
      KeptChannelIsZero(bottom, top, bottom.r, Blend(bottom, top).r);
      KeptChannelIsZero(bottom, top, bottom.g, Blend(bottom, top).g);
      KeptChannelIsZero(bottom, top, bottom.b, Blend(bottom, top).b);
    }
  }

  /** Under a transparent top, a channel of a translucent bottom survives
      unchanged only when it is zero. */
  lemma KeptChannelIsZero(bottom: Color, top: Color, x: real, y: real)
    requires top.a == 0.0 && bottom.a != 1.0
    requires y == Channel(x, bottom.a, 0.0, top.a)
    requires y == x
    ensures x == 0.0
  {
    assert y == x * bottom.a;
    ZeroFactor(x, bottom.a);
  }

  /** A concrete stack where the "no-op" reading fails: a transparent layer
      over half-transparent red halves the red channel. */
  lemma TransparentTopDarkensTranslucentBottom()
    ensures Blend(Color(1.0, 0.0, 0.0, 0.5), TransparentBlack) == Color(0.5, 0.0, 0.0, 0.5)
    ensures Blend(Color(1.0, 0.0, 0.0, 0.5), TransparentBlack) != Color(1.0, 0.0, 0.0, 0.5)
  {
  }

  /** The blend is order sensitive: half-transparent red over half-transparent
      blue differs from the other way round. */
  lemma BlendNotCommutative()
    ensures Blend(Color(1.0, 0.0, 0.0, 0.5), Color(0.0, 0.0, 1.0, 0.5))
         == Color(0.25, 0.0, 0.5, 0.75)
    ensures Blend(Color(0.0, 0.0, 1.0, 0.5), Color(1.0, 0.0, 0.0, 0.5))
         == Color(0.5, 0.0, 0.25, 0.75)
  {
  }
}
