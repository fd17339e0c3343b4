/**
 The colour-stack pipeline around the compositor: every element's parsed
 background colour (rgb in 0..255, alpha in [0,1]) is normalised into [0,1],
 and the resulting stack, outermost ancestor first, is flattened into the
 effective background colour of the target element.

 Walking the element's ancestors, reading each computed background-color and
 parsing it are done by the host page and a colour library; here they are
 replaced by the sequence of parsed samples they produce.
 */
module ColorStack {
  import opened Colors
  import opened Flattening

  /** A parsed colour as the colour library reports it: integer rgb channels
      meant to lie in 0..255 and an alpha meant to lie in [0,1]. */
  datatype RgbSample = RgbSample(r: int, g: int, b: int, a: real)

  predicate ByteChannel(x: int) {
    0 <= x <= 255
  }

  /** The ranges the colour library guarantees for a parsed colour. */
  predicate ValidSample(s: RgbSample) {
    ByteChannel(s.r) && ByteChannel(s.g) && ByteChannel(s.b) && InUnit(s.a)
  }

  /** Scales rgb from 0..255 into [0,1] and passes alpha through. */
  function Normalise(s: RgbSample): (c: Color)
    ensures c.a == s.a
    ensures ValidSample(s) ==> Normalised(c)
    ensures c.r * 255.0 == s.r as real && c.g * 255.0 == s.g as real && c.b * 255.0 == s.b as real
  {
    Color(s.r as real / 255.0, s.g as real / 255.0, s.b as real / 255.0, s.a)
  }

  /** The inverse scaling, from [0,1] back to whole 0..255 channels (rounding
      down). */
  function Denormalise(c: Color): (s: RgbSample) {
    RgbSample((c.r * 255.0).Floor, (c.g * 255.0).Floor, (c.b * 255.0).Floor, c.a)
  }

  /** Normalising loses nothing: scaling back recovers the parsed sample. */
  lemma DenormaliseNormalise(s: RgbSample)
    ensures Denormalise(Normalise(s)) == s
  {
    var c := Normalise(s);
    assert c.r * 255.0 == s.r as real;
    assert c.g * 255.0 == s.g as real;
    assert c.b * 255.0 == s.b as real;
  }

  /** Two samples normalise to the same colour only if they are equal. */
  lemma NormaliseInjective(s: RgbSample, t: RgbSample)
    ensures Normalise(s) == Normalise(t) <==> s == t
  {
    if Normalise(s) == Normalise(t) {
      DenormaliseNormalise(s);
      DenormaliseNormalise(t);
    }
  }

  /** One normalised colour per element, in the same order. */
  function ColorStackOf(samples: seq<RgbSample>): (cs: seq<Color>)
    ensures |cs| == |samples|
    ensures forall i :: 0 <= i < |samples| ==> cs[i] == Normalise(samples[i])
  {
    if |samples| == 0 then [] else [Normalise(samples[0])] + ColorStackOf(samples[1..])
  }

  /** Samples within the library's ranges give a stack of normalised colours. */
  lemma ColorStackOfValid(samples: seq<RgbSample>)
    requires forall i :: 0 <= i < |samples| ==> ValidSample(samples[i])
    ensures AllNormalised(ColorStackOf(samples))
  {
  }

  /** The effective background colour of the target: the flattened stack of
      normalised samples, outermost ancestor first. With no elements it is
      transparent black; an opaque target shows only its own colour. */
  function GetBgColor(samples: seq<RgbSample>): (c: Color)
    ensures |samples| == 0 ==> c == TransparentBlack
    ensures 0 < |samples| && samples[|samples| - 1].a == 1.0 ==> c == Normalise(samples[|samples| - 1])
  {
    Flatten(ColorStackOf(samples))
  }

  /** Parsed colours in the library's ranges give an effective colour with
      every channel in [0,1]. */
  lemma GetBgColorNormalised(samples: seq<RgbSample>)
    requires forall i :: 0 <= i < |samples| ==> ValidSample(samples[i])
    ensures Normalised(GetBgColor(samples))
  {
    ColorStackOfValid(samples);
    FlattenStaysNormalised(ColorStackOf(samples));
  }

  /** When the target's own background is opaque, the result is that colour
      scaled into [0,1] at full alpha, whatever its ancestors are. */
  lemma OpaqueTargetWins(samples: seq<RgbSample>)
    requires 0 < |samples| && samples[|samples| - 1].a == 1.0
    ensures GetBgColor(samples) == Normalise(samples[|samples| - 1])
    ensures GetBgColor(samples).a == 1.0
  {
  }

  /** A page of nothing but transparent black backgrounds gives transparent
      black. */
  lemma AllTransparentGivesTransparent(samples: seq<RgbSample>)
    requires forall s <- samples :: s == RgbSample(0, 0, 0, 0.0)
    ensures GetBgColor(samples) == TransparentBlack
  {
    var cs := ColorStackOf(samples);
    assert forall i :: 0 <= i < |cs| ==> cs[i] == TransparentBlack by {
      forall i | 0 <= i < |cs| ensures cs[i] == TransparentBlack {
        assert samples[i] in samples;
      }
    }
    TransparentStackIsTransparent(ColorStackOf(samples));
  }

  /** Opaque red root under a half-transparent blue target: the result is an
      opaque half red, half blue. */
  lemma RedRootHalfBlueTarget()
    ensures GetBgColor([RgbSample(255, 0, 0, 1.0), RgbSample(0, 0, 255, 0.5)])
         == Color(0.5, 0.0, 0.5, 1.0)
  {
    var samples := [RgbSample(255, 0, 0, 1.0), RgbSample(0, 0, 255, 0.5)];
    assert ColorStackOf(samples) == [Color(1.0, 0.0, 0.0, 1.0), Color(0.0, 0.0, 1.0, 0.5)];
    FlattenRedUnderHalfBlue();
  }
}
