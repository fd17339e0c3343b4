/**
 Flattening a colour stack: the stack is listed bottom layer first, the
 first colour seeds the accumulator unchanged, and every later colour is
 blended over the accumulator in turn, so the fold runs left to right with the
 new colour as the top layer. An empty stack flattens to transparent black.
 */
module Flattening {
  import opened Colors
  import opened Blending

  /** The share of light that passes through every layer of a stack: the
      product of one minus each layer's alpha. It is an independent, order-free
      description of the flattened alpha. */
  function Transmittance(layers: seq<Color>): (t: real) {
    if |layers| == 0 then 1.0 else (1.0 - layers[0].a) * Transmittance(layers[1..])
  }

  /** Blends each of `layers`, bottom first, over the accumulator `acc`.
      When the last layer is opaque, nothing below it shows: the result is
      that layer's rgb at full alpha. */
  function FoldOver(acc: Color, layers: seq<Color>): (r: Color)
    ensures 0 < |layers| && layers[|layers| - 1].a == 1.0 ==>
              r == Color(layers[|layers| - 1].r, layers[|layers| - 1].g, layers[|layers| - 1].b, 1.0)
    decreases |layers|
  {
    if |layers| == 0 then acc else FoldOver(Blend(acc, layers[0]), layers[1..])
  }

  /** The colour a stack flattens to, bottom layer first. An empty stack gives
      transparent black and a one-colour stack gives that colour with no blend
      applied. */
  function Flatten(colors: seq<Color>): (r: Color)
    ensures |colors| == 0 ==> r == TransparentBlack
    ensures |colors| == 1 ==> r == colors[0]
  {
    if |colors| == 0 then TransparentBlack else FoldOver(colors[0], colors[1..])
  }

  /** The light a fold lets through is the light the accumulator lets through
      times the light that passes every folded layer. */
  lemma {:induction false} FoldOverAlpha(acc: Color, layers: seq<Color>)
    ensures 1.0 - FoldOver(acc, layers).a == (1.0 - acc.a) * Transmittance(layers)
    decreases |layers|
  {
    if |layers| != 0 {
      var next := Blend(acc, layers[0]);
      var rest := layers[1..];
      assert FoldOver(acc, layers) == FoldOver(next, rest);
      assert Transmittance(layers) == (1.0 - layers[0].a) * Transmittance(rest);
      FoldOverAlpha(next, rest);
      BlendAlpha(acc, layers[0]);
      Regroup(1.0 - acc.a, 1.0 - layers[0].a, Transmittance(rest));
    }
  }

  lemma Regroup(p: real, q: real, t: real)
    ensures (p * q) * t == p * (q * t)
  {
  }

  /** One minus the flattened alpha is exactly the light that passes every
      layer. */
  lemma FlattenAlpha(colors: seq<Color>)
    ensures 1.0 - Flatten(colors).a == Transmittance(colors)
  {
    if |colors| != 0 {
      FoldOverAlpha(colors[0], colors[1..]);
    }
  }

  /** The light passing two stacked lists is the product of the light
      passing each. */
  lemma {:induction false} TransmittanceAppend(xs: seq<Color>, ys: seq<Color>)
    ensures Transmittance(xs + ys) == Transmittance(xs) * Transmittance(ys)
    decreases |xs|
  {
    if |xs| == 0 {
      assert xs + ys == ys;
    } else {
      assert (xs + ys)[0] == xs[0];
      assert (xs + ys)[1..] == xs[1..] + ys;
      TransmittanceAppend(xs[1..], ys);
      assert (1.0 - xs[0].a) * (Transmittance(xs[1..]) * Transmittance(ys))
          == (1.0 - xs[0].a) * Transmittance(xs[1..]) * Transmittance(ys);
    }
  }

  /** Unlike its colour, the flattened alpha does not depend on the order of
      the layers: swapping the lower and upper part of a stack keeps it. */
  lemma FlattenAlphaIgnoresOrder(xs: seq<Color>, ys: seq<Color>)
    ensures Flatten(xs + ys).a == Flatten(ys + xs).a
  {
    FlattenAlpha(xs + ys);
    FlattenAlpha(ys + xs);
    TransmittanceAppend(xs, ys);
    TransmittanceAppend(ys, xs);
  }

  /** The colour-stack library's `_flattenColors` loop: seed with the first
      colour, or transparent black when there is none, then blend every later
      colour over the running result. */
  method FlattenColors(colors: seq<Color>) returns (finalColor: Color)
    ensures finalColor == Flatten(colors)
    ensures |colors| == 0 ==> finalColor == TransparentBlack
    ensures |colors| == 1 ==> finalColor == colors[0]
  {
    if |colors| == 0 {
      return TransparentBlack;
    }
    finalColor := colors[0];
    assert colors[..1] == [colors[0]];
    var i := 1;
    while i < |colors|
      invariant 1 <= i <= |colors|
      invariant finalColor == Flatten(colors[..i])
    {
      FlattenSnoc(colors[..i], colors[i]);
      assert colors[..i + 1] == colors[..i] + [colors[i]];
      finalColor := Blend(finalColor, colors[i]);
      i := i + 1;
    }
    assert colors[..i] == colors;
  }

  /** Blending one more layer onto the end of the list is blending it over the
      result of the rest. */
  lemma {:induction false} FoldOverSnoc(acc: Color, layers: seq<Color>, c: Color)
    ensures FoldOver(acc, layers + [c]) == Blend(FoldOver(acc, layers), c)
    decreases |layers|
  {
    if |layers| == 0 {
      assert layers + [c] == [c];
      assert [c][1..] == [];
    } else {
      assert (layers + [c])[0] == layers[0];
      assert (layers + [c])[1..] == layers[1..] + [c];
      FoldOverSnoc(Blend(acc, layers[0]), layers[1..], c);
    }
  }

  /** Pushing a colour on top of a non-empty stack blends it, as the top
      layer, over the flattened stack below. */
  lemma FlattenSnoc(xs: seq<Color>, c: Color)
    requires 0 < |xs|
    ensures Flatten(xs + [c]) == Blend(Flatten(xs), c)
  {
    assert (xs + [c])[0] == xs[0];
    assert (xs + [c])[1..] == xs[1..] + [c];
    FoldOverSnoc(xs[0], xs[1..], c);
  }

  /** Folding normalised layers over a normalised accumulator stays
      normalised, and never lowers the accumulator's alpha. */
  lemma {:induction false} FoldOverStaysNormalised(acc: Color, layers: seq<Color>)
    requires Normalised(acc) && AllNormalised(layers)
    ensures Normalised(FoldOver(acc, layers))
    ensures acc.a <= FoldOver(acc, layers).a
    decreases |layers|
  {
    if |layers| != 0 {
      BlendStaysNormalised(acc, layers[0]);
      FoldOverStaysNormalised(Blend(acc, layers[0]), layers[1..]);
    }
  }

  /** A stack of normalised colours flattens to a normalised colour. */
  lemma FlattenStaysNormalised(xs: seq<Color>)
    requires AllNormalised(xs)
    ensures Normalised(Flatten(xs))
  {
    if |xs| != 0 {
      FoldOverStaysNormalised(xs[0], xs[1..]);
    }
  }

  /** Adding layers to a stack of normalised colours never lowers the
      flattened alpha, and it never exceeds one. */
  lemma {:induction false} FlattenAlphaGrows(xs: seq<Color>, i: nat, j: nat)
    requires AllNormalised(xs)
    requires i <= j <= |xs|
    ensures Flatten(xs[..i]).a <= Flatten(xs[..j]).a <= 1.0
    decreases j - i
  {
    if i == j {
      FlattenStaysNormalised(xs[..j]);
    } else if j == 1 {
      assert xs[..1] == [xs[0]];
      assert xs[..0] == [];
    } else {
      FlattenAlphaGrows(xs, i, j - 1);
      assert xs[..j] == xs[..j - 1] + [xs[j - 1]];
      FlattenSnoc(xs[..j - 1], xs[j - 1]);
      FlattenStaysNormalised(xs[..j - 1]);
      BlendStaysNormalised(Flatten(xs[..j - 1]), xs[j - 1]);
    }
  }

  /** An opaque topmost layer absorbs everything below it: the stack flattens
      to that layer's rgb at full alpha, whatever the lower layers are. */
  lemma FlattenOpaqueTop(xs: seq<Color>)
    requires 0 < |xs| && xs[|xs| - 1].a == 1.0
    ensures var top := xs[|xs| - 1];
            Flatten(xs) == Color(top.r, top.g, top.b, 1.0)
  {
  }

  /** Folding past an opaque layer forgets the accumulator and everything
      before that layer. */
  lemma {:induction false} FoldOverPastOpaque(acc: Color, layers: seq<Color>, k: nat)
    requires k < |layers| && layers[k].a == 1.0
    ensures FoldOver(acc, layers) == FoldOver(layers[k], layers[k + 1..])
    decreases k
  {
    if k == 0 {
      assert Blend(acc, layers[0]) == layers[0];
    } else {
      assert layers[1..][k - 1] == layers[k];
      assert layers[1..][k..] == layers[k + 1..];
      FoldOverPastOpaque(Blend(acc, layers[0]), layers[1..], k - 1);
    }
  }

  /** Any opaque layer hides every layer beneath it: the stack flattens as if
      it started at that layer. */
  lemma OpaqueLayerHidesBelow(xs: seq<Color>, k: nat)
    requires k < |xs| && xs[k].a == 1.0
    ensures Flatten(xs) == Flatten(xs[k..])
  {
    if k > 0 {
      assert xs[1..][k - 1] == xs[k];
      assert xs[1..][k..] == xs[k + 1..];
      FoldOverPastOpaque(xs[0], xs[1..], k - 1);
      assert xs[k..][1..] == xs[k + 1..];
    }
  }

  /** Folding transparent black layers over transparent black changes
      nothing. */
  lemma {:induction false} FoldOverTransparent(layers: seq<Color>)
    requires forall c <- layers :: c == TransparentBlack
    ensures FoldOver(TransparentBlack, layers) == TransparentBlack
    decreases |layers|
  {
    if |layers| != 0 {
      assert layers[0] in layers;
      assert forall c <- layers[1..] :: c in layers;
      FoldOverTransparent(layers[1..]);
    }
  }

  /** A stack made only of transparent black, the empty stack included,
      flattens to transparent black. */
  lemma TransparentStackIsTransparent(xs: seq<Color>)
    requires forall c <- xs :: c == TransparentBlack
    ensures Flatten(xs) == TransparentBlack
  {
    if |xs| != 0 {
      assert xs[0] in xs;
      assert forall c <- xs[1..] :: c in xs;
      FoldOverTransparent(xs[1..]);
    }
  }

  /** The fold is order sensitive: half-transparent red under half-transparent
      blue is not the same stack as the other way round. */
  lemma FlattenOrderMatters()
    ensures var red, blue := Color(1.0, 0.0, 0.0, 0.5), Color(0.0, 0.0, 1.0, 0.5);
            Flatten([red, blue]) != Flatten([blue, red])
  {
    var red, blue := Color(1.0, 0.0, 0.0, 0.5), Color(0.0, 0.0, 1.0, 0.5);
    FlattenSnoc([red], blue);
    FlattenSnoc([blue], red);
    assert [red] + [blue] == [red, blue];
    assert [blue] + [red] == [blue, red];
  }

  /** Opaque red under half-transparent blue flattens to an opaque mix of
      half red and half blue. */
  lemma FlattenRedUnderHalfBlue()
    ensures Flatten([Color(1.0, 0.0, 0.0, 1.0), Color(0.0, 0.0, 1.0, 0.5)])
         == Color(0.5, 0.0, 0.5, 1.0)
  {
    var red, blue := Color(1.0, 0.0, 0.0, 1.0), Color(0.0, 0.0, 1.0, 0.5);
    var mixed := Blend(red, blue);
    assert mixed == Color(0.5, 0.0, 0.5, 1.0);
    assert [red, blue][1..] == [blue];
    assert Flatten([red, blue]) == FoldOver(red, [blue]);
    assert [blue][1..] == [];
    assert FoldOver(red, [blue]) == FoldOver(mixed, []);
  }
}
