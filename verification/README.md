# ColorStack compositor in Dafny

ColorStack computes the effective background colour of a page element. It
lists the element's ancestors from the outermost one down to the element,
reads each one's computed `background-color`, normalises every colour into
the unit interval and flattens the resulting stack with a "normal"
(source-over) blend, bottom layer first.

This project models the pure part of that pipeline over exact `real`
channels:

- `colors.dfy` (module `Colors`): the `Color` datatype, transparent black and
  the "all channels in [0,1]" predicate.
- `blend.dfy` (module `Blending`): the pairwise blend `Blend(bottom, top)`,
  with the formula exactly as the source writes it:
  `r' = top.r*top.a + bottom.r*bottom.a*(1-top.a)` (likewise g and b) and
  `a' = top.a + bottom.a*(1-top.a)`.
- `flatten.dfy` (module `Flattening`): the left fold `Flatten` over a
  bottom-first stack, its reference alpha `Transmittance`, and the loop
  `FlattenColors` as the source writes it.
- `colorstack.dfy` (module `ColorStack`): normalisation of a parsed
  0..255 colour and the `GetBgColor` pipeline over a list of parsed colours.

The blend does not divide the rgb result back by `a'`. A blended colour
therefore carries alpha-weighted rgb into the next blend. The model keeps
this formula as written. One consequence is proved rather than hidden: a fully
transparent top layer leaves the bottom unchanged only when the bottom is
opaque or black. Over any other bottom it multiplies the bottom's rgb by the
bottom's alpha (`TransparentTopPremultipliesBottom`,
`TransparentTopKeepsBottomIff`, `TransparentTopDarkensTranslucentBottom`).

Whatever the colour library returns for an element's background value is
normalised as it is (color-stack.js:84).

## Model

| member | source | states |
|---|---|---|
| Blending.Blend | color-stack.js:120-141 | an opaque top gives exactly `(top.r, top.g, top.b, 1)` whatever the bottom |
| Blending.BlendAlpha | color-stack.js:137 | the light the blend lets through is the product of what each layer lets through, `1 - a' = (1 - bottom.a)(1 - top.a)` |
| Blending.BlendStaysNormalised | color-stack.js:117-141 | two colours with every channel in [0,1] blend to a colour in the same format; each rgb channel is at most the blended alpha; the blended alpha is at least each input alpha |
| Blending.BlendAlphaWithin | color-stack.js:137 | for input alphas in [0,1] the blended alpha lies between the larger input alpha and 1 |
| Blending.TransparentTopPremultipliesBottom | color-stack.js:133-138 | a top layer with alpha 0 returns the bottom's rgb multiplied by the bottom's alpha, with the bottom's alpha |
| Blending.TransparentTopOverOpaque | color-stack.js:133-138 | a top layer with alpha 0 over an opaque bottom returns the bottom unchanged |
| Blending.TransparentTopKeepsBottomIff | color-stack.js:133-138 | under a top layer with alpha 0, the result equals the bottom if and only if the bottom is opaque or its rgb is all zero |
| Blending.TransparentTopDarkensTranslucentBottom | color-stack.js:133-138 | transparent black over half-transparent red gives red 0.5 at alpha 0.5, not the bottom colour |
| Blending.BlendNotCommutative | color-stack.js:133-138 | half-transparent red over half-transparent blue and the reverse give different colours |
| Flattening.FoldOver | color-stack.js:97-101 | blending the layers one by one over the accumulator; when the last layer is opaque the result is that layer's rgb at alpha 1, whatever came before |
| Flattening.Flatten | color-stack.js:92-104 | the bottom-first fold seeded with the first colour; an empty stack gives transparent black and a one-colour stack gives that colour with no blend applied |
| Flattening.FoldOverAlpha | color-stack.js:97-101 | folding layers over an accumulator lets through `(1 - acc.a)` times the product of one minus each layer's alpha |
| Flattening.FlattenAlpha | color-stack.js:92-104 | one minus the flattened alpha equals the product of one minus each layer's alpha |
| Flattening.TransmittanceAppend | color-stack.js:98-101 | the light passing two lists stacked on each other is the product of the light passing each list |
| Flattening.FlattenAlphaIgnoresOrder | color-stack.js:92-104 | exchanging the lower and upper part of a stack leaves the flattened alpha unchanged, although the colour can change |
| Flattening.FlattenColors | color-stack.js:92-104 | the source's loop, seeded with the first colour and skipping it, computes the bottom-first fold; an empty stack gives transparent black; a one-colour stack gives that colour unblended |
| Flattening.FoldOverSnoc | color-stack.js:97-101 | folding a list with one more colour at the end blends that colour, as the top, over the fold of the rest |
| Flattening.FlattenSnoc | color-stack.js:88-101 | for a non-empty stack, pushing a colour on top gives `Blend(Flatten(stack), colour)` |
| Flattening.FoldOverStaysNormalised | color-stack.js:97-101 | folding normalised colours over a normalised accumulator stays normalised and never lowers its alpha |
| Flattening.FlattenStaysNormalised | color-stack.js:88-104 | a stack of colours with channels in [0,1] flattens to a colour with channels in [0,1] |
| Flattening.FlattenAlphaGrows | color-stack.js:97-101 | for normalised stacks, the flattened alpha of a longer prefix, the empty prefix included, is at least that of a shorter one and never exceeds 1 |
| Flattening.FlattenOpaqueTop | color-stack.js:92-104 | when the top layer is opaque the stack flattens to that layer's rgb at alpha 1, whatever lies below |
| Flattening.FoldOverPastOpaque | color-stack.js:97-101 | folding past an opaque layer forgets the accumulator and every earlier layer |
| Flattening.OpaqueLayerHidesBelow | color-stack.js:92-104 | a stack with an opaque layer at position k flattens the same as the stack starting at k |
| Flattening.FoldOverTransparent | color-stack.js:97-101 | folding transparent black over transparent black gives transparent black |
| Flattening.TransparentStackIsTransparent | color-stack.js:92-104 | a stack made only of transparent black, including the empty stack, flattens to transparent black |
| Flattening.FlattenOrderMatters | color-stack.js:88-101 | red under blue and blue under red, both half transparent, flatten differently: the fold order matters |
| Flattening.FlattenRedUnderHalfBlue | color-stack.js:92-104 | opaque red under half-transparent blue flattens to `(0.5, 0, 0.5, 1)` |
| ColorStack.Normalise | color-stack.js:107-115 | each rgb channel times 255 gives back the parsed channel; alpha passes through unchanged; parsed channels in 0..255 and alpha in [0,1] give a colour with every channel in [0,1] |
| ColorStack.DenormaliseNormalise | color-stack.js:107-115 | scaling a normalised colour back to 0..255 recovers the parsed colour exactly |
| ColorStack.NormaliseInjective | color-stack.js:107-115 | two parsed colours normalise to the same colour if and only if they are equal |
| ColorStack.ColorStackOf | color-stack.js:77-86 | one normalised colour per element, same length, same order, the i-th being the normalisation of the i-th parsed colour |
| ColorStack.ColorStackOfValid | color-stack.js:77-86 | parsed colours in range give a stack whose colours all lie in [0,1] |
| ColorStack.GetBgColor | color-stack.js:51-61 | no elements give transparent black; an opaque target gives its own normalised colour whatever its ancestors |
| ColorStack.GetBgColorNormalised | color-stack.js:51-61 | parsed colours in range give an effective colour with every channel in [0,1] |
| ColorStack.OpaqueTargetWins | color-stack.js:51-61 | when the target's own colour is opaque, the result is that colour normalised, at alpha 1, whatever its ancestors |
| ColorStack.AllTransparentGivesTransparent | color-stack.js:51-61 | when every element reports `rgba(0,0,0,0)` the result is transparent black |
| ColorStack.RedRootHalfBlueTarget | color-stack.js:51-61 | an opaque red root under a target of `rgba(0,0,255,0.5)` gives `(0.5, 0, 0.5, 1)` |

## Left out

- `_getElementStack` (color-stack.js:71-75): walking the ancestors through jQuery is host-page I/O. The model starts from the list of parsed colours it would lead to, outermost first.
- Reading `background-color` with `$this.css` in `_getColorStackStack` (color-stack.js:78-86): computed-style I/O. `ColorStackOf` takes the parsed colours as input.
- Colour parsing and formatting by the TinyColor library (`TinyColor(bgColor)`, `toRgb()`, `TinyColor.fromRatio`, `toRgbString`; color-stack.js:14, 58, 64, 84, 108): foreign code whose behaviour is not part of this model. Parsed rgb channels are modelled as integers and alpha as a `real`. `GetBgColor` returns the plain colour before `fromRatio`, and `getBgColorCss` is not modelled.
- The constructor, the options merge with `$.extend`, the static wrappers and the `window` export (color-stack.js:20-41, 146): plumbing with no behaviour to state. No option changes the result.
- IEEE-754 rounding: channels are exact `real`s, so the proofs are about the formula and not about JavaScript doubles.
- Blending.Blend: its contract has no `requires` that the inputs be in [0,1], because the source does not check this. The range facts are stated as lemmas under that hypothesis.
