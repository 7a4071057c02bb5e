# neoconfetti core in Dafny

This project models the sequential core of neoconfetti, a small library that
bursts confetti out of a DOM node, and proves properties of that model. The
model has three parts.

- **Particle generation and style synthesis.** `create_particles` spreads
  `count` particles evenly around 360 degrees and cycles the palette.
  `confetti_styles` turns one particle's launch degree, the resolved options
  and a handful of random draws into the CSS custom property values `--xlp`,
  `--dc`, `--x1`..`--x4`, `--y1`..`--y4`, `--w`, `--h`, `--r`, `--hr`, `--rd`
  and `--br`. The helpers `Math.round`, `round`, `map_range`, `rotate` and
  `should_be_circle` feed it. Every `Math.random()` call is a named field of
  the `Styles.Draws` record, a real in [0,1).
- **The instance state machine of `confetti(node, options)`.** The state
  (`Lifecycle.Instance`) holds:
  - the option values the closure currently holds;
  - the particle nodes, each an id, a `--bgc` colour and its style values;
  - the ids of the nodes in the container;
  - the `--sh` value;
  - the cleanup timer: not yet created, armed, or idle (cleared or fired).

  The events are `update(options)`, `destroy()`, the microtask that creates
  the timer, and the timer firing.
- **Helpers and attribute decoding.**
  - `src/lib/utils.ts` holds an older copy of `round`, `mapRange` and
    `rotate`, plus `arraysEqual`, the rotation-axis table and
    `shouldBeCircle`.
  - The `<neo-confetti>` custom element converts camelCase option names to
    kebab-case attribute names and decodes its attributes into an options
    map.

Modules follow the source layout:

- `Numeric`: the numeric helpers;
- `Binary`: `toString(2)` and `padStart`;
- `Strings`: `split` and `join`;
- `ConfettiOptions`: options, defaults and their resolution;
- `Particles`: particle generation;
- `Styles`: `confetti_styles`;
- `Lifecycle`: the instance and its events;
- `Utils`: `src/lib/utils.ts`;
- `WebComponent`: the custom element's attribute handling;
- `Wrappers`: the `Option` type.

Numbers are exact reals:
- `Math.round(x)` is `floor(x + 1/2)`;
- `round(x, p)` rounds half-up at `p` decimal digits.

Unit suffixes such as `px` and `ms` are dropped: lengths and durations are kept as numbers. The rotation flags `--r` and `--hr` and the border radius `--br` are kept as strings.

Behaviours of the code worth knowing:
- `update(options)` resets every omitted option to its default. It does not keep the previous value.
- A rebuild in `update` (a changed particle count) makes fresh nodes that carry only their colour. `confetti_styles` is not run on them, and the cleanup timer is not re-armed.
- `destroy()` only clears the timer. It removes no nodes and does not stop later `update` calls from changing the instance.
- The timer is created by a microtask, so a `destroy()` or `update(...)` made synchronously after `confetti(...)` clears nothing: `clearTimeout` then receives `undefined`. The container is still emptied later if `destroyAfterDone` holds when the timer fires (`Lifecycle.UpdateBeforeArm`, `Lifecycle.DestroyBeforeArm`).
- `--y4` at launch degree 180 is the force (`|180 - 180| = 0` maps to `force`). It is not 0.
- The rotation axis selector is `Math.round(random() * 5)`, so it takes the values 0..5:
  - the x-and-y pair 110 (6), listed among the combinations in the comment at packages/core/src/index.ts:308-315, is never chosen;
  - the axis-free 000 (0) is chosen (`Styles.RotationDigitsRange`).

## Model

| member | source | states |
|---|---|---|
| Numeric.Abs | packages/core/src/index.ts:282-285 | `abs` (`Math.abs`) is non-negative and is the value or its negation |
| Numeric.Max | packages/core/src/index.ts:282-285 | `max` (`Math.max`, two arguments) is at least both arguments and is one of them |
| Numeric.MathRound | packages/core/src/index.ts:284 | `Math.round` returns an integer within one half of its argument, halves going up |
| Numeric.MathRoundMonotone | packages/core/src/index.ts:284 | `Math.round` is monotone |
| Numeric.MathRoundOfScaledDraw | packages/core/src/index.ts:131 | `Math.round(random() * n)` lies in 0..n |
| Numeric.Round | packages/core/src/index.ts:297-298 | half-up rounding at p decimals; its properties are the contracts of RoundErrorBound (within half a unit), RoundIsDecimal (a multiple of 10^-p), RoundMonotone, RoundOfDecimal and RoundWithin |
| Numeric.RoundErrorBound | packages/core/src/index.ts:297-298 | `round(x, p)` is within half a unit of the p-th decimal of x |
| Numeric.RoundIsDecimal | packages/core/src/index.ts:297-298 | `round(x, p)` times 10^p is a whole number |
| Numeric.RoundMonotone | packages/core/src/index.ts:297-298 | `round` is monotone in its value |
| Numeric.RoundOfDecimal | packages/core/src/index.ts:297-298 | a value with at most p decimals is a fixed point of `round(_, p)` |
| Numeric.RoundWithin | packages/core/src/index.ts:297-298 | rounding keeps a value inside bounds that have at most p decimals |
| Numeric.MapRange | packages/core/src/index.ts:300-301 | the affine map of [x1,y1] onto [x2,y2]; its properties are the contracts of MapRangeEndpoints, MapRangeAffine and MapRangeWithin |
| Numeric.MapRangeEndpoints | packages/core/src/index.ts:300-301 | `map_range` sends x1 to x2 and y1 to y2 |
| Numeric.MapRangeAffine | packages/core/src/index.ts:300-301 | `map_range` is affine: differences of results are differences of values times (y2-x2)/(y1-x1) |
| Numeric.MapRangeWithin | packages/core/src/index.ts:300-301 | for x1 < y1, a value in [x1,y1] maps between x2 and y2 |
| Numeric.Rotate | packages/core/src/index.ts:303-304 | `rotate(d, a)` is d+a up to 360 and d+a-360 beyond; for 0 <= d+a <= 720 it lies in [0,360] |
| Numeric.CoinFlip | packages/core/src/index.ts:306 | true exactly for a draw above one half; the shape rule of Styles.IsCircle and the sign rule of Styles.FallOffset are stated through it |
| Binary.ToBinary | packages/core/src/index.ts:164 | `toString(2)` gives a non-empty bit string; for n > 0 it starts with 1 |
| Binary.FromToBinary | packages/core/src/index.ts:164 | reading the binary rendering back gives the number |
| Binary.ToBinaryLength | packages/core/src/index.ts:164 | a number below 2^k has at most k binary digits |
| Binary.PadStart | packages/core/src/index.ts:164 | `padStart` keeps the string as a suffix, fills the front with the pad character and reaches the target length |
| Binary.LeadingZeros | packages/core/src/index.ts:164 | leading zeros do not change the binary value |
| Binary.PaddedBinary | packages/core/src/index.ts:164 | the zero-padded rendering is still a bit string with the same value |
| Strings.Split | packages/webcomponent/src/index.ts:34 | `split(sep)` gives at least one piece, and no piece holds the separator |
| Strings.Join | packages/core/src/index.ts:168-174 | `join(sep)` puts one separator between neighbouring parts; Strings.JoinSplit and Strings.SplitJoin state that it and `split` invert each other |
| Strings.JoinSplit | packages/webcomponent/src/index.ts:34 | joining the pieces of a split with the same separator gives back the string |
| Strings.SplitJoin | packages/core/src/index.ts:168-174 | splitting the join of a non-empty list of separator-free parts gives back the list |
| ConfettiOptions.Resolve | packages/core/src/index.ts:92-102 | each given option is kept, each omitted one takes its default; a non-empty given palette stays non-empty |
| ConfettiOptions.DefaultConfig | packages/core/src/index.ts:81-89 | `{}` resolves to 150 particles, mix, size 12, 3500 ms, the four default colours, force 0.5, stage 800 by 1600, destroy after done |
| Particles.CreateParticles | packages/core/src/index.ts:290-294 | exactly `count` particles; particle i has colour `colors[i mod n] (n the palette length)`, degree i*360/count, which lies in [0,360) |
| Particles.DegreeRange | packages/core/src/index.ts:293 | every degree i*360/count with i < count lies in [0,360) |
| Particles.ParticleDegrees | packages/core/src/index.ts:290-294 | degrees strictly increase with the index and neighbours are 360/count apart |
| Styles.RotationCode | packages/core/src/index.ts:114 | the rotation selector lies in 0..5 |
| Styles.ShouldBeCircle | packages/core/src/index.ts:319 | never for the z-only code 1, else the coin flip; stated by the contract of Styles.IsCircle |
| Styles.IsCircle | packages/core/src/index.ts:115-117 | rectangles never yields a circle; circles always does; any other shape never does for code 1 and otherwise follows the coin flip |
| Styles.LaunchOffset | packages/core/src/index.ts:126 | for a degree in [0,360), the distance of rotate(degree, 90) from 180 lies in [0,180] |
| Styles.LandingPoint | packages/core/src/index.ts:123-127 | `--xlp` lies within half the stage width either side of 0 |
| Styles.DurationChaos | packages/core/src/index.ts:128-132 | `--dc` lies in [duration-1000, duration] |
| Styles.Craziness | packages/core/src/index.ts:135-136 | `--x1` lies in [0, 0.3] and is 0 unless the crazy draw is below 0.1 |
| Styles.CurveWeight | packages/core/src/index.ts:140-141 | `--x4` lies in [0,1]; it is 1 at degrees 90 and 270 and 0 at degrees 0 and 180 |
| Styles.EarlyEase | packages/core/src/index.ts:143-144 | `--y1` lies in [0, 0.5] |
| Styles.FallOffset | packages/core/src/index.ts:145-146 | `--y2` lies between round(-force) and round(force), and is non-negative when the coin flip says +1 |
| Styles.FreeFallEase | packages/core/src/index.ts:150 | before rounding, `--y4` lies in [0, force]; it equals force at degree 180 and is 0 outside [90,270] |
| Styles.FreeFallWeight | packages/core/src/index.ts:150 | `--y4` lies in [0, round(force,4)]; it equals round(force,4) at 180 and is 0 outside [90,270] |
| Styles.Width | packages/core/src/index.ts:152-157 | `--w` is the size for a circle, else in [size/2, size/2+4] |
| Styles.Height | packages/core/src/index.ts:158-162 | `--h` is the size for a circle, else in [size, size+2] |
| Styles.RotationDuration | packages/core/src/index.ts:176-180 | `--rd` lies in [200, 800] |
| Styles.RotationDigits | packages/core/src/index.ts:164 | the padded binary of the selector has length 3, holds only 0/1, and reads back as the selector |
| Styles.Entries | packages/core/src/index.ts:164 | `.split('')` gives one single-character entry per digit, in order and of the same count |
| Styles.HalfEntry | packages/core/src/index.ts:168 | a halved flag is "0" or "0.5" and denotes half the flag |
| Styles.HalfEntries | packages/core/src/index.ts:168 | halving keeps the number of entries and halves each one |
| Styles.RotationDigitsRange | packages/core/src/index.ts:114 | the padded binary is never 110, and is 000 exactly for selector 0 |
| Styles.RotationText | packages/core/src/index.ts:164-175 | the entries of `--r` are three flags that read back as the selector, and `--r` and `--hr` split back into their entries |
| Styles.RotationVariables | packages/core/src/index.ts:164-175 | `--r` splits into three 0/1 flags that read back as the selector; each `--hr` entry is half the matching flag |
| Styles.RotationVar | packages/core/src/index.ts:164-175 | `--r`: the flags joined by spaces; Styles.RotationText and Styles.RotationVariables state that it splits back into three 0/1 flags reading as the selector |
| Styles.HalfRotationVar | packages/core/src/index.ts:164-169 | `--hr`: the halved flags joined by spaces; Styles.RotationVariables states that each entry is half the matching `--r` flag |
| Styles.ConfettiStyles | packages/core/src/index.ts:112-186 | every property of one particle at once: all the bounds above, `--x2 = -x1`, `--x3 = x1`, `--y3 = 0.5`, the shape rules, and `--br` 50% with w = h = size for circles, 0 with the rectangle size ranges otherwise |
| Lifecycle.ParticleNodes | packages/core/src/index.ts:257-274 | one fresh, unstyled node per particle, coloured like it, with distinct new ids |
| Lifecycle.Explode | packages/core/src/index.ts:91-193 | creation resolves the options, sets `--sh`, leaves the timer to be created by the microtask, puts one node per particle in the container with the particle's styles, and establishes the instance invariant |
| Lifecycle.StyleNodes | packages/core/src/index.ts:188 | the styling loop keeps each node's id and colour and gives node i the styles of particle i's degree |
| Lifecycle.Recolor | packages/core/src/index.ts:209-214 | recolouring keeps node ids and styles and gives node i particle i's colour |
| Lifecycle.CancelsTimer | packages/core/src/index.ts:226 | the `clearTimeout` guard: `destroyAfterDone` was on and the new value is not `true`, an omitted value counting as not `true`; the timer clauses of Lifecycle.Update state its effect |
| Lifecycle.Update | packages/core/src/index.ts:196-240 | omitted options revert to defaults. A timer not yet created stays so. An armed timer stays armed unless cancelled, which happens when `destroyAfterDone` was on and the new value is not `true`. Same count keeps the nodes, children and styles. A new count gives exactly that many fresh, unstyled nodes. The invariant is kept. |
| Lifecycle.UpdateKeepsInv | packages/core/src/index.ts:204-214 | an update with unchanged count keeps the palette colouring and id invariants |
| Lifecycle.Destroy | packages/core/src/index.ts:242-244 | `destroy()` clears an armed timer, leaves a timer not yet created as it is, and changes nothing else |
| Lifecycle.Arm | packages/core/src/index.ts:190-193 | the microtask creates the timer if it is still to be created and changes nothing else |
| Lifecycle.Fire | packages/core/src/index.ts:191-193 | an armed timer fires once; it empties the container only when `destroyAfterDone` holds at that moment; a cleared or not yet created timer does nothing |
| Lifecycle.Step | packages/core/src/index.ts:190-245 | the timer only moves forwards (to be created, armed, idle), and only the microtask arms it |
| Lifecycle.StepKeepsInv | packages/core/src/index.ts:195-245 | every event keeps the instance invariant |
| Lifecycle.RunKeepsInv | packages/core/src/index.ts:195-245 | the invariant holds after any sequence of events |
| Lifecycle.RunNeverRearms | packages/core/src/index.ts:190-244 | over any event sequence the timer only moves forwards, an idle timer stays idle, and a timer armed at the end but not at the start was armed by a microtask in the sequence |
| Lifecycle.ReachableColored | packages/core/src/index.ts:201-214 | in every reachable state the node count is the particle count and node i has colour `colors[i mod n] (n the palette length)` |
| Lifecycle.OptOutKeepsNodes | packages/core/src/index.ts:225-226 | opting out of `destroyAfterDone` by an update clears an armed timer and leaves a timer not yet created as it is; either way a later firing leaves the container alone |
| Lifecycle.OptInUsesCurrentValue | packages/core/src/index.ts:192 | opting in does not change the timer, and unless it was cleared the firing then empties the container |
| Lifecycle.UpdateBeforeArm | packages/core/src/index.ts:190-226 | an update before the microtask clears nothing; the `destroyAfterDone` it leaves decides whether the later firing empties the container |
| Lifecycle.DestroyBeforeArm | packages/core/src/index.ts:242-244 | `destroy()` before the microtask does nothing, so with `destroyAfterDone` on the container is still emptied |
| Lifecycle.ImmediateUpdate | packages/solid/src/index.ts:8-10 | from a fresh instance (timer still to be created), `update`, the microtask and the firing empty the container exactly when the update leaves `destroyAfterDone` on, and otherwise keep the children the update left |
| Utils.Round | src/lib/utils.ts:6-8 | the helper file's `round` agrees with the core's and is within half a unit of the last kept decimal |
| Utils.ArraysEqual | src/lib/utils.ts:10-18 | `arraysEqual` is true for the same reference, false when exactly one side is nullish, and otherwise true iff the contents are equal |
| Utils.EqualFrom | src/lib/utils.ts:15 | the comparison loop from index i succeeds iff the suffixes from i are equal |
| Utils.ArraysEqualShortcutAndSymmetry | src/lib/utils.ts:10-18 | the same-reference shortcut agrees with the element loop; the result is symmetric and means equal length and equal elements |
| Utils.MapRange | src/lib/utils.ts:20-21 | the helper file's `mapRange` agrees with the core's and sends x1 to x2 and y1 to y2 |
| Utils.Rotate | src/lib/utils.ts:23-26 | the helper file's `rotate` agrees with the core's and stays in [0,360] for 0 <= d+a <= 720 |
| Utils.RotationTransforms | src/lib/utils.ts:31-42 | six pairwise-distinct 0/1 triples, each with a 1; only index 5 equals the z-axis rotation |
| Utils.ShouldBeCircle | src/lib/utils.ts:44-45 | false for the z-axis entry whatever the coin flip; otherwise (an out-of-table index included) the coin flip decides |
| WebComponent.CamelToKebab | packages/webcomponent/src/index.ts:3-4 | each capital becomes `-` and its lower case; its properties are the contracts of the Kebab lemmas below |
| WebComponent.KebabNoUpper | packages/webcomponent/src/index.ts:3-4 | `camel_to_kebab` output holds no A-Z |
| WebComponent.KebabLength | packages/webcomponent/src/index.ts:3-4 | the output is longer than the input by the number of capitals |
| WebComponent.KebabIdentity | packages/webcomponent/src/index.ts:3-4 | a string without capitals is returned unchanged |
| WebComponent.KebabOfChar | packages/webcomponent/src/index.ts:3-4 | a capital becomes `-` and its lower case; every other character is kept |
| WebComponent.KebabConcat | packages/webcomponent/src/index.ts:3-4 | the conversion works character by character, so it distributes over concatenation |
| WebComponent.KebabRoundTrip | packages/webcomponent/src/index.ts:3-4 | a name without `-` is recovered from its kebab form |
| WebComponent.KebabToCamelInjective | packages/webcomponent/src/index.ts:3-4 | distinct names without `-` get distinct attribute names |
| WebComponent.OptionNames | packages/webcomponent/src/index.ts:9-19 | the ten names read are the numbers, arrays, booleans and strings lists in loop order |
| WebComponent.KebabName | packages/webcomponent/src/index.ts:22 | the attribute read for each option name is its kebab form: `particle-count`, `destroy-after-done` and so on |
| WebComponent.ObservedAttributesAgree | packages/webcomponent/src/index.ts:71-82 | the kebab form of every option name is observed, and every observed attribute is the kebab form of an option name |
| WebComponent.GroupsDisjoint | packages/webcomponent/src/index.ts:9-19 | no option name is in two groups, so no loop overwrites another loop's key |
| WebComponent.DecodeGroup | packages/webcomponent/src/index.ts:24-29 | a loop sets exactly the names whose attribute is present and accepted, to their decoded values, and leaves other keys alone |
| WebComponent.DecodeNumber | packages/webcomponent/src/index.ts:27 | a present number attribute becomes `toNumber` of its value; stated by the number clause of WebComponent.NormalizeAttributes |
| WebComponent.DecodeArray | packages/webcomponent/src/index.ts:31-36 | an empty attribute is skipped; any other becomes a non-empty list of comma-free items whose `,`-join is the attribute |
| WebComponent.DecodeBoolean | packages/webcomponent/src/index.ts:41 | a present boolean attribute becomes whether its value is exactly `true`; stated by the boolean clause of WebComponent.NormalizeAttributes |
| WebComponent.DecodeString | packages/webcomponent/src/index.ts:48 | a present string attribute is copied verbatim; stated by the string clause of WebComponent.NormalizeAttributes |
| WebComponent.NormalizeAttributes | packages/webcomponent/src/index.ts:8-53 | only option names become keys. A number, boolean or string key is set iff its attribute is present. `colors` is set iff its attribute is present and non-empty, as the list above. `destroyAfterDone` is `value == "true"`. The strings are copied verbatim. |
| WebComponent.AttributeNames | packages/webcomponent/src/index.ts:17-18 | the array group reads the attribute `colors` and the boolean group reads `destroy-after-done` |

## Left out

- The document and the DOM are not modelled:
  - `append_styles` and its `style[data-neoconfetti]` guard;
  - `element` and `append_child`;
  - `classList`;
  - the inner `div` of each particle node.

  Writes of style values become the `style` field of a node. `innerHTML = ''` becomes emptying the container's child list.
- `Math.random` and `coinFlip` are parameters: each call site is a field of `Styles.Draws`. Neither the order in which draws are consumed nor their distribution is modelled.
- IEEE floating point is not modelled, so the `Number.EPSILON` correction in both `round` functions has no effect here.
- `toString(2)` is modelled for non-negative integers only, which covers the selector's 0..5.
- The event loop is not modelled. The `Promise.resolve().then(setTimeout …)` deferral is the `Microtask` event, and the timer is `Pending` until it happens. A run may order the events in any way, which includes every order JavaScript allows: synchronous `update` and `destroy` calls before the microtask, and the microtask before the timer fires. The timer's delay is not modelled.
- The string-to-number conversion `+value` of the web component is the parameter `toNumber` of `WebComponent.NormalizeAttributes`.
- The attributes are a map from attribute name to value, standing for `NamedNodeMap.getNamedItem(...)?.value`. An absent attribute is an absent key, so the `null` and `undefined` cases of `is_nullish` are one case.
- The step from the decoded map to the options record is not modelled. Every key the map can hold except `particleClass` names a field of `ConfettiOptions.Options`. The element decodes `particleClass` (packages/webcomponent/src/index.ts:19, 45-49), but the core's options type has no such field and `confetti` never reads it, so that key stops at the map.
- The custom-element class, the shadow root and `customElements.define` are not modelled. The same goes for the React, Vue, Solid and vanilla adapters, the build configuration, the scripts and the demos: all are lifecycle wiring, tooling or UI.
- Option validation: the code validates nothing, so:
  - a particle count is a `nat` (fractional or negative counts are not modelled);
  - an empty palette is excluded by a precondition (`ConfettiOptions.PaletteOk`) rather than modelled as an error path.
- Numeric.MapRange: requires x1 != y1. For x1 == y1 the source divides by zero and yields Infinity or NaN. Every call site passes 0 and 180.
- Particles.CreateParticles: requires a non-empty palette when count > 0. With an empty palette the source reads `colors[NaN]` and colours the particles `undefined`.
- Styles.ConfettiStyles: requires a degree in [0,360), which is what `create_particles` supplies.
  - The `--xlp` bound is stated for a non-negative stage width.
  - The `--y2` and `--y4` bounds are stated for a non-negative force.
- Lifecycle.Update: requires the node list to match the held particle count, which `Lifecycle.Inv` guarantees for every reachable state. Without it the source's `nodes[+i]` would read past the list.
- Lifecycle.Fire: the timer fires at most once and at an unspecified time; the duration is not modelled.
- `JSON.stringify(colors) !== JSON.stringify(new_colors)` is modelled as sequence inequality, which is the same test for arrays of strings.
