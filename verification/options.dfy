/**
 The confetti options: the partial record a caller passes (every field may
 be omitted) and the resolved configuration the core works with, where
 each omitted field takes its default.
 */
module ConfettiOptions {
  import opened Wrappers

  const DefaultColors: seq<string> := ["#FFC700", "#FF0000", "#2E3191", "#41BBC7"]
  const DefaultDuration: real := 3500.0
  const DefaultForce: real := 0.5
  const DefaultParticleCount: nat := 150
  const DefaultParticleShape: string := "mix"
  const DefaultParticleSize: real := 12.0
  const DefaultDestroyAfterDone: bool := true
  const DefaultStageHeight: real := 800.0
  const DefaultStageWidth: real := 1600.0

  /**
   Options as passed by the caller. The shape is kept as a string: the core
   compares it against "rectangles" and "circles" and treats every other
   value like "mix".
   */
  datatype Options = Options(
    particleCount: Option<nat>,
    particleShape: Option<string>,
    particleSize: Option<real>,
    duration: Option<real>,
    colors: Option<seq<string>>,
    force: Option<real>,
    stageHeight: Option<real>,
    stageWidth: Option<real>,
    destroyAfterDone: Option<bool>)

  /** Options with every field omitted (`{}`). */
  const NoOptions: Options :=
    Options(None, None, None, None, None, None, None, None, None)

  /** The configuration in effect once defaults are filled in. */
  datatype Config = Config(
    particleCount: nat,
    particleShape: string,
    particleSize: real,
    duration: real,
    colors: seq<string>,
    force: real,
    stageHeight: real,
    stageWidth: real,
    destroyAfterDone: bool)

  /**
   The palette a caller passes must not be empty: particle colours are
   picked by index modulo its length. The core does not check this.
   */
  predicate PaletteOk(o: Options)
  {
    o.colors.Some? ==> |o.colors.value| > 0
  }

  /** Every given option is taken as is; every omitted one takes its default. */
  function Resolve(o: Options): (c: Config)
    ensures o.particleCount.Some? ==> c.particleCount == o.particleCount.value
    ensures o.particleCount.None? ==> c.particleCount == DefaultParticleCount
    ensures o.particleShape.Some? ==> c.particleShape == o.particleShape.value
    ensures o.particleShape.None? ==> c.particleShape == DefaultParticleShape
    ensures o.particleSize.Some? ==> c.particleSize == o.particleSize.value
    ensures o.particleSize.None? ==> c.particleSize == DefaultParticleSize
    ensures o.duration.Some? ==> c.duration == o.duration.value
    ensures o.duration.None? ==> c.duration == DefaultDuration
    ensures o.colors.Some? ==> c.colors == o.colors.value
    ensures o.colors.None? ==> c.colors == DefaultColors
    ensures o.force.Some? ==> c.force == o.force.value
    ensures o.force.None? ==> c.force == DefaultForce
    ensures o.stageHeight.Some? ==> c.stageHeight == o.stageHeight.value
    ensures o.stageHeight.None? ==> c.stageHeight == DefaultStageHeight
    ensures o.stageWidth.Some? ==> c.stageWidth == o.stageWidth.value
    ensures o.stageWidth.None? ==> c.stageWidth == DefaultStageWidth
    ensures o.destroyAfterDone.Some? ==> c.destroyAfterDone == o.destroyAfterDone.value
    ensures o.destroyAfterDone.None? ==> c.destroyAfterDone == DefaultDestroyAfterDone
    ensures PaletteOk(o) ==> |c.colors| > 0
  {
    Config(
      o.particleCount.GetOr(DefaultParticleCount),
      o.particleShape.GetOr(DefaultParticleShape),
      o.particleSize.GetOr(DefaultParticleSize),
      o.duration.GetOr(DefaultDuration),
      o.colors.GetOr(DefaultColors),
      o.force.GetOr(DefaultForce),
      o.stageHeight.GetOr(DefaultStageHeight),
      o.stageWidth.GetOr(DefaultStageWidth),
      o.destroyAfterDone.GetOr(DefaultDestroyAfterDone))
  }

  /** Resolving the empty options gives exactly the documented defaults. */
  lemma DefaultConfig()
    ensures Resolve(NoOptions) == Config(
      150, "mix", 12.0, 3500.0, ["#FFC700", "#FF0000", "#2E3191", "#41BBC7"],
      0.5, 800.0, 1600.0, true)
  {
  }
}
