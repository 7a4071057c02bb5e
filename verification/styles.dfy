/**
 The style synthesizer (`confetti_styles`): from one particle's launch
 degree, the configuration and a handful of random draws, the values of the
 CSS custom properties `--xlp`, `--dc`, `--x1`..`--x4`, `--y1`..`--y4`,
 `--w`, `--h`, `--r`, `--hr`, `--rd` and `--br`.

 Every `Math.random()` call of the source is a named field of `Draws`, a
 real in [0,1); `coinFlip()` is a draw compared against one half. Lengths
 are kept as numbers; the `px`/`ms` unit suffixes are not modelled.
 */
module Styles {
  import opened Numeric
  import Binary
  import Strings
  import opened ConfettiOptions

  const RotationSpeedMin: real := 200.0
  const RotationSpeedMax: real := 800.0
  const CrazyParticlesFrequency: real := 0.1
  const CrazyParticleCraziness: real := 0.3
  const BezierMedian: real := 0.5
  const PossibleRotationTransforms: nat := 6

  /** One value of `Math.random()`. */
  predicate IsDraw(r: real)
  {
    0.0 <= r < 1.0
  }

  /** The random draws one call of `confetti_styles` may consume. */
  datatype Draws = Draws(
    rotation: real,       // rotation axis selector
    circle: real,         // coin flip of `should_be_circle`
    durationChaos: real,  // `--dc` jitter
    crazy: real,          // is this a crazy particle?
    craziness: real,      // its `--x1` disturbance
    y1: real,
    y2: real,
    y2Sign: real,         // coin flip for the sign of `--y2`
    width: real,
    height: real,
    rotationSpeed: real)

  predicate ValidDraws(d: Draws)
  {
    && IsDraw(d.rotation) && IsDraw(d.circle) && IsDraw(d.durationChaos)
    && IsDraw(d.crazy) && IsDraw(d.craziness) && IsDraw(d.y1) && IsDraw(d.y2)
    && IsDraw(d.y2Sign) && IsDraw(d.width) && IsDraw(d.height)
    && IsDraw(d.rotationSpeed)
  }

  /** The custom property values written on one particle node. */
  datatype ParticleStyle = ParticleStyle(
    xlp: real,   // x landing point
    dc: real,    // jittered duration
    x1: real, x2: real, x3: real, x4: real,
    y1: real, y2: real, y3: real, y4: real,
    w: real, h: real,
    r: string,   // rotation axis flags, space separated
    hr: string,  // halved rotation axis flags, space separated
    rd: real,    // rotation duration
    br: string)  // border radius

  /**
   The rotation axis selector: bit 4 is x, bit 2 is y, bit 1 is z.
   `Math.round(random() * 5)` yields 0..5, so the x-and-y pair 6 (binary 110)
   never occurs while 0 (no axis) does.
   */
  function RotationCode(draw: real): (code: int)
    requires IsDraw(draw)
    ensures 0 <= code <= 5
  {
    MathRoundOfScaledDraw(draw, PossibleRotationTransforms - 1);
    MathRound(draw * (PossibleRotationTransforms - 1) as real)
  }

  /** `should_be_circle`: never for the z-only rotation, else a coin flip. */
  predicate ShouldBeCircle(code: int, flip: real)
  {
    code != 1 && CoinFlip(flip)
  }

  /** The shape decision of `confetti_styles`. */
  function IsCircle(shape: string, code: int, flip: real): (c: bool)
    ensures shape == "rectangles" ==> !c
    ensures shape == "circles" ==> c
    ensures shape != "circles" && code == 1 ==> !c
    ensures shape != "rectangles" && shape != "circles" ==> (c <==> ShouldBeCircle(code, flip))
  {
    shape != "rectangles" && (shape == "circles" || ShouldBeCircle(code, flip))
  }

  /** `|rotate(degree, 90) - 180|`, the distance of the quarter-turned launch angle from 180. */
  function LaunchOffset(degree: real): (u: real)
    ensures 0.0 <= degree < 360.0 ==> 0.0 <= u <= 180.0
  {
    Abs(Rotate(degree, 90.0) - 180.0)
  }

  /** `--xlp`: the landing offset, within half the stage width either side. */
  function LandingPoint(degree: real, stageWidth: real): (r: real)
    requires 0.0 <= degree < 360.0
    ensures stageWidth >= 0.0 ==> -stageWidth / 2.0 <= r <= stageWidth / 2.0
  {
    var u := LaunchOffset(degree);
    MapRangeWithin(u, 0.0, 180.0, -stageWidth / 2.0, stageWidth / 2.0);
    MapRange(u, 0.0, 180.0, -stageWidth / 2.0, stageWidth / 2.0)
  }

  /** `--x4`: the explosion-curve weight; 1 for sideways launches, 0 for vertical ones. */
  function CurveWeight(degree: real): (r: real)
    requires 0.0 <= degree < 360.0
    ensures 0.0 <= r <= 1.0
    ensures degree == 90.0 || degree == 270.0 ==> r == 1.0
    ensures degree == 0.0 || degree == 180.0 ==> r == 0.0
  {
    var u := LaunchOffset(degree);
    var m := MapRange(u, 0.0, 180.0, -1.0, 1.0);
    MapRangeWithin(u, 0.0, 180.0, -1.0, 1.0);
    RoundUnitInterval(Abs(m));
    Round(Abs(m), 4)
  }

  lemma RoundUnitInterval(x: real)
    requires 0.0 <= x <= 1.0
    ensures 0.0 <= Round(x, 4) <= 1.0
    ensures Round(0.0, 4) == 0.0 && Round(1.0, 4) == 1.0
  {
    assert Pow10(4) == 10000;
    RoundWithin(x, 4, 0, 10000);
    RoundOfDecimal(0, 4);
    RoundOfDecimal(10000, 4);
  }

  /** The free-fall ease of `--y4` before rounding. */
  function FreeFallEase(degree: real, force: real): (r: real)
    requires 0.0 <= degree < 360.0
    ensures force >= 0.0 ==> 0.0 <= r <= force
    ensures degree == 180.0 ==> r == Max(force, 0.0)
    ensures force >= 0.0 && (degree < 90.0 || degree > 270.0) ==> r == 0.0
  {
    var u := Abs(degree - 180.0);
    MapRangeWithin(u, 0.0, 180.0, force, -force);
    MapRangeEndpoints(0.0, 180.0, force, -force);
    MapRangeAffine(u, 90.0, 0.0, 180.0, force, -force);
    assert MapRange(90.0, 0.0, 180.0, force, -force) == 0.0;
    NonNegTimesNonPos(u - 90.0, (-force - force) / 180.0);
    Max(MapRange(u, 0.0, 180.0, force, -force), 0.0)
  }

  lemma NonNegTimesNonPos(a: real, b: real)
    ensures a >= 0.0 && b <= 0.0 ==> a * b <= 0.0
  {
    if a > 0.0 && b < 0.0 {
      MulMono(b, 0.0, a);
    }
  }

  /** `--y4`: the rounded free-fall ease. */
  function FreeFallWeight(degree: real, force: real): (r: real)
    requires 0.0 <= degree < 360.0
    ensures force >= 0.0 ==> 0.0 <= r <= Round(force, 4)
    ensures force >= 0.0 && degree == 180.0 ==> r == Round(force, 4)
    ensures force >= 0.0 && (degree < 90.0 || degree > 270.0) ==> r == 0.0
  {
    var e := FreeFallEase(degree, force);
    RoundBetween(0.0, e, force, 4);
    RoundOfDecimal(0, 4);
    Round(e, 4)
  }

  /** Rounding keeps a value between two bounds, rounded alike. */
  lemma RoundBetween(lo: real, v: real, hi: real, p: nat)
    ensures lo <= v <= hi ==> Round(lo, p) <= Round(v, p) <= Round(hi, p)
  {
    if lo <= v <= hi {
      RoundMonotone(lo, v, p);
      RoundMonotone(v, hi, p);
    }
  }

  /** `--dc`: the nominal duration shortened by up to one second. */
  function DurationChaos(duration: real, draw: real): (r: real)
    requires IsDraw(draw)
    ensures duration - 1000.0 <= r <= duration
  {
    MathRoundOfScaledDraw(draw, 1000);
    duration - MathRound(draw * 1000.0) as real
  }

  /** `--x1`: zero unless the particle is crazy, then a disturbance of at most 0.3. */
  function Craziness(crazy: real, craziness: real): (r: real)
    requires IsDraw(crazy) && IsDraw(craziness)
    ensures 0.0 <= r <= CrazyParticleCraziness
    ensures crazy >= CrazyParticlesFrequency ==> r == 0.0
  {
    if crazy < CrazyParticlesFrequency then
      RoundWithin(craziness * CrazyParticleCraziness, 2, 0, 30);
      Round(craziness * CrazyParticleCraziness, 2)
    else 0.0
  }

  /** `--y1`: a random early-phase easing in [0, 0.5]. */
  function EarlyEase(draw: real): (r: real)
    requires IsDraw(draw)
    ensures 0.0 <= r <= BezierMedian
  {
    RoundWithin(draw * BezierMedian, 4, 0, 5000);
    Round(draw * BezierMedian, 4)
  }

  /** `--y2`: a random fall-curve offset of either sign, bounded by the force. */
  function FallOffset(draw: real, force: real, sign: real): (r: real)
    requires IsDraw(draw) && IsDraw(sign)
    ensures force >= 0.0 ==> Round(-force, 4) <= r <= Round(force, 4)
    ensures force >= 0.0 && CoinFlip(sign) ==> r >= 0.0
  {
    var m := draw * force;
    var v := m * (if CoinFlip(sign) then 1.0 else -1.0);
    FractionOf(draw, force);
    FallOffsetBounds(m, v, force, CoinFlip(sign));
    Round(v, 4)
  }

  lemma FallOffsetBounds(m: real, v: real, force: real, up: bool)
    requires force >= 0.0 ==> 0.0 <= m <= force
    requires v == (if up then m else -m)
    ensures force >= 0.0 ==> Round(-force, 4) <= Round(v, 4) <= Round(force, 4)
    ensures force >= 0.0 && up ==> Round(v, 4) >= 0.0
  {
    RoundBetween(-force, v, force, 4);
    RoundBetween(0.0, v, force, 4);
    RoundOfDecimal(0, 4);
  }

  /** `--w`: the particle size for a circle, else half of it plus 0..4. */
  function Width(circle: bool, size: real, draw: real): (r: real)
    requires IsDraw(draw)
    ensures circle ==> r == size
    ensures !circle ==> size / 2.0 <= r <= size / 2.0 + 4.0
  {
    MathRoundOfScaledDraw(draw, 4);
    if circle then size else MathRound(draw * 4.0) as real + size / 2.0
  }

  /** `--h`: the particle size for a circle, else the size plus 0..2. */
  function Height(circle: bool, size: real, draw: real): (r: real)
    requires IsDraw(draw)
    ensures circle ==> r == size
    ensures !circle ==> size <= r <= size + 2.0
  {
    MathRoundOfScaledDraw(draw, 2);
    if circle then size else MathRound(draw * 2.0) as real + size
  }

  /** `--rd`: the rotation duration, between the two speed bounds. */
  function RotationDuration(draw: real): (r: real)
    requires IsDraw(draw)
    ensures RotationSpeedMin <= r <= RotationSpeedMax
  {
    var v := draw * (RotationSpeedMax - RotationSpeedMin) + RotationSpeedMin;
    RoundWithin(v, 2, 20000, 80000);
    Round(v, 2)
  }

  /** `code.toString(2).padStart(3, '0')`: exactly three bits that decode to the code. */
  function RotationDigits(code: int): (s: string)
    requires 0 <= code <= 5
    ensures |s| == 3 && Binary.IsBits(s)
    ensures Binary.FromBinary(s) == code
  {
    Binary.ToBinaryLength(code, 3);
    Binary.PaddedBinary(code, 3);
    Binary.PadStart(Binary.ToBinary(code), 3, '0')
  }

  /** `.split('')`: one single-character entry per digit. */
  function Entries(digits: string): (es: seq<string>)
    ensures |es| == |digits|
    ensures forall i :: 0 <= i < |es| ==> es[i] == [digits[i]]
  {
    seq(|digits|, i requires 0 <= i < |digits| => [digits[i]])
  }

  /** The decimal texts the rotation entries take: "0", "0.5" and "1". */
  function DecimalValue(t: string): real
  {
    if t == "1" then 1.0 else if t == "0.5" then 0.5 else 0.0
  }

  /** `+n / 2 + ''` for a rotation entry "0" or "1". */
  function HalfEntry(e: string): (h: string)
    requires e == "0" || e == "1"
    ensures h == "0" || h == "0.5"
    ensures DecimalValue(h) == DecimalValue(e) / 2.0
  {
    if e == "1" then "0.5" else "0"
  }

  function HalfEntries(es: seq<string>): (hs: seq<string>)
    requires forall i :: 0 <= i < |es| ==> es[i] == "0" || es[i] == "1"
    ensures |hs| == |es|
    ensures forall i :: 0 <= i < |hs| ==> hs[i] == "0" || hs[i] == "0.5"
    ensures forall i :: 0 <= i < |hs| ==> DecimalValue(hs[i]) == DecimalValue(es[i]) / 2.0
  {
    seq(|es|, i requires 0 <= i < |es| => HalfEntry(es[i]))
  }

  /** `confetti_styles(node, degree)` for one particle. */
  function ConfettiStyles(degree: real, cfg: Config, d: Draws): (s: ParticleStyle)
    requires 0.0 <= degree < 360.0
    requires ValidDraws(d)
    ensures cfg.stageWidth >= 0.0 ==> -cfg.stageWidth / 2.0 <= s.xlp <= cfg.stageWidth / 2.0
    ensures cfg.duration - 1000.0 <= s.dc <= cfg.duration
    ensures 0.0 <= s.x1 <= 0.3 && s.x2 == -s.x1 && s.x3 == s.x1
    ensures 0.0 <= s.x4 <= 1.0
    ensures 0.0 <= s.y1 <= 0.5
    ensures cfg.force >= 0.0 ==> Round(-cfg.force, 4) <= s.y2 <= Round(cfg.force, 4)
    ensures s.y3 == 0.5
    ensures cfg.force >= 0.0 ==> 0.0 <= s.y4 <= Round(cfg.force, 4)
    ensures 200.0 <= s.rd <= 800.0
    ensures s.r == RotationVar(RotationCode(d.rotation))
    ensures s.hr == HalfRotationVar(RotationCode(d.rotation))
    ensures s.br == "50%" || s.br == "0"
    ensures cfg.particleShape == "rectangles" ==> s.br == "0"
    ensures cfg.particleShape == "circles" ==> s.br == "50%"
    ensures cfg.particleShape != "circles" && RotationCode(d.rotation) == 1 ==> s.br == "0"
    ensures s.br == "50%" ==> s.w == cfg.particleSize && s.h == cfg.particleSize
    ensures s.br == "0" ==>
      && cfg.particleSize / 2.0 <= s.w <= cfg.particleSize / 2.0 + 4.0
      && cfg.particleSize <= s.h <= cfg.particleSize + 2.0
  {
    var code := RotationCode(d.rotation);
    var circle := IsCircle(cfg.particleShape, code, d.circle);
    var x1 := Craziness(d.crazy, d.craziness);
    ParticleStyle(
      LandingPoint(degree, cfg.stageWidth),
      DurationChaos(cfg.duration, d.durationChaos),
      x1, x1 * -1.0, x1,
      CurveWeight(degree),
      EarlyEase(d.y1),
      FallOffset(d.y2, cfg.force, d.y2Sign),
      BezierMedian,
      FreeFallWeight(degree, cfg.force),
      Width(circle, cfg.particleSize, d.width),
      Height(circle, cfg.particleSize, d.height),
      RotationVar(code),
      HalfRotationVar(code),
      RotationDuration(d.rotationSpeed),
      if circle then "50%" else "0")
  }

  /**
   The joined rotation flags of a code: three entries "0"/"1" read back by
   splitting on spaces, whose binary reading is the code, so never
   "1 1 0"; the halved flags are, entry by entry, half of them.
   */
  lemma RotationText(code: int)
    requires 0 <= code <= 5
    ensures var es := Entries(RotationDigits(code));
      && |es| == 3
      && (forall i :: 0 <= i < 3 ==> es[i] == "0" || es[i] == "1")
      && Binary.FromBinary(es[0] + es[1] + es[2]) == code
      && Strings.Split(Strings.Join(es, ' '), ' ') == es
      && Strings.Split(Strings.Join(HalfEntries(es), ' '), ' ') == HalfEntries(es)
  {
    FlagText(RotationDigits(code));
  }

  /** Three binary digits split into entries that join back to the digits. */
  lemma FlagText(digits: string)
    requires |digits| == 3 && Binary.IsBits(digits)
    ensures var es := Entries(digits);
      && |es| == 3
      && (forall i :: 0 <= i < 3 ==> es[i] == "0" || es[i] == "1")
      && es[0] + es[1] + es[2] == digits
      && Strings.Split(Strings.Join(es, ' '), ' ') == es
      && Strings.Split(Strings.Join(HalfEntries(es), ' '), ' ') == HalfEntries(es)
  {
    var es := Entries(digits);
    DigitEntries(digits);
    assert es[0] + es[1] + es[2] == digits;
    SplitJoinFlags(es);
  }

  lemma SplitJoinFlags(es: seq<string>)
    requires |es| >= 1
    requires forall i :: 0 <= i < |es| ==> es[i] == "0" || es[i] == "1"
    ensures Strings.Split(Strings.Join(es, ' '), ' ') == es
    ensures Strings.Split(Strings.Join(HalfEntries(es), ' '), ' ') == HalfEntries(es)
  {
    var hs := HalfEntries(es);
    SpaceFree(es);
    SpaceFree(hs);
    Strings.SplitJoin(es, ' ');
    Strings.SplitJoin(hs, ' ');
  }

  lemma DigitEntries(digits: string)
    requires Binary.IsBits(digits)
    ensures forall i :: 0 <= i < |digits| ==> Entries(digits)[i] == "0" || Entries(digits)[i] == "1"
  {
    var es := Entries(digits);
    forall i | 0 <= i < |digits|
      ensures es[i] == "0" || es[i] == "1"
    {
      assert es[i] == [digits[i]];
    }
  }

  /** Entries drawn from "0", "1" and "0.5" hold no space. */
  lemma SpaceFree(es: seq<string>)
    requires forall i :: 0 <= i < |es| ==> es[i] == "0" || es[i] == "1" || es[i] == "0.5"
    ensures forall i :: 0 <= i < |es| ==> ' ' !in es[i]
  {
    forall i | 0 <= i < |es|
      ensures ' ' !in es[i]
    {
      assert "0.5"[1] == '.';
    }
  }

  /** The x-and-y rotation 110 is never selected; the axis-free 000 is. */
  lemma RotationDigitsRange(code: int)
    requires 0 <= code <= 5
    ensures RotationDigits(code) != "110"
    ensures code == 0 <==> RotationDigits(code) == "000"
  {
    assert "110"[..2] == "11" && "11"[..1] == "1" && "1"[..0] == "";
    assert Binary.FromBinary("110") == 6;
    assert "000"[..2] == "00" && "00"[..1] == "0" && "0"[..0] == "";
    assert Binary.FromBinary("000") == 0;
  }

  /** `--r`: the rotation flags of a code, joined by spaces. */
  function RotationVar(code: int): string
    requires 0 <= code <= 5
  {
    Strings.Join(Entries(RotationDigits(code)), ' ')
  }

  /** `--hr`: the halved rotation flags of a code, joined by spaces. */
  function HalfRotationVar(code: int): string
    requires 0 <= code <= 5
  {
    Strings.Join(HalfEntries(Entries(RotationDigits(code))), ' ')
  }

  /**
   `--r` splits into three flags "0"/"1" whose binary reading is the code;
   `--hr` splits into three entries, each half the matching flag.
   */
  lemma RotationVariables(code: int)
    requires 0 <= code <= 5
    ensures var flags := Strings.Split(RotationVar(code), ' ');
      var halves := Strings.Split(HalfRotationVar(code), ' ');
      && |flags| == 3 && |halves| == 3
      && (forall i :: 0 <= i < 3 ==> flags[i] == "0" || flags[i] == "1")
      && Binary.FromBinary(flags[0] + flags[1] + flags[2]) == code
      && (forall i :: 0 <= i < 3 ==> DecimalValue(halves[i]) == DecimalValue(flags[i]) / 2.0)
  {
    var es := Entries(RotationDigits(code));
    RotationText(code);
    assert Strings.Split(RotationVar(code), ' ') == es;
    assert Strings.Split(HalfRotationVar(code), ' ') == HalfEntries(es);
  }
}
