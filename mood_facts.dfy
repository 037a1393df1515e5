/**
  What the colour and fade state machine of mood_model.dfy guarantees: the
  clamping of the instant sets, the shortest-path bound of `fadeHSB`, the
  behaviour of one `fade()` step, the gating of `tick()`, the mode scheduler,
  the output dispatch, and that a fade reaches its target exactly.
 */
module MoodFacts {
  import opened LifxBytes
  import opened MoodModel

  // ---------------------------------------------------------------------
  // Constructor

  /**
    The constructor copies exactly the pins its bulb type drives, starts in
    `FIX_MODE` with the LEDs off and no fade, and takes the clock reading as
    the time of the last update.
   */
  lemma InitState(bulb: Bulb, pins: seq<u8>, now: u32)
    requires |pins| >= PinCount(bulb)
    ensures var s := Init(bulb, pins, now);
      && (forall k :: 0 <= k < PinCount(bulb) ==> s.pins[k] == pins[k])
      && (forall k :: PinCount(bulb) <= k < 4 ==> s.pins[k] == 0)
      && s.bulb == bulb && s.mode == FixMode && !s.fading
      && s.hsb == [0, 0, 0] && s.rgb == [0, 0, 0, 0]
      && s.fadingMaxSteps == 200 && s.fadingStepTime == 50 && s.holdingColor == 1000
      && s.lastUpdate == now
  {
  }

  // ---------------------------------------------------------------------
  // Instant sets

  /**
    `setHSB` stores the hue modulo 360 and saturation and brightness clamped
    to [0, MAX_VAL], recomputes channels 0 to 2 with `hsb2rgb`, cancels any
    fade, and changes nothing else.
   */
  lemma SetHsbStores(s: Lamp, toRgb: Converter, h: u16, sat: u16, b: u16)
    requires Valid(s)
    ensures var r := SetHsb(s, toRgb, h, sat, b);
      && r.hsb[0] == h % 360 && r.hsb[0] < 360
      && r.hsb[1] == (if sat <= MAX_VAL then sat else MAX_VAL)
      && r.hsb[2] == (if b <= MAX_VAL then b else MAX_VAL)
      && (r.rgb[0], r.rgb[1], r.rgb[2]) == toRgb(r.hsb[0], r.hsb[1], r.hsb[2])
      && r.rgb[3] == s.rgb[3]
      && !r.fading
      && r.(hsb := s.hsb, rgb := s.rgb, fading := s.fading) == s
  {
  }

  /** Setting the same HSB colour twice gives the same state as setting it once. */
  lemma SetHsbIdempotent(s: Lamp, toRgb: Converter, h: u16, sat: u16, b: u16)
    requires Valid(s)
    ensures SetHsb(SetHsb(s, toRgb, h, sat, b), toRgb, h, sat, b) == SetHsb(s, toRgb, h, sat, b)
  {
  }

  /**
    `setRGB` clamps each channel to [0, MAX_PWM], cancels any fade, leaves the
    HSB colour and the fourth channel as they were, and changes nothing else.
   */
  lemma SetRgbStores(s: Lamp, r: u16, g: u16, b: u16)
    requires Valid(s)
    ensures var n := SetRgb(s, r, g, b);
      && n.rgb[0] == (if r <= MAX_PWM then r else MAX_PWM)
      && n.rgb[1] == (if g <= MAX_PWM then g else MAX_PWM)
      && n.rgb[2] == (if b <= MAX_PWM then b else MAX_PWM)
      && n.rgb[3] == s.rgb[3]
      && !n.fading && n.hsb == s.hsb
      && n.(rgb := s.rgb, fading := s.fading) == s
  {
  }

  /** Setting the same RGB colour twice gives the same state as setting it once. */
  lemma SetRgbIdempotent(s: Lamp, r: u16, g: u16, b: u16)
    requires Valid(s)
    ensures SetRgb(SetRgb(s, r, g, b), r, g, b) == SetRgb(s, r, g, b)
  {
  }

  /** The three channels unpacked from a 32-bit colour are bytes 2, 1 and 0 of it. */
  lemma PackedChannels(c: bv32)
    ensures RedOf(c) < 256 && GreenOf(c) < 256 && BlueOf(c) < 256
    ensures RedOf(c) == ((c >> 16) % 0x100) as bv8 as int
    ensures GreenOf(c) == ((c >> 8) % 0x100) as bv8 as int
    ensures BlueOf(c) == (c % 0x100) as bv8 as int
  {
  }

  /** Unpacking the colour `0x00RRGGBB` gives back its three channels. */
  lemma UnpackPack(r: bv8, g: bv8, b: bv8)
    ensures RedOf(Pack(r, g, b)) == r as int
    ensures GreenOf(Pack(r, g, b)) == g as int
    ensures BlueOf(Pack(r, g, b)) == b as int
  {
  }

  /** `setRGB(0x00RRGGBB)` sets the colour (RR, GG, BB), which needs no clamping. */
  lemma SetRgbPackedStores(s: Lamp, r: bv8, g: bv8, b: bv8)
    requires Valid(s)
    ensures SetRgbPacked(s, Pack(r, g, b)).rgb == [r as int, g as int, b as int, s.rgb[3]]
  {
  }

  // ---------------------------------------------------------------------
  // Shortest path

  /**
    The shortest-path adjustment keeps both hues on the circle, raises at most
    one of them by 360, and, when the initial hue is below 360, leaves a
    distance of at most 180 degrees to interpolate, which is the angular
    distance between the two hues.
   */
  lemma ShortestPathCorrect(i: u16, h: u16)
    ensures var (a, t) := ShortestPath(i, h);
      && (a == i || a == i + 360) && (t == h % 360 || t == h % 360 + 360)
      && a % 360 == i % 360 && t % 360 == h % 360
      && (a == i || t == h % 360)
      && (i < 360 ==> -180 <= t as int - a <= 180)
      && (i < 360 ==> Abs(t as int - a) == AngularDistance(i, h % 360))
  {
  }

  function Abs(x: int): nat { if x < 0 then -x else x }

  /** The distance between two hues in [0, 360) going the shorter way round the circle. */
  function AngularDistance(x: int, y: int): int
  {
    if Abs(x - y) <= 180 then Abs(x - y) else 360 - Abs(x - y)
  }

  /** From 10 to 350 the fade goes down through 0, from 370 to 350; from 350 to 10 it goes up, to 370. */
  lemma ShortestPathWraps()
    ensures ShortestPath(10, 350) == (370, 350)
    ensures ShortestPath(350, 10) == (350, 370)
    ensures ShortestPath(10, 170) == (10, 170)
  {
  }

  // ---------------------------------------------------------------------
  // Arming a fade

  /**
    `fadeHSB` starts a fade in HSB space at step 0 from the current HSB colour.
    With `shortest` the target hue is congruent to `h` and the initial hue to
    the current one, and they are at most 180 degrees apart when the current
    hue is below 360; without it the hues are taken as they are. Saturation and
    brightness targets are stored unclamped; the current colour is unchanged.
   */
  lemma FadeHsbArms(s: Lamp, h: u16, sat: u16, b: u16, shortest: bool)
    requires Valid(s)
    ensures var r := FadeHsb(s, h, sat, b, shortest);
      && r.fading && r.fadingStep == 0 && r.fadingInHsb
      && r.initial[1] == s.hsb[1] && r.initial[2] == s.hsb[2]
      && r.target[1] == sat && r.target[2] == b
      && r.initial[0] % 360 == s.hsb[0] % 360
      && (shortest ==> r.target[0] % 360 == h % 360)
      && (shortest && s.hsb[0] < 360 ==> -180 <= r.target[0] as int - r.initial[0] <= 180)
      && (!shortest ==> r.initial[0] == s.hsb[0] && r.target[0] == h)
      && r.(initial := s.initial, target := s.target, fading := s.fading,
            fadingStep := s.fadingStep, fadingInHsb := s.fadingInHsb) == s
  {
  }

  /**
    `fadeRGB` starts a fade in RGB space at step 0 from the current channels 0
    to 2 towards the unclamped target; the current colour is unchanged.
   */
  lemma FadeRgbArms(s: Lamp, r: u16, g: u16, b: u16)
    requires Valid(s)
    ensures var n := FadeRgb(s, r, g, b);
      && n.fading && n.fadingStep == 0 && !n.fadingInHsb
      && n.initial == [s.rgb[0], s.rgb[1], s.rgb[2]] && n.target == [r, g, b]
      && n.(initial := s.initial, target := s.target, fading := s.fading,
            fadingStep := s.fadingStep, fadingInHsb := s.fadingInHsb) == s
  {
  }

  /** `fadeRGB(0x00RRGGBB)` fades towards the colour (RR, GG, BB). */
  lemma FadeRgbPackedTarget(s: Lamp, r: bv8, g: bv8, b: bv8)
    requires Valid(s)
    ensures FadeRgbPacked(s, Pack(r, g, b)).target == [r as int, g as int, b as int]
  {
  }

  // ---------------------------------------------------------------------
  // Interpolation

  /** At step 0 a channel is at its initial value. */
  lemma InterpolateAtStart(initial: u16, target: u16, maxSteps: nat)
    requires 0 < maxSteps
    ensures Interpolate(initial, target, 0, maxSteps) == initial
  {
  }

  /** At the last step the exact-real interpolation is exactly at its target, whatever the step count. */
  lemma InterpolateAtEnd(initial: u16, target: u16, maxSteps: nat)
    requires 0 < maxSteps
    ensures Interpolate(initial, target, maxSteps, maxSteps) == target
  {
  }

  /** A channel moves towards its target, step by step, and never turns back. */
  lemma InterpolateMonotone(initial: u16, target: u16, step1: nat, step2: nat, maxSteps: nat)
    requires 0 < maxSteps && step1 <= step2 <= maxSteps
    ensures initial <= target ==> Interpolate(initial, target, step1, maxSteps) <= Interpolate(initial, target, step2, maxSteps)
    ensures target <= initial ==> Interpolate(initial, target, step2, maxSteps) <= Interpolate(initial, target, step1, maxSteps)
  {
    ValueAsFraction(initial, target, step1, maxSteps);
    ValueAsFraction(initial, target, step2, maxSteps);
    var f1 := step1 as real / maxSteps as real;
    var f2 := step2 as real / maxSteps as real;
    assert f1 <= f2;
    var d := target as real - initial as real;
    if initial <= target {
      assert f1 * d <= f2 * d;
    } else {
      assert f2 * d <= f1 * d;
    }
  }

  /**
    One `fade()` step. In HSB space the HSB channels take the interpolated
    values; on an RGB bulb channels 0 to 2 are then `hsb2rgb` of the new HSB
    colour; on an RGBW bulb channels 0 and 1 are the red and green of
    `hsb2rgbw` and channel 2 its white, while channel 3 is never written; on a
    single-channel bulb the RGB channels stay. In RGB space channels 0 to 2
    take the interpolated values and the HSB colour stays.
   */
  lemma FadeStep(s: Lamp, toRgb: Converter, toRgbw: ConverterW)
    requires Shaped(s)
    ensures var r := Fade(s, toRgb, toRgbw);
      && r.(hsb := s.hsb, rgb := s.rgb) == s
      && r.rgb[3] == s.rgb[3]
      && (s.fadingInHsb ==>
            && (forall k :: 0 <= k < 3 ==> r.hsb[k] == Channel(s, k))
            && (s.bulb == BulbRgb ==> (r.rgb[0], r.rgb[1], r.rgb[2]) == toRgb(r.hsb[0], r.hsb[1], r.hsb[2]))
            && (s.bulb == BulbRgbw ==>
                  var c := toRgbw(r.hsb[0], r.hsb[1], r.hsb[2]);
                  r.rgb[0] == c.0 && r.rgb[1] == c.1 && r.rgb[2] == c.3)
            && (s.bulb == BulbSingle ==> r.rgb == s.rgb))
      && (!s.fadingInHsb ==>
            && (forall k :: 0 <= k < 3 ==> r.rgb[k] == Channel(s, k))
            && r.hsb == s.hsb)
  {
  }

  /** Every fade channel lies between its initial and target values at every step. */
  lemma ChannelBetween(s: Lamp, k: int)
    requires Shaped(s) && 0 <= k < 3
    ensures s.initial[k] <= s.target[k] ==> s.initial[k] <= Channel(s, k) <= s.target[k]
    ensures s.target[k] <= s.initial[k] ==> s.target[k] <= Channel(s, k) <= s.initial[k]
  {
  }

  // ---------------------------------------------------------------------
  // The tick while fading

  /**
    While a fade is in progress, `tick()` does nothing until a step interval
    has elapsed on the wrapping 32-bit clock. Then it advances the step by
    exactly one, whatever the elapsed time, records the clock reading, and
    ends the fade when the step reaches the step count: in HSB space the
    colour then snaps to the target hue modulo 360 and the target saturation
    and brightness; in RGB space channels 0 to 2 are exactly the target.
    The fade's endpoints, its colour space, the mode and the timing settings
    do not change.
   */
  lemma TickWhileFading(s: Lamp, toRgb: Converter, toRgbw: ConverterW, now: u32, d: Draws)
    requires Valid(s) && s.fading
    ensures var r := Tick(s, toRgb, toRgbw, now, d).0;
      && (Elapsed(now, s.lastUpdate) < s.fadingStepTime ==> r == s)
      && (Elapsed(now, s.lastUpdate) >= s.fadingStepTime ==>
            && r.fadingStep == s.fadingStep + 1
            && r.lastUpdate == now
            && (r.fading ==> r == Fade(s.(fadingStep := s.fadingStep + 1), toRgb, toRgbw).(lastUpdate := now))
            && (r.fading <==> r.fadingStep < s.fadingMaxSteps)
            && (!r.fading && s.fadingInHsb ==> r.hsb == [s.target[0] % 360, s.target[1], s.target[2]])
            && (!r.fading && !s.fadingInHsb ==> r.rgb[..3] == s.target)
            && r.(hsb := s.hsb, rgb := s.rgb, fading := s.fading, fadingStep := s.fadingStep,
                  lastUpdate := s.lastUpdate) == s)
  {
    if Elapsed(now, s.lastUpdate) >= s.fadingStepTime && s.fadingStep + 1 == s.fadingMaxSteps && !s.fadingInHsb {
      var stepped := s.(fadingStep := s.fadingStep + 1);
      InterpolateAtEnd(s.initial[0], s.target[0], s.fadingMaxSteps);
      InterpolateAtEnd(s.initial[1], s.target[1], s.fadingMaxSteps);
      InterpolateAtEnd(s.initial[2], s.target[2], s.fadingMaxSteps);
      assert Channel(stepped, 0) == s.target[0];
      assert Channel(stepped, 1) == s.target[1];
      assert Channel(stepped, 2) == s.target[2];
    }
  }

  // ---------------------------------------------------------------------
  // The mode scheduler

  /** Without a fade, `FIX_MODE` never changes the state. */
  lemma FixModeStandsStill(s: Lamp, toRgb: Converter, toRgbw: ConverterW, now: u32, d: Draws)
    requires Valid(s) && !s.fading && s.mode == FixMode
    ensures Tick(s, toRgb, toRgbw, now, d).0 == s
  {
  }

  /** Without a fade, no mode acts before the holding time has elapsed. */
  lemma ModeHolds(s: Lamp, toRgb: Converter, toRgbw: ConverterW, now: u32, d: Draws)
    requires Valid(s) && !s.fading && Elapsed(now, s.lastUpdate) < s.holdingColor
    ensures Tick(s, toRgb, toRgbw, now, d).0 == s
  {
  }

  /** Without a fade, a tick is a step of the mode scheduler. */
  lemma TickIdle(s: Lamp, toRgb: Converter, toRgbw: ConverterW, now: u32, d: Draws)
    requires Valid(s) && !s.fading
    ensures Tick(s, toRgb, toRgbw, now, d).0 == SchedulerTick(s, toRgb, now, d)
  {
  }

  /**
    Once the holding time has elapsed without a fade, `FIRE_MODE` records the
    clock reading, sets a warm colour at once, without a fade, and draws a new
    holding time in [10, 500).
   */
  lemma FireModeFlickers(s: Lamp, toRgb: Converter, toRgbw: ConverterW, now: u32, d: Draws)
    requires Valid(s) && !s.fading && s.mode == FireMode && Elapsed(now, s.lastUpdate) >= s.holdingColor
    ensures var r := Tick(s, toRgb, toRgbw, now, d).0;
      && r.lastUpdate == now && !r.fading && 10 <= r.holdingColor < 500
      && r.hsb[0] < 360 && 190 <= r.hsb[1] < 255 * 16 && 120 <= r.hsb[2] < 255 * 16
      && (r.rgb[0], r.rgb[1], r.rgb[2]) == toRgb(r.hsb[0], r.hsb[1], r.hsb[2])
  {
    TickIdle(s, toRgb, toRgbw, now, d);
    SetHsbStores(s.(lastUpdate := now), toRgb, Random(d.hue, 345, 435), Random(d.sat, 190, 255 * 16), Random(d.bri, 120, 255 * 16));
  }

  /** The hue, saturation and brightness a mode other than `FIX_MODE` and `FIRE_MODE` fades to. */
  function ModeGoal(s: Lamp, d: Draws): (u16, u16, u16, bool)
    requires Valid(s) && s.mode != FixMode && s.mode != FireMode
  {
    match s.mode
    case RandomHueMode => (Random(d.hue, 0, 360), s.hsb[1], s.hsb[2], true)
    case RainbowHueMode => (360, s.hsb[1], s.hsb[2], false)
    case RedMode => (Random(d.hue, 335, 400), Random(d.sat, 190 * 16, 255 * 16), Random(d.bri, 120 * 16, 255 * 16), true)
    case BlueMode => (Random(d.hue, 160, 275), Random(d.sat, 190 * 16, 255 * 16), Random(d.bri, 120 * 16, 255 * 16), true)
    case GreenMode => (Random(d.hue, 72, 160), Random(d.sat, 190 * 16, 255 * 16), Random(d.bri, 120 * 16, 255 * 16), true)
  }

  /**
    Once the holding time has elapsed without a fade, every mode other than
    `FIX_MODE` and `FIRE_MODE` records the clock reading and arms an HSB fade
    from the current colour, which it leaves as it is, keeping the holding time.
   */
  lemma ModeArmsFade(s: Lamp, toRgb: Converter, toRgbw: ConverterW, now: u32, d: Draws)
    requires Valid(s) && !s.fading && s.mode != FixMode && s.mode != FireMode
    requires Elapsed(now, s.lastUpdate) >= s.holdingColor
    ensures var r := Tick(s, toRgb, toRgbw, now, d).0;
      && r.lastUpdate == now && r.fading && r.fadingStep == 0 && r.fadingInHsb
      && r.holdingColor == s.holdingColor && r.mode == s.mode
      && r.initial[1] == s.hsb[1] && r.initial[2] == s.hsb[2]
      && r.hsb == s.hsb && r.rgb == s.rgb
      && var g := ModeGoal(s, d);
         && r.target[1] == g.1 && r.target[2] == g.2
         && r.target[0] % 360 == g.0 % 360
         && (!g.3 ==> r.target[0] == g.0 && r.initial[0] == s.hsb[0])
         && (g.3 && s.hsb[0] < 360 ==> -180 <= r.target[0] as int - r.initial[0] <= 180)
  {
    TickIdle(s, toRgb, toRgbw, now, d);
    var g := ModeGoal(s, d);
    FadeHsbArms(s.(lastUpdate := now), g.0, g.1, g.2, g.3);
  }

  /**
    The goals of the modes: the random hue mode keeps saturation and
    brightness; the rainbow fades to hue 360 without the shortest path; the
    red, blue and green themes pick a hue in their band (red wraps through 0)
    and a saturation and brightness in their bounds.
   */
  lemma ModeGoals(s: Lamp, d: Draws)
    requires Valid(s) && s.mode != FixMode && s.mode != FireMode
    ensures var g := ModeGoal(s, d);
      && (s.mode == RandomHueMode ==> g.0 < 360 && g.1 == s.hsb[1] && g.2 == s.hsb[2] && g.3)
      && (s.mode == RainbowHueMode ==> g == (360, s.hsb[1], s.hsb[2], false))
      && (s.mode in {RedMode, BlueMode, GreenMode} ==>
            g.3 && 190 * 16 <= g.1 < 255 * 16 && 120 * 16 <= g.2 < 255 * 16)
      && (s.mode == RedMode ==> 335 <= g.0 % 360 < 360 || g.0 % 360 < 40)
      && (s.mode == BlueMode ==> 160 <= g.0 % 360 < 275)
      && (s.mode == GreenMode ==> 72 <= g.0 % 360 < 160)
  {
  }

  // ---------------------------------------------------------------------
  // Output dispatch

  /**
    `tick()` ends by writing one value per pin the bulb drives, from the
    highest channel down to channel 0, each to the pin the constructor copied
    for it.
   */
  lemma OutputsDispatch(s: Lamp)
    requires Valid(s)
    ensures var w := Outputs(s); var n := PinCount(s.bulb);
      && |w| == n
      && forall k :: 0 <= k < n ==> w[k] == PinWrite(s.pins[n - 1 - k], s.rgb[n - 1 - k])
  {
  }

  /** The writes of a tick are the dispatch of the state the tick leaves. */
  lemma TickWrites(s: Lamp, toRgb: Converter, toRgbw: ConverterW, now: u32, d: Draws)
    requires Valid(s)
    ensures var r := Tick(s, toRgb, toRgbw, now, d);
      && |r.1| == PinCount(s.bulb)
      && forall k :: 0 <= k < |r.1| ==> r.1[k] == PinWrite(s.pins[|r.1| - 1 - k], r.0.rgb[|r.1| - 1 - k])
  {
    var r := Tick(s, toRgb, toRgbw, now, d);
    OutputsDispatch(r.0);
    assert r.0.bulb == s.bulb && r.0.pins == s.pins by {
      if s.fading {
        TickWhileFading(s, toRgb, toRgbw, now, d);
      }
    }
  }

  // ---------------------------------------------------------------------
  // A whole fade

  /** One call of `tick()`: the clock reading and the random draws it sees. */
  datatype TickInput = TickInput(now: u32, draws: Draws)

  /** The state after a sequence of ticks. */
  function Run(s: Lamp, toRgb: Converter, toRgbw: ConverterW, inputs: seq<TickInput>): (r: Lamp)
    requires Valid(s)
    ensures Valid(r)
    decreases |inputs|
  {
    if inputs == [] then s
    else Run(Tick(s, toRgb, toRgbw, inputs[0].now, inputs[0].draws).0, toRgb, toRgbw, inputs[1..])
  }

  /** Each tick comes at least `stepTime` after the previous one, the first after `last`. */
  predicate Punctual(last: u32, stepTime: nat, inputs: seq<TickInput>)
    decreases |inputs|
  {
    inputs == [] ||
    (Elapsed(inputs[0].now, last) >= stepTime && Punctual(inputs[0].now, stepTime, inputs[1..]))
  }

  /**
    A fade converges: after as many punctual ticks as it has steps left, the
    fade has ended, in HSB space at the target hue modulo 360 and the target
    saturation and brightness (the completion snap), in RGB space at the
    target channels of the exact-real interpolation, which is all an RGB
    fade relies on since the firmware snaps only HSB.
   */
  lemma {:induction false} FadeConverges(s: Lamp, toRgb: Converter, toRgbw: ConverterW, inputs: seq<TickInput>)
    requires Valid(s) && s.fading
    requires |inputs| == s.fadingMaxSteps - s.fadingStep
    requires Punctual(s.lastUpdate, s.fadingStepTime, inputs)
    decreases |inputs|
    ensures var r := Run(s, toRgb, toRgbw, inputs);
      && !r.fading && r.fadingStep == s.fadingMaxSteps
      && (s.fadingInHsb ==> r.hsb == [s.target[0] % 360, s.target[1], s.target[2]])
      && (!s.fadingInHsb ==> r.rgb[..3] == s.target)
  {
    var t := Tick(s, toRgb, toRgbw, inputs[0].now, inputs[0].draws).0;
    TickWhileFading(s, toRgb, toRgbw, inputs[0].now, inputs[0].draws);
    assert t.fadingStep == s.fadingStep + 1 && t.lastUpdate == inputs[0].now;
    assert t.target == s.target && t.fadingInHsb == s.fadingInHsb;
    assert t.fadingMaxSteps == s.fadingMaxSteps && t.fadingStepTime == s.fadingStepTime;
    assert Run(s, toRgb, toRgbw, inputs) == Run(t, toRgb, toRgbw, inputs[1..]);
    if |inputs| == 1 {
      assert inputs[1..] == [];
    } else {
      FadeConverges(t, toRgb, toRgbw, inputs[1..]);
    }
  }

  /**
    The rainbow mode sweeps the whole circle: the fade it arms runs from the
    current hue up to 360 and, once completed, leaves the hue at 0.
   */
  lemma RainbowEndsAtZero(s: Lamp, toRgb: Converter, toRgbw: ConverterW, now: u32, d: Draws, inputs: seq<TickInput>)
    requires Valid(s) && !s.fading && s.mode == RainbowHueMode
    requires Elapsed(now, s.lastUpdate) >= s.holdingColor
    requires |inputs| == s.fadingMaxSteps
    requires Punctual(now, s.fadingStepTime, inputs)
    ensures var r := Run(Tick(s, toRgb, toRgbw, now, d).0, toRgb, toRgbw, inputs);
      !r.fading && r.hsb == [0, s.hsb[1], s.hsb[2]]
  {
    var a := Tick(s, toRgb, toRgbw, now, d).0;
    ModeArmsFade(s, toRgb, toRgbw, now, d);
    FadeConverges(a, toRgb, toRgbw, inputs);
  }
}
