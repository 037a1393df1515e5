/**
  The colour and fade state machine of class `RGBMoodLifx`, written as values:
  a `Lamp` holds every field of the object, and each public operation of the
  class is a function from the old `Lamp` to the new one. The class in
  mood_lifx.dfy performs the same steps on arrays and is proved to agree with
  these functions; the properties of the firmware are proved here, about them.

  The two colour converters `hsb2rgb` and `hsb2rgbw` compute with floating
  point trigonometry. They are parameters of type `Converter` and
  `ConverterW`, of which the proofs assume nothing, so "the RGB channels are
  recomputed from the new HSB colour" is stated without their formulas.
 */
module MoodModel {
  import opened LifxBytes

  /** Largest saturation and brightness (`MAX_VAL`) and largest PWM value (`MAX_PWM`). */
  const MAX_VAL := 4095
  const MAX_PWM := 4095

  /** What the constructor sets: 200 steps of 50 ms per fade, a 1000 ms hold between mode changes. */
  const INITIAL_FADING_MAX_STEPS := 200
  const INITIAL_FADING_STEP_TIME := 50
  const INITIAL_HOLDING_COLOR := 1000

  /** The bulb types the switches tell apart; any other type takes their `default` branch. */
  datatype Bulb = BulbSingle | BulbRgb | BulbRgbw

  /** The ambient modes. */
  datatype Mode = FixMode | RandomHueMode | RainbowHueMode | RedMode | BlueMode | GreenMode | FireMode

  /** `hsb2rgb(h, s, b, r, g, bl)`: the three values it writes back. */
  type Converter = (u16, u16, u16) -> (u16, u16, u16)
  /** `hsb2rgbw(h, s, i, r, g, b, w)`: the four values it writes back, in that order. */
  type ConverterW = (u16, u16, u16) -> (u16, u16, u16, u16)

  /** One call `pwm_.setPin(pin, value)` of the output dispatch. */
  datatype PinWrite = PinWrite(pin: u8, value: u16)

  /**
    The raw outputs of the random number generator that one call of `tick`
    may consume: one per `random(lo, hi)` argument, named by its role, since
    C leaves the order in which arguments are evaluated unspecified.
   */
  datatype Draws = Draws(hue: nat, sat: nat, bri: nat, hold: nat)

  /** The fields of an `RGBMoodLifx` object. */
  datatype Lamp = Lamp(
    bulb: Bulb,               // type_
    pins: seq<u8>,            // pins_[4]
    mode: Mode,               // mode_
    hsb: seq<u16>,            // current_HSB_color_[3]
    rgb: seq<u16>,            // current_RGB_color_[4]
    initial: seq<u16>,        // initial_color_[3]
    target: seq<u16>,         // target_color_[3]
    fadingMaxSteps: nat,      // fading_max_steps_
    fadingStepTime: nat,      // fading_step_time_
    holdingColor: nat,        // holding_color_
    fading: bool,             // fading_
    fadingStep: nat,          // fading_step_
    fadingInHsb: bool,        // fading_in_hsb_
    lastUpdate: u32           // last_update_
  )

  /** The sizes of the arrays, and a step counter within a fade of at least one step. */
  predicate Shaped(s: Lamp)
  {
    && |s.pins| == 4 && |s.hsb| == 3 && |s.rgb| == 4 && |s.initial| == 3 && |s.target| == 3
    && s.fadingMaxSteps > 0
    && s.fadingStep <= s.fadingMaxSteps
  }

  /** The object invariant: besides the shape, a fade in progress has steps left. */
  predicate Valid(s: Lamp)
  {
    Shaped(s) && (s.fading ==> s.fadingStep < s.fadingMaxSteps)
  }

  /** How many pins a bulb type drives: the cases the constructor's switch falls through. */
  function PinCount(b: Bulb): (n: nat)
    ensures 1 <= n <= 4
  {
    match b
    case BulbRgbw => 4
    case BulbRgb => 3
    case BulbSingle => 1
  }

  /** Arduino's `constrain(amt, low, high)`: the point of [low, high] nearest to amt. */
  function Constrain(amt: int, low: int, high: int): (r: int)
    ensures low <= high ==> low <= r <= high
    ensures low <= amt <= high ==> r == amt
    ensures amt < low ==> r == low
    ensures low <= high && high < amt ==> r == high
  {
    if amt < low then low else if amt > high then high else amt
  }

  /**
    `random(lo, hi)` reduces a raw draw into [lo, hi) the way the wiring
    library does, `lo + raw % (hi - lo)`; the lemmas only use the range.
   */
  function Random(raw: nat, lo: int, hi: int): (r: int)
    requires lo < hi
    ensures lo <= r < hi
  {
    lo + raw % (hi - lo)
  }

  /** `current_millis - last_update_` as `unsigned long`: the time since `last` on a 32-bit clock that wraps. */
  function Elapsed(now: u32, last: u32): (e: u32)
    ensures last <= now ==> e == now - last
    ensures now < last ==> e == now + 0x1_0000_0000 - last
    ensures (last + e) % 0x1_0000_0000 == now
  {
    (now - last) % 0x1_0000_0000
  }

  // ---------------------------------------------------------------------
  // Constructor

  /**
    The constructor. Its switch falls through from `BULB_RGBW` to `BULB_RGB`
    to `default`, so it copies pins 3, 2, 1 and 0, pins 2, 1 and 0, or pin 0.
    Slots it does not write, slot 3 of the RGB colour (the source writes the
    out-of-bounds slot 4 instead), the fade colours, the step counter and the
    colour space of the fade are 0 and false here.
   */
  function Init(bulb: Bulb, pins: seq<u8>, now: u32): (s: Lamp)
    requires |pins| >= PinCount(bulb)
    ensures Valid(s)
  {
    var copied :=
      match bulb
      case BulbRgbw => [pins[0], pins[1], pins[2], pins[3]]
      case BulbRgb => [pins[0], pins[1], pins[2], 0]
      case BulbSingle => [pins[0], 0, 0, 0];
    Lamp(bulb, copied, FixMode,
         [0, 0, 0], [0, 0, 0, 0], [0, 0, 0], [0, 0, 0],
         INITIAL_FADING_MAX_STEPS, INITIAL_FADING_STEP_TIME, INITIAL_HOLDING_COLOR,
         false, 0, false, now)
  }

  // ---------------------------------------------------------------------
  // Instant sets

  /** `setHSB(h, s, b)`: store the reduced hue and clamped values, recompute RGB with `hsb2rgb`, cancel the fade. */
  function SetHsb(s: Lamp, toRgb: Converter, h: u16, sat: u16, b: u16): (next: Lamp)
    requires Valid(s)
    ensures Valid(next)
  {
    var hsb: seq<u16> := [Constrain(h % 360, 0, 360), Constrain(sat, 0, MAX_VAL), Constrain(b, 0, MAX_VAL)];
    var c := toRgb(hsb[0], hsb[1], hsb[2]);
    s.(hsb := hsb, rgb := [c.0, c.1, c.2, s.rgb[3]], fading := false)
  }

  /** `setRGB(r, g, b)`: store the clamped channels and cancel the fade. */
  function SetRgb(s: Lamp, r: u16, g: u16, b: u16): (next: Lamp)
    requires Valid(s)
    ensures Valid(next)
  {
    s.(rgb := [Constrain(r, 0, MAX_PWM), Constrain(g, 0, MAX_PWM), Constrain(b, 0, MAX_PWM), s.rgb[3]],
       fading := false)
  }

  /** `(color & 0xFF0000) >> 16`, `(color & 0x00FF00) >> 8` and `color & 0x0000FF`. */
  function RedOf(c: bv32): (r: u16)
    ensures r < 0x100
  {
    ((c & 0xFF0000) >> 16) as bv8 as int
  }

  function GreenOf(c: bv32): (g: u16)
    ensures g < 0x100
  {
    ((c & 0x00FF00) >> 8) as bv8 as int
  }

  function BlueOf(c: bv32): (b: u16)
    ensures b < 0x100
  {
    (c & 0x0000FF) as bv8 as int
  }

  /** The colour `0x00RRGGBB` with the given byte channels. */
  function Pack(r: bv8, g: bv8, b: bv8): bv32
  {
    ((r as bv32) << 16) | ((g as bv32) << 8) | (b as bv32)
  }

  /** `setRGB(uint32_t color)`. */
  function SetRgbPacked(s: Lamp, c: bv32): (next: Lamp)
    requires Valid(s)
    ensures Valid(next)
  {
    SetRgb(s, RedOf(c), GreenOf(c), BlueOf(c))
  }

  // ---------------------------------------------------------------------
  // Arming a fade

  /**
    The shortest-path adjustment of `fadeHSB`: given the initial hue `i` and the
    requested hue `h`, the pair (initial, target) the fade interpolates between.
    The target is `h % 360`, and 360 is added to whichever endpoint is lower
    when going the other way round the circle is shorter.
   */
  function ShortestPath(i: u16, h: u16): (ends: (u16, u16))
    ensures ends.0 % 360 == i % 360 && ends.1 % 360 == h % 360
    ensures ends.0 == i || ends.1 == h % 360
  {
    var t := h % 360;
    if i < t then
      if t - i > (i + 360) - t then (i + 360, t) else (i, t)
    else if i > t then
      if i - t > (t + 360) - i then (i, t + 360) else (i, t)
    else (i, t)
  }

  /** `fadeHSB(h, s, b, shortest)`: start a fade in HSB space from the current HSB colour. */
  function FadeHsb(s: Lamp, h: u16, sat: u16, b: u16, shortest: bool): (next: Lamp)
    requires Valid(s)
    ensures Valid(next)
  {
    var ends := if shortest then ShortestPath(s.hsb[0], h) else (s.hsb[0], h);
    s.(initial := [ends.0, s.hsb[1], s.hsb[2]], target := [ends.1, sat, b],
       fading := true, fadingStep := 0, fadingInHsb := true)
  }

  /** `fadeRGB(r, g, b)`: start a fade in RGB space from the current RGB colour. */
  function FadeRgb(s: Lamp, r: u16, g: u16, b: u16): (next: Lamp)
    requires Valid(s)
    ensures Valid(next)
  {
    s.(initial := s.rgb[..3], target := [r, g, b],
       fading := true, fadingStep := 0, fadingInHsb := false)
  }

  /** `fadeRGB(uint32_t color)`. */
  function FadeRgbPacked(s: Lamp, c: bv32): (next: Lamp)
    requires Valid(s)
    ensures Valid(next)
  {
    FadeRgb(s, RedOf(c), GreenOf(c), BlueOf(c))
  }

  // ---------------------------------------------------------------------
  // Interpolation

  /**
    One channel of `fade()`:
    `(uint16_t)(initial - step * ((initial - (float)target) / maxSteps))`,
    in exact real arithmetic (an idealisation of the single-precision float
    expression), truncated toward zero. The value lies between the two
    endpoints, so it is never negative and always fits 16 bits.
   */
  function Interpolate(initial: u16, target: u16, step: nat, maxSteps: nat): (r: u16)
    requires 0 < maxSteps && step <= maxSteps
    ensures initial <= target ==> initial <= r <= target
    ensures target <= initial ==> target <= r <= initial
  {
    var v := Value(initial, target, step, maxSteps);
    ValueBetween(initial, target, step, maxSteps);
    v.Floor
  }

  /** The real value of the interpolation before truncation. */
  function Value(initial: int, target: int, step: nat, maxSteps: nat): real
    requires 0 < maxSteps
  {
    initial as real - step as real * ((initial as real - target as real) / maxSteps as real)
  }

  /** The real value is `initial + (step / maxSteps) * (target - initial)`. */
  lemma ValueAsFraction(initial: int, target: int, step: nat, maxSteps: nat)
    requires 0 < maxSteps
    ensures Value(initial, target, step, maxSteps)
            == initial as real + (step as real / maxSteps as real) * (target as real - initial as real)
  {
    var m := maxSteps as real;
    var d := initial as real - target as real;
    calc {
      step as real * (d / m);
      (step as real / m) * d;
    }
  }

  lemma ValueBetween(initial: int, target: int, step: nat, maxSteps: nat)
    requires 0 < maxSteps && step <= maxSteps
    ensures initial <= target ==> initial as real <= Value(initial, target, step, maxSteps) <= target as real
    ensures target <= initial ==> target as real <= Value(initial, target, step, maxSteps) <= initial as real
  {
    ValueAsFraction(initial, target, step, maxSteps);
    var f := step as real / maxSteps as real;
    assert 0.0 <= f <= 1.0;
    var d := target as real - initial as real;
    if initial <= target {
      assert 0.0 <= f * d <= d;
    } else {
      assert d <= f * d <= 0.0;
    }
  }

  /** Channel `k` of the fade colour at the current step. */
  function Channel(s: Lamp, k: int): u16
    requires Shaped(s) && 0 <= k < 3
  {
    Interpolate(s.initial[k], s.target[k], s.fadingStep, s.fadingMaxSteps)
  }

  /** `fade()`: interpolate every channel for the current step; in HSB space also recompute RGB. */
  function Fade(s: Lamp, toRgb: Converter, toRgbw: ConverterW): (r: Lamp)
    requires Shaped(s)
    ensures Shaped(r)
  {
    if s.fadingInHsb then
      var hsb: seq<u16> := [Channel(s, 0), Channel(s, 1), Channel(s, 2)];
      var rgb :=
        match s.bulb
        case BulbRgb =>
          var c := toRgb(hsb[0], hsb[1], hsb[2]);
          [c.0, c.1, c.2, s.rgb[3]]
        case BulbRgbw =>
          // hsb2rgbw receives current_RGB_color_[2] as both its blue and its
          // white output; white is written last, so slot 2 ends up white.
          var c := toRgbw(hsb[0], hsb[1], hsb[2]);
          [c.0, c.1, c.3, s.rgb[3]]
        case BulbSingle => s.rgb;
      s.(hsb := hsb, rgb := rgb)
    else
      s.(rgb := [Channel(s, 0), Channel(s, 1), Channel(s, 2), s.rgb[3]])
  }

  // ---------------------------------------------------------------------
  // The tick

  /** The fading branch of `tick()`: at most one step, when a step interval has elapsed. */
  function FadeTick(s: Lamp, toRgb: Converter, toRgbw: ConverterW, now: u32): (r: Lamp)
    requires Valid(s) && s.fading
    ensures Valid(r)
  {
    if Elapsed(now, s.lastUpdate) >= s.fadingStepTime then
      var stepped := Fade(s.(fadingStep := s.fadingStep + 1), toRgb, toRgbw);
      var settled :=
        if stepped.fadingStep >= stepped.fadingMaxSteps then
          stepped.(fading := false,
                   hsb := if stepped.fadingInHsb
                          then [stepped.target[0] % 360, stepped.target[1], stepped.target[2]]
                          else stepped.hsb)
        else stepped;
      settled.(lastUpdate := now)
    else s
  }

  /** The mode scheduler: the branch of `tick()` taken when no fade is in progress. */
  function SchedulerTick(s: Lamp, toRgb: Converter, now: u32, d: Draws): (r: Lamp)
    requires Valid(s) && !s.fading
    ensures Valid(r)
  {
    if s.mode == FixMode || Elapsed(now, s.lastUpdate) < s.holdingColor then s
    else
      var s1 := s.(lastUpdate := now);
      match s.mode
      case FixMode => s1
      case RandomHueMode =>
        FadeHsb(s1, Random(d.hue, 0, 360), s.hsb[1], s.hsb[2], true)
      case RainbowHueMode =>
        FadeHsb(s1, 360, s.hsb[1], s.hsb[2], false)
      case RedMode =>
        FadeHsb(s1, Random(d.hue, 335, 400), Random(d.sat, 190 * 16, 255 * 16), Random(d.bri, 120 * 16, 255 * 16), true)
      case BlueMode =>
        FadeHsb(s1, Random(d.hue, 160, 275), Random(d.sat, 190 * 16, 255 * 16), Random(d.bri, 120 * 16, 255 * 16), true)
      case GreenMode =>
        FadeHsb(s1, Random(d.hue, 72, 160), Random(d.sat, 190 * 16, 255 * 16), Random(d.bri, 120 * 16, 255 * 16), true)
      case FireMode =>
        SetHsb(s1, toRgb, Random(d.hue, 345, 435), Random(d.sat, 190, 255 * 16), Random(d.bri, 120, 255 * 16))
          .(holdingColor := Random(d.hold, 10, 500))
  }

  /**
    The output dispatch at the end of `tick()`: a switch that falls through
    from `BULB_RGBW` to `BULB_RGB` to `default`, writing slot 3, then 2 and 1,
    then 0 of the RGB colour to the matching pin.
   */
  function Outputs(s: Lamp): (writes: seq<PinWrite>)
    requires Valid(s)
    ensures |writes| == PinCount(s.bulb)
    ensures forall k :: 0 <= k < |writes| ==> writes[k].pin in s.pins
  {
    var w := (k: int) requires 0 <= k < 4 => PinWrite(s.pins[k], s.rgb[k]);
    match s.bulb
    case BulbRgbw => [w(3), w(2), w(1), w(0)]
    case BulbRgb => [w(2), w(1), w(0)]
    case BulbSingle => [w(0)]
  }

  /** `tick()` at clock reading `now`: the new state and the pin writes it makes. */
  function Tick(s: Lamp, toRgb: Converter, toRgbw: ConverterW, now: u32, d: Draws): (r: (Lamp, seq<PinWrite>))
    requires Valid(s)
    ensures Valid(r.0)
  {
    var next := if s.fading then FadeTick(s, toRgb, toRgbw, now) else SchedulerTick(s, toRgb, now, d);
    (next, Outputs(next))
  }
}
