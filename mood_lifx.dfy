/**
  Class `RGBMoodLifx` as the firmware has it: an object whose methods update
  its colour arrays and fade fields in place. Each method's postcondition ties
  the new state, seen through `Model()`, to the function of mood_model.dfy
  that describes the operation; the properties of those functions are proved
  in mood_facts.dfy.

  The clock (`millis()`) and the random number generator (`random()`) are
  parameters of the methods that read them; the PWM driver is replaced by
  the list of `setPin` calls that `Tick` returns.
 */
module MoodLifx {
  import opened LifxBytes
  import M = MoodModel

  class RGBMoodLifx {
    const bulb: M.Bulb                // type_
    const pins: array<u8>             // pins_[4]
    const toRgb: M.Converter          // hsb2rgb
    const toRgbw: M.ConverterW        // hsb2rgbw
    const currentHsb: array<u16>      // current_HSB_color_[3]
    const currentRgb: array<u16>      // current_RGB_color_[4]
    const initialColor: array<u16>    // initial_color_[3]
    const targetColor: array<u16>     // target_color_[3]
    var mode: M.Mode                  // mode_
    var fadingMaxSteps: nat           // fading_max_steps_
    var fadingStepTime: nat           // fading_step_time_
    var holdingColor: nat             // holding_color_
    var fading: bool                  // fading_
    var fadingStep: nat               // fading_step_
    var fadingInHsb: bool             // fading_in_hsb_
    var lastUpdate: u32               // last_update_

    /** The state of the object as a value. */
    ghost function Model(): M.Lamp
      reads this, pins, currentHsb, currentRgb, initialColor, targetColor
    {
      M.Lamp(bulb, pins[..], mode, currentHsb[..], currentRgb[..], initialColor[..], targetColor[..],
             fadingMaxSteps, fadingStepTime, holdingColor, fading, fadingStep, fadingInHsb, lastUpdate)
    }

    /** The three colour arrays of length 3 are distinct objects. */
    ghost predicate Separate()
      reads this
    {
      currentHsb != initialColor && currentHsb != targetColor && initialColor != targetColor
    }

    /** The object invariant. */
    ghost predicate Valid()
      reads this, pins, currentHsb, currentRgb, initialColor, targetColor
    {
      Separate() && M.Valid(Model())
    }

    /** `RGBMoodLifx(type, pins, pwm)`, with the clock reading `now` that it stores as `last_update_`. */
    constructor (bulbType: M.Bulb, pinsIn: seq<u8>, now: u32, toRgb: M.Converter, toRgbw: M.ConverterW)
      requires |pinsIn| >= M.PinCount(bulbType)
      ensures Valid() && Model() == M.Init(bulbType, pinsIn, now)
      ensures this.toRgb == toRgb && this.toRgbw == toRgbw
      ensures fresh(pins) && fresh(currentHsb) && fresh(currentRgb) && fresh(initialColor) && fresh(targetColor)
    {
      bulb := bulbType;
      this.toRgb := toRgb;
      this.toRgbw := toRgbw;
      var p := new u8[4](_ => 0);
      // The switch on the bulb type falls through from BULB_RGBW to BULB_RGB to default.
      if bulbType == M.BulbRgbw {
        p[3] := pinsIn[3];
      }
      if bulbType == M.BulbRgbw || bulbType == M.BulbRgb {
        p[2] := pinsIn[2];
        p[1] := pinsIn[1];
      }
      p[0] := pinsIn[0];
      pins := p;
      mode := M.FixMode;
      // Slot 3 is set explicitly: the source writes the out-of-bounds slot 4 instead.
      currentRgb := new u16[4](_ => 0);
      currentHsb := new u16[3](_ => 0);
      initialColor := new u16[3](_ => 0);
      targetColor := new u16[3](_ => 0);
      fadingMaxSteps := M.INITIAL_FADING_MAX_STEPS;
      fadingStepTime := M.INITIAL_FADING_STEP_TIME;
      holdingColor := M.INITIAL_HOLDING_COLOR;
      fading := false;
      fadingStep := 0;
      fadingInHsb := false;
      lastUpdate := now;
      new;
      ghost var s := M.Init(bulbType, pinsIn, now);
      assert pins[..] == s.pins;
      assert currentHsb[..] == s.hsb && currentRgb[..] == s.rgb;
      assert initialColor[..] == s.initial && targetColor[..] == s.target;
    }

    /** `setHSB(h, s, b)`. */
    method SetHsb(h: u16, s: u16, b: u16)
      requires Valid()
      modifies this, currentHsb, currentRgb
      ensures Valid() && Model() == M.SetHsb(old(Model()), toRgb, h, s, b)
    {
      currentHsb[0] := M.Constrain(h % 360, 0, 360);
      currentHsb[1] := M.Constrain(s, 0, M.MAX_VAL);
      currentHsb[2] := M.Constrain(b, 0, M.MAX_VAL);
      var c := toRgb(currentHsb[0], currentHsb[1], currentHsb[2]);
      currentRgb[0] := c.0;
      currentRgb[1] := c.1;
      currentRgb[2] := c.2;
      fading := false;
    }

    /** `setRGB(r, g, b)`. */
    method SetRgb(r: u16, g: u16, b: u16)
      requires Valid()
      modifies this, currentRgb
      ensures Valid() && Model() == M.SetRgb(old(Model()), r, g, b)
    {
      currentRgb[0] := M.Constrain(r, 0, M.MAX_PWM);
      currentRgb[1] := M.Constrain(g, 0, M.MAX_PWM);
      currentRgb[2] := M.Constrain(b, 0, M.MAX_PWM);
      fading := false;
    }

    /** `setRGB(uint32_t color)`. */
    method SetRgbPacked(c: bv32)
      requires Valid()
      modifies this, currentRgb
      ensures Valid() && Model() == M.SetRgbPacked(old(Model()), c)
    {
      SetRgb(M.RedOf(c), M.GreenOf(c), M.BlueOf(c));
    }

    /** `fadeHSB(h, s, b, shortest)`. */
    method FadeHsb(h: u16, s: u16, b: u16, shortest: bool)
      requires Valid()
      modifies this, initialColor, targetColor
      ensures Valid() && Model() == M.FadeHsb(old(Model()), h, s, b, shortest)
    {
      initialColor[0] := currentHsb[0];
      initialColor[1] := currentHsb[1];
      initialColor[2] := currentHsb[2];
      var hue: u16 := h;
      if shortest {
        hue := h % 360;
        // Go the shorter way round the hue circle by lifting the lower end by 360.
        if initialColor[0] < hue {
          if hue - initialColor[0] > (initialColor[0] + 360) - hue {
            initialColor[0] := initialColor[0] + 360;
          }
        } else if initialColor[0] > hue {
          if initialColor[0] - hue > (hue + 360) - initialColor[0] {
            hue := hue + 360;
          }
        }
      }
      targetColor[0] := hue;
      targetColor[1] := s;
      targetColor[2] := b;
      fading := true;
      fadingStep := 0;
      fadingInHsb := true;
    }

    /** `fadeRGB(r, g, b)`. */
    method FadeRgb(r: u16, g: u16, b: u16)
      requires Valid()
      modifies this, initialColor, targetColor
      ensures Valid() && Model() == M.FadeRgb(old(Model()), r, g, b)
    {
      initialColor[0] := currentRgb[0];
      initialColor[1] := currentRgb[1];
      initialColor[2] := currentRgb[2];
      targetColor[0] := r;
      targetColor[1] := g;
      targetColor[2] := b;
      fading := true;
      fadingStep := 0;
      fadingInHsb := false;
    }

    /** `fadeRGB(uint32_t color)`. */
    method FadeRgbPacked(c: bv32)
      requires Valid()
      modifies this, initialColor, targetColor
      ensures Valid() && Model() == M.FadeRgbPacked(old(Model()), c)
    {
      FadeRgb(M.RedOf(c), M.GreenOf(c), M.BlueOf(c));
    }

    /** The private `fade()`: write the interpolated channels of the current step. */
    method Fade()
      requires Separate() && M.Shaped(Model())
      modifies currentHsb, currentRgb
      ensures Separate() && M.Shaped(Model())
      ensures Model() == M.Fade(old(Model()), toRgb, toRgbw)
    {
      ghost var s := Model();
      if fadingInHsb {
        currentHsb[0] := M.Interpolate(initialColor[0], targetColor[0], fadingStep, fadingMaxSteps);
        currentHsb[1] := M.Interpolate(initialColor[1], targetColor[1], fadingStep, fadingMaxSteps);
        currentHsb[2] := M.Interpolate(initialColor[2], targetColor[2], fadingStep, fadingMaxSteps);
        match bulb {
          case BulbRgb =>
            var c := toRgb(currentHsb[0], currentHsb[1], currentHsb[2]);
            currentRgb[0] := c.0;
            currentRgb[1] := c.1;
            currentRgb[2] := c.2;
          case BulbRgbw =>
            // current_RGB_color_[2] is passed as both the blue and the white output.
            var c := toRgbw(currentHsb[0], currentHsb[1], currentHsb[2]);
            currentRgb[0] := c.0;
            currentRgb[1] := c.1;
            currentRgb[2] := c.2;
            currentRgb[2] := c.3;
          case BulbSingle =>
        }
      } else {
        currentRgb[0] := M.Interpolate(initialColor[0], targetColor[0], fadingStep, fadingMaxSteps);
        currentRgb[1] := M.Interpolate(initialColor[1], targetColor[1], fadingStep, fadingMaxSteps);
        currentRgb[2] := M.Interpolate(initialColor[2], targetColor[2], fadingStep, fadingMaxSteps);
      }
      assert currentHsb[..] == M.Fade(s, toRgb, toRgbw).hsb;
      assert currentRgb[..] == M.Fade(s, toRgb, toRgbw).rgb;
    }

    /** `tick()` with the clock reading `now` and the random draws `d`; returns the `setPin` calls it makes. */
    method Tick(now: u32, d: M.Draws) returns (writes: seq<M.PinWrite>)
      requires Valid()
      modifies this, currentHsb, currentRgb, initialColor, targetColor
      ensures Valid()
      ensures Model() == M.Tick(old(Model()), toRgb, toRgbw, now, d).0
      ensures writes == M.Tick(old(Model()), toRgb, toRgbw, now, d).1
    {
      if fading {
        StepFade(now);
      } else {
        Schedule(now, d);
      }
      writes := Dispatch();
    }

    /** The fading branch of `tick()`. */
    method StepFade(now: u32)
      requires Valid() && fading
      modifies this, currentHsb, currentRgb
      ensures Valid() && Model() == M.FadeTick(old(Model()), toRgb, toRgbw, now)
    {
      ghost var s0 := Model();
      if M.Elapsed(now, lastUpdate) >= fadingStepTime {
        fadingStep := fadingStep + 1;
        assert Model() == s0.(fadingStep := s0.fadingStep + 1);
        Fade();
        ghost var stepped := Model();
        if fadingStep >= fadingMaxSteps {
          fading := false;
          if fadingInHsb {
            currentHsb[0] := targetColor[0] % 360;
            currentHsb[1] := targetColor[1];
            currentHsb[2] := targetColor[2];
            assert currentHsb[..] == [stepped.target[0] % 360, stepped.target[1], stepped.target[2]];
          }
          assert Model() == M.FadeTick(s0, toRgb, toRgbw, now).(lastUpdate := s0.lastUpdate);
        } else {
          assert Model() == M.FadeTick(s0, toRgb, toRgbw, now).(lastUpdate := s0.lastUpdate);
        }
        lastUpdate := now;
      }
    }

    /** The mode scheduler branch of `tick()`, taken when no fade is in progress. */
    method Schedule(now: u32, d: M.Draws)
      requires Valid() && !fading
      modifies this, currentHsb, currentRgb, initialColor, targetColor
      ensures Valid() && Model() == M.SchedulerTick(old(Model()), toRgb, now, d)
    {
      if mode != M.FixMode {
        if M.Elapsed(now, lastUpdate) >= holdingColor {
          lastUpdate := now;
          match mode {
            case RandomHueMode =>
              FadeHsb(M.Random(d.hue, 0, 360), currentHsb[1], currentHsb[2], true);
            case RainbowHueMode =>
              FadeHsb(360, currentHsb[1], currentHsb[2], false);
            case RedMode =>
              FadeHsb(M.Random(d.hue, 335, 400), M.Random(d.sat, 190 * 16, 255 * 16), M.Random(d.bri, 120 * 16, 255 * 16), true);
            case BlueMode =>
              FadeHsb(M.Random(d.hue, 160, 275), M.Random(d.sat, 190 * 16, 255 * 16), M.Random(d.bri, 120 * 16, 255 * 16), true);
            case GreenMode =>
              FadeHsb(M.Random(d.hue, 72, 160), M.Random(d.sat, 190 * 16, 255 * 16), M.Random(d.bri, 120 * 16, 255 * 16), true);
            case FireMode =>
              SetHsb(M.Random(d.hue, 345, 435), M.Random(d.sat, 190, 255 * 16), M.Random(d.bri, 120, 255 * 16));
              holdingColor := M.Random(d.hold, 10, 500);
            case FixMode =>
          }
        }
      }
    }

    /** The output switch at the end of `tick()`, which falls through from `BULB_RGBW` to `BULB_RGB` to `default`. */
    method Dispatch() returns (writes: seq<M.PinWrite>)
      requires Valid()
      ensures writes == M.Outputs(Model())
    {
      writes := [];
      if bulb == M.BulbRgbw {
        writes := writes + [M.PinWrite(pins[3], currentRgb[3])];
      }
      if bulb == M.BulbRgbw || bulb == M.BulbRgb {
        writes := writes + [M.PinWrite(pins[2], currentRgb[2]), M.PinWrite(pins[1], currentRgb[1])];
      }
      writes := writes + [M.PinWrite(pins[0], currentRgb[0])];
    }
  }
}
