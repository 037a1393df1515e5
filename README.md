# RGBMoodLifx colour and fade engine in Dafny

This project models the firmware class `RGBMoodLifx`, which drives a single-channel, RGB or RGBW LED fixture so that it behaves like a LIFX bulb. It also models the byte helper macros of `lifx.h`.

The class keeps a current HSB colour (hue, saturation, brightness) and a current RGB colour. It offers these operations:

- instant sets: `setHSB`, and `setRGB` with its packed `uint32_t` overload;
- fades from the current colour to a target: `fadeHSB`, with an optional shortest path round the hue circle, and `fadeRGB` with its packed overload;
- `tick()`, called from the main loop.

While a fade is running, `tick()` advances it by one interpolation step whenever a step interval has passed on the millisecond clock. When no fade is running, it runs the ambient mode scheduler:

- random hue;
- rainbow;
- red, blue and green themes;
- fire flicker.

Finally `tick()` writes the RGB channels to the PWM pins of the bulb.

The project has five files. Each module is listed with its file:

- `LifxBytes` (lifx_bytes.dfy): the `lowByte`, `highByte` and `word` macros on bit-vectors, with the two byte round trips. It also defines the unsigned integer types the other modules use.
- `DimCurve` (dim_curve.dfy): the constant dim-curve table `dc[256]`, with its length, its end points and that it never decreases.
- `MoodModel` (mood_model.dfy): the object's fields as a datatype `Lamp`, and every operation as a function from the old `Lamp` to the new one.
- `MoodFacts` (mood_facts.dfy): what those functions guarantee. This covers:
  - clamping and idempotence of the instant sets;
  - the ±180° bound of the shortest-path hue adjustment;
  - interpolation start, end, bounds and monotonicity;
  - the rules of one `fade()` step;
  - one step per tick on a wrapping 32-bit clock;
  - the completion snap;
  - every scheduler mode;
  - the pin dispatch order;
  - that a fade given as many timely ticks as it has steps left ends at its target: in HSB space by the completion snap, in RGB space under the exact-real interpolation of the model (see "## Left out").
- `MoodLifx` (mood_lifx.dfy): the class itself, `RGBMoodLifx`.
  - Its colours are arrays that its methods update in place, element by element, as the firmware does.
  - Each method's postcondition ties the new state, seen through `Model()`, to the matching `MoodModel` function.

The model follows the code in these places:

- **Millisecond clock.** `millis()` is the parameter `now` of the constructor and of `Tick`. Elapsed time is the `unsigned long` difference, taken modulo 2^32.
- **Random numbers.** `random(lo, hi)` is computed from a raw draw in a `Draws` parameter, as `lo + raw % (hi - lo)`. Only the range [lo, hi) is used by the proofs.
- **Colour converters.** The converters `hsb2rgb` and `hsb2rgbw` are function values given to the constructor (`Converter`, `ConverterW`). The proofs assume nothing about them.
- **RGBW fade.** In `fade()` the RGBW bulb passes `current_RGB_color_[2]` as both the blue and the white output of `hsb2rgbw`. White is assigned last, so slot 2 ends up holding the white value and slot 3, the white pin's slot, is never written by a fade. The model does the same.
- **Single-channel bulb.** In an HSB fade on a single-channel bulb, the switch in `fade()` has no default, so RGB is not recomputed and the HSB values change alone.
- **Completion snap.** At the end of an HSB fade, `tick()` snaps the HSB colour to the target, with the hue modulo 360, but does not recompute RGB. The RGB channels keep the last interpolated conversion.
- **`setHSB`.** It always uses the three-channel `hsb2rgb`, on every bulb type.
- **Constructor.** It writes `current_RGB_color_[4]`, which is out of bounds (RGBMoodLifx.cpp:58), and never writes slot 3. The model keeps four slots and starts slot 3 at 0.
  - The pins the fall-through switch does not copy start at 0.
  - The fade colours, the step counter and the fade colour space start at 0 and false. The constructor leaves them unwritten; the zero start is an assumption listed under "## Left out".
  - Line 31 declares a local `pwm_` that hides the member driver. The member is never set. This matters only to the PWM driver, which is not modelled.
- **Unknown bulb type.** The constructor's switch and the output switch of `tick()` send any other bulb type to their `default` branch, and the code has no construction error for it. The switch in `fade()` (RGBMoodLifx.cpp:400-411) has no `default`, so there an unknown type matches no case and RGB is not recomputed, as for `BulbSingle`. `Bulb` has only the three types the switches name; an unknown type behaves as `BulbSingle` in all three switches.

## Model

| member | source | states |
|---|---|---|
| LifxBytes.ToByte | RGBMoodLifx/lifx.h:5-7 | the `(uint8_t)` cast keeps the value modulo 256 |
| LifxBytes.LowByte | RGBMoodLifx/lifx.h:5 | the byte is the word modulo 256, i.e. `w & 0xff`, so it is in [0,255] |
| LifxBytes.HighByte | RGBMoodLifx/lifx.h:6 | the byte is `(w >> 8)` truncated to 8 bits; for a 16-bit word it is exactly `w / 256` |
| LifxBytes.Word | RGBMoodLifx/lifx.h:7 | the word is `(b1 mod 256) * 256 + (b2 mod 256)`, a 16-bit value |
| LifxBytes.WordOfBytes | RGBMoodLifx/lifx.h:5-7 | `word(highByte(w), lowByte(w)) == w` for every 16-bit word |
| LifxBytes.BytesOfWord | RGBMoodLifx/lifx.h:5-7 | `highByte(word(a, b)) == a` and `lowByte(word(a, b)) == b` for all bytes |
| DimCurve.DcStepsUp | RGBMoodLifx/RGBMoodLifx.cpp:9-26 | each table entry is at most the next one |
| DimCurve.DcShape | RGBMoodLifx/RGBMoodLifx.cpp:9-26 | the table has 256 byte entries, `dc[0] == 0`, `dc[255] == 255`, and it is non-decreasing |
| MoodModel.PinCount | RGBMoodLifx/RGBMoodLifx.cpp:37-51 | a bulb drives between one and four pins (4, 3 or 1 copied by the fall-through switch) |
| MoodModel.Constrain | RGBMoodLifx/RGBMoodLifx.cpp:76-78 | `constrain` returns amt inside [low, high], low below it and high above it |
| MoodModel.Random | RGBMoodLifx/RGBMoodLifx.cpp:184-200 | `random(lo, hi)` lies in [lo, hi) |
| MoodModel.Elapsed | RGBMoodLifx/RGBMoodLifx.cpp:160-163 | `current_millis - last_update_` is the time since the last update on a wrapping 32-bit clock: plain difference without wrap, difference plus 2^32 across the wrap |
| MoodModel.Init | RGBMoodLifx/RGBMoodLifx.cpp:29-67 | the constructed state satisfies the object invariant |
| MoodModel.SetHsb | RGBMoodLifx/RGBMoodLifx.cpp:75-81 | `setHSB` keeps the object invariant (its effect: MoodFacts.SetHsbStores) |
| MoodModel.SetRgb | RGBMoodLifx/RGBMoodLifx.cpp:89-94 | `setRGB` keeps the object invariant (its effect: MoodFacts.SetRgbStores) |
| MoodModel.RedOf | RGBMoodLifx/RGBMoodLifx.cpp:97 | `(color & 0xFF0000) >> 16` is below 256 |
| MoodModel.GreenOf | RGBMoodLifx/RGBMoodLifx.cpp:97 | `(color & 0x00FF00) >> 8` is below 256 |
| MoodModel.BlueOf | RGBMoodLifx/RGBMoodLifx.cpp:97 | `color & 0x0000FF` is below 256 |
| MoodModel.SetRgbPacked | RGBMoodLifx/RGBMoodLifx.cpp:96-98 | the packed `setRGB` keeps the object invariant (its effect: MoodFacts.SetRgbPackedStores) |
| MoodModel.ShortestPath | RGBMoodLifx/RGBMoodLifx.cpp:111-125 | the adjusted initial hue is congruent to the current hue and the target to `h` modulo 360, and at most one of them is lifted (the 180-degree bound: MoodFacts.ShortestPathCorrect) |
| MoodModel.FadeHsb | RGBMoodLifx/RGBMoodLifx.cpp:107-132 | `fadeHSB` leaves a valid state with a fade in progress at step 0 (its effect: MoodFacts.FadeHsbArms) |
| MoodModel.FadeRgb | RGBMoodLifx/RGBMoodLifx.cpp:140-150 | `fadeRGB` leaves a valid state (its effect: MoodFacts.FadeRgbArms) |
| MoodModel.FadeRgbPacked | RGBMoodLifx/RGBMoodLifx.cpp:152-154 | the packed `fadeRGB` leaves a valid state (its effect: MoodFacts.FadeRgbPackedTarget) |
| MoodModel.ValueAsFraction | RGBMoodLifx/RGBMoodLifx.cpp:397 | the interpolation expression equals `initial + (step / max) * (target - initial)` |
| MoodModel.ValueBetween | RGBMoodLifx/RGBMoodLifx.cpp:397-399 | before truncation the interpolated value lies between initial and target for every step in [0, max] |
| MoodModel.Interpolate | RGBMoodLifx/RGBMoodLifx.cpp:397-399 | the truncated channel value lies between initial and target, so the `uint16_t` cast never wraps |
| MoodModel.Fade | RGBMoodLifx/RGBMoodLifx.cpp:394-418 | `fade()` keeps the array sizes and step bounds (its effect: MoodFacts.FadeStep) |
| MoodModel.FadeTick | RGBMoodLifx/RGBMoodLifx.cpp:161-176 | the fading branch of `tick()` keeps the invariant that a running fade has steps left |
| MoodModel.SchedulerTick | RGBMoodLifx/RGBMoodLifx.cpp:177-204 | the mode scheduler keeps the object invariant |
| MoodModel.Outputs | RGBMoodLifx/RGBMoodLifx.cpp:212-227 | the output switch makes one `setPin` call per pin the bulb drives, each to one of the object's pins (order and values: MoodFacts.OutputsDispatch) |
| MoodModel.Tick | RGBMoodLifx/RGBMoodLifx.cpp:159-229 | `tick()` keeps the object invariant |
| MoodFacts.InitState | RGBMoodLifx/RGBMoodLifx.cpp:29-67 | the constructor copies exactly the pins of its bulb type and zeroes the rest, starts in FIX_MODE, LEDs off, not fading, 200 steps of 50 ms, 1000 ms hold, last update = now |
| MoodFacts.SetHsbStores | RGBMoodLifx/RGBMoodLifx.cpp:75-81 | hue `h % 360` (< 360), saturation and brightness clamped to MAX_VAL, RGB 0-2 = `hsb2rgb` of the stored HSB, fade cancelled, nothing else changed |
| MoodFacts.SetHsbIdempotent | RGBMoodLifx/RGBMoodLifx.cpp:75-81 | `setHSB` twice with the same arguments equals once |
| MoodFacts.SetRgbStores | RGBMoodLifx/RGBMoodLifx.cpp:89-94 | each channel clamped to MAX_PWM, fade cancelled, HSB and slot 3 unchanged, nothing else changed |
| MoodFacts.SetRgbIdempotent | RGBMoodLifx/RGBMoodLifx.cpp:89-94 | `setRGB` twice with the same arguments equals once |
| MoodFacts.PackedChannels | RGBMoodLifx/RGBMoodLifx.cpp:96-98 | the unpacked channels are bytes 2, 1 and 0 of the colour, each below 256 |
| MoodFacts.UnpackPack | RGBMoodLifx/RGBMoodLifx.cpp:96-98 | unpacking `0x00RRGGBB` gives back RR, GG and BB |
| MoodFacts.SetRgbPackedStores | RGBMoodLifx/RGBMoodLifx.cpp:96-98 | `setRGB(0x00RRGGBB)` sets the channels to exactly RR, GG, BB |
| MoodFacts.ShortestPathCorrect | RGBMoodLifx/RGBMoodLifx.cpp:111-125 | the adjusted hues are congruent to the old hue and to `h` modulo 360, at most one of them is raised by 360, and for an initial hue below 360 they are at most 180 apart, exactly the angular distance |
| MoodFacts.ShortestPathWraps | RGBMoodLifx/RGBMoodLifx.cpp:113-123 | 10 to 350 fades from 370 down to 350, 350 to 10 fades up to 370, and 10 to 170 is not adjusted |
| MoodFacts.FadeHsbArms | RGBMoodLifx/RGBMoodLifx.cpp:107-132 | `fadeHSB` starts an HSB fade at step 0 from the current HSB, with the shortest-path bounds when asked and `h` unchanged otherwise, targets unclamped, nothing else changed |
| MoodFacts.FadeRgbArms | RGBMoodLifx/RGBMoodLifx.cpp:140-150 | `fadeRGB` starts an RGB fade at step 0 from current RGB 0-2 towards the unclamped target, nothing else changed |
| MoodFacts.FadeRgbPackedTarget | RGBMoodLifx/RGBMoodLifx.cpp:152-154 | `fadeRGB(0x00RRGGBB)` targets (RR, GG, BB) |
| MoodFacts.InterpolateAtStart | RGBMoodLifx/RGBMoodLifx.cpp:397 | at step 0 a channel equals its initial value |
| MoodFacts.InterpolateAtEnd | RGBMoodLifx/RGBMoodLifx.cpp:397 | at the last step a channel equals its target exactly |
| MoodFacts.InterpolateMonotone | RGBMoodLifx/RGBMoodLifx.cpp:397 | a channel moves monotonically towards its target as the step grows |
| MoodFacts.FadeStep | RGBMoodLifx/RGBMoodLifx.cpp:394-418 | one `fade()` step: HSB interpolated and RGB = `hsb2rgb` (RGB bulb), red, green and white of `hsb2rgbw` in slots 0-2 (RGBW bulb) or unchanged (single); RGB space interpolates RGB 0-2 and keeps HSB; slot 3 and all other fields unchanged |
| MoodFacts.ChannelBetween | RGBMoodLifx/RGBMoodLifx.cpp:397-399 | every fade channel lies between its initial and target values |
| MoodFacts.TickWhileFading | RGBMoodLifx/RGBMoodLifx.cpp:161-176 | while fading, nothing changes until the step interval has elapsed (mod 2^32); then exactly one step, last update = now, a step that does not end the fade leaves exactly the state `fade()` computes for the new step, the fade ends when the step reaches the maximum, with the HSB snap, or in RGB space the exact-real interpolation at the target, and endpoints, mode and timing unchanged |
| MoodFacts.FixModeStandsStill | RGBMoodLifx/RGBMoodLifx.cpp:177 | without a fade, FIX_MODE changes nothing |
| MoodFacts.ModeHolds | RGBMoodLifx/RGBMoodLifx.cpp:180 | without a fade, no mode acts before the holding time has elapsed |
| MoodFacts.TickIdle | RGBMoodLifx/RGBMoodLifx.cpp:159-204 | without a fade, a tick is one step of the mode scheduler |
| MoodFacts.FireModeFlickers | RGBMoodLifx/RGBMoodLifx.cpp:198-201 | FIRE_MODE sets a colour at once (not fading) with hue < 360, saturation in [190, 4080), brightness in [120, 4080), RGB = `hsb2rgb`, a holding time in [10, 500), and last update = now |
| MoodFacts.ModeArmsFade | RGBMoodLifx/RGBMoodLifx.cpp:180-197 | the other modes, once the hold has elapsed, record now and arm an HSB fade at step 0 from the unchanged current colour towards the mode's goal, keeping mode and hold |
| MoodFacts.ModeGoals | RGBMoodLifx/RGBMoodLifx.cpp:183-197 | random hue keeps saturation and brightness; rainbow fades to 360 without shortest path; red, blue and green pick a hue in their band and saturation in [3040, 4080), brightness in [1920, 4080) |
| MoodFacts.OutputsDispatch | RGBMoodLifx/RGBMoodLifx.cpp:212-227 | one write per driven pin, from the highest channel down to channel 0, each to its copied pin |
| MoodFacts.TickWrites | RGBMoodLifx/RGBMoodLifx.cpp:159-229 | the writes of a tick are those of the state it leaves, one per pin of the bulb |
| MoodFacts.Run | RGBMoodLifx/RGBMoodLifx.cpp:159-229 | any sequence of ticks keeps the object invariant |
| MoodFacts.FadeConverges | RGBMoodLifx/RGBMoodLifx.cpp:161-176 | after as many ticks spaced at least one step interval apart as steps remain, the fade has ended at its target: the HSB snap (hue mod 360), or in RGB space the target channels of the exact-real interpolation |
| MoodFacts.RainbowEndsAtZero | RGBMoodLifx/RGBMoodLifx.cpp:166-187 | a completed rainbow fade leaves the hue at 0 with saturation and brightness unchanged |
| MoodLifx.RGBMoodLifx.constructor | RGBMoodLifx/RGBMoodLifx.cpp:29-67 | the new object is valid and its state is `MoodModel.Init` of the bulb type, pins and clock |
| MoodLifx.RGBMoodLifx.SetHsb | RGBMoodLifx/RGBMoodLifx.cpp:75-81 | the object's new state is `MoodModel.SetHsb` of its old state |
| MoodLifx.RGBMoodLifx.SetRgb | RGBMoodLifx/RGBMoodLifx.cpp:89-94 | the object's new state is `MoodModel.SetRgb` of its old state |
| MoodLifx.RGBMoodLifx.SetRgbPacked | RGBMoodLifx/RGBMoodLifx.cpp:96-98 | the object's new state is `MoodModel.SetRgbPacked` of its old state |
| MoodLifx.RGBMoodLifx.FadeHsb | RGBMoodLifx/RGBMoodLifx.cpp:107-132 | the object's new state is `MoodModel.FadeHsb` of its old state |
| MoodLifx.RGBMoodLifx.FadeRgb | RGBMoodLifx/RGBMoodLifx.cpp:140-150 | the object's new state is `MoodModel.FadeRgb` of its old state |
| MoodLifx.RGBMoodLifx.FadeRgbPacked | RGBMoodLifx/RGBMoodLifx.cpp:152-154 | the object's new state is `MoodModel.FadeRgbPacked` of its old state |
| MoodLifx.RGBMoodLifx.Fade | RGBMoodLifx/RGBMoodLifx.cpp:394-418 | the arrays after `fade()` are `MoodModel.Fade` of the old state, including the aliased RGBW output |
| MoodLifx.RGBMoodLifx.StepFade | RGBMoodLifx/RGBMoodLifx.cpp:161-176 | the fading branch of `tick()` leaves `MoodModel.FadeTick` of the old state |
| MoodLifx.RGBMoodLifx.Schedule | RGBMoodLifx/RGBMoodLifx.cpp:177-204 | the scheduler branch of `tick()` leaves `MoodModel.SchedulerTick` of the old state |
| MoodLifx.RGBMoodLifx.Dispatch | RGBMoodLifx/RGBMoodLifx.cpp:212-227 | the `setPin` calls of the output switch are `MoodModel.Outputs` of the state |
| MoodLifx.RGBMoodLifx.Tick | RGBMoodLifx/RGBMoodLifx.cpp:159-229 | the object's new state and its `setPin` calls are `MoodModel.Tick` of its old state |

## Left out

- `hsb2rgb` and `hsb2rgbw` (RGBMoodLifx.cpp:250-386): their bodies compute with floating-point cosines. They are arbitrary function parameters, so nothing is proved about the colours they produce.
- `weberfechner` (RGBMoodLifx.cpp:238-248): it uses floating-point `pow` and `log2`, and none of the modelled operations calls it.
- The commented-out integer HSV conversion inside the converter section: it is dead code.
- `Serial.println` debug output in the converters: it is output only.
- `RGB.control` and `RGB.color` (RGBMoodLifx.cpp:205-209): they drive the on-board LED of the Particle board, a foreign library.
- The PWM driver `Adafruit_PWMServoDriver`: a foreign library. Its `setPin` calls are returned as a list of (pin, value) writes, and the hidden member on line 31 has no effect on the model.
- `millis()` and `random()`: hardware and library calls, supplied as parameters (`now`, `Draws`).
- The `LifxPacket` layout, the protocol, port and version constants, and the EEPROM offsets (lifx.h:9-111): they are declarations without logic.
- RGBMoodLifx.h is not part of this model. It says what `MAX_VAL`, `MAX_PWM`, the field types and the mode and bulb constants are. The model takes `MAX_VAL = MAX_PWM = 4095`, 16-bit colour fields, unbounded step counters and holding times, and a 32-bit clock.
- The header's default for the `shortest` argument of `fadeHSB` is in RGBMoodLifx.h. The scheduler's calls without the argument are taken as `shortest = true`.
- `setMode` and the accessors are defined in RGBMoodLifx.h, which is not modelled. The model's mode field is set directly.
- MoodModel.Interpolate: computes the `fade()` expression in exact real arithmetic with truncation, not in IEEE single precision. A float rounding off by one unit is therefore not modelled.
- MoodFacts.InterpolateAtEnd: its exact end value holds of the real-arithmetic idealisation only. In single precision, `0 - 200*((0-105.0f)/200)` is slightly below 105, and the `uint16_t` cast gives 104.
- MoodFacts.TickWhileFading: its clause that a completed RGB fade leaves channels 0 to 2 at the target holds of the idealisation only. The firmware snaps only the HSB colour (RGBMoodLifx.cpp:168-172), so an RGB fade can stop one unit short.
- MoodFacts.FadeConverges: its RGB conclusion holds of the idealisation only, for the same reason. Its HSB conclusion rests on the snap and holds as written.
- The zero start of the fields the constructor leaves unwritten is an assumption: it holds for an object with static storage, whose declaration is not part of this model. Slot 3 of the RGB colour, which goes to the white pin on every tick, is among them.
- MoodModel.Random: reduces a raw draw as `lo + raw % (hi - lo)`. The proofs use only the range [lo, hi), not the distribution of the generator.
- The order in which C evaluates the three `random` arguments in the scheduler is unspecified. Each argument takes its own named draw.
- The out-of-bounds write of `current_RGB_color_[4]` (RGBMoodLifx.cpp:58) corrupts whatever follows the array in memory. The model does not represent that memory and starts slot 3 at 0.
