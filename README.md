# Line-following robot controller, modelled in Dafny

Two mbed programs drive the same six-sensor line-following robot.
`main1.cpp` uses a fixed threshold. `main2.cpp` first learns its threshold
from two button presses. Each control cycle does three things:

- it charges the six photoresistor sensors;
- it times their discharge with a busy-wait polling loop (`sensorsIn`);
- it turns the six times into a steering direction (`set_direction`) and
  drives the two motors from a table that a cycle counter selects (`follow_line`).

The model keeps each program's globals as the fields of a `Robot` class:

- `temps` and `flags`, the six-element arrays `temps_us` and `flagTps`;
- `direction` and `countFollow` (`count_follow`);
- in main2 also `countButton`, `calibre`, `min`, `max` and `seuil`.

`set_direction`, `follow_line`, `minimum_temps`, `maximum_temps`,
`calibrage` and one iteration of `main`'s loop become methods on that class.
`sensorsIn` is the module-level method `Acquisition.SensorsIn`, which works
on the class's two arrays. `sensorsOut10us`, `print_temps`, `initPWM` and
`init_GPIO` are not modelled (see "Left out"). The methods are proved
against pure functions, and lemmas state the properties of those functions.

Modules:

- `Acquisition`: the `sensorsIn` loop. Its text is the same in both programs
  (main1.cpp:55-92 and main2.cpp:88-125), so it is modelled once, over the
  class's arrays. The hardware becomes a finite trace of frames. A frame holds
  the timer reading of one pass and, for each sensor, whether `read() < 0.5`.
- `Steering`: the first-match-wins chain both `set_direction`s use. It tries
  directions in the order 0, -1, -2, -3, 1, 2, 3. When no rule matches, the
  direction keeps its previous value.
- `Correction`: the `count_follow` counter shared by both `follow_line`s. It
  also holds the duty command and the shape predicate for duty tables.
- `Calibrated` (main2.cpp): the strict six-sensor masks, the tables, the
  `minimum_temps`/`maximum_temps` scans, the threshold, the button handler and
  one iteration of the main loop.
- `Uncalibrated` (main1.cpp): the neighbour rules with the local threshold
  800, the tables, and one iteration of the main loop.
- `Wrappers`: `Option`.

Duties are integer hundredths of the PWM period (0.8 is 80). A call that
leaves `vitesse_droite`/`vitesse_gauche` unassigned produces `None`. This
happens on the counter-reset call, for a direction outside [-3, 3], and in the
weak table's `default` case.

Three behaviours of the code are modelled as written:

- The counter tests are `< 40` (main2.cpp:201, main1.cpp:145) and
  `> 40 && < 50` (main2.cpp:234, main1.cpp:178). A value of exactly 40
  therefore resets to 0. Starting from 0, the counter cycles through 0..40
  with period 41 and never enters the weak band, although the comments at
  main2.cpp:196-197 and main1.cpp:140-141 announce a strong correction
  followed by a weaker one.
- The second press sets `seuil = (min+max)/2` (main2.cpp:315) with no check
  that max exceeds min.
- The `sensorsIn` loop (main2.cpp:101-122) has no timeout. Here the trace
  length bounds the loop, and a run that is still polling at the end of the
  trace is reported (`done == false`, `Blocked`).

## Model

| member | source | states |
|---|---|---|
| Acquisition.FirstBelow | main2.cpp:116-121 | the pass at which a sensor first reads below half-scale: it reads below there and at no earlier pass; with no such pass it never reads below |
| Acquisition.FirstBelowStep | main2.cpp:116-121 | one more pass keeps an existing latch and otherwise latches the sensor exactly when the new frame reads below |
| Acquisition.PrefixStable | main2.cpp:117 | once a sensor has latched, later frames never change its latch point (the `flagTps[i] == false` guard) |
| Acquisition.AllLatchedGrows | main2.cpp:104-113 | the stop condition, once true for a prefix, stays true and fixes every latch point |
| Acquisition.StopTest | main2.cpp:104-113 | the early-break flag scan yields true exactly when all six flags are set |
| Acquisition.LatchPass | main2.cpp:116-121 | a pass writes the frame's time and sets the flag for exactly the unflagged sensors reading below; every other time and flag is unchanged; it counts the writes |
| Acquisition.PassAdvances | main2.cpp:101-122 | after a pass, flags and times equal the latch functions of the prefix that gains that frame |
| Acquisition.LoopExit | main2.cpp:101-124 | the loop leaves by its stop test exactly when the trace completes; the frames after the latching pass change nothing |
| Acquisition.SensorsIn | main2.cpp:88-125 | clears the flags, then polls. On normal exit every flag is true, and each `temps[i]` was written exactly once, with the time of the first pass where sensor i read below. Exit comes at the first pass whose stop test finds all flags set; otherwise the trace has run out. Flags and times are given for both outcomes. It uses `Acquisition.Latched` (acquisition.dfy), which transcribes the write `temps_us[i] = time.read_us()` of main2.cpp:118, and `Acquisition.Completes`, which transcribes the loop exit of main2.cpp:101-113, including the extra pass after the last latch. |
| Steering.FirstMatch | main2.cpp:157-183 | the result's rule holds and it comes from the order; no result means no rule in the order holds |
| Steering.FirstMatchAt | main1.cpp:101-127 | first match wins: the k-th direction results exactly when its rule holds and no earlier rule does |
| Steering.EarlierRuleWins | main1.cpp:101-127 | a rule that holds earlier in the chain rules out every later direction |
| Steering.NextDirection | main2.cpp:184-187 | no match keeps the previous direction; directions in [-3, 3] stay in [-3, 3] |
| Correction.CountAfterIsModulo | main2.cpp:201-270 | starting from 0, the counter after k calls is k mod 41 |
| Correction.CounterCycle | main1.cpp:145-214 | starting from 0, the counter has period 41 and stays in [0, 40]; it resets exactly at the 41st call of each period and never takes the weak branch |
| Correction.CounterStaysBounded | main2.cpp:201-270 | one call keeps [0, 40], reaches 0 exactly from 40, and no value in [0, 40] takes the weak branch |
| Calibrated.Classify | main2.cpp:157-183 | a match lies in [-3, 3] and its full six-sensor mask holds; a reading equal to `seuil` matches nothing, since every comparison is strict. It rests on `Calibrated.Mask` and `Calibrated.Matches` (calibrated.dfy), which transcribe the seven six-sensor masks of main2.cpp:157-181. |
| Calibrated.MasksExclusive | main2.cpp:157-183 | no reading satisfies two of the seven masks |
| Calibrated.ClassifyExact | main2.cpp:157-183 | the direction becomes d exactly when d's mask holds: only sensors 2 and 3 below gives 0; only sensor 2, 1 or 0 gives -1, -2, -3; only sensor 3, 4 or 5 gives +1, +2, +3 |
| Calibrated.NoMaskNoMatch | main2.cpp:184-187 | with no mask holding, the chain finds nothing |
| Calibrated.StrongSpeeds | main2.cpp:201-231 | a command exists exactly for directions in [-3, 3]; every duty lies in [0, 100] |
| Calibrated.WeakSpeeds | main2.cpp:234-268 | a command exists exactly for directions in [-3, 3] (the `default` case gives none); duties lie in [0, 100] |
| Calibrated.TablesShaped | main2.cpp:202-266 | both tables give 0.8/0.8 for direction 0; -d mirrors +d; the inner motor slows strictly as the turn sharpens (0.7 > 0.5 > 0.4) |
| Calibrated.FollowCommandReachable | main2.cpp:201-270 | from every counter value in [0, 40], a call gives the strong entry, or no command at 40 |
| Calibrated.ScanMin | main2.cpp:128-134 | the scan's minimum is at most 10000 and at most every reading, and it equals one of them or 10000 |
| Calibrated.ScanMax | main2.cpp:139-145 | the scan's maximum is at least 0 and at least every reading, and it equals one of them or 0 |
| Calibrated.Threshold | main2.cpp:315 | the truncating `(min+max)/2` lies between the two samples, whichever is larger. It is computed by `Calibrated.HalfTowardZero`, which transcribes C's truncating `/`. |
| Calibrated.CalibrationFixture | main2.cpp:301-315 | a black sample with minimum 895 and a white sample with maximum 130 give threshold 512 |
| Calibrated.StraightAheadScenario | main2.cpp:157-205 | readings [900, 900, 200, 200, 900, 900] with threshold 500 steer straight, with equal 0.8/0.8 duties in the strong band |
| Calibrated.Robot.constructor | main2.cpp:26-40 | power-up state: zeroed arrays and counters, `min = max = 0`, `seuil = 800`, `calibre` false; the invariant holds |
| Calibrated.Robot.MinimumTemps | main2.cpp:128-137 | `min` becomes the scan minimum of `temps`: at most 10000 and every reading, and equal to one of them or 10000 |
| Calibrated.Robot.MaximumTemps | main2.cpp:139-148 | `max` becomes the scan maximum of `temps`: at least 0 and every reading, and equal to one of them or 0 |
| Calibrated.Robot.SetDirection | main2.cpp:154-188 | the direction becomes d when d's mask holds and stays unchanged when no mask holds; it stays in [-3, 3]; the new direction is returned |
| Calibrated.Robot.FollowLine | main2.cpp:191-275 | the counter advances or resets, and the command comes from the counter's band; from [0, 40] the counter stays in [0, 40] and the command is the strong entry, or none at 40. The spec functions `Correction.BandOf`, `Correction.NextCount` and `Correction.Command` (correction.dfy) transcribe the `< 40`, the `> 40 && < 50` and the reset branches of main2.cpp:201-270. |
| Calibrated.Robot.Calibrage | main2.cpp:66-71 | a press increments `countButton` and sets `calibre`; it keeps the invariant |
| Calibrated.Robot.RecordBlack | main2.cpp:301-307 | first-press branch: acquire, record `min` and clear `calibre`; if polling never ends, nothing after the acquisition runs |
| Calibrated.Robot.RecordWhite | main2.cpp:310-325 | second-press branch: acquire, record `max`, set `seuil = (min+max)/2` unchecked and clear `calibre` |
| Calibrated.Robot.Run | main2.cpp:328-338 | running branch: acquire, then `follow_line(set_direction())` |
| Calibrated.Robot.Step | main2.cpp:298-340 | one main-loop iteration: with no press pending nothing happens; otherwise it dispatches on the press count. It keeps the invariant: `seuil` stays 800 until the second press is handled, and from the third press on `calibre` stays set and every iteration drives the motors |
| Uncalibrated.Classify | main1.cpp:98-127 | a match lies in [-3, 3] and its rule holds; no match exactly when no rule holds. It rests on `Uncalibrated.Matches` (uncalibrated.dfy), which transcribes all seven conditions of main1.cpp:101-125. |
| Uncalibrated.ClassifyInOrder | main1.cpp:101-127 | the rules are tried in order 0, -1, -2, -3, 1, 2, 3 and the first rule that holds decides |
| Uncalibrated.CentreWins | main1.cpp:101-103 | `temps[2] < 800` and `temps[3] < 800` give 0, whatever the other four readings are |
| Uncalibrated.SlightLeftExact | main1.cpp:101-107 | -1 results exactly when t1 > 800, t2 < 800 and t3 > 800; the rule's second disjunct can never be reached |
| Uncalibrated.LeftBeforeRight | main1.cpp:104-127 | when any left rule holds, the result is never a right turn |
| Uncalibrated.ThresholdIsNeither | main1.cpp:99-127 | a reading of exactly 800 is neither below nor above: a centre sensor at 800 prevents 0, and six readings of 800 match nothing |
| Uncalibrated.StrongSpeeds | main1.cpp:145-175 | a command exists exactly for directions in [-3, 3]; duties lie in [0, 100] |
| Uncalibrated.WeakSpeeds | main1.cpp:178-212 | a command exists exactly for directions in [-3, 3] (the `default` case gives none); duties lie in [0, 100] |
| Uncalibrated.TablesShaped | main1.cpp:146-210 | strong table: 0.6/0.6 straight ahead, mirrored turns, inner motor 0.4 > 0.1 > 0 so the sharpest turn stops it; weak table: mirrored, but its inner motor is only non-increasing |
| Uncalibrated.Robot.constructor | main1.cpp:26-32 | power-up state: zeroed arrays, direction and counter |
| Uncalibrated.Robot.SetDirection | main1.cpp:98-132 | the direction becomes the first matching rule's value and is retained when no rule holds; it stays in [-3, 3] |
| Uncalibrated.Robot.FollowLine | main1.cpp:135-219 | the counter advances or resets, and the command comes from the counter's band; from [0, 40] the counter stays in [0, 40] and the command is the strong entry, or none at 40. The spec functions `Correction.BandOf`, `Correction.NextCount` and `Correction.Command` (correction.dfy) transcribe the `< 40`, the `> 40 && < 50` and the reset branches of main1.cpp:145-214. |
| Uncalibrated.Robot.Step | main1.cpp:236-247 | one main-loop iteration: acquire, then steer and drive when polling ends; direction and counter keep their ranges |

## Left out

- Hardware I/O is not modelled: `Serial`/`print_temps`, the `PwmOut` period and pulse-width writes (the model stops at the (right, left) command), the `DigitalOut` motor-direction pins, and the `init_GPIO`/`LPC_GPIO1` LED writes. `initPWM` is left out for the same reason.
- `sensorsOut10us` is not modelled: it only drives the pins high and waits.
- `AnalogIn::read()` and its float comparison with 0.5 become one boolean per sensor per frame.
- `Timer::read_us()` becomes one timestamp per frame. The source reads the timer once per latched sensor, so two sensors latched in the same pass may differ by a few microseconds there.
- Floating-point duties `PWMperiode*vitesse_*` become integer hundredths.
- Real-time waits (`wait`, `wait_us`) are left out.
- The interrupt context of `calibrage` is not modelled: `Calibrage` is a method called between main-loop iterations, with no concurrency.
- Termination of the `sensorsIn` busy-wait is not modelled, since the hardware does not guarantee it. The loop runs over a finite trace, and its properties are proved for normal exit and for a trace that runs out.
- The infinite `while(1)` is modelled as one iteration, `Step`.
- The `char` wrap-around of `count_button` after 255 presses is not modelled: `countButton` is a `nat`.
- The 32-bit overflow of `min+max` is not modelled, because timer readings are far below it.
