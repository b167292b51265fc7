/**
  The calibrated program (main2.cpp). A button interrupt counts presses;
  the main loop uses the first press to record the darkest reading (the
  minimum discharge time), the second to record the lightest one (the
  maximum) and set the threshold `seuil` halfway between, and from the third
  press on follows the line with strict six-sensor masks.
*/
module Calibrated {
  import opened Wrappers
  import opened Acquisition
  import opened Correction
  import Steering

  /** `seuil` before calibration. */
  const DefaultSeuil: int := 800
  /** Starting values of the `minimum_temps` and `maximum_temps` scans. */
  const MinStart: int := 10000
  const MaxStart: int := 0

  /** The sensors whose reading must be below the threshold (over the white
      line) for direction `d`; every other sensor must read above it. */
  function Mask(d: int): set<int>
  {
    if d == 0 then {2, 3}
    else if d == -1 then {2}
    else if d == -2 then {1}
    else if d == -3 then {0}
    else if d == 1 then {3}
    else if d == 2 then {4}
    else if d == 3 then {5}
    else {}
  }

  /** The condition of the `set_direction` branch for `d`: every one of the
      six readings compared strictly with the threshold. */
  predicate Matches(t: seq<int>, seuil: int, d: int)
  {
    && |t| == SensorCount
    && -3 <= d <= 3
    && forall i :: 0 <= i < SensorCount ==> if i in Mask(d) then t[i] < seuil else t[i] > seuil
  }

  /** The branch `set_direction` takes on readings `t`, if any. */
  function Classify(t: seq<int>, seuil: int): (r: Option<int>)
    ensures r.Some? ==> -3 <= r.value <= 3 && Matches(t, seuil, r.value)
    ensures (exists i :: 0 <= i < |t| && t[i] == seuil) ==> r.None?
  {
    Steering.FirstMatch(d => Matches(t, seuil, d), Steering.Priority)
  }

  /** No reading satisfies two of the seven masks. */
  lemma MasksExclusive(t: seq<int>, seuil: int, d: int, e: int)
    requires d != e
    ensures !(Matches(t, seuil, d) && Matches(t, seuil, e))
  {
    if Matches(t, seuil, d) && Matches(t, seuil, e) {
      var i :| (i in Mask(d) && i !in Mask(e)) || (i !in Mask(d) && i in Mask(e));
      assert false;
    }
  }

  /** Since the masks exclude each other, the order of the chain does not
      matter: the direction becomes d exactly when d's mask holds. */
  lemma ClassifyExact(t: seq<int>, seuil: int, d: int)
    requires -3 <= d <= 3
    ensures Classify(t, seuil) == Some(d) <==> Matches(t, seuil, d)
  {
    var rule := (e: int) => Matches(t, seuil, e);
    if Matches(t, seuil, d) {
      var k := if d <= 0 then -d else d + 3;
      assert Steering.Priority[k] == d && rule(Steering.Priority[k]);
      var r := Classify(t, seuil);
      assert r.Some?;
      if r.value != d {
        MasksExclusive(t, seuil, d, r.value);
      }
    }
  }

  /** With no mask holding, the branch chain finds nothing. */
  lemma NoMaskNoMatch(t: seq<int>, seuil: int)
    requires forall d :: -3 <= d <= 3 ==> !Matches(t, seuil, d)
    ensures Classify(t, seuil) == None
  {
  }

  /** The strong table of main2.cpp: 0.8 on the outer motor, 0.7, 0.5 and
      0.4 on the inner one, none for any other `dir`. */
  function StrongSpeeds(dir: int): (r: Option<Duty>)
    ensures r.Some? <==> -3 <= dir <= 3
    ensures r.Some? ==> 0 <= r.value.right <= 100 && 0 <= r.value.left <= 100
  {
    if dir == 0 then Some(Duty(80, 80))
    else if dir == -1 then Some(Duty(80, 70))
    else if dir == -2 then Some(Duty(80, 50))
    else if dir == -3 then Some(Duty(80, 40))
    else if dir == 1 then Some(Duty(70, 80))
    else if dir == 2 then Some(Duty(50, 80))
    else if dir == 3 then Some(Duty(40, 80))
    else None
  }

  /** The weak table of main2.cpp: 0.8 on the outer motor, 0.75, 0.7 and 0.65
      on the inner one; the `default` case leaves both speeds unset. */
  function WeakSpeeds(dir: int): (r: Option<Duty>)
    ensures r.Some? <==> -3 <= dir <= 3
    ensures r.Some? ==> 0 <= r.value.right <= 100 && 0 <= r.value.left <= 100
  {
    if dir == 0 then Some(Duty(80, 80))
    else if dir == -1 then Some(Duty(80, 75))
    else if dir == -2 then Some(Duty(80, 70))
    else if dir == -3 then Some(Duty(80, 65))
    else if dir == 1 then Some(Duty(75, 80))
    else if dir == 2 then Some(Duty(70, 80))
    else if dir == 3 then Some(Duty(65, 80))
    else None
  }

  /** Both tables are shaped: equal straight-ahead speeds, mirrored turns, and
      an inner motor that slows strictly as the turn sharpens. */
  lemma TablesShaped()
    ensures Shaped(StrongSpeeds, true)
    ensures Shaped(WeakSpeeds, true)
    ensures StrongSpeeds(0) == Some(Duty(80, 80))
    ensures WeakSpeeds(0) == Some(Duty(80, 80))
  {
  }

  function FollowCommand(count: int, dir: int): Option<Duty>
  {
    Command(StrongSpeeds, WeakSpeeds, count, dir)
  }

  /** From the reachable counter values [0, 40] a call drives the strong table
      entry, except at 40, where the reset leaves the speeds unset. */
  lemma FollowCommandReachable(count: int, dir: int)
    requires 0 <= count <= StrongEnd
    ensures FollowCommand(count, dir) == if count == StrongEnd then None else StrongSpeeds(dir)
  {
  }

  /** `minimum_temps` as a function of the readings scanned so far. */
  function ScanMin(s: seq<int>): (m: int)
    ensures m <= MinStart
    ensures forall i :: 0 <= i < |s| ==> m <= s[i]
    ensures m == MinStart || exists i :: 0 <= i < |s| && m == s[i]
    decreases |s|
  {
    if |s| == 0 then MinStart
    else
      var m := ScanMin(s[..|s| - 1]);
      if s[|s| - 1] < m then s[|s| - 1] else m
  }

  /** `maximum_temps` as a function of the readings scanned so far. */
  function ScanMax(s: seq<int>): (m: int)
    ensures m >= MaxStart
    ensures forall i :: 0 <= i < |s| ==> m >= s[i]
    ensures m == MaxStart || exists i :: 0 <= i < |s| && m == s[i]
    decreases |s|
  {
    if |s| == 0 then MaxStart
    else
      var m := ScanMax(s[..|s| - 1]);
      if s[|s| - 1] > m then s[|s| - 1] else m
  }

  /** C's `/` on `int`: the quotient truncated toward zero. */
  function HalfTowardZero(x: int): int
  {
    if x >= 0 then x / 2 else -((-x) / 2)
  }

  /** `seuil = (min+max)/2`, with no check that max exceeds min: the result
      lies between the two samples whichever way round they are. */
  function Threshold(min: int, max: int): (r: int)
    ensures min <= r <= max || max <= r <= min
  {
    HalfTowardZero(min + max)
  }

  /** Black sample {900, 910, 905, 895, 920, 915} and white sample
      {100, 120, 110, 130, 95, 105} give min 895, max 130 and threshold 512. */
  lemma CalibrationFixture()
    ensures ScanMin([900, 910, 905, 895, 920, 915]) == 895
    ensures ScanMax([100, 120, 110, 130, 95, 105]) == 130
    ensures Threshold(895, 130) == 512
  {
  }

  /** The centre pair over the line with threshold 500: straight ahead, with
      equal speeds on both motors in every strong-band call. */
  lemma StraightAheadScenario(count: int)
    requires 0 <= count < StrongEnd
    ensures Classify([900, 900, 200, 200, 900, 900], 500) == Some(0)
    ensures FollowCommand(count, 0) == Some(Duty(80, 80))
  {
    ClassifyExact([900, 900, 200, 200, 900, 900], 500, 0);
  }

  /** What one iteration of the main loop did. */
  datatype Iteration =
    | Idle                    // no press pending: nothing runs
    | Blocked                 // `sensorsIn` was still polling when the trace ran out
    | BlackRecorded           // first press: `min` recorded
    | ThresholdSet            // second press: `max` recorded and `seuil` set
    | Drove(command: Option<Duty>)  // running: the command `follow_line` produced

  /** The program's globals. */
  class Robot {
    const temps: array<int>
    const flags: array<bool>
    var direction: int
    var countFollow: int
    var countButton: nat
    var calibre: bool
    var min: int
    var max: int
    var seuil: int

    ghost predicate Valid()
      reads this
    {
      temps.Length == SensorCount && flags.Length == SensorCount
    }

    /** What holds in every reachable state: the direction and the counter
        stay in range; the threshold keeps its default until the second press
        has been handled; nothing is pending before the first press; and from
        the third press on `calibre` stays set. */
    ghost predicate Invariant()
      reads this
    {
      && -3 <= direction <= 3
      && 0 <= countFollow <= StrongEnd
      && (countButton == 0 ==> !calibre)
      && (countButton <= 1 ==> seuil == DefaultSeuil)
      && (countButton == 2 && calibre ==> seuil == DefaultSeuil)
      && (countButton >= 3 ==> calibre)
    }

    /** Power-up: C++ zero-initialises the globals that have no initialiser. */
    constructor ()
      ensures Valid() && Invariant()
      ensures fresh(temps) && fresh(flags)
      ensures forall i :: 0 <= i < SensorCount ==> temps[i] == 0 && !flags[i]
      ensures direction == 0 && countFollow == 0 && countButton == 0 && !calibre
      ensures min == 0 && max == 0 && seuil == DefaultSeuil
    {
      temps := new int[SensorCount](_ => 0);
      flags := new bool[SensorCount](_ => false);
      direction := 0;
      countFollow := 0;
      countButton := 0;
      calibre := false;
      min, max := 0, 0;
      seuil := DefaultSeuil;
    }

    /** `minimum_temps`. */
    method MinimumTemps()
      requires Valid()
      modifies this`min
      ensures min == ScanMin(temps[..])
      ensures min <= MinStart && forall i :: 0 <= i < SensorCount ==> min <= temps[i]
      ensures min == MinStart || exists i :: 0 <= i < SensorCount && min == temps[i]
    {
      min := MinStart;
      var i := 0;
      while i < SensorCount
        invariant 0 <= i <= SensorCount
        invariant min == ScanMin(temps[..i])
      {
        assert temps[..i + 1][..i] == temps[..i];
        if temps[i] < min {
          min := temps[i];
        }
        i := i + 1;
      }
      assert temps[..SensorCount] == temps[..];
    }

    /** `maximum_temps`. */
    method MaximumTemps()
      requires Valid()
      modifies this`max
      ensures max == ScanMax(temps[..])
      ensures max >= MaxStart && forall i :: 0 <= i < SensorCount ==> max >= temps[i]
      ensures max == MaxStart || exists i :: 0 <= i < SensorCount && max == temps[i]
    {
      max := MaxStart;
      var i := 0;
      while i < SensorCount
        invariant 0 <= i <= SensorCount
        invariant max == ScanMax(temps[..i])
      {
        assert temps[..i + 1][..i] == temps[..i];
        if temps[i] > max {
          max := temps[i];
        }
        i := i + 1;
      }
      assert temps[..SensorCount] == temps[..];
    }

    /** `set_direction`: the direction of the mask that holds, or the previous
        direction when none does. */
    method SetDirection() returns (d: int)
      requires Valid()
      modifies this`direction
      ensures direction == Steering.NextDirection(Classify(temps[..], seuil), old(direction))
      ensures forall e :: -3 <= e <= 3 ==> (Matches(temps[..], seuil, e) ==> direction == e)
      ensures (forall e :: -3 <= e <= 3 ==> !Matches(temps[..], seuil, e)) ==> direction == old(direction)
      ensures -3 <= old(direction) <= 3 ==> -3 <= direction <= 3
      ensures d == direction
    {
      var found := Classify(temps[..], seuil);
      if found.Some? {
        direction := found.value;
      }
      d := direction;
      forall e | -3 <= e <= 3 && Matches(temps[..], seuil, e) ensures found == Some(e) {
        ClassifyExact(temps[..], seuil, e);
      }
    }

    /** `follow_line`: the command for `dir` from the band the counter is in,
        and the counter advanced or reset. */
    method FollowLine(dir: int) returns (cmd: Option<Duty>)
      modifies this`countFollow
      ensures countFollow == NextCount(old(countFollow))
      ensures cmd == FollowCommand(old(countFollow), dir)
      ensures 0 <= old(countFollow) <= StrongEnd ==>
        0 <= countFollow <= StrongEnd &&
        cmd == if old(countFollow) == StrongEnd then None else StrongSpeeds(dir)
    {
      if countFollow < StrongEnd {
        cmd := StrongSpeeds(dir);
        countFollow := countFollow + 1;
      } else if countFollow > StrongEnd && countFollow < WeakEnd {
        cmd := WeakSpeeds(dir);
        countFollow := countFollow + 1;
      } else {
        countFollow := 0;
        cmd := None;
      }
    }

    /** `calibrage`, the button's rising-edge handler. */
    method Calibrage()
      modifies this`countButton, this`calibre
      ensures countButton == old(countButton) + 1 && calibre
      ensures old(Invariant()) ==> Invariant()
    {
      countButton := countButton + 1;
      calibre := true;
    }

    /** The first-press branch of the main loop: acquire, then `minimum_temps`
        and clear `calibre`. */
    method RecordBlack(trace: seq<Frame>) returns (it: Iteration)
      requires Valid() && WellFormed(trace)
      modifies temps, flags, this`calibre, this`min
      ensures forall i :: 0 <= i < SensorCount ==>
        flags[i] == FirstBelow(trace, i).Some? && temps[i] == Latched(trace, i, old(temps[i]))
      ensures !Completes(trace) ==> it == Blocked && calibre == old(calibre) && min == old(min)
      ensures Completes(trace) ==> it == BlackRecorded && !calibre && min == ScanMin(temps[..])
    {
      var done, passes, writes := SensorsIn(temps, flags, trace);
      if done {
        MinimumTemps();
        calibre := false;
        it := BlackRecorded;
      } else {
        it := Blocked;
      }
    }

    /** The second-press branch: acquire, then `maximum_temps`, set `seuil`
        and clear `calibre`. */
    method RecordWhite(trace: seq<Frame>) returns (it: Iteration)
      requires Valid() && WellFormed(trace)
      modifies temps, flags, this`calibre, this`max, this`seuil
      ensures forall i :: 0 <= i < SensorCount ==>
        flags[i] == FirstBelow(trace, i).Some? && temps[i] == Latched(trace, i, old(temps[i]))
      ensures !Completes(trace) ==> it == Blocked && calibre == old(calibre) && max == old(max) && seuil == old(seuil)
      ensures Completes(trace) ==>
        it == ThresholdSet && !calibre && max == ScanMax(temps[..]) && seuil == Threshold(min, max)
    {
      var done, passes, writes := SensorsIn(temps, flags, trace);
      if done {
        MaximumTemps();
        seuil := Threshold(min, max);
        calibre := false;
        it := ThresholdSet;
      } else {
        it := Blocked;
      }
    }

    /** The running branch: acquire, then `follow_line(set_direction())`. */
    method Run(trace: seq<Frame>) returns (it: Iteration)
      requires Valid() && WellFormed(trace)
      modifies temps, flags, this`direction, this`countFollow
      ensures forall i :: 0 <= i < SensorCount ==>
        flags[i] == FirstBelow(trace, i).Some? && temps[i] == Latched(trace, i, old(temps[i]))
      ensures !Completes(trace) ==> it == Blocked && direction == old(direction) && countFollow == old(countFollow)
      ensures Completes(trace) ==>
        && direction == Steering.NextDirection(Classify(temps[..], seuil), old(direction))
        && countFollow == NextCount(old(countFollow))
        && it == Drove(FollowCommand(old(countFollow), direction))
      ensures -3 <= old(direction) <= 3 ==> -3 <= direction <= 3
      ensures 0 <= old(countFollow) <= StrongEnd ==> 0 <= countFollow <= StrongEnd
    {
      var done, passes, writes := SensorsIn(temps, flags, trace);
      if done {
        var d := SetDirection();
        var cmd := FollowLine(d);
        it := Drove(cmd);
      } else {
        it := Blocked;
      }
    }

    /** One iteration of the main loop, with `trace` the frames its
        `sensorsIn` call sees. */
    method Step(trace: seq<Frame>) returns (it: Iteration)
      requires Valid() && WellFormed(trace)
      modifies temps, flags, this`direction, this`countFollow, this`calibre, this`min, this`max, this`seuil
      ensures countButton == old(countButton)
      ensures old(Invariant()) ==> Invariant()
      ensures !old(calibre) ==> it == Idle && unchanged(this) && unchanged(temps) && unchanged(flags)
      ensures old(calibre) ==> forall i :: 0 <= i < SensorCount ==>
        flags[i] == FirstBelow(trace, i).Some? && temps[i] == Latched(trace, i, old(temps[i]))
      ensures old(calibre) && !Completes(trace) ==>
        && it == Blocked && calibre
        && direction == old(direction) && countFollow == old(countFollow)
        && min == old(min) && max == old(max) && seuil == old(seuil)
      ensures old(calibre) && Completes(trace) && old(countButton) == 1 ==>
        && it == BlackRecorded && !calibre
        && min == ScanMin(temps[..])
        && direction == old(direction) && countFollow == old(countFollow)
        && max == old(max) && seuil == old(seuil)
      ensures old(calibre) && Completes(trace) && old(countButton) == 2 ==>
        && it == ThresholdSet && !calibre
        && max == ScanMax(temps[..]) && seuil == Threshold(old(min), max)
        && direction == old(direction) && countFollow == old(countFollow)
        && min == old(min)
      ensures old(calibre) && Completes(trace) && old(countButton) != 1 && old(countButton) != 2 ==>
        && calibre
        && direction == Steering.NextDirection(Classify(temps[..], old(seuil)), old(direction))
        && countFollow == NextCount(old(countFollow))
        && it == Drove(FollowCommand(old(countFollow), direction))
        && min == old(min) && max == old(max) && seuil == old(seuil)
      ensures old(Invariant()) && it.Drove? ==> old(countButton) >= 3
      ensures old(Invariant()) && old(countButton) >= 3 ==> it.Drove? || it == Blocked
    {
      if countButton == 1 && calibre {
        it := RecordBlack(trace);
      } else if countButton == 2 && calibre {
        it := RecordWhite(trace);
      } else if calibre {
        it := Run(trace);
      } else {
        it := Idle;
      }
    }
  }
}
