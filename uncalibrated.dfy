/**
  The uncalibrated program (main1.cpp): the same acquisition and counter as
  the calibrated one, a fixed local threshold of 800 and looser rules that
  look only at a sensor and its neighbours.
*/
module Uncalibrated {
  import opened Wrappers
  import opened Acquisition
  import opened Correction
  import Steering

  /** The local `seuil` of `set_direction`. */
  const Seuil: int := 800

  /** The condition of the `set_direction` branch for `d`, as written. */
  predicate Matches(t: seq<int>, d: int)
  {
    |t| == SensorCount &&
    if d == 0 then t[2] < Seuil && t[3] < Seuil
    else if d == -1 then
      (t[1] > Seuil && t[2] < Seuil && t[3] > Seuil) || (t[1] > Seuil && t[2] < Seuil && t[3] < Seuil)
    else if d == -2 then
      (t[0] > Seuil && t[1] < Seuil && t[2] > Seuil) || (t[0] < Seuil && t[1] < Seuil && t[2] > Seuil)
    else if d == -3 then t[0] < Seuil && t[1] > Seuil
    else if d == 1 then
      (t[2] > Seuil && t[3] < Seuil && t[4] > Seuil) || (t[2] > Seuil && t[3] < Seuil && t[4] < Seuil)
    else if d == 2 then
      (t[3] > Seuil && t[4] < Seuil && t[5] > Seuil) || (t[3] > Seuil && t[4] < Seuil && t[5] < Seuil)
    else if d == 3 then t[4] > Seuil && t[5] < Seuil
    else false
  }

  /** The branch `set_direction` takes on readings `t`, if any: the first rule
      of the chain that holds. */
  function Classify(t: seq<int>): (r: Option<int>)
    ensures r.Some? ==> -3 <= r.value <= 3 && Matches(t, r.value)
    ensures r.None? <==> forall d :: -3 <= d <= 3 ==> !Matches(t, d)
  {
    var r := Steering.FirstMatch(d => Matches(t, d), Steering.Priority);
    assert r.None? ==> forall d :: -3 <= d <= 3 ==> !Matches(t, d) by {
      if r.None? {
        forall d | -3 <= d <= 3 ensures !Matches(t, d) {
          var k := if d <= 0 then -d else d + 3;
          assert Steering.Priority[k] == d;
        }
      }
    }
    r
  }

  /** The first-match-wins order: the chain yields `Priority[k]` exactly when
      that rule holds and none before it does. */
  lemma ClassifyInOrder(t: seq<int>, k: nat)
    requires k < |Steering.Priority|
    ensures Classify(t) == Some(Steering.Priority[k]) <==>
      Matches(t, Steering.Priority[k]) && forall j :: 0 <= j < k ==> !Matches(t, Steering.Priority[j])
  {
    Steering.FirstMatchAt(d => Matches(t, d), Steering.Priority, k);
  }

  /** Both centre sensors below 800 give straight ahead, whatever the other
      four read. */
  lemma CentreWins(t: seq<int>)
    requires |t| == SensorCount && t[2] < Seuil && t[3] < Seuil
    ensures Classify(t) == Some(0)
  {
    ClassifyInOrder(t, 0);
  }

  /** The second disjunct of the -1 rule overlaps the 0 rule, which comes
      first, so -1 results exactly from t1 > 800, t2 < 800, t3 > 800. */
  lemma SlightLeftExact(t: seq<int>)
    requires |t| == SensorCount
    ensures Classify(t) == Some(-1) <==> t[1] > Seuil && t[2] < Seuil && t[3] > Seuil
  {
    ClassifyInOrder(t, 1);
  }

  /** Every left rule is tried before every right rule: when some left rule
      holds, the result is never a right turn. */
  lemma LeftBeforeRight(t: seq<int>, l: int, r: int)
    requires -3 <= l <= -1 && 1 <= r <= 3 && Matches(t, l)
    ensures Classify(t) != Some(r)
  {
    Steering.EarlierRuleWins(d => Matches(t, d), Steering.Priority, -l, r + 3);
  }

  /** A reading of exactly 800 is neither below nor above the threshold: with
      either centre sensor at 800 the result is not straight ahead, and six
      readings of 800 match no rule. */
  lemma ThresholdIsNeither(t: seq<int>)
    requires |t| == SensorCount
    ensures t[2] == Seuil || t[3] == Seuil ==> Classify(t) != Some(0)
    ensures (forall i :: 0 <= i < SensorCount ==> t[i] == Seuil) ==> Classify(t) == None
  {
  }

  /** The strong table of main1.cpp: 0.6 each way straight ahead; the inner
      motor at 0.4, 0.1 and 0 as the turn sharpens, the outer one at 0.7,
      0.5 and 0.4; none for any other `dir`. */
  function StrongSpeeds(dir: int): (r: Option<Duty>)
    ensures r.Some? <==> -3 <= dir <= 3
    ensures r.Some? ==> 0 <= r.value.right <= 100 && 0 <= r.value.left <= 100
  {
    if dir == 0 then Some(Duty(60, 60))
    else if dir == -1 then Some(Duty(70, 40))
    else if dir == -2 then Some(Duty(50, 10))
    else if dir == -3 then Some(Duty(40, 0))
    else if dir == 1 then Some(Duty(40, 70))
    else if dir == 2 then Some(Duty(10, 50))
    else if dir == 3 then Some(Duty(0, 40))
    else None
  }

  /** The weak table of main1.cpp; the `default` case leaves both speeds
      unset. */
  function WeakSpeeds(dir: int): (r: Option<Duty>)
    ensures r.Some? <==> -3 <= dir <= 3
    ensures r.Some? ==> 0 <= r.value.right <= 100 && 0 <= r.value.left <= 100
  {
    if dir == 0 then Some(Duty(60, 60))
    else if dir == -1 then Some(Duty(70, 60))
    else if dir == -2 then Some(Duty(60, 20))
    else if dir == -3 then Some(Duty(50, 20))
    else if dir == 1 then Some(Duty(60, 70))
    else if dir == 2 then Some(Duty(20, 60))
    else if dir == 3 then Some(Duty(20, 50))
    else None
  }

  /** The strong table is shaped strictly and its sharpest turns stop the
      inner motor; the weak table is mirrored but its inner motor is 0.2 for
      both |d| = 2 and |d| = 3, so it slows only weakly. */
  lemma TablesShaped()
    ensures Shaped(StrongSpeeds, true)
    ensures StrongSpeeds(3).value.right == 0 && StrongSpeeds(-3).value.left == 0
    ensures Shaped(WeakSpeeds, false) && !Shaped(WeakSpeeds, true)
  {
  }

  function FollowCommand(count: int, dir: int): Option<Duty>
  {
    Command(StrongSpeeds, WeakSpeeds, count, dir)
  }

  /** The program's globals. */
  class Robot {
    const temps: array<int>
    const flags: array<bool>
    var direction: int
    var countFollow: int

    ghost predicate Valid()
      reads this
    {
      temps.Length == SensorCount && flags.Length == SensorCount
    }

    /** What holds in every reachable state. */
    ghost predicate Invariant()
      reads this
    {
      -3 <= direction <= 3 && 0 <= countFollow <= StrongEnd
    }

    /** Power-up: C++ zero-initialises `temps_us`. */
    constructor ()
      ensures Valid() && Invariant()
      ensures fresh(temps) && fresh(flags)
      ensures forall i :: 0 <= i < SensorCount ==> temps[i] == 0 && !flags[i]
      ensures direction == 0 && countFollow == 0
    {
      temps := new int[SensorCount](_ => 0);
      flags := new bool[SensorCount](_ => false);
      direction := 0;
      countFollow := 0;
    }

    /** `set_direction`: the direction of the first rule that holds, or the
        previous direction when none does. */
    method SetDirection() returns (d: int)
      requires Valid()
      modifies this`direction
      ensures direction == Steering.NextDirection(Classify(temps[..]), old(direction))
      ensures (forall e :: -3 <= e <= 3 ==> !Matches(temps[..], e)) ==> direction == old(direction)
      ensures -3 <= old(direction) <= 3 ==> -3 <= direction <= 3
      ensures d == direction
    {
      var found := Classify(temps[..]);
      if found.Some? {
        direction := found.value;
      }
      d := direction;
    }

    /** `follow_line`: the command for `dir` from the band the counter is in,
        and the counter advanced or reset. */
    method FollowLine(dir: int) returns (cmd: Option<Duty>)
      modifies this`countFollow
      ensures countFollow == NextCount(old(countFollow))
      ensures cmd == FollowCommand(old(countFollow), dir)
      ensures 0 <= old(countFollow) <= StrongEnd ==>
        0 <= countFollow <= StrongEnd &&
        cmd == if old(countFollow) == StrongEnd then None else StrongSpeeds(dir)
    {
      if countFollow < StrongEnd {
        cmd := StrongSpeeds(dir);
        countFollow := countFollow + 1;
      } else if countFollow > StrongEnd && countFollow < WeakEnd {
        cmd := WeakSpeeds(dir);
        countFollow := countFollow + 1;
      } else {
        countFollow := 0;
        cmd := None;
      }
    }

    /** One iteration of the main loop: `sensorsIn` over `trace`, then
        `follow_line(set_direction())`. `done` is false when the polling loop
        was still running at the end of the trace; nothing after it ran. */
    method Step(trace: seq<Frame>) returns (done: bool, cmd: Option<Duty>)
      requires Valid() && WellFormed(trace)
      modifies temps, flags, this`direction, this`countFollow
      ensures done == Completes(trace)
      ensures forall i :: 0 <= i < SensorCount ==>
        flags[i] == FirstBelow(trace, i).Some? && temps[i] == Latched(trace, i, old(temps[i]))
      ensures !done ==> cmd == None && direction == old(direction) && countFollow == old(countFollow)
      ensures done ==>
        && direction == Steering.NextDirection(Classify(temps[..]), old(direction))
        && countFollow == NextCount(old(countFollow))
        && cmd == FollowCommand(old(countFollow), direction)
      ensures old(Invariant()) ==> Invariant()
    {
      var passes;
      ghost var writes;
      done, passes, writes := SensorsIn(temps, flags, trace);
      cmd := None;
      if done {
        var d := SetDirection();
        cmd := FollowLine(d);
      }
    }
  }
}
