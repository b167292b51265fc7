/**
  The discharge-time acquisition loop `sensorsIn`, whose text is the same in
  both programs (main1.cpp and main2.cpp). The analog inputs and the timer are
  replaced by a finite trace of frames: frame k is what pass k of the polling
  loop sees. The trace length bounds the otherwise unbounded busy-wait.
*/
module Acquisition {
  import opened Wrappers

  const SensorCount: nat := 6

  /** One pass of the polling loop: the timer reading in microseconds and,
      for each sensor, whether its analog sample read below half-scale. */
  datatype Frame = Frame(time: int, below: seq<bool>)

  predicate WellFormed(trace: seq<Frame>)
  {
    forall k :: 0 <= k < |trace| ==> |trace[k].below| == SensorCount
  }

  /** The first pass of `trace` in which sensor `i` reads below half-scale. */
  function FirstBelow(trace: seq<Frame>, i: nat): (r: Option<nat>)
    requires WellFormed(trace) && i < SensorCount
    ensures r.Some? ==> r.value < |trace| && trace[r.value].below[i]
    ensures r.Some? ==> forall k :: 0 <= k < r.value ==> !trace[k].below[i]
    ensures r.None? ==> forall k :: 0 <= k < |trace| ==> !trace[k].below[i]
    decreases |trace|
  {
    if |trace| == 0 then None
    else
      match FirstBelow(trace[..|trace| - 1], i)
      case Some(k) => Some(k)
      case None => if trace[|trace| - 1].below[i] then Some(|trace| - 1) else None
  }

  /** The value `temps_us[i]` holds after the passes of `trace`, when it held
      `prev` before: the timer reading of the first pass in which the sensor
      read below half-scale, or `prev` if it never did. */
  function Latched(trace: seq<Frame>, i: nat, prev: int): int
    requires WellFormed(trace) && i < SensorCount
  {
    match FirstBelow(trace, i)
    case Some(k) => trace[k].time
    case None => prev
  }

  /** Every sensor has read below half-scale at least once in `trace`. */
  predicate AllLatched(trace: seq<Frame>)
    requires WellFormed(trace)
  {
    forall i :: 0 <= i < SensorCount ==> FirstBelow(trace, i).Some?
  }

  /** The polling loop leaves normally within `trace`: its stop test, made at
      the start of a pass, finds every flag set at some pass of the trace.
      That last pass still reads the inputs, so the sensors must all have
      latched before the final frame. */
  predicate Completes(trace: seq<Frame>)
    requires WellFormed(trace)
  {
    |trace| > 0 && AllLatched(trace[..|trace| - 1])
  }

  /** One more pass: a sensor already latched keeps its first pass; otherwise
      the new frame latches it when it reads below half-scale. */
  lemma FirstBelowStep(trace: seq<Frame>, k: nat, i: nat)
    requires WellFormed(trace) && k < |trace| && i < SensorCount
    ensures FirstBelow(trace[..k + 1], i) ==
      if FirstBelow(trace[..k], i).Some? then FirstBelow(trace[..k], i)
      else if trace[k].below[i] then Some(k)
      else None
  {
    assert trace[..k + 1][..k] == trace[..k];
  }

  /** Once a sensor has latched in a prefix, later frames do not change its
      first pass. */
  lemma PrefixStable(trace: seq<Frame>, p: nat, i: nat)
    requires WellFormed(trace) && p <= |trace| && i < SensorCount
    requires FirstBelow(trace[..p], i).Some?
    ensures FirstBelow(trace, i) == FirstBelow(trace[..p], i)
  {
    var a := FirstBelow(trace[..p], i).value;
    assert trace[..p][a] == trace[a];
    assert forall k :: 0 <= k < a ==> trace[..p][k] == trace[k];
  }

  /** The stop test only grows: all sensors latched in a prefix stay latched
      in any longer one. */
  lemma AllLatchedGrows(trace: seq<Frame>, p: nat)
    requires WellFormed(trace) && p <= |trace| && AllLatched(trace[..p])
    ensures AllLatched(trace)
    ensures forall i :: 0 <= i < SensorCount ==> FirstBelow(trace, i) == FirstBelow(trace[..p], i)
  {
    forall i | 0 <= i < SensorCount
      ensures FirstBelow(trace, i) == FirstBelow(trace[..p], i)
    {
      PrefixStable(trace, p, i);
    }
  }

  /** The stop test of the polling loop: scans the flags in order, leaving at
      the first one not set. */
  method StopTest(flags: array<bool>) returns (verification: bool)
    requires flags.Length == SensorCount
    ensures verification <==> forall j :: 0 <= j < SensorCount ==> flags[j]
  {
    verification := false;
    var i := 0;
    while i < SensorCount
      invariant 0 <= i <= SensorCount
      invariant forall j :: 0 <= j < i ==> flags[j]
      invariant verification <==> 0 < i
    {
      if flags[i] {
        verification := true;
      } else {
        verification := false;
        break;
      }
      i := i + 1;
    }
  }

  /** One latch pass over a frame: every sensor not yet flagged whose sample
      reads below half-scale gets the frame's timer reading and its flag;
      `writes` counts the assignments to each `temps[i]`. */
  method LatchPass(temps: array<int>, flags: array<bool>, frame: Frame, ghost writes0: seq<nat>)
    returns (ghost writes: seq<nat>)
    requires temps.Length == SensorCount && flags.Length == SensorCount
    requires |frame.below| == SensorCount && |writes0| == SensorCount
    modifies temps, flags
    ensures |writes| == SensorCount
    ensures forall j :: 0 <= j < SensorCount ==>
      if frame.below[j] && !old(flags[j]) then
        temps[j] == frame.time && flags[j] && writes[j] == writes0[j] + 1
      else
        temps[j] == old(temps[j]) && flags[j] == old(flags[j]) && writes[j] == writes0[j]
  {
    writes := writes0;
    var i := 0;
    while i < SensorCount
      invariant 0 <= i <= SensorCount
      invariant |writes| == SensorCount
      invariant forall j :: 0 <= j < i ==>
        if frame.below[j] && !old(flags[j]) then
          temps[j] == frame.time && flags[j] && writes[j] == writes0[j] + 1
        else
          temps[j] == old(temps[j]) && flags[j] == old(flags[j]) && writes[j] == writes0[j]
      invariant forall j :: i <= j < SensorCount ==>
        temps[j] == old(temps[j]) && flags[j] == old(flags[j]) && writes[j] == writes0[j]
    {
      if frame.below[i] && !flags[i] {
        temps[i] := frame.time;
        flags[i] := true;
        writes := writes[i := writes[i] + 1];
      }
      i := i + 1;
    }
  }

  /** The flags, times and write counts after the passes of `prefix`, when
      the times held `prev` before the loop. */
  ghost predicate Reflects(prefix: seq<Frame>, fl: seq<bool>, tm: seq<int>, prev: seq<int>, writes: seq<nat>)
    requires WellFormed(prefix)
  {
    && |fl| == SensorCount && |tm| == SensorCount && |prev| == SensorCount && |writes| == SensorCount
    && (forall j :: 0 <= j < SensorCount ==> fl[j] == FirstBelow(prefix, j).Some?)
    && (forall j :: 0 <= j < SensorCount ==> tm[j] == Latched(prefix, j, prev[j]))
    && (forall j :: 0 <= j < SensorCount ==> writes[j] == if fl[j] then 1 else 0)
  }

  /** What a latch pass over frame k does to the flags and times, seen as the
      first-pass functions of the prefix that gains frame k. */
  lemma PassAdvances(trace: seq<Frame>, k: nat, flagsBefore: seq<bool>, flagsAfter: seq<bool>,
                     tempsBefore: seq<int>, tempsAfter: seq<int>, prev: seq<int>,
                     writesBefore: seq<nat>, writesAfter: seq<nat>)
    requires WellFormed(trace) && k < |trace|
    requires Reflects(trace[..k], flagsBefore, tempsBefore, prev, writesBefore)
    requires |flagsAfter| == |tempsAfter| == |writesAfter| == SensorCount
    requires forall j :: 0 <= j < SensorCount ==>
      if trace[k].below[j] && !flagsBefore[j] then
        tempsAfter[j] == trace[k].time && flagsAfter[j] && writesAfter[j] == writesBefore[j] + 1
      else
        tempsAfter[j] == tempsBefore[j] && flagsAfter[j] == flagsBefore[j] && writesAfter[j] == writesBefore[j]
    ensures Reflects(trace[..k + 1], flagsAfter, tempsAfter, prev, writesAfter)
  {
    forall j | 0 <= j < SensorCount
      ensures flagsAfter[j] == FirstBelow(trace[..k + 1], j).Some?
      ensures tempsAfter[j] == Latched(trace[..k + 1], j, prev[j])
    {
      FirstBelowStep(trace, k, j);
      var f := FirstBelow(trace[..k], j);
      if f.Some? {
        assert trace[..k + 1][f.value] == trace[..k][f.value];
      }
    }
  }

  /** After the loop: the stop test succeeded at the pass before the last one
      run, or the trace ran out with the stop test failing at its last pass. */
  lemma LoopExit(trace: seq<Frame>, passes: nat, verification: bool,
                 fl: seq<bool>, tm: seq<int>, prev: seq<int>, writes: seq<nat>)
    requires WellFormed(trace) && passes <= |trace|
    requires verification || passes == |trace|
    requires passes == 0 ==> !verification
    requires passes > 0 ==> (verification <==> AllLatched(trace[..passes - 1]))
    requires Reflects(trace[..passes], fl, tm, prev, writes)
    ensures verification <==> Completes(trace)
    ensures verification ==> AllLatched(trace)
    ensures Reflects(trace, fl, tm, prev, writes)
  {
    if verification {
      assert trace[..passes][..passes - 1] == trace[..passes - 1];
      AllLatchedGrows(trace[..passes], passes - 1);
      AllLatchedGrows(trace, passes);
      assert trace[..|trace| - 1][..passes - 1] == trace[..passes - 1];
      AllLatchedGrows(trace[..|trace| - 1], passes - 1);
      forall j | 0 <= j < SensorCount
        ensures fl[j] == FirstBelow(trace, j).Some? && tm[j] == Latched(trace, j, prev[j])
      {
        PrefixStable(trace, passes, j);
      }
    } else {
      assert trace[..passes] == trace;
    }
  }

  /**
    `sensorsIn`: clear the six flags, then poll. Each pass first runs the
    stop test, then a latch pass over its frame. `passes` is the number of
    frames the loop consumed; `done` is false when the trace ran out before
    the stop test succeeded (the source would keep polling). `writes[i]`
    counts the assignments to `temps[i]`.
  */
  method SensorsIn(temps: array<int>, flags: array<bool>, trace: seq<Frame>)
    returns (done: bool, passes: nat, ghost writes: seq<nat>)
    requires temps.Length == SensorCount && flags.Length == SensorCount
    requires WellFormed(trace)
    modifies temps, flags
    ensures passes <= |trace|
    ensures done <==> Completes(trace)
    ensures done ==> 0 < passes && AllLatched(trace[..passes - 1])
    ensures forall p :: 0 <= p < passes - 1 ==> !AllLatched(trace[..p])
    ensures !done ==> passes == |trace|
    ensures done ==> forall i :: 0 <= i < SensorCount ==> flags[i]
    ensures forall i :: 0 <= i < SensorCount ==> flags[i] == FirstBelow(trace, i).Some?
    ensures forall i :: 0 <= i < SensorCount ==> temps[i] == Latched(trace, i, old(temps[i]))
    ensures |writes| == SensorCount
    ensures forall i :: 0 <= i < SensorCount ==> writes[i] == if flags[i] then 1 else 0
  {
    var i := 0;
    while i < SensorCount
      modifies flags
      invariant 0 <= i <= SensorCount
      invariant forall j :: 0 <= j < i ==> !flags[j]
    {
      flags[i] := false;
      i := i + 1;
    }
    writes := [0, 0, 0, 0, 0, 0];
    assert trace[..0] == [];
    var verification := false;
    passes := 0;
    while !verification && passes < |trace|
      invariant passes <= |trace|
      invariant Reflects(trace[..passes], flags[..], temps[..], old(temps[..]), writes)
      invariant passes == 0 ==> !verification
      invariant passes > 0 ==> (verification <==> AllLatched(trace[..passes - 1]))
      invariant forall p :: 0 <= p < passes - 1 ==> !AllLatched(trace[..p])
      decreases |trace| - passes
    {
      verification := StopTest(flags);
      assert verification <==> AllLatched(trace[..passes]);
      ghost var flagsBefore, tempsBefore, writesBefore := flags[..], temps[..], writes;
      writes := LatchPass(temps, flags, trace[passes], writes);
      PassAdvances(trace, passes, flagsBefore, flags[..], tempsBefore, temps[..], old(temps[..]), writesBefore, writes);
      passes := passes + 1;
    }
    LoopExit(trace, passes, verification, flags[..], temps[..], old(temps[..]), writes);
    done := verification;
  }
}
