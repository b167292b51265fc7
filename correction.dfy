/**
  What the two `follow_line` functions share: the correction-phase counter
  `count_follow`, which picks a "strong" or a "weak" table of motor duties,
  and the duty commands themselves. Duties are kept in hundredths of the PWM
  period (0.8 is 80).
*/
module Correction {
  import opened Wrappers

  /** The counter bounds written in the code: `< 40`, then `> 40 && < 50`. */
  const StrongEnd: int := 40
  const WeakEnd: int := 50

  datatype Band = Strong | Weak | Reset

  /** Which branch of `follow_line` a counter value takes. A value of exactly
      40 satisfies neither `< 40` nor `> 40`, so it falls to the reset. */
  function BandOf(count: int): Band
  {
    if count < StrongEnd then Strong
    else if count > StrongEnd && count < WeakEnd then Weak
    else Reset
  }

  /** The counter after one call: incremented in both table bands, zeroed in
      the reset branch. */
  function NextCount(count: int): int
  {
    if BandOf(count) == Reset then 0 else count + 1
  }

  /** A motor command: `right` is `vitesse_droite` (written to E1), `left` is
      `vitesse_gauche` (written to E2), both in hundredths. */
  datatype Duty = Duty(right: int, left: int)

  /** The command one call produces: the band's table entry for `dir`, and
      none (both speeds left uninitialised) in the reset branch. A table entry
      is itself none when `dir` is outside [-3, 3]. */
  function Command(strong: int -> Option<Duty>, weak: int -> Option<Duty>, count: int, dir: int): Option<Duty>
  {
    match BandOf(count)
    case Strong => strong(dir)
    case Weak => weak(dir)
    case Reset => None
  }

  /** The counter after k calls, starting from its initial value 0. */
  function CountAfter(k: nat): int
  {
    if k == 0 then 0 else NextCount(CountAfter(k - 1))
  }

  /** Started from 0 the counter runs 0, 1, ..., 40 and back to 0: it is the
      number of calls modulo 41. */
  lemma {:induction false} CountAfterIsModulo(k: nat)
    ensures CountAfter(k) == k % 41
  {
    if k > 0 {
      CountAfterIsModulo(k - 1);
      if (k - 1) % 41 < 40 {
        assert k % 41 == (k - 1) % 41 + 1;
      } else {
        assert k % 41 == 0;
      }
    }
  }

  /** The counter repeats with period 41, never leaves [0, 40], takes the
      reset branch exactly at the 41st call of each period and never takes
      the weak branch. */
  lemma CounterCycle(k: nat)
    ensures CountAfter(k + 41) == CountAfter(k)
    ensures 0 <= CountAfter(k) <= StrongEnd
    ensures BandOf(CountAfter(k)) != Weak
    ensures BandOf(CountAfter(k)) == Reset <==> k % 41 == 40
  {
    CountAfterIsModulo(k);
    CountAfterIsModulo(k + 41);
    var m := k % 41;
    assert (k + 41) % 41 == m;
    assert 0 <= m < 41;
  }

  /** The same facts one call at a time: [0, 40] is closed under a call,
      and no value in it reaches the weak branch. */
  lemma CounterStaysBounded(count: int)
    requires 0 <= count <= StrongEnd
    ensures 0 <= NextCount(count) <= StrongEnd
    ensures BandOf(count) != Weak
    ensures NextCount(count) == 0 <==> count == StrongEnd
  {
  }

  /** The same command with the two motors swapped. */
  function Mirror(c: Option<Duty>): Option<Duty>
  {
    match c
    case None => None
    case Some(d) => Some(Duty(d.left, d.right))
  }

  /** The shape of a duty table: straight ahead drives both motors equally and
      above zero; turning left by d is turning right by d with the motors
      swapped; and the motor on the turning side (the right one for d > 0)
      slows as |d| grows, strictly when `strict`. */
  predicate Shaped(table: int -> Option<Duty>, strict: bool)
  {
    && table(0).Some? && table(0).value.left == table(0).value.right > 0
    && (forall d :: 1 <= d <= 3 ==> table(-d) == Mirror(table(d)))
    && Slower(table(1), table(0), strict)
    && Slower(table(2), table(1), strict)
    && Slower(table(3), table(2), strict)
  }

  /** Both commands are defined and the right motor of `sharper` runs slower
      than (or, when not `strict`, at most as fast as) that of `milder`. */
  predicate Slower(sharper: Option<Duty>, milder: Option<Duty>, strict: bool)
  {
    sharper.Some? && milder.Some? &&
    if strict then sharper.value.right < milder.value.right
    else sharper.value.right <= milder.value.right
  }
}
