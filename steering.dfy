/**
  What the two `set_direction` functions share: an if/else-if chain of rules
  tried in a fixed order, where the first rule that holds decides the
  direction, and a global `direction` that keeps its previous value when no
  rule holds.
*/
module Steering {
  import opened Wrappers

  /** The order of the chain in both programs: straight ahead, the three left
      turns by growing severity, then the three right turns. */
  const Priority: seq<int> := [0, -1, -2, -3, 1, 2, 3]

  predicate Distinct(order: seq<int>)
  {
    forall i, j :: 0 <= i < j < |order| ==> order[i] != order[j]
  }

  /** The if/else-if chain: the first direction of `order` whose rule holds. */
  function FirstMatch(rule: int -> bool, order: seq<int>): (r: Option<int>)
    ensures r.Some? ==> r.value in order && rule(r.value)
    ensures r.None? <==> forall k :: 0 <= k < |order| ==> !rule(order[k])
    decreases |order|
  {
    if order == [] then None
    else if rule(order[0]) then Some(order[0])
    else FirstMatch(rule, order[1..])
  }

  /** First match wins: the chain yields the k-th direction exactly when its
      rule holds and no rule before it does. */
  lemma {:induction false} FirstMatchAt(rule: int -> bool, order: seq<int>, k: nat)
    requires Distinct(order) && k < |order|
    ensures FirstMatch(rule, order) == Some(order[k]) <==>
      rule(order[k]) && forall j :: 0 <= j < k ==> !rule(order[j])
    decreases k
  {
    if k > 0 {
      assert order[0] != order[k];
      if !rule(order[0]) {
        var rest := order[1..];
        assert Distinct(rest) by {
          forall i, j | 0 <= i < j < |rest| ensures rest[i] != rest[j] {
            assert rest[i] == order[i + 1] && rest[j] == order[j + 1];
          }
        }
        FirstMatchAt(rule, rest, k - 1);
        assert rest[k - 1] == order[k];
        assert forall j :: 0 <= j < k - 1 ==> rest[j] == order[j + 1];
        if rule(order[k]) && forall j :: 0 <= j < k - 1 ==> !rule(rest[j]) {
          assert forall j :: 0 <= j < k ==> !rule(order[j]) by {
            forall j | 0 <= j < k ensures !rule(order[j]) {
              if j > 0 { assert order[j] == rest[j - 1]; }
            }
          }
        }
      }
    }
  }

  /** A rule that holds earlier in the order shuts out every later direction. */
  lemma EarlierRuleWins(rule: int -> bool, order: seq<int>, j: nat, k: nat)
    requires Distinct(order) && j < k < |order| && rule(order[j])
    ensures FirstMatch(rule, order) != Some(order[k])
  {
    FirstMatchAt(rule, order, k);
  }

  /** Steering memory: the matched direction, or the previous one when no
      rule matched. With both in [-3, 3] the result stays in [-3, 3]. */
  function NextDirection(found: Option<int>, prev: int): (d: int)
    ensures found.Some? ==> d == found.value
    ensures found.None? ==> d == prev
    ensures (found.None? || -3 <= found.value <= 3) && -3 <= prev <= 3 ==> -3 <= d <= 3
  {
    match found
    case Some(v) => v
    case None => prev
  }
}
