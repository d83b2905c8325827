/** Day 1 (day-1/src/main.rs): Santa walks up one floor on '(' and down one
    on ')'; the answer is the 1-based position of the first step that lands
    on floor -1. */
module Day1 {
  import opened Wrappers

  const Basement: int := -1

  /** How one character moves Santa: '(' up, ')' down, anything else not at all. */
  function Move(c: char): (d: int)
    ensures c == '(' ==> d == 1
    ensures c == ')' ==> d == -1
    ensures c != '(' && c != ')' ==> d == 0
  {
    match c
    case '(' => 1
    case ')' => -1
    case _ => 0
  }

  /** The floor after the first `n` characters, starting from `floor`. */
  function FloorAfter(input: string, floor: int, n: nat): int
    requires n <= |input|
  {
    if n == 0 then floor else FloorAfter(input, floor, n - 1) + Move(input[n - 1])
  }

  /** The number of characters read when the floor first equals `target`,
      scanning from the front; None if it never does. */
  function FirstArrival(input: string, floor: int, target: int): Option<nat>
    decreases |input|
  {
    if |input| == 0 then None
    else
      var next := floor + Move(input[0]);
      if next == target then Some(1)
      else
        match FirstArrival(input[1..], next, target)
        case Some(k) => Some(k + 1)
        case None => None
  }

  /** Reading one more character moves the floor reached by a prefix of the
      rest by that character's step. */
  lemma {:induction false} FloorAfterShift(input: string, floor: int, n: nat)
    requires 1 <= n <= |input|
    ensures FloorAfter(input, floor, n) == FloorAfter(input[1..], floor + Move(input[0]), n - 1)
  {
    if n > 1 {
      FloorAfterShift(input, floor, n - 1);
      assert input[1..][n - 2] == input[n - 1];
    }
  }

  /** `FirstArrival` finds the first prefix whose floor is the target, and
      None exactly when no prefix reaches it. */
  lemma {:induction false} FirstArrivalIsFirst(input: string, floor: int, target: int)
    ensures match FirstArrival(input, floor, target)
      case Some(k) =>
        && 1 <= k <= |input| && FloorAfter(input, floor, k) == target
        && forall j :: 1 <= j < k ==> FloorAfter(input, floor, j) != target
      case None => forall j :: 1 <= j <= |input| ==> FloorAfter(input, floor, j) != target
    decreases |input|
  {
    if |input| > 0 {
      var next := floor + Move(input[0]);
      FirstArrivalIsFirst(input[1..], next, target);
      forall j | 1 <= j <= |input|
        ensures FloorAfter(input, floor, j) == FloorAfter(input[1..], next, j - 1)
      {
        FloorAfterShift(input, floor, j);
      }
    }
  }

  class Santa {
    var floor: int
    var steps: nat

    /** `Santa::new`: on the ground floor, no steps taken. */
    constructor ()
      ensures floor == 0 && steps == 0
    {
      floor := 0;
      steps := 0;
    }

    /** `switch_floor`: moves by the character's step and counts one step
        whatever the character was. */
    method SwitchFloor(action: char)
      modifies this
      ensures floor == old(floor) + Move(action)
      ensures steps == old(steps) + 1
    {
      if action == '(' {
        floor := floor + 1;
      } else if action == ')' {
        floor := floor - 1;
      }
      steps := steps + 1;
    }

    /** `walk_until`: walks the input and stops at the first step that lands
        on `target`, returning the step counter at that moment. */
    method WalkUntil(input: string, target: int) returns (result: Option<nat>)
      modifies this
      ensures match FirstArrival(input, old(floor), target)
        case Some(k) =>
          result == Some(old(steps) + k) && steps == old(steps) + k
          && floor == target
        case None =>
          result.None? && steps == old(steps) + |input|
          && floor == FloorAfter(input, old(floor), |input|)
    {
      ghost var floor0 := floor;
      ghost var steps0 := steps;
      FirstArrivalIsFirst(input, floor0, target);
      for i := 0 to |input|
        invariant floor == FloorAfter(input, floor0, i)
        invariant steps == steps0 + i
        invariant forall j :: 1 <= j <= i ==> FloorAfter(input, floor0, j) != target
      {
        SwitchFloor(input[i]);
        if floor == target {
          FirstArrivalUnique(input, floor0, target, i + 1);
          return Some(steps);
        }
      }
      FirstArrivalUnique(input, floor0, target, 0);
      return None;
    }

    /** `find_basement`: the first step that reaches floor -1. */
    method FindBasement(input: string) returns (result: Option<nat>)
      modifies this
      ensures match FirstArrival(input, old(floor), Basement)
        case Some(k) => result == Some(old(steps) + k)
        case None => result.None?
    {
      result := WalkUntil(input, Basement);
    }
  }

  /** Knowing where the target is first reached (or, with `k == 0`, that it
      never is) pins down `FirstArrival`. */
  lemma FirstArrivalUnique(input: string, floor: int, target: int, k: nat)
    requires k <= |input|
    requires k > 0 ==> FloorAfter(input, floor, k) == target
    requires forall j :: 1 <= j < (if k == 0 then |input| + 1 else k) ==> FloorAfter(input, floor, j) != target
    ensures FirstArrival(input, floor, target) == (if k == 0 then None else Some(k))
  {
    FirstArrivalIsFirst(input, floor, target);
  }

  /** `santa_functional`: the number of running floors before the first -1,
      plus one. */
  function SantaFunctional(input: string): (n: nat)
    ensures 1 <= n <= |input| + 1
  {
    StepsAbove(input, 0) + 1
  }

  /** The length of the prefix of running floors (from `floor`) that stays
      off the basement, the `take_while ... count` of the source. */
  function StepsAbove(input: string, floor: int): (n: nat)
    ensures n <= |input|
    decreases |input|
  {
    if |input| == 0 then 0
    else
      var next := floor + Move(input[0]);
      if next == Basement then 0 else 1 + StepsAbove(input[1..], next)
  }

  /** The functional answer agrees with `find_basement` whenever the
      basement is reached, and is one past the input otherwise. */
  lemma {:induction false} FunctionalAgrees(input: string, floor: int)
    ensures match FirstArrival(input, floor, Basement)
      case Some(k) => StepsAbove(input, floor) + 1 == k
      case None => StepsAbove(input, floor) == |input|
    decreases |input|
  {
    if |input| > 0 {
      FunctionalAgrees(input[1..], floor + Move(input[0]));
    }
  }

  /** The test vectors of the source. */
  lemma ExampleDown()
    ensures FirstArrival(")", 0, Basement) == Some(1)
    ensures SantaFunctional(")") == 1
  {
    FunctionalAgrees(")", 0);
  }

  lemma ExampleFifth()
    ensures FirstArrival("()())", 0, Basement) == Some(5)
    ensures SantaFunctional("()())") == 5
  {
    FunctionalAgrees("()())", 0);
  }

  /** What follows the first arrival does not matter. */
  lemma ExampleLater()
    ensures FirstArrival("()())(((()", 0, Basement) == Some(5)
    ensures SantaFunctional("()())(((()") == 5
  {
    FunctionalAgrees("()())(((()", 0);
  }

  lemma ExampleNever()
    ensures FirstArrival("()()(((()", 0, Basement) == None
  {
  }
}
