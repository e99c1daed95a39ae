/**
  The iteration engine: `fixed_point_iteration(f, x_0, tol, max_iter)` of main.py.

  The formula `f` is evaluated in two ways in main.py, and each is abstracted as a
  partial real function (`None` means that the evaluation raises):
  - `num` is the lambdified numeric function behind `g_func = x - f`, called outside
    the `try`, so a failure there propagates to the caller;
  - `sym` is the symbolic expression substituted in the stopping test, inside the
    `try`, so a failure there ends the loop quietly.
*/
module FixedPoint {
  import opened Wrappers

  /** The two evaluations of the one formula `f`. */
  datatype Target = Target(num: real -> Option<real>, sym: real -> Option<real>)

  /** Why the loop stopped. main.py returns only the trace and the counter;
      this is the status a caller has to infer from them. */
  datatype Stop =
    | Converged    // the stopping test held
    | TestFailed   // evaluating the stopping test raised and was caught
    | Exhausted    // the loop ran out of iterations

  /** Either the pair `(x_values, iterations)` with the way the loop stopped, or the
      exception raised by the call of `g` escaping the function; `xs` of `Raised` is the
      trace at that moment, which the caller never sees. */
  datatype Outcome =
    | Returned(xs: seq<real>, iterations: int, stop: Stop)
    | Raised(xs: seq<real>)

  function Abs(r: real): real {
    if r < 0.0 then -r else r
  }

  /** The fixed-point map g(x) = x - f(x), defined wherever the numeric f is. */
  function G(t: Target, x: real): Option<real> {
    match t.num(x)
    case None => None
    case Some(y) => Some(x - y)
  }

  /** The stopping test `|f(next)| < tol or |next - prev| < tol` on the symbolic f;
      `None` when evaluating it raises. */
  function Test(t: Target, tol: real, next: real, prev: real): Option<bool> {
    match t.sym(next)
    case None => None
    case Some(y) => Some(Abs(y) < tol || Abs(next - prev) < tol)
  }

  function Max0(n: int): nat {
    if n < 0 then 0 else n
  }

  /** The loop from the state where `xs` holds the trace and `k` the counter. */
  function Loop(t: Target, tol: real, maxIter: int, xs: seq<real>, k: nat): Outcome
    requires |xs| == k + 1
    decreases maxIter - k
  {
    if k >= maxIter then Returned(xs, k, Exhausted)
    else
      match G(t, xs[k])
      case None => Raised(xs)
      case Some(next) =>
        match Test(t, tol, next, xs[k])
        case None => Returned(xs + [next], k, TestFailed)
        case Some(true) => Returned(xs + [next], k, Converged)
        case Some(false) => Loop(t, tol, maxIter, xs + [next], k + 1)
  }

  /** What one call of `fixed_point_iteration` produces. */
  function Run(t: Target, x0: real, tol: real, maxIter: int): Outcome {
    Loop(t, tol, maxIter, [x0], 0)
  }

  // ---------------------------------------------------------------------------
  // A declarative description of the outcome, independent of the loop.

  /** Each iterate after the first is g of the one before it. */
  ghost predicate FollowsMap(t: Target, xs: seq<real>) {
    forall i :: 0 <= i < |xs| - 1 ==> G(t, xs[i]) == Some(xs[i + 1])
  }

  /** Among the first `n` iterates, every one after x_0 was tested and the test failed. */
  ghost predicate NoEarlyStop(t: Target, tol: real, xs: seq<real>, n: nat)
    requires n <= |xs|
  {
    forall i :: 0 <= i < n - 1 ==> Test(t, tol, xs[i + 1], xs[i]) == Some(false)
  }

  /** The outcome a call must have, stated without running the loop. */
  ghost predicate Specified(t: Target, x0: real, tol: real, maxIter: int, o: Outcome) {
    && 1 <= |o.xs|
    && o.xs[0] == x0
    && FollowsMap(t, o.xs)
    && match o
       case Raised(xs) =>
         && |xs| - 1 < maxIter
         && NoEarlyStop(t, tol, xs, |xs|)
         && t.num(xs[|xs| - 1]) == None
       case Returned(xs, k, stop) =>
         && 0 <= k
         && match stop
            case Exhausted =>
              && k == Max0(maxIter)
              && |xs| == k + 1
              && NoEarlyStop(t, tol, xs, |xs|)
            case Converged =>
              && k < maxIter
              && |xs| == k + 2
              && NoEarlyStop(t, tol, xs, k + 1)
              && Test(t, tol, xs[k + 1], xs[k]) == Some(true)
            case TestFailed =>
              && k < maxIter
              && |xs| == k + 2
              && NoEarlyStop(t, tol, xs, k + 1)
              && Test(t, tol, xs[k + 1], xs[k]) == None
  }

  lemma {:induction false} LoopSound(t: Target, x0: real, tol: real, maxIter: int, xs: seq<real>, k: nat)
    requires |xs| == k + 1 && xs[0] == x0
    requires k <= Max0(maxIter)
    requires FollowsMap(t, xs) && NoEarlyStop(t, tol, xs, |xs|)
    ensures Specified(t, x0, tol, maxIter, Loop(t, tol, maxIter, xs, k))
    decreases maxIter - k
  {
    if k < maxIter {
      match G(t, xs[k])
      case None =>
      case Some(next) =>
        var xs' := xs + [next];
        assert FollowsMap(t, xs') by {
          forall i | 0 <= i < |xs'| - 1 ensures G(t, xs'[i]) == Some(xs'[i + 1]) {
            if i < k { assert xs'[i] == xs[i] && xs'[i + 1] == xs[i + 1]; }
          }
        }
        match Test(t, tol, next, xs[k])
        case None =>
        case Some(true) =>
        case Some(false) =>
          assert NoEarlyStop(t, tol, xs', |xs'|) by {
            forall i | 0 <= i < |xs'| - 1 ensures Test(t, tol, xs'[i + 1], xs'[i]) == Some(false) {
              if i < k { assert xs'[i] == xs[i] && xs'[i + 1] == xs[i + 1]; }
            }
          }
          LoopSound(t, x0, tol, maxIter, xs', k + 1);
    }
  }

  /** Every outcome of the loop fits the declarative description. */
  lemma RunSound(t: Target, x0: real, tol: real, maxIter: int)
    ensures Specified(t, x0, tol, maxIter, Run(t, x0, tol, maxIter))
  {
    LoopSound(t, x0, tol, maxIter, [x0], 0);
  }

  /** The counter at which an outcome was reached. */
  function Reached(o: Outcome): int {
    match o
    case Returned(_, k, _) => k
    case Raised(xs) => |xs| - 1
  }

  lemma {:induction false} LoopReaches(t: Target, x0: real, tol: real, maxIter: int, o: Outcome, j: nat)
    requires Specified(t, x0, tol, maxIter, o)
    requires j <= Reached(o)
    ensures |o.xs[..j + 1]| == j + 1
    ensures Loop(t, tol, maxIter, o.xs[..j + 1], j) == o
    decreases Reached(o) - j
  {
    var xs, k := o.xs, Reached(o);
    if j == k {
      if o.Returned? && o.stop != Exhausted {
        assert G(t, xs[k]) == Some(xs[k + 1]);
        assert xs[..k + 1] + [xs[k + 1]] == xs;
      } else {
        assert xs[..k + 1] == xs;
      }
    } else {
      assert G(t, xs[j]) == Some(xs[j + 1]);
      assert Test(t, tol, xs[j + 1], xs[j]) == Some(false);
      assert xs[..j + 1] + [xs[j + 1]] == xs[..j + 2];
      LoopReaches(t, x0, tol, maxIter, o, j + 1);
    }
  }

  /** The description determines the outcome: nothing but the loop's result fits it. */
  lemma RunComplete(t: Target, x0: real, tol: real, maxIter: int, o: Outcome)
    requires Specified(t, x0, tol, maxIter, o)
    ensures o == Run(t, x0, tol, maxIter)
  {
    LoopReaches(t, x0, tol, maxIter, o, 0);
    assert o.xs[..1] == [x0];
  }

  // ---------------------------------------------------------------------------
  // The properties a caller relies on, one by one.

  /** The trace is never empty and starts at the initial guess. */
  lemma TraceStartsAtGuess(t: Target, x0: real, tol: real, maxIter: int)
    ensures var o := Run(t, x0, tol, maxIter);
      |o.xs| >= 1 && o.xs[0] == x0
  {
    RunSound(t, x0, tol, maxIter);
  }

  /** Each iterate after the first is x - f(x) of the one before it. */
  lemma TraceFollowsMap(t: Target, x0: real, tol: real, maxIter: int)
    ensures var o := Run(t, x0, tol, maxIter);
      forall i :: 0 <= i < |o.xs| - 1 ==>
        t.num(o.xs[i]).Some? && o.xs[i + 1] == o.xs[i] - t.num(o.xs[i]).value
  {
    RunSound(t, x0, tol, maxIter);
    var o := Run(t, x0, tol, maxIter);
    forall i | 0 <= i < |o.xs| - 1
      ensures t.num(o.xs[i]).Some? && o.xs[i + 1] == o.xs[i] - t.num(o.xs[i]).value
    {
      assert G(t, o.xs[i]) == Some(o.xs[i + 1]);
    }
  }

  /** The counter never goes below 0 nor above the budget; a non-positive budget
      gives back the initial guess alone. */
  lemma CounterBounds(t: Target, x0: real, tol: real, maxIter: int)
    ensures var o := Run(t, x0, tol, maxIter);
      o.Returned? ==> 0 <= o.iterations <= Max0(maxIter)
    ensures maxIter <= 0 ==> Run(t, x0, tol, maxIter) == Returned([x0], 0, Exhausted)
  {
    RunSound(t, x0, tol, maxIter);
  }

  /** Without a break the counter reaches the budget and the trace holds one
      more value than the counter. */
  lemma ExhaustedShape(t: Target, x0: real, tol: real, maxIter: int)
    ensures var o := Run(t, x0, tol, maxIter);
      o.Returned? && o.stop == Exhausted ==>
        && o.iterations == Max0(maxIter)
        && |o.xs| == o.iterations + 1
        && (maxIter >= 0 ==> o.iterations == maxIter)
  {
    RunSound(t, x0, tol, maxIter);
  }

  /** On a break the appended value stays and the counter is not incremented,
      so the trace holds two more values than the counter. */
  lemma BreakShape(t: Target, x0: real, tol: real, maxIter: int)
    ensures var o := Run(t, x0, tol, maxIter);
      o.Returned? && o.stop != Exhausted ==>
        && o.iterations < maxIter
        && |o.xs| == o.iterations + 2
  {
    RunSound(t, x0, tol, maxIter);
  }

  /** The loop stops at the first iterate for which either criterion holds:
      at that iterate one of them holds, at every earlier one neither did. */
  lemma ConvergesAtFirstHit(t: Target, x0: real, tol: real, maxIter: int)
    ensures var o := Run(t, x0, tol, maxIter);
      o.Returned? && o.stop == Converged ==>
        var n := |o.xs| - 1;
        && n >= 1
        && t.sym(o.xs[n]).Some?
        && (Abs(t.sym(o.xs[n]).value) < tol || Abs(o.xs[n] - o.xs[n - 1]) < tol)
        && forall i :: 0 < i < n ==>
             && t.sym(o.xs[i]).Some?
             && !(Abs(t.sym(o.xs[i]).value) < tol)
             && !(Abs(o.xs[i] - o.xs[i - 1]) < tol)
  {
    RunSound(t, x0, tol, maxIter);
    var o := Run(t, x0, tol, maxIter);
    if o.Returned? && o.stop == Converged {
      forall i | 0 < i < |o.xs| - 1
        ensures t.sym(o.xs[i]).Some? && !(Abs(t.sym(o.xs[i]).value) < tol) && !(Abs(o.xs[i] - o.xs[i - 1]) < tol)
      {
        assert Test(t, tol, o.xs[i], o.xs[i - 1]) == Some(false);
      }
    }
  }

  /** When the test raises, the loop stops right there, with the symbolic f
      undefined at the last iterate and every earlier test evaluated and failed. */
  lemma TestFailureStops(t: Target, x0: real, tol: real, maxIter: int)
    ensures var o := Run(t, x0, tol, maxIter);
      o.Returned? && o.stop == TestFailed ==>
        var n := |o.xs| - 1;
        && n >= 1
        && t.sym(o.xs[n]) == None
        && forall i :: 0 < i < n ==>
             && t.sym(o.xs[i]).Some?
             && !(Abs(t.sym(o.xs[i]).value) < tol)
             && !(Abs(o.xs[i] - o.xs[i - 1]) < tol)
  {
    RunSound(t, x0, tol, maxIter);
    var o := Run(t, x0, tol, maxIter);
    if o.Returned? && o.stop == TestFailed {
      forall i | 0 < i < |o.xs| - 1
        ensures t.sym(o.xs[i]).Some? && !(Abs(t.sym(o.xs[i]).value) < tol) && !(Abs(o.xs[i] - o.xs[i - 1]) < tol)
      {
        assert Test(t, tol, o.xs[i], o.xs[i - 1]) == Some(false);
      }
    }
  }

  /** With a non-positive tolerance no absolute value is below it, so the loop
      never converges: it ends by exhaustion or by a failure. */
  lemma NonPositiveToleranceNeverConverges(t: Target, x0: real, tol: real, maxIter: int)
    requires tol <= 0.0
    ensures var o := Run(t, x0, tol, maxIter);
      o.Returned? ==> o.stop != Converged
  {
    RunSound(t, x0, tol, maxIter);
  }

  /** The exception from `g` escapes at the first reached iterate where the numeric
      f is undefined: the counter is still below the budget there, and every earlier
      iterate had its test evaluated and failed. At a budget above 0 and an
      undefined numeric f at x_0, that is the very first step. */
  lemma RaisesWhereMapUndefined(t: Target, x0: real, tol: real, maxIter: int)
    ensures var o := Run(t, x0, tol, maxIter);
      o.Raised? ==>
        var n := |o.xs| - 1;
        && n >= 0
        && n < maxIter
        && t.num(o.xs[n]) == None
        && forall i :: 0 < i <= n ==>
             && t.sym(o.xs[i]).Some?
             && !(Abs(t.sym(o.xs[i]).value) < tol)
             && !(Abs(o.xs[i] - o.xs[i - 1]) < tol)
    ensures 0 < maxIter && t.num(x0) == None ==> Run(t, x0, tol, maxIter) == Raised([x0])
  {
    RunSound(t, x0, tol, maxIter);
    var o := Run(t, x0, tol, maxIter);
    if o.Raised? {
      forall i | 0 < i < |o.xs|
        ensures t.sym(o.xs[i]).Some? && !(Abs(t.sym(o.xs[i]).value) < tol) && !(Abs(o.xs[i] - o.xs[i - 1]) < tol)
      {
        assert Test(t, tol, o.xs[i], o.xs[i - 1]) == Some(false);
      }
    }
  }

  /** When the numeric f is defined wherever the symbolic one is, the exception
      can only escape on the first step: every later call of `g` is at a point
      where the preceding test already evaluated f. */
  lemma RaisesOnlyOnFirstStepWhenAgreeing(t: Target, x0: real, tol: real, maxIter: int)
    requires forall x :: t.sym(x).Some? ==> t.num(x).Some?
    ensures Run(t, x0, tol, maxIter).Raised? <==> 0 < maxIter && t.num(x0) == None
  {
    RaisesWhereMapUndefined(t, x0, tol, maxIter);
    TraceStartsAtGuess(t, x0, tol, maxIter);
    var o := Run(t, x0, tol, maxIter);
    if o.Raised? {
      var last := o.xs[|o.xs| - 1];
      assert t.sym(last) == None;
      assert |o.xs| == 1;
    }
  }

  // ---------------------------------------------------------------------------
  // The loop itself.

  /** `fixed_point_iteration`: appends g(last) to the trace while the counter is
      below the budget, breaking when the test holds or raises. */
  method FixedPointIteration(t: Target, x0: real, tol: real, maxIter: int)
    returns (o: Outcome)
    ensures o == Run(t, x0, tol, maxIter)
    ensures Specified(t, x0, tol, maxIter, o)
  {
    RunSound(t, x0, tol, maxIter);
    var xValues := [x0];
    var iterations: nat := 0;
    var stop := Exhausted;
    while iterations < maxIter
      invariant |xValues| == iterations + 1
      invariant Loop(t, tol, maxIter, xValues, iterations) == Run(t, x0, tol, maxIter)
      decreases maxIter - iterations
    {
      var xNext: real;
      match G(t, xValues[|xValues| - 1]) {
        case None =>
          return Raised(xValues);
        case Some(v) =>
          xNext := v;
      }
      xValues := xValues + [xNext];
      match t.sym(xNext) {
        case None =>
          stop := TestFailed;
          break;
        case Some(y) =>
          if Abs(y) < tol || Abs(xValues[|xValues| - 1] - xValues[|xValues| - 2]) < tol {
            stop := Converged;
            break;
          }
      }
      iterations := iterations + 1;
    }
    o := Returned(xValues, iterations, stop);
  }
}
