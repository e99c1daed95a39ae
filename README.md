# Fixed-point iteration with a plotting channel

A model of the two pieces of logic in `main.py` of a small root finder:

- **The iteration engine** `fixed_point_iteration(f, x_0, tol, max_iter)`. From `f` it derives the
  fixed-point map `g(x) = x - f(x)`. It keeps a trace that starts at `x_0`. While the counter is
  below `max_iter` it appends `g(last)` to the trace. It breaks when `|f(x_next)| < tol` or
  `|x_next - x_prev| < tol`, or when evaluating that test raises. Otherwise it increments the
  counter. It returns the trace and the counter.
- **The result channel's consumer**, the drain step of `GUI.check_data_queue`. It takes every
  pending message off the queue in FIFO order. It calls `update_plot` only for the messages that
  carry both a `'function'` and an `'x_values'` entry. It stops quietly when the queue is empty.

Files:

- `wrappers.dfy`, module `Wrappers`: the `Option` type.
- `fixed_point.dfy`, module `FixedPoint`:
  - `Run` is the specification function of one call. It is built on the loop function `Loop`.
  - `Specified` describes the outcome declaratively, without running the loop.
  - `RunSound` and `RunComplete` prove that the two agree in both directions.
  - One lemma per property a caller relies on.
  - The method `FixedPointIteration` is the loop itself, proved equal to `Run`.
- `channel.dfy`, module `Channel`:
  - Messages are dictionaries, `map<string, Value>`.
  - `Forwarded` specifies which `update_plot` calls a drain makes when none of them raises
    (`DrainWithoutFailure`). The `Forwarded*` lemmas describe that case.
  - The class `DataQueue` models `queue.Queue` (`put`, `get_nowait`).
  - `Drain` specifies one poll when some `update_plot` calls may raise. Only `queue.Empty` is
    caught, so a raising call ends the poll and leaves the later messages queued.
  - The class `Gui` holds the queue, a log of the completed `update_plot` calls and whether
    another poll is scheduled. Its method `CheckDataQueue` is the drain loop.

Modelling choices:

- **`f`.** The formula is evaluated in two ways, and the model gives each its own partial function
  `real -> Option<real>`, bundled as a `Target`. `None` means that the evaluation raises.
  - `num` is the lambdified numeric function behind `g_func` (main.py:24, 27).
  - `sym` is the symbolic expression substituted in the stopping test (main.py:31).
- **Two kinds of failure.** `g_func` at line 27 is called outside the `try`, so its failure escapes
  to the caller. The model returns `Raised` for it, holding the trace at that moment, which the
  caller never sees. A failure inside the test is caught and ends the loop. The model reports it as
  the stop reason `TestFailed`. The escape happens at the first reached iterate where `num` is
  undefined (`RaisesWhereMapUndefined`). Only when `num` is defined wherever `sym` is can it be
  limited to the first step (`RaisesOnlyOnFirstStepWhenAgreeing`).
- **Stop reason.** main.py returns only `(x_values, iterations)`. The model adds the reason the
  loop stopped (`Converged`, `TestFailed`, `Exhausted`) to the returned value. A caller of
  main.py has to infer it.
- **Behaviour of `main.py` worth noting:**
  - `tol` and `max_iter` are not checked. With `max_iter <= 0` the result is `([x_0], 0)`, and with
    `tol <= 0` the loop never converges (main.py:26, 31).
  - A break keeps the new iterate without counting it, so the trace then has `iterations + 2`
    entries (main.py:28-35). Without a break it has `iterations + 1`.
  - A failure of `g_func` at line 27 is outside the `try` and propagates out of the function.
  - `calculate`'s dictionary has no `'function'` key (main.py:75-79), so the drain consumes it and
    drops it. Only the GUI's own message (main.py:169) is plotted (`OnlyGuiMessagePlotted`).

## Model

| member | source | states |
|---|---|---|
| `FixedPoint.FixedPointIteration` | main.py:17-39 | The loop returns exactly `Run(t, x_0, tol, max_iter)`, and that outcome meets the declarative description `Specified`. |
| `FixedPoint.RunSound` | main.py:17-39 | Every outcome of the loop fits the declarative description. Its trace starts at `x_0` and follows `g`. Either the call of `g_func` escapes at an iterate where the numeric `f` is undefined, or the pair is returned. The counter and trace length then depend on the stop reason, and each stop reason comes with its test results. |
| `FixedPoint.RunComplete` | main.py:17-39 | Any outcome that fits the declarative description is the loop's outcome, so the description determines the result uniquely. |
| `FixedPoint.TraceStartsAtGuess` | main.py:18 | A returned trace is never empty and its first element is `x_0`. |
| `FixedPoint.TraceFollowsMap` | main.py:23-28 | Every element after the first equals `x - f(x)` of the element before it, and `f` is defined there. |
| `FixedPoint.CounterBounds` | main.py:19-37 | `0 <= iterations <= max(0, max_iter)`. If `max_iter <= 0` the result is exactly `([x_0], 0)` with no step taken. |
| `FixedPoint.ExhaustedShape` | main.py:26-37 | Without a break, `iterations == max(0, max_iter)` (so `== max_iter` when `max_iter >= 0`) and the trace holds `iterations + 1` values. |
| `FixedPoint.BreakShape` | main.py:28-35 | On a break, from convergence or from a caught failure, the counter is below `max_iter` and the trace holds `iterations + 2` values: the appended iterate stays and the counter is not incremented. |
| `FixedPoint.ConvergesAtFirstHit` | main.py:30-32 | On convergence, at the last iterate `|f(x)| < tol` or `|x - x_prev| < tol` holds (either alone suffices). At every earlier iterate `f` was defined and neither criterion held. |
| `FixedPoint.TestFailureStops` | main.py:30-35 | On a caught failure, `f` is undefined at the last iterate. At every earlier iterate `f` was defined and neither criterion held. |
| `FixedPoint.NonPositiveToleranceNeverConverges` | main.py:31 | With `tol <= 0` a returned outcome never stops by convergence. It ends by exhaustion or by a caught failure. |
| `FixedPoint.RaisesWhereMapUndefined` | main.py:26-35 | When the exception from `g_func` escapes, the counter is still below `max_iter` and the numeric `f` is undefined at the last reached iterate. At every earlier iterate the test evaluated and failed. If `max_iter > 0` and the numeric `f` is undefined at `x_0`, it escapes on the first step with the trace `[x_0]`. |
| `FixedPoint.RaisesOnlyOnFirstStepWhenAgreeing` | main.py:26-35 | If the numeric `f` is defined wherever the symbolic one is, the exception escapes if and only if `max_iter > 0` and the numeric `f` is undefined at `x_0`. |
| `Channel.ResultMessage` | main.py:75-79 | The dictionary from `calculate` holds the trace under `'x_values'` and its last element under `'root_approximation'`, but lacks `'function'`, so the drain never plots it. |
| `Channel.PlotMessage` | main.py:169 | The GUI's dictionary carries both keys, and the drain plots it with exactly the function text and the trace. |
| `Channel.ForwardedAppend` | main.py:134-139 | Draining `a` and then `b` makes the same `update_plot` calls, in the same order, as draining `a + b` at once. |
| `Channel.ForwardedMembers` | main.py:136-137 | A call is made exactly when some pending message carries both keys and yields that call (both directions). |
| `Channel.ForwardedInOrder` | main.py:134-137 | The calls are exactly those of the messages carrying both keys, in FIFO order. The j-th call comes from the message at the j-th position of `PlottablePositions`. Those positions strictly increase, each holds a message with both keys, and no such message is left out. |
| `Channel.ForwardedAllPlottable` | main.py:134-137 | When every pending message carries both keys, the calls match the messages one for one, in FIFO order. |
| `Channel.ForwardedBounds` | main.py:134-137 | There are never more calls than messages, and there are none when no message carries both keys (including an empty queue). |
| `Channel.OnlyGuiMessagePlotted` | main.py:75-81 | With `calculate`'s result and then the GUI's copy queued, one drain plots only the GUI's copy. |
| `Channel.DataQueue.constructor` | main.py:15 | A new queue is empty. |
| `Channel.DataQueue.Put` | main.py:81 | `put` appends the message at the tail. |
| `Channel.DataQueue.GetNowait` | main.py:135-138 | `get_nowait` removes and returns the head. On an empty queue it returns `None` (where main.py's `get_nowait` raises `queue.Empty`) and leaves the queue empty. |
| `Channel.Gui.constructor` | main.py:129-130 | The GUI keeps the shared queue, has made no plot yet, and has its first poll scheduled. |
| `Channel.Gui.CheckDataQueue` | main.py:132-140 | One poll does exactly what `Drain` of the messages pending before it says. It takes messages in FIFO order and logs each completed `update_plot` call. The queue is left as `Drain`'s remaining messages: empty unless a call raised. The method reports whether an exception escaped. The next poll is scheduled exactly when no exception escaped, because an escaping exception skips the `after` call at line 140. |
| `Channel.DrainWithoutFailure` | main.py:133-139 | A poll ends without an exception exactly when no plottable message's `update_plot` call fails. It then empties the queue and makes exactly the calls `Forwarded` gives, so an empty queue yields no call and no error. |
| `Channel.DrainStopsAtFirstFailure` | main.py:133-139 | A poll that raises stops at the first plottable message whose call fails. That message has already been taken off the queue. Every earlier plot succeeded, and the calls made are `Forwarded` of the earlier messages. Every later message is still queued, in order. |
| `Channel.DrainAfterPrefix` | main.py:134-137 | Messages ahead in the queue whose plots all succeed only contribute their `Forwarded` calls in front of what the rest of the poll does. |

## Left out

- Parsing and compiling the formula (`sympify`, `lambdify`, `subs`): `f` is an uninterpreted partial function over `real`.
- Floating point: NaN, infinities, overflow and rounding are not modelled; arithmetic is exact over `real`.
- How the numeric and the symbolic evaluation of `f` relate: they are independent partial functions in the model, with nothing said about their agreeing in value.
- The Flask routes `index` and `calculate` beyond the shape of the enqueued dictionary, the HTTP call in `run_iteration`, and the JSON conversions: network plumbing.
- `plot_iteration_process` and the drawing inside `update_plot`: the model records each completed call's arguments in `Gui.plotted`. Whether a call raises is given by the parameter `fails` of `CheckDataQueue`, not computed from the formula.
- The timer behind `after(100, ...)` (only whether a next poll is scheduled is modelled), the Tkinter widgets and the threads: the drain is modelled as one single-threaded poll, and the thread safety of `queue.Queue` is not modelled.
- `evaluate_expression`: an unrestricted `eval` of user text, with no contract beyond what Python computes.
- The unused module-level `f` (main.py:41-42), the debug message printed on a caught failure, and the stray `app.geometry` call.
