/**
  The result channel of main.py: the process-wide `queue.Queue` filled by the
  `/calculate` handler and by the GUI, and the drain-and-filter step of
  `GUI.check_data_queue`, which forwards to `update_plot` every pending message
  that carries both a `'function'` and an `'x_values'` entry.
*/
module Channel {
  import opened Wrappers

  /** The values a queued dictionary holds. */
  datatype Value =
    | Text(s: string)
    | Number(r: real)
    | Count(n: int)
    | Reals(rs: seq<real>)

  /** A queued message: a dictionary from string keys to values. */
  type Message = map<string, Value>

  /** The arguments of one `update_plot(function, x_values)` call. */
  datatype PlotCall = PlotCall(expr: Value, xValues: Value)

  /** The test of `check_data_queue`: both keys are present. */
  predicate Plottable(m: Message) {
    "function" in m && "x_values" in m
  }

  function CallOf(m: Message): PlotCall
    requires Plottable(m)
  {
    PlotCall(m["function"], m["x_values"])
  }

  /** The `update_plot` calls made for the messages `ms`, consumed in order. */
  function Forwarded(ms: seq<Message>): seq<PlotCall> {
    if ms == [] then []
    else (if Plottable(ms[0]) then [CallOf(ms[0])] else []) + Forwarded(ms[1..])
  }

  /** The dictionary `calculate` enqueues: it has no `'function'` entry. */
  function ResultMessage(xs: seq<real>, iterations: int): (m: Message)
    requires |xs| >= 1
    ensures "x_values" in m && m["x_values"] == Reals(xs)
    ensures "root_approximation" in m && m["root_approximation"] == Number(xs[|xs| - 1])
    ensures !Plottable(m)
  {
    map["root_approximation" := Number(xs[|xs| - 1]), "iterations" := Count(iterations), "x_values" := Reals(xs)]
  }

  /** The dictionary `run_iteration` enqueues: exactly the two entries the drain looks for. */
  function PlotMessage(expr: string, xs: seq<real>): (m: Message)
    ensures Plottable(m)
    ensures CallOf(m) == PlotCall(Text(expr), Reals(xs))
  {
    map["function" := Text(expr), "x_values" := Reals(xs)]
  }

  // ---------------------------------------------------------------------------
  // Properties of the drain.

  /** Draining `a` and then `b` forwards what draining `a + b` at once forwards:
      messages that pile up between two polls are handled together, in order. */
  lemma {:induction false} ForwardedAppend(a: seq<Message>, b: seq<Message>)
    ensures Forwarded(a + b) == Forwarded(a) + Forwarded(b)
  {
    if a == [] {
      assert a + b == b;
    } else {
      assert (a + b)[1..] == a[1..] + b;
      ForwardedAppend(a[1..], b);
    }
  }

  /** A call is forwarded exactly when some pending message carries both keys
      and yields that call. */
  lemma {:induction false} ForwardedMembers(ms: seq<Message>, c: PlotCall)
    ensures c in Forwarded(ms) <==> exists i :: 0 <= i < |ms| && Plottable(ms[i]) && CallOf(ms[i]) == c
  {
    if ms != [] {
      ForwardedMembers(ms[1..], c);
      if c in Forwarded(ms[1..]) {
        var i :| 0 <= i < |ms[1..]| && Plottable(ms[1..][i]) && CallOf(ms[1..][i]) == c;
        assert ms[i + 1] == ms[1..][i];
      }
      if exists i :: 0 <= i < |ms| && Plottable(ms[i]) && CallOf(ms[i]) == c {
        var i :| 0 <= i < |ms| && Plottable(ms[i]) && CallOf(ms[i]) == c;
        if i > 0 { assert ms[1..][i - 1] == ms[i]; }
      }
    }
  }

  /** The positions from `i` on of the messages that carry both keys, in queue order. */
  function PositionsFrom(ms: seq<Message>, i: nat): seq<nat>
    requires i <= |ms|
    decreases |ms| - i
  {
    if i == |ms| then []
    else (if Plottable(ms[i]) then [i] else []) + PositionsFrom(ms, i + 1)
  }

  function PlottablePositions(ms: seq<Message>): seq<nat> {
    PositionsFrom(ms, 0)
  }

  /** Every position in `idx` is at least `lo` and holds a message with both keys. */
  ghost predicate SelectsPlottable(ms: seq<Message>, idx: seq<nat>, lo: nat) {
    forall j :: 0 <= j < |idx| ==> lo <= idx[j] < |ms| && Plottable(ms[idx[j]])
  }

  ghost predicate StrictlyIncreasing(idx: seq<nat>) {
    forall j, l :: 0 <= j < l < |idx| ==> idx[j] < idx[l]
  }

  lemma {:induction false} PositionsFromSelect(ms: seq<Message>, i: nat)
    requires i <= |ms|
    ensures SelectsPlottable(ms, PositionsFrom(ms, i), i)
    decreases |ms| - i
  {
    if i < |ms| {
      PositionsFromSelect(ms, i + 1);
      var rest, idx := PositionsFrom(ms, i + 1), PositionsFrom(ms, i);
      if Plottable(ms[i]) {
        assert idx == [i] + rest;
        forall j | 0 < j < |idx| ensures i <= idx[j] < |ms| && Plottable(ms[idx[j]]) {
          assert idx[j] == rest[j - 1];
        }
      } else {
        assert idx == rest;
      }
    }
  }

  lemma {:induction false} PositionsFromIncreasing(ms: seq<Message>, i: nat)
    requires i <= |ms|
    ensures StrictlyIncreasing(PositionsFrom(ms, i))
    decreases |ms| - i
  {
    if i < |ms| {
      PositionsFromIncreasing(ms, i + 1);
      var rest, idx := PositionsFrom(ms, i + 1), PositionsFrom(ms, i);
      if Plottable(ms[i]) {
        PositionsFromSelect(ms, i + 1);
        assert idx == [i] + rest;
        forall j, l | 0 <= j < l < |idx| ensures idx[j] < idx[l] {
          assert idx[l] == rest[l - 1];
          if j > 0 { assert idx[j] == rest[j - 1]; }
        }
      } else {
        assert idx == rest;
      }
    }
  }

  lemma {:induction false} PositionsFromCover(ms: seq<Message>, i: nat)
    requires i <= |ms|
    ensures forall p :: i <= p < |ms| && Plottable(ms[p]) ==> p in PositionsFrom(ms, i)
    decreases |ms| - i
  {
    if i < |ms| {
      PositionsFromCover(ms, i + 1);
    }
  }

  lemma {:induction false} ForwardedFrom(ms: seq<Message>, i: nat)
    requires i <= |ms|
    ensures var idx := PositionsFrom(ms, i);
      && |Forwarded(ms[i..])| == |idx|
      && forall j :: 0 <= j < |idx| ==>
           i <= idx[j] < |ms| && Plottable(ms[idx[j]]) && Forwarded(ms[i..])[j] == CallOf(ms[idx[j]])
    decreases |ms| - i
  {
    PositionsFromSelect(ms, i);
    if i < |ms| {
      ForwardedFrom(ms, i + 1);
      assert ms[i..][0] == ms[i];
      assert ms[i..][1..] == ms[i + 1..];
      var rest, idx := PositionsFrom(ms, i + 1), PositionsFrom(ms, i);
      var h := if Plottable(ms[i]) then 1 else 0;
      assert forall j :: h <= j < |idx| ==> idx[j] == rest[j - h];
      assert forall j :: h <= j < |idx| ==> Forwarded(ms[i..])[j] == Forwarded(ms[i + 1..])[j - h];
    }
  }

  /** The calls are exactly those of the messages that carry both keys, in FIFO
      order: the j-th call comes from the j-th such message, their positions
      strictly increase, and no such message is skipped. */
  lemma ForwardedInOrder(ms: seq<Message>)
    ensures var idx := PlottablePositions(ms);
      && |Forwarded(ms)| == |idx|
      && (forall j :: 0 <= j < |idx| ==>
            idx[j] < |ms| && Plottable(ms[idx[j]]) && Forwarded(ms)[j] == CallOf(ms[idx[j]]))
      && (forall j, l :: 0 <= j < l < |idx| ==> idx[j] < idx[l])
      && (forall i :: 0 <= i < |ms| && Plottable(ms[i]) ==> i in idx)
  {
    PositionsFromSelect(ms, 0);
    PositionsFromIncreasing(ms, 0);
    PositionsFromCover(ms, 0);
    ForwardedFrom(ms, 0);
    assert ms[0..] == ms;
  }

  /** When every pending message carries both keys, the calls follow the queue
      one for one, in FIFO order. */
  lemma {:induction false} ForwardedAllPlottable(ms: seq<Message>)
    requires forall i :: 0 <= i < |ms| ==> Plottable(ms[i])
    ensures |Forwarded(ms)| == |ms|
    ensures forall i :: 0 <= i < |ms| ==> Forwarded(ms)[i] == CallOf(ms[i])
  {
    if ms != [] {
      ForwardedAllPlottable(ms[1..]);
      forall i | 0 < i < |ms| ensures Forwarded(ms)[i] == CallOf(ms[i]) {
        assert ms[1..][i - 1] == ms[i];
      }
    }
  }

  /** No more calls than messages, and no call at all when no message carries
      both keys. */
  lemma {:induction false} ForwardedBounds(ms: seq<Message>)
    ensures |Forwarded(ms)| <= |ms|
    ensures (forall i :: 0 <= i < |ms| ==> !Plottable(ms[i])) ==> Forwarded(ms) == []
  {
    if ms != [] {
      ForwardedBounds(ms[1..]);
      if forall i :: 0 <= i < |ms| ==> !Plottable(ms[i]) {
        assert forall i :: 0 <= i < |ms[1..]| ==> ms[1..][i] == ms[i + 1];
      }
    }
  }

  /** A computation's own result and the GUI's re-enqueued copy, queued in that
      order, produce a single plot: the first is consumed and dropped. */
  lemma OnlyGuiMessagePlotted(expr: string, xs: seq<real>, iterations: int)
    requires |xs| >= 1
    ensures Forwarded([ResultMessage(xs, iterations), PlotMessage(expr, xs)])
         == [PlotCall(Text(expr), Reals(xs))]
  {
    var r, p := ResultMessage(xs, iterations), PlotMessage(expr, xs);
    assert [p][1..] == [];
    assert Forwarded([p]) == [CallOf(p)];
    assert [r, p][1..] == [p];
  }

  // ---------------------------------------------------------------------------
  // A poll in which `update_plot` may raise.

  /** What one poll does: the `update_plot` calls that completed, the messages
      still queued afterwards, and whether an exception escaped the poll. */
  datatype PollResult = PollResult(calls: seq<PlotCall>, remaining: seq<Message>, raised: bool)

  /** One poll over the pending messages `ms`, where `fails(c)` says that the call
      `c` of `update_plot` raises. Only `queue.Empty` is caught, so the first
      failing call ends the poll with the message already taken off the queue. */
  function Drain(ms: seq<Message>, fails: PlotCall -> bool): PollResult {
    if ms == [] then PollResult([], [], false)
    else if Plottable(ms[0]) && fails(CallOf(ms[0])) then PollResult([], ms[1..], true)
    else
      var p := Drain(ms[1..], fails);
      PollResult((if Plottable(ms[0]) then [CallOf(ms[0])] else []) + p.calls, p.remaining, p.raised)
  }

  /** No call of `update_plot` on the messages `ms` raises. */
  ghost predicate NoPlotFails(ms: seq<Message>, fails: PlotCall -> bool) {
    forall i :: 0 <= i < |ms| && Plottable(ms[i]) ==> !fails(CallOf(ms[i]))
  }

  /** When no plot fails, a poll empties the queue and makes exactly the calls of
      `Forwarded`; otherwise it does raise. */
  lemma {:induction false} DrainWithoutFailure(ms: seq<Message>, fails: PlotCall -> bool)
    ensures NoPlotFails(ms, fails) <==> !Drain(ms, fails).raised
    ensures NoPlotFails(ms, fails) ==> Drain(ms, fails) == PollResult(Forwarded(ms), [], false)
  {
    if ms != [] {
      DrainWithoutFailure(ms[1..], fails);
      if NoPlotFails(ms[1..], fails) && !(Plottable(ms[0]) && fails(CallOf(ms[0]))) {
        forall i | 0 <= i < |ms| && Plottable(ms[i]) ensures !fails(CallOf(ms[i])) {
          if i > 0 { assert ms[i] == ms[1..][i - 1]; }
        }
      }
      if NoPlotFails(ms, fails) {
        forall i | 0 <= i < |ms[1..]| && Plottable(ms[1..][i]) ensures !fails(CallOf(ms[1..][i])) {
          assert ms[1..][i] == ms[i + 1];
        }
      }
    }
  }

  /** A poll that raises stops at the first message whose plot fails: the messages
      before it were all handled as `Forwarded` handles them, and every message
      after it is still queued. */
  lemma {:induction false} DrainStopsAtFirstFailure(ms: seq<Message>, fails: PlotCall -> bool)
    ensures var p := Drain(ms, fails);
      p.raised ==>
        var k := |ms| - |p.remaining| - 1;
        && 0 <= k < |ms|
        && p.remaining == ms[k + 1..]
        && Plottable(ms[k]) && fails(CallOf(ms[k]))
        && NoPlotFails(ms[..k], fails)
        && p.calls == Forwarded(ms[..k])
  {
    var p := Drain(ms, fails);
    if ms != [] && p.raised {
      if Plottable(ms[0]) && fails(CallOf(ms[0])) {
        assert ms[..0] == [];
      } else {
        var tail := ms[1..];
        DrainStopsAtFirstFailure(tail, fails);
        var q := Drain(tail, fails);
        var k := |tail| - |q.remaining| - 1;
        assert tail[k + 1..] == ms[k + 2..];
        assert ms[..k + 1][1..] == tail[..k];
        assert ms[..k + 1][0] == ms[0];
        var pre := ms[..k + 1];
        forall i | 0 <= i < k + 1 && Plottable(pre[i]) ensures !fails(CallOf(pre[i])) {
          if i > 0 { assert pre[i] == tail[..k][i - 1]; }
        }
      }
    }
  }

  /** Queued messages ahead of a poll's point in the queue do not change how the
      rest is drained: the calls of messages whose plot succeeds come first. */
  lemma {:induction false} DrainAfterPrefix(a: seq<Message>, b: seq<Message>, fails: PlotCall -> bool)
    requires NoPlotFails(a, fails)
    ensures var p := Drain(b, fails);
      Drain(a + b, fails) == PollResult(Forwarded(a) + p.calls, p.remaining, p.raised)
  {
    if a == [] {
      assert a + b == b;
    } else {
      var ab, tail := a + b, a[1..];
      assert ab[0] == a[0];
      assert ab[1..] == tail + b;
      assert Plottable(a[0]) ==> !fails(CallOf(a[0]));
      assert NoPlotFails(tail, fails) by {
        forall i | 0 <= i < |tail| && Plottable(tail[i]) ensures !fails(CallOf(tail[i])) {
          assert tail[i] == a[i + 1];
        }
      }
      DrainAfterPrefix(tail, b, fails);
      var head := if Plottable(a[0]) then [CallOf(a[0])] else [];
      assert Forwarded(a) == head + Forwarded(tail);
      var q := Drain(tail + b, fails);
      assert Drain(ab, fails) == PollResult(head + q.calls, q.remaining, q.raised);
    }
  }

  // ---------------------------------------------------------------------------
  // The queue and its consumer.

  /** `queue.Queue`, single-threaded: the pending messages, oldest first. */
  class DataQueue {
    var pending: seq<Message>

    constructor ()
      ensures pending == []
    {
      pending := [];
    }

    /** `put`: never blocks, appends at the tail. */
    method Put(m: Message)
      modifies this
      ensures pending == old(pending) + [m]
    {
      pending := pending + [m];
    }

    /** `get_nowait`: the head, or `None` where main.py's `get_nowait` raises `queue.Empty`. */
    method GetNowait() returns (r: Option<Message>)
      modifies this
      ensures old(pending) == [] ==> r == None && pending == []
      ensures old(pending) != [] ==> r == Some(old(pending)[0]) && pending == old(pending)[1..]
    {
      if pending == [] {
        r := None;
      } else {
        r := Some(pending[0]);
        pending := pending[1..];
      }
    }
  }

  /** The consumer side of the GUI: its queue, the `update_plot` calls that
      completed so far, and whether the next poll is scheduled. */
  class Gui {
    const dataQueue: DataQueue
    var plotted: seq<PlotCall>
    var polling: bool

    constructor (q: DataQueue)
      ensures dataQueue == q && plotted == [] && polling
    {
      dataQueue := q;
      plotted := [];
      polling := true;
    }

    /** One poll of `check_data_queue`: takes messages until the queue is empty and
        calls `update_plot` for those carrying both keys; `fails(c)` says which calls
        raise. A raising call ends the poll, and `after` is then not reached, so no
        further poll is scheduled. */
    method CheckDataQueue(fails: PlotCall -> bool) returns (raised: bool)
      modifies this, dataQueue
      ensures var p := Drain(old(dataQueue.pending), fails);
        && raised == p.raised
        && dataQueue.pending == p.remaining
        && plotted == old(plotted) + p.calls
      ensures polling == !raised
    {
      ghost var all := dataQueue.pending;
      ghost var taken := 0;
      raised := false;
      while true
        invariant 0 <= taken <= |all|
        invariant dataQueue.pending == all[taken..]
        invariant plotted == old(plotted) + Forwarded(all[..taken])
        invariant NoPlotFails(all[..taken], fails)
        decreases |dataQueue.pending|
      {
        var data := dataQueue.GetNowait();
        if data == None {
          break;
        }
        var m := data.value;
        assert all[..taken + 1] == all[..taken] + [m];
        assert all[taken..] == [m] + all[taken + 1..];
        if Plottable(m) && fails(CallOf(m)) {
          raised := true;
          DrainAfterPrefix(all[..taken], all[taken..], fails);
          assert all[..taken] + all[taken..] == all;
          break;
        }
        ForwardedAppend(all[..taken], [m]);
        ghost var done := all[..taken + 1];
        assert NoPlotFails(done, fails) by {
          forall i | 0 <= i < taken + 1 && Plottable(done[i]) ensures !fails(CallOf(done[i])) {
            if i < taken { assert done[i] == all[..taken][i]; }
          }
        }
        if Plottable(m) {
          plotted := plotted + [CallOf(m)];
        }
        taken := taken + 1;
      }
      if !raised {
        assert all[..taken] == all;
        DrainWithoutFailure(all, fails);
      }
      polling := !raised;
    }
  }
}
