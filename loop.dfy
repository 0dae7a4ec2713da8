/** The `while (true)` loop of `Client::start` (src/client.cpp, and the
    prototype client.cpp, whose loop is the same): flush, wait in `select`,
    dispatch Wayland events when the display descriptor is readable, and
    redraw every bar. What `select` and `wl_display_dispatch` return is an
    input, one wake-up per iteration. */
module EventLoop {

  /** How one `select` call returns. */
  datatype Wake =
    | Interrupted                    // -1 with errno EINTR
    | SelectFailed                   // -1 with any other errno
    | WaylandReady(dispatchOk: bool) // the display descriptor is readable; whether dispatch returned other than -1
    | OtherReady                     // only the socket or stdin is readable

  /** What the loop does, in order. `Draw(i)` is `draw()` on the `i`-th bar. */
  datatype Action = Flush | Select | Dispatch | Draw(bar: nat)

  /** How the loop stands after the given wake-ups: it left through `break`,
      it died in `dief`, or it is still running and about to flush again. */
  datatype End = Exited | Fatal | Running

  datatype Trace = Trace(end: End, actions: seq<Action>)

  /** `draw()` on bars `0 .. n - 1`, in registration order. */
  function DrawAll(n: nat): (rs: seq<Action>)
    ensures |rs| == n && forall i :: 0 <= i < n ==> rs[i] == Draw(i)
  {
    if n == 0 then [] else DrawAll(n - 1) + [Draw(n - 1)]
  }

  /** The actions of one iteration that does not leave the loop. */
  function Iteration(w: Wake, bars: nat): seq<Action>
  {
    match w
    case WaylandReady(_) => [Flush, Select, Dispatch] + DrawAll(bars)
    case OtherReady => [Flush, Select] + DrawAll(bars)
    case _ => [Flush, Select]
  }

  /** The loop over `wakes` with `bars` bars registered. */
  function Run(wakes: seq<Wake>, bars: nat): Trace
    decreases |wakes|
  {
    if wakes == [] then Trace(Running, [])
    else match wakes[0]
      case SelectFailed => Trace(Fatal, [Flush, Select])
      case WaylandReady(false) => Trace(Exited, [Flush, Select, Dispatch])
      case _ =>
        var rest := Run(wakes[1..], bars);
        Trace(rest.end, Iteration(wakes[0], bars) + rest.actions)
  }

  /** The loop itself: one iteration per wake-up, until one of them makes
      it leave. */
  method Loop(wakes: seq<Wake>, bars: nat) returns (t: Trace)
    ensures t == Run(wakes, bars)
  {
    var actions := [];
    var k := 0;
    while k < |wakes|
      invariant 0 <= k <= |wakes|
      invariant Run(wakes, bars) == Trace(Run(wakes[k..], bars).end, actions + Run(wakes[k..], bars).actions)
    {
      RunFrom(wakes, k, bars);
      var acts, leaves := Step(wakes[k], bars);
      if leaves {
        return Trace(if wakes[k] == SelectFailed then Fatal else Exited, actions + acts);
      }
      Shift(actions, acts, Run(wakes[k + 1..], bars).actions);
      actions := actions + acts;
      k := k + 1;
    }
    t := Trace(Running, actions);
  }

  /** The body of the loop for one wake-up: the actions it takes, and
      whether it leaves the loop. */
  method Step(w: Wake, bars: nat) returns (acts: seq<Action>, leaves: bool)
    ensures leaves <==> Stops(w)
    ensures leaves ==> acts == Leaving(w)
    ensures !leaves ==> acts == Iteration(w, bars)
  {
    acts := [Flush, Select];
    leaves := false;
    match w {
      case Interrupted =>
      case SelectFailed =>
        leaves := true;
      case WaylandReady(ok) =>
        acts := acts + [Dispatch];
        if !ok {
          leaves := true;
        } else {
          acts := DrawBars(acts, bars);
        }
      case OtherReady =>
        acts := DrawBars(acts, bars);
    }
  }

  /** `Run` from the `k`-th wake-up on, unfolded once. */
  lemma RunFrom(wakes: seq<Wake>, k: nat, bars: nat)
    requires k < |wakes|
    ensures Stops(wakes[k]) ==>
      Run(wakes[k..], bars) == Trace(if wakes[k] == SelectFailed then Fatal else Exited, Leaving(wakes[k]))
    ensures !Stops(wakes[k]) ==>
      Run(wakes[k..], bars) == Trace(Run(wakes[k + 1..], bars).end, Iteration(wakes[k], bars) + Run(wakes[k + 1..], bars).actions)
  {
    assert wakes[k..][1..] == wakes[k + 1..];
  }

  lemma Shift(a: seq<Action>, b: seq<Action>, c: seq<Action>)
    ensures a + (b + c) == (a + b) + c
  {
  }

  /** `for (bar : __bars) bar->draw();` */
  method DrawBars(actions: seq<Action>, bars: nat) returns (r: seq<Action>)
    ensures r == actions + DrawAll(bars)
  {
    r := actions;
    for i := 0 to bars
      invariant r == actions + DrawAll(i)
    {
      r := r + [Draw(i)];
    }
  }

  /** A wake-up that makes the loop leave: a failed `select`, or a
      dispatch that returned -1. */
  predicate Stops(w: Wake)
  {
    w == SelectFailed || w == WaylandReady(false)
  }

  /** The position of the first wake-up that makes the loop leave, or
      `|wakes|` when none does. */
  function FirstStop(wakes: seq<Wake>): (m: nat)
    ensures m <= |wakes|
    ensures forall k :: 0 <= k < m ==> !Stops(wakes[k])
    ensures m < |wakes| ==> Stops(wakes[m])
    decreases |wakes|
  {
    if wakes == [] || Stops(wakes[0]) then 0 else 1 + FirstStop(wakes[1..])
  }

  /** The iterations for `wakes`, one after the other, none of them leaving. */
  function Iterations(wakes: seq<Wake>, bars: nat): seq<Action>
    decreases |wakes|
  {
    if wakes == [] then [] else Iteration(wakes[0], bars) + Iterations(wakes[1..], bars)
  }

  /** The actions of the iteration that leaves the loop. */
  function Leaving(w: Wake): seq<Action>
  {
    if w == SelectFailed then [Flush, Select] else [Flush, Select, Dispatch]
  }

  /** The loop runs one full iteration per wake-up up to the first one that
      makes it leave; that one ends it (fatally for a failed `select`,
      through `break` for a failed dispatch) and nothing after it is looked
      at. */
  lemma {:induction false} RunIsIterations(wakes: seq<Wake>, bars: nat)
    ensures var m := FirstStop(wakes);
      && Run(wakes, bars).actions == Iterations(wakes[..m], bars) + (if m < |wakes| then Leaving(wakes[m]) else [])
      && Run(wakes, bars).end == (if m == |wakes| then Running else if wakes[m] == SelectFailed then Fatal else Exited)
    decreases |wakes|
  {
    if wakes != [] && !Stops(wakes[0]) {
      RunIsIterations(wakes[1..], bars);
      var m := FirstStop(wakes);
      assert wakes[..m][1..] == wakes[1..][..m - 1];
      Shift(Iteration(wakes[0], bars), Iterations(wakes[1..][..m - 1], bars),
        if m < |wakes| then Leaving(wakes[m]) else []);
    }
  }

  /** Every `Select` in an action sequence directly follows a `Flush`. */
  predicate FlushedBeforeSelect(acts: seq<Action>)
  {
    forall j :: 0 <= j < |acts| && acts[j] == Select ==> 0 < j && acts[j - 1] == Flush
  }

  lemma FlushedConcat(a: seq<Action>, b: seq<Action>)
    requires FlushedBeforeSelect(a) && FlushedBeforeSelect(b)
    requires b == [] || b[0] != Select
    ensures FlushedBeforeSelect(a + b)
  {
    forall j | 0 <= j < |a + b| && (a + b)[j] == Select
      ensures 0 < j && (a + b)[j - 1] == Flush
    {
      if j >= |a| {
        assert b[j - |a|] == Select;
      }
    }
  }

  /** The display is flushed before every `select`. */
  lemma {:induction false} FlushPrecedesSelect(wakes: seq<Wake>, bars: nat)
    ensures FlushedBeforeSelect(Run(wakes, bars).actions)
    decreases |wakes|
  {
    if wakes != [] && !Stops(wakes[0]) {
      FlushPrecedesSelect(wakes[1..], bars);
      var it := Iteration(wakes[0], bars);
      assert it[0] == Flush && it[1] == Select;
      assert forall j :: 2 <= j < |it| ==> it[j] != Select;
      FlushedConcat(it, Run(wakes[1..], bars).actions);
    }
  }

  /** An interrupted `select` only starts the next iteration: `n` of them
      add `n` flush-and-select pairs and nothing else, whatever follows. */
  lemma {:induction false} InterruptsOnlyRetry(wakes: seq<Wake>, n: nat, bars: nat)
    ensures var pre := seq(n, _ => Interrupted);
      && Run(pre + wakes, bars).end == Run(wakes, bars).end
      && Run(pre + wakes, bars).actions == Pairs(n) + Run(wakes, bars).actions
  {
    var pre := seq(n, _ => Interrupted);
    if n == 0 {
      assert pre + wakes == wakes;
    } else {
      InterruptsOnlyRetry(wakes, n - 1, bars);
      assert (pre + wakes)[1..] == seq(n - 1, _ => Interrupted) + wakes;
    }
  }

  /** `n` flush-and-select pairs. */
  function Pairs(n: nat): seq<Action>
  {
    if n == 0 then [] else [Flush, Select] + Pairs(n - 1)
  }

  /** A failed dispatch leaves the loop at once: no bar is drawn after it,
      and later wake-ups are never seen. */
  lemma {:induction false} FailedDispatchBreaks(wakes: seq<Wake>, bars: nat)
    requires FirstStop(wakes) < |wakes| && wakes[FirstStop(wakes)] == WaylandReady(false)
    ensures Run(wakes, bars).end == Exited
    ensures Run(wakes, bars).actions[|Run(wakes, bars).actions| - 1] == Dispatch
    ensures forall more :: Run(wakes + more, bars) == Run(wakes, bars)
    decreases |wakes|
  {
    RunIsIterations(wakes, bars);
    forall more
      ensures Run(wakes + more, bars) == Run(wakes, bars)
    {
      StopIgnoresTail(wakes, more, bars);
    }
  }

  lemma {:induction false} StopIgnoresTail(wakes: seq<Wake>, more: seq<Wake>, bars: nat)
    requires FirstStop(wakes) < |wakes|
    ensures Run(wakes + more, bars) == Run(wakes, bars)
    decreases |wakes|
  {
    assert (wakes + more)[0] == wakes[0];
    if !Stops(wakes[0]) {
      assert (wakes + more)[1..] == wakes[1..] + more;
      StopIgnoresTail(wakes[1..], more, bars);
    }
  }

  /** Every wake-up that does not end the loop redraws all bars in
      registration order, even when only the socket or stdin woke it; an
      interrupted `select` draws nothing. */
  lemma RedrawsEveryBar(w: Wake, bars: nat)
    requires !Stops(w)
    ensures w != Interrupted ==> Iteration(w, bars)[|Iteration(w, bars)| - bars..] == DrawAll(bars)
    ensures w == Interrupted ==> Iteration(w, bars) == [Flush, Select]
    ensures Dispatch in Iteration(w, bars) <==> w.WaylandReady?
  {
  }
}
