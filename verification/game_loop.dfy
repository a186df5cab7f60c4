/**
 The native game loop: while the program does not want to quit, drain the
 event queue, render a frame, and sleep so that a frame lasts about 17 ms
 (roughly 60 frames per second).

 Time is an input: each loop iteration is given the tick counts read before
 polling and after rendering, together with the results of the SDL calls it
 makes. The loop itself need not end, so the model runs it over a finite list
 of iterations.
 */
module GameLoop {
  import opened Shift
  import opened Demo
  import opened Events
  import Square

  const TwoTo64: int := 0x1_0000_0000_0000_0000

  /** An unsigned 64-bit tick count in milliseconds. */
  type Uint64 = v: int | 0 <= v < TwoTo64

  /** Target length of a frame in milliseconds. */
  const FrameMillis: int := 17

  /** Duration of a frame: the difference of two tick counts in unsigned 64-bit arithmetic. */
  function FrameTime(startTicks: Uint64, endTicks: Uint64): (t: Uint64)
    ensures startTicks <= endTicks ==> t == endTicks - startTicks
    ensures endTicks < startTicks ==> t == endTicks - startTicks + TwoTo64
  {
    (endTicks - startTicks) % TwoTo64
  }

  /**
   Milliseconds to sleep after a frame that took `frameTime`; 0 means the loop
   does not sleep. A frame measured at 0 ms, or at 17 ms or more, is not padded.
   */
  function FrameDelay(frameTime: int): (delay: nat)
    ensures delay > 0 <==> 0 < frameTime < FrameMillis
    ensures delay > 0 ==> 1 <= delay <= 16 && frameTime + delay == FrameMillis
  {
    if frameTime > 0 && frameTime < FrameMillis then FrameMillis - frameTime else 0
  }

  /** A frame that took any time from 1 ms on lasts at least 17 ms once padded, and exactly 17 ms if it was shorter. */
  lemma PacedFrameLength(frameTime: nat)
    requires frameTime > 0
    ensures frameTime + FrameDelay(frameTime) == if frameTime < FrameMillis then FrameMillis else frameTime
  {
  }

  /** An event waiting in the queue, with the results the SDL calls made while handling it would have. */
  datatype Pending = Pending(event: Event, sdl: SdlOutcomes)

  /**
   The state after draining the queue, the events still waiting, and whether the
   loop function returned because the program asked to quit.
   */
  datatype Drained = Drained(st: State, rest: seq<Pending>, leave: bool)

  /** `rest` is what remains of `queue` after some events were taken from its front. */
  predicate IsSuffix(rest: seq<Pending>, queue: seq<Pending>) {
    |rest| <= |queue| && rest == queue[|queue| - |rest|..]
  }

  /** Some event in the queue asks to quit. */
  predicate AnyQuit(queue: seq<Pending>) {
    exists k :: 0 <= k < |queue| && AsksToQuit(queue[k].event)
  }

  /** No event in the queue switches the screen mode. */
  predicate NoToggle(queue: seq<Pending>) {
    forall k :: 0 <= k < |queue| ==> !TogglesFullscreen(queue[k].event)
  }

  /**
   The inner loop: poll until polling says stop, returning from the game loop
   as soon as a handled event has set the quit flag. Polling reads the queue only
   while the program does not want to quit.
   */
  function DrainEvents(st: State, queue: seq<Pending>): (d: Drained)
    ensures d.st.phase == st.phase
    ensures d.leave ==> d.st.wantOut
    ensures IsSuffix(d.rest, queue)
    ensures st.wantOut ==> d == Drained(st, queue, false)
    decreases |queue|
  {
    var next := if |queue| == 0 then None else Some(queue[0].event);
    var sdl := if |queue| == 0 then SdlOutcomes(true, true, true) else queue[0].sdl;
    var p := PollEventOnce(st, next, sdl);
    var rest := if st.wantOut || |queue| == 0 then queue else queue[1..];
    if !p.more then Drained(p.st, rest, false)
    else if p.st.wantOut then Drained(p.st, rest, true)
    else DrainEvents(p.st, rest)
  }

  /** Draining past an event that neither quits nor switches the screen mode is draining the rest. */
  lemma DrainSkipsEvent(st: State, queue: seq<Pending>)
    requires !st.wantOut && |queue| > 0
    requires !AsksToQuit(queue[0].event) && !TogglesFullscreen(queue[0].event)
    ensures DrainEvents(st, queue) == DrainEvents(st, queue[1..])
  {
    assert PollEventOnce(st, Some(queue[0].event), queue[0].sdl) == Polled(st, true);
  }

  /** A quit event at the head of the queue returns from the loop with only the quit flag set. */
  lemma DrainStopsAtQuit(st: State, queue: seq<Pending>)
    requires !st.wantOut && |queue| > 0
    requires AsksToQuit(queue[0].event)
    ensures DrainEvents(st, queue) == Drained(st.(wantOut := true), queue[1..], true)
  {
    assert PollEventOnce(st, Some(queue[0].event), queue[0].sdl) == Polled(st.(wantOut := true), true);
  }

  /** A queue holds a quit event exactly when its head or its tail does. */
  lemma AnyQuitSplit(queue: seq<Pending>)
    requires |queue| > 0
    ensures AnyQuit(queue) <==> AsksToQuit(queue[0].event) || AnyQuit(queue[1..])
  {
    if AnyQuit(queue) && !AsksToQuit(queue[0].event) {
      var k :| 0 <= k < |queue| && AsksToQuit(queue[k].event);
      assert queue[1..][k - 1] == queue[k];
    }
    if AnyQuit(queue[1..]) {
      var k :| 0 <= k < |queue[1..]| && AsksToQuit(queue[1..][k].event);
      assert queue[k + 1] == queue[1..][k];
    }
  }

  /**
   Without F keys in the queue, draining either empties the queue and changes
   nothing, or returns from the game loop; it returns exactly when some event in
   the queue asks to quit.
   */
  lemma {:induction false} DrainWithoutToggles(st: State, queue: seq<Pending>)
    requires !st.wantOut && NoToggle(queue)
    ensures DrainEvents(st, queue).leave <==> AnyQuit(queue)
    ensures !DrainEvents(st, queue).leave ==> DrainEvents(st, queue) == Drained(st, [], false)
    decreases |queue|
  {
    if |queue| > 0 {
      AnyQuitSplit(queue);
      assert !TogglesFullscreen(queue[0].event);
      if AsksToQuit(queue[0].event) {
        DrainStopsAtQuit(st, queue);
      } else {
        DrainSkipsEvent(st, queue);
        assert NoToggle(queue[1..]);
        DrainWithoutToggles(st, queue[1..]);
      }
    }
  }

  /**
   What one pass of the outer loop is given: the events that arrived since the
   last pass, the results of locking and copying the texture, and the tick counts
   read before polling and after rendering.
   */
  datatype Tick = Tick(arrived: seq<Pending>, lockOk: bool, copyOk: bool, startTicks: Uint64, endTicks: Uint64)

  /**
   One pass of the outer loop: either the loop function returned while polling,
   or a frame was attempted and the loop slept for `delay` milliseconds.
   */
  datatype Pass =
    | Returned(st: State)
    | Looped(st: State, rest: seq<Pending>, outcome: FrameOutcome, delay: nat)

  /** One pass of the outer loop over the waiting events `queue`. */
  function LoopPass(st: State, queue: seq<Pending>, t: Tick): (r: Pass)
    ensures r.Returned? ==> r.st.wantOut && r.st.phase == st.phase
    ensures r.Looped? ==> r.delay == FrameDelay(FrameTime(t.startTicks, t.endTicks))
    ensures r.Looped? && r.outcome.Presented? ==>
              r.outcome.frame == Square.Frame(st.phase.shift) && r.st.phase == Advance(st.phase)
    ensures r.Looped? && !r.outcome.Presented? ==> r.st.phase == st.phase && r.st.wantOut
    ensures Valid(st.phase) ==> Valid(r.st.phase)
  {
    var d := DrainEvents(st, queue + t.arrived);
    if d.leave then Returned(d.st)
    else
      var f := RenderFrame(d.st, t.lockOk, t.copyOk);
      Looped(f.st, d.rest, f.outcome, FrameDelay(FrameTime(t.startTicks, t.endTicks)))
  }

  /** The result of running the game loop: the final state and the number of frames shown. */
  datatype Run = Run(st: State, shown: nat)

  /**
   The game loop over a finite list of passes: it stops when the program wants
   to quit or when the list runs out.
   */
  function RunLoop(st: State, queue: seq<Pending>, ticks: seq<Tick>): (r: Run)
    ensures r.st.phase == Frames(st.phase, r.shown)
    ensures r.shown <= |ticks|
    decreases |ticks|
  {
    if st.wantOut || |ticks| == 0 then Run(st, 0)
    else
      var pass := LoopPass(st, queue, ticks[0]);
      if pass.Returned? then Run(pass.st, 0)
      else
        var next := RunLoop(pass.st, pass.rest, ticks[1..]);
        if pass.outcome.Presented? then
          assert next.st.phase == Frames(st.phase, next.shown + 1) by {
            assert pass.st.phase == Advance(st.phase);
            FramesAfterAdvance(st.phase, next.shown);
          }
          Run(next.st, next.shown + 1)
        else
          assert next.st.phase == Frames(st.phase, next.shown) by {
            assert pass.st.phase == st.phase;
          }
          next
  }

  /**
   A run that starts out quitting does nothing, and until the program wants to
   quit every pass shows a frame: a run that ends without the quit flag showed
   one frame per pass.
   */
  lemma {:induction false} EveryPassShowsFrame(st: State, queue: seq<Pending>, ticks: seq<Tick>)
    ensures st.wantOut ==> RunLoop(st, queue, ticks) == Run(st, 0)
    ensures !RunLoop(st, queue, ticks).st.wantOut ==> RunLoop(st, queue, ticks).shown == |ticks|
    decreases |ticks|
  {
    if !st.wantOut && |ticks| > 0 {
      var pass := LoopPass(st, queue, ticks[0]);
      if pass.Looped? {
        EveryPassShowsFrame(pass.st, pass.rest, ticks[1..]);
      }
    }
  }

  /**
   Whatever the events, SDL results and timings, the offset the demo reaches
   from its initial state stays in [0, 256]: it is the triangle wave after as
   many frames as were shown.
   */
  lemma ShiftStaysInRange(queue: seq<Pending>, ticks: seq<Tick>)
    ensures RunLoop(Init, queue, ticks).st.phase == Triangle(RunLoop(Init, queue, ticks).shown)
    ensures 0 <= RunLoop(Init, queue, ticks).st.phase.shift <= 256
  {
    FramesFromStart(RunLoop(Init, queue, ticks).shown);
  }

  /** A quit request, Escape or Q at the head of the queue ends the loop before anything is rendered. */
  lemma QuitSkipsFrame(st: State, queue: seq<Pending>, t: Tick)
    requires !st.wantOut
    requires |queue| > 0 && AsksToQuit(queue[0].event)
    ensures LoopPass(st, queue, t) == Returned(st.(wantOut := true))
  {
    assert (queue + t.arrived)[0] == queue[0];
  }

  /**
   When entering fullscreen fails, polling sets the quit flag but answers "stop"
   rather than "continue", so the inner loop does not return and the frame is
   still attempted and paced. The texture was destroyed and never recreated, so
   the attempt fails at the lock and the offset is kept; the loop then ends.
   */
  lemma FullscreenFailureFailsFrame(st: State, sdl: SdlOutcomes, queue: seq<Pending>, t: Tick)
    requires !st.wantOut && !st.isFullscreen
    requires sdl.rendererOk && !sdl.fullscreenOk
    requires |queue| > 0 && queue[0] == Pending(KeyDown(false, ScanF), sdl)
    ensures LoopPass(st, queue, t).Looped?
    ensures LoopPass(st, queue, t).outcome == LockFailed
    ensures LoopPass(st, queue, t).delay == FrameDelay(FrameTime(t.startTicks, t.endTicks))
    ensures LoopPass(st, queue, t).st
         == st.(wantOut := true, isFullscreen := true, hasTexture := false)
    ensures RunLoop(st, queue, [t]) == Run(LoopPass(st, queue, t).st, 0)
  {
    assert (queue + t.arrived)[0] == queue[0];
  }

  /**
   When the renderer cannot be recreated after F, polling stops without asking
   to quit. The texture is gone, so the frame fails at the lock, which is what
   makes the program quit; the screen-mode flag stays switched.
   */
  lemma RendererFailureFailsFrame(st: State, sdl: SdlOutcomes, queue: seq<Pending>, t: Tick)
    requires !st.wantOut && !sdl.rendererOk
    requires |queue| > 0 && queue[0] == Pending(KeyDown(false, ScanF), sdl)
    ensures LoopPass(st, queue, t).Looped?
    ensures LoopPass(st, queue, t).outcome == LockFailed
    ensures LoopPass(st, queue, t).rest == queue[1..] + t.arrived
    ensures LoopPass(st, queue, t).st
         == st.(wantOut := true, isFullscreen := !st.isFullscreen, hasTexture := false)
  {
    assert (queue + t.arrived)[0] == queue[0];
    assert (queue + t.arrived)[1..] == queue[1..] + t.arrived;
  }
}
