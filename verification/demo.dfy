/**
 The global state of the demo and the rendering of one frame.

 Window, renderer and format handles are not state here: what the model keeps
 of them is whether the SDL calls on them succeed, passed in as booleans. The
 texture is the exception: a screen-mode switch destroys it before anything
 else and may fail before making a new one, and a missing texture cannot be
 locked, so whether it exists is part of the state.
 */
module Demo {
  import opened Colour
  import opened Square
  import opened Shift

  /** The globals that decide behaviour: the animation phase, the two flags, and whether a texture exists. */
  datatype State = State(phase: Phase, wantOut: bool, isFullscreen: bool, hasTexture: bool)

  /** The globals once start-up succeeded: offset 0 counting up, windowed, not quitting, texture created. */
  const Init: State := State(Start, false, false, true)

  /** What became of the frame: shown on screen, or abandoned at the lock or at the copy. */
  datatype FrameOutcome = Presented(frame: seq<Rgb>) | LockFailed | CopyFailed

  datatype Rendered = Rendered(st: State, outcome: FrameOutcome)

  /**
   One frame. `lockOk` and `copyOk` are the results SDL gives for locking an
   existing texture and for copying it to the renderer; locking a destroyed
   texture always fails. Either failure asks the program to quit and returns
   before the offset is stepped; otherwise the square for the current offset is
   shown and the offset takes one step.
   */
  function RenderFrame(st: State, lockOk: bool, copyOk: bool): (r: Rendered)
    ensures r.outcome.Presented? <==> st.hasTexture && lockOk && copyOk
    ensures !st.hasTexture ==> r.outcome == LockFailed
    ensures r.outcome.Presented? ==> r.outcome.frame == Frame(st.phase.shift)
    ensures r.outcome.Presented? ==> r.st.phase == Advance(st.phase) && r.st.wantOut == st.wantOut
    ensures !r.outcome.Presented? ==> r.st.phase == st.phase && r.st.wantOut
    ensures r.st.isFullscreen == st.isFullscreen && r.st.hasTexture == st.hasTexture
    ensures Valid(st.phase) ==> Valid(r.st.phase)
  {
    if !st.hasTexture || !lockOk then
      Rendered(st.(wantOut := true), LockFailed)
    else if !copyOk then
      Rendered(st.(wantOut := true), CopyFailed)
    else
      Rendered(st.(phase := Advance(st.phase)), Presented(Frame(st.phase.shift)))
  }
}
