/**
 Handling of one pending input event.

 The demo reacts to a quit request, to the Escape key (recognised by its key
 code) and to the Q and F keys (recognised by their scancodes). F switches
 between a fake-fullscreen window drawn by the software renderer and a
 centred window drawn by the accelerated renderer; the SDL calls on that path
 can fail, and their results are inputs here.
 */
module Events {
  import opened Demo

  datatype Option<T> = None | Some(value: T)

  /** The physical key of a key press, as far as the demo looks at it. */
  datatype Scancode = ScanQ | ScanF | OtherScan

  /** An event taken from the queue. `KeyDown` carries whether its key code is Escape. */
  datatype Event =
    | QuitRequest
    | KeyDown(escape: bool, scancode: Scancode)
    | OtherEvent

  /** Results of the SDL calls made while switching screen mode. */
  datatype SdlOutcomes = SdlOutcomes(rendererOk: bool, fullscreenOk: bool, textureOk: bool)

  /** The state after polling, and whether the caller should poll again. */
  datatype Polled = Polled(st: State, more: bool)

  /** Events that end the animation. */
  predicate AsksToQuit(e: Event) {
    e.QuitRequest? || (e.KeyDown? && (e.escape || e.scancode == ScanQ))
  }

  /** Events that switch between fullscreen and windowed mode. */
  predicate TogglesFullscreen(e: Event) {
    e.KeyDown? && !e.escape && e.scancode == ScanF
  }

  /** Recreating the texture after a mode switch: on failure there is no texture and the program quits. */
  function CreateTexture(st: State, textureOk: bool): (st': State)
    ensures st'.phase == st.phase && st'.isFullscreen == st.isFullscreen
    ensures st'.hasTexture == textureOk
    ensures st'.wantOut <==> st.wantOut || !textureOk
  {
    if textureOk then st.(hasTexture := true) else st.(hasTexture := false, wantOut := true)
  }

  /**
   The F key. The mode flag is flipped and the texture and renderer are destroyed
   before any SDL call, so both stay that way when a call fails. A renderer that
   cannot be created stops polling without asking to quit; entering fullscreen
   that fails asks to quit and stops polling. Either failure leaves no texture.
   Leaving fullscreen ignores the result of the window-mode call.
   */
  function ToggleFullscreen(st: State, sdl: SdlOutcomes): (r: Polled)
    ensures r.st.phase == st.phase
    ensures r.st.isFullscreen == !st.isFullscreen
    ensures r.more <==> sdl.rendererOk && (!st.isFullscreen ==> sdl.fullscreenOk)
    ensures r.st.wantOut <==>
              || st.wantOut
              || (sdl.rendererOk && !st.isFullscreen && !sdl.fullscreenOk)
              || (r.more && !sdl.textureOk)
    ensures r.st.hasTexture <==> r.more && sdl.textureOk
  {
    if !st.isFullscreen then
      var entering := st.(isFullscreen := true, hasTexture := false);
      if !sdl.rendererOk then Polled(entering, false)
      else if !sdl.fullscreenOk then Polled(entering.(wantOut := true), false)
      else Polled(CreateTexture(entering, sdl.textureOk), true)
    else
      var leaving := st.(isFullscreen := false, hasTexture := false);
      if !sdl.rendererOk then Polled(leaving, false)
      else Polled(CreateTexture(leaving, sdl.textureOk), true)
  }

  /**
   Poll the event queue once. `pending` is the event at the head of the queue,
   if any; `sdl` holds the results of the SDL calls an F key would make.
   */
  function PollEventOnce(st: State, pending: Option<Event>, sdl: SdlOutcomes): (r: Polled)
    // Polling never touches the animation.
    ensures r.st.phase == st.phase
    // Once quitting, or with an empty queue, nothing happens and polling stops.
    ensures st.wantOut || pending.None? ==> r == Polled(st, false)
    // Quit, Escape and Q ask to quit and leave the screen mode alone.
    ensures !st.wantOut && pending.Some? && AsksToQuit(pending.value) ==>
              r == Polled(st.(wantOut := true), true)
    // F switches the screen mode.
    ensures !st.wantOut && pending.Some? && TogglesFullscreen(pending.value) ==>
              r == ToggleFullscreen(st, sdl)
    // Any other event or key is consumed and changes nothing.
    ensures (!st.wantOut && pending.Some? && !AsksToQuit(pending.value)
             && !TogglesFullscreen(pending.value)) ==> r == Polled(st, true)
  {
    if st.wantOut then Polled(st, false)
    else if pending.None? then Polled(st, false)
    else match pending.value
      case QuitRequest => Polled(st.(wantOut := true), true)
      case KeyDown(escape, scancode) =>
        if escape then Polled(st.(wantOut := true), true)
        else if scancode == ScanQ then Polled(st.(wantOut := true), true)
        else if scancode == ScanF then ToggleFullscreen(st, sdl)
        else Polled(st, true)
      case OtherEvent => Polled(st, true)
  }

  /**
   When polling says "stop" after consuming an event, the reason is a failed
   screen-mode switch: either the renderer was not recreated (and the program
   does not quit) or fullscreen could not be entered (and it does).
   */
  lemma StopAfterEvent(st: State, e: Event, sdl: SdlOutcomes)
    requires !st.wantOut
    requires !PollEventOnce(st, Some(e), sdl).more
    ensures TogglesFullscreen(e)
    ensures !sdl.rendererOk ==> !PollEventOnce(st, Some(e), sdl).st.wantOut
    ensures sdl.rendererOk ==>
              !st.isFullscreen && !sdl.fullscreenOk && PollEventOnce(st, Some(e), sdl).st.wantOut
  {
  }

  /**
   Pressing F twice with every SDL call succeeding comes back to the screen mode
   it started in, with a fresh texture and nothing else changed.
   */
  lemma ToggleTwiceRestores(st: State)
    requires !st.wantOut
    ensures var ok := SdlOutcomes(true, true, true);
      var once := ToggleFullscreen(st, ok);
      var twice := ToggleFullscreen(once.st, ok);
      && once.more && twice.more
      && twice.st == st.(hasTexture := true)
  {
  }
}
