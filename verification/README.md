# Lime harling, modelled in Dafny

Lime harling is an SDL 2 demo that shows a 256 x 256 square whose colours drift
from frame to frame. Pixel (x, y) starts from the gradient (y, x, 255 - y). Each
channel is rotated by an animation offset `shift` and wrapped to a byte. The
offset ping-pongs: one step per shown frame, turning at the ends. The game loop
drains the event queue each pass. Quit, Escape and Q end the program; F switches
between fake fullscreen and a window. When the measured frame time is between 1
and 16 ms, the loop then sleeps for 17 minus that time; frames measured at 0 ms
or at 17 ms and more are not padded.

This project models that logic as pure functions over a small state record,
plus one imperative method for the pixel loop:

- `colour.dfy` (module `Colour`): the conversion of `int` to `Uint8`, modulo 256, and the colour of one pixel.
- `square.dfy` (module `Square`): the row-major texture layout and the double loop that fills it.
- `shift.dfy` (module `Shift`): the `shift`/`flip` ping-pong, its invariant and its closed form, a triangle wave of period 512.
- `demo.dfy` (module `Demo`): the global state (`shift`, `flip`, `want_out`, `is_fullscreen`, and whether the texture exists) and the rendering of one frame.
- `events.dfy` (module `Events`): the handling of one polled event, fullscreen switching included.
- `game_loop.dfy` (module `GameLoop`): frame time and delay, draining the queue, one loop pass, and a run over a finite list of passes.

SDL calls that can fail become boolean inputs: locking the texture, copying it,
creating a renderer, entering fullscreen, creating a texture. Tick counts are inputs as well.
The texture is the one handle kept as state. Pressing F destroys it first, and a
failed switch leaves none; locking a missing texture fails in SDL, so the frame
after such a failure is abandoned at the lock.

The offset reaches 256, not just 255. The direction turns only once the offset
exceeds 255. The model follows the code, so the offset ranges over [0, 256].
Offset 256 paints the same square as offset 0 (`Colour.ShiftPeriod`).

## Model

| member | source | states |
|---|---|---|
| Colour.ToByte | lime_harling.cpp:104-109 | The conversion to `Uint8` gives the one byte congruent to the value modulo 256, and leaves values already in [0, 255] alone |
| Colour.ToByteAbsorbs | lime_harling.cpp:104-109 | Truncating a channel to a byte and then truncating its sum with the offset is the same as truncating the sum once |
| Colour.PixelColour | lime_harling.cpp:104-110 | Each channel of pixel (x, y) is `(y + shift) mod 256`, `(x - 3*shift) mod 256` and `(255 - y + 2*shift) mod 256`, negative values included |
| Colour.BaseGradient | lime_harling.cpp:104-106 | With offset 0 every pixel of the square shows the base gradient (y, x, 255 - y) |
| Colour.ShiftPeriod | lime_harling.cpp:107-109 | The colour depends on the offset only modulo 256, so offset 256 paints the same square as offset 0 |
| Colour.ShiftRotates | lime_harling.cpp:107-109 | Raising the offset by one rotates the channels by +1, -3 and +2 modulo 256 |
| Square.IndexInBuffer | lime_harling.cpp:84-87 | Every write index `y*256 + x` of a pixel of the square is in [0, 65536), and maps back to (x, y) |
| Square.CoordAtIndex | lime_harling.cpp:84-87 | Every cell of the 65536-pixel buffer belongs to exactly one pixel of the square |
| Square.Frame | lime_harling.cpp:97-113 | The rendered buffer has 65536 cells and the cell of each pixel holds that pixel's colour |
| Square.RenderSquare | lime_harling.cpp:97-113 | The double loop overwrites the whole buffer with the square for the given offset; its k-th visit is an in-square pixel whose index is k |
| Square.TraceIsRowMajor | lime_harling.cpp:100-112 | Such a trace visits every pixel of the square, visits none twice, and goes row by row, left to right |
| Shift.Advance | lime_harling.cpp:151-167 | A shown frame moves the offset by +1 counting up and -1 counting down; from a reachable phase, counting turns down exactly when the offset reaches 256 and up exactly when it reaches 0 |
| Shift.Triangle | lime_harling.cpp:151-167 | The closed form of the animation, a triangle wave of period 512, is always a reachable phase with offset in [0, 256] |
| Shift.FramesFromStart | lime_harling.cpp:151-167 | From the initial phase (0, counting up), n shown frames lead to the triangle wave's value at n |
| Shift.FramesPreserveValid | lime_harling.cpp:151-167 | A reachable phase stays reachable over any number of frames |
| Shift.ShiftInRange | lime_harling.cpp:37-38 | From the initial globals the offset stays in [0, 256] after any number of frames |
| Shift.Period | lime_harling.cpp:151-167 | The animation returns to its initial phase after 512 frames and repeats with period 512 |
| Shift.TurningPoints | lime_harling.cpp:160-167 | The offset is 256 exactly at frame 256 of each period of 512, and 0 exactly at its start |
| Demo.RenderFrame | lime_harling.cpp:116-168 | A missing texture, or a failed lock or copy, sets the quit flag and keeps the phase; otherwise the square for the current offset is shown and the phase advances; the fullscreen flag and the texture never change |
| Events.CreateTexture | lime_harling.cpp:171-188 | After the call a texture exists exactly when its creation succeeded, and a failure sets the quit flag; nothing else changes |
| Events.ToggleFullscreen | lime_harling.cpp:223-281 | F always flips the fullscreen flag and destroys the texture; polling continues exactly when the renderer was recreated and fullscreen, if entered, was entered; the quit flag is set exactly when entering fullscreen failed or the texture could not be recreated; a texture exists afterwards exactly when it was recreated |
| Events.PollEventOnce | lime_harling.cpp:191-290 | Polling never touches the animation; once quitting, or with an empty queue, it changes nothing and answers stop; Quit, Escape and Q set the quit flag; F switches the screen mode; other events change nothing and answer continue |
| Events.StopAfterEvent | lime_harling.cpp:237-273 | A consumed event makes polling answer stop only when it is F and a mode switch failed; without a renderer the quit flag stays clear, otherwise entering fullscreen failed and the flag is set |
| Events.ToggleTwiceRestores | lime_harling.cpp:223-281 | Pressing F twice with every SDL call succeeding returns to the original screen mode with a texture and nothing else changed |
| GameLoop.FrameTime | lime_harling.cpp:317-318 | The frame time is the difference of the tick counts, wrapped modulo 2^64 when the end is before the start |
| GameLoop.FrameDelay | lime_harling.cpp:319-323 | The loop sleeps exactly when 0 < frame time < 17, for 17 - frame time milliseconds, which lies in [1, 16] |
| GameLoop.PacedFrameLength | lime_harling.cpp:319-323 | A frame of at least 1 ms lasts 17 ms once padded if it was shorter, and keeps its length otherwise |
| GameLoop.DrainEvents | lime_harling.cpp:308-314 | Draining the queue never touches the animation, returns from the loop only with the quit flag set, consumes a prefix of the queue, and reads nothing once quitting |
| GameLoop.DrainSkipsEvent | lime_harling.cpp:308-314 | An event that neither quits nor switches the screen mode is consumed and draining goes on with the rest of the queue |
| GameLoop.DrainStopsAtQuit | lime_harling.cpp:308-314 | A quit event at the head of the queue makes draining return from the loop with only the quit flag set |
| GameLoop.DrainWithoutToggles | lime_harling.cpp:308-314 | Without F keys, draining returns from the loop exactly when some queued event asks to quit, and otherwise empties the queue and changes nothing |
| GameLoop.LoopPass | lime_harling.cpp:305-324 | A pass either returns with the quit flag set and the phase kept, or attempts a frame: a shown frame is the square for the current offset and advances the phase, a failed one keeps the phase and sets the quit flag; the pass sleeps for exactly the frame delay of its measured frame time |
| GameLoop.RunLoop | lime_harling.cpp:292-326 | After any run the phase is the starting phase advanced exactly once per shown frame, and no run shows more frames than it has passes |
| GameLoop.EveryPassShowsFrame | lime_harling.cpp:292-326 | A run that starts with the quit flag set does nothing, and a run that ends without it showed a frame on every pass |
| GameLoop.ShiftStaysInRange | lime_harling.cpp:37-38 | From the initial globals, whatever the events, SDL results and timings, the offset follows the triangle wave and stays in [0, 256] |
| GameLoop.QuitSkipsFrame | lime_harling.cpp:308-314 | A quit request, Escape or Q at the head of the queue makes the pass return before rendering, with only the quit flag changed |
| GameLoop.FullscreenFailureFailsFrame | lime_harling.cpp:246-251 | After a failure to enter fullscreen the quit flag is set but polling answers stop, so the frame is still attempted and paced; the texture is gone, so the frame fails at the lock with the phase kept, and the loop ends with no frame shown |
| GameLoop.RendererFailureFailsFrame | lime_harling.cpp:237-242 | When the renderer cannot be recreated after F, polling stops without quitting; the texture is gone, so the frame fails at the lock and that sets the quit flag, with the screen-mode flag switched |

## Left out

- Creating and destroying the window, renderer, texture and pixel format (`init_sdl`, `end_sdl`, `destroy_texture_renderer`, and the SDL calls in `create_texture`): these are foreign resource calls. Only their success or failure is modelled, as boolean inputs, plus whether a texture exists. That a null texture cannot be locked is SDL's behaviour and is built into `Demo.RenderFrame`.
- `SDL_MapRGBA` and the texture pitch: a pixel is an RGB triple in a sequence, the alpha channel is always opaque, and rows are taken to be exactly 256 pixels apart, as the code assumes.
- The SDL 1 surface backend and all Emscripten paths (the browser main loop, fullscreen strategy and canvas handling): these are alternative platform glue around the same logic.
- `SDL_GetTicks64` and `SDL_Delay`: the clock is an input and only the computed delay is modelled. A delay of 0 stands for "no call to `SDL_Delay`".
- GameLoop.RunLoop: termination of the game loop depends on the user, so the loop runs over a finite list of passes. Events that arrive during polling are folded into each pass's `arrived` list.
- `shift` is an unbounded integer, not a C `int`. Every reachable offset is in [0, 256] (`GameLoop.ShiftStaysInRange`), so overflow cannot occur.
- `printf` and `fprintf` diagnostics.

