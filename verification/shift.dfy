/**
 The animation offset of the square.

 After every frame that reached the screen the offset `shift` moves one step in
 its current direction; `flip` says the direction is downwards. The direction
 turns when the offset passes 255 and when it falls below 1, so the offset
 ping-pongs between 0 and 256 with a period of 512 frames.
 */
module Shift {

  /** The two globals that drive the animation. */
  datatype Phase = Phase(shift: int, flip: bool)

  /** Both globals as they are initialised. */
  const Start: Phase := Phase(0, false)

  /** The update at the end of a successful frame: step, then turn at the ends. */
  function Advance(p: Phase): (q: Phase)
    ensures q.shift == if p.flip then p.shift - 1 else p.shift + 1
    ensures Valid(p) ==> Valid(q)
    ensures Valid(p) ==> (!p.flip && q.flip <==> q.shift == 256)
    ensures Valid(p) ==> (p.flip && !q.flip <==> q.shift == 0)
  {
    var s := if p.flip then p.shift - 1 else p.shift + 1;
    if s > 255 then Phase(s, true)
    else if s < 1 then Phase(s, false)
    else Phase(s, p.flip)
  }

  /**
   The phases the animation can be in: counting up from 0 to 255, or counting
   down from 256 to 1. In particular the offset stays in [0, 256].
   */
  predicate Valid(p: Phase) {
    if p.flip then 1 <= p.shift <= 256 else 0 <= p.shift <= 255
  }

  /** The phase after `n` successful frames. */
  function Frames(p: Phase, n: nat): Phase {
    if n == 0 then p else Advance(Frames(p, n - 1))
  }

  /**
   An independent description of the animation: after `n` frames from the start
   the offset is a triangle wave of period 512 that rises from 0 to 256 and falls
   back, and the direction is downwards exactly in the falling half.
   */
  function Triangle(n: nat): (p: Phase)
    ensures Valid(p)
    ensures 0 <= p.shift <= 256
  {
    var k := n % 512;
    if k < 256 then Phase(k, false) else Phase(512 - k, true)
  }

  /** The triangle wave takes one step per frame. */
  lemma TriangleStep(n: nat)
    ensures Advance(Triangle(n)) == Triangle(n + 1)
  {
    var k := n % 512;
    assert (n + 1) % 512 == if k == 511 then 0 else k + 1 by {
      assert n == 512 * (n / 512) + k;
      if k == 511 {
        assert n + 1 == 512 * (n / 512 + 1) + 0;
      } else {
        assert n + 1 == 512 * (n / 512) + (k + 1);
      }
    }
  }

  /** After any number of frames from the start, the phase is the triangle wave's. */
  lemma {:induction false} FramesFromStart(n: nat)
    ensures Frames(Start, n) == Triangle(n)
  {
    if n > 0 {
      FramesFromStart(n - 1);
      TriangleStep(n - 1);
    }
  }

  /** Taking one step and then `n` more is taking `n + 1` steps. */
  lemma {:induction false} FramesAfterAdvance(p: Phase, n: nat)
    ensures Frames(Advance(p), n) == Frames(p, n + 1)
  {
    if n > 0 {
      FramesAfterAdvance(p, n - 1);
    }
  }

  /** A valid phase stays valid over any number of frames. */
  lemma {:induction false} FramesPreserveValid(p: Phase, n: nat)
    requires Valid(p)
    ensures Valid(Frames(p, n))
  {
    if n > 0 {
      FramesPreserveValid(p, n - 1);
    }
  }

  /** From the start, the offset stays within [0, 256] forever. */
  lemma ShiftInRange(n: nat)
    ensures 0 <= Frames(Start, n).shift <= 256
  {
    FramesFromStart(n);
  }

  /** The animation is periodic: every 512 frames it is back where it was, starting with the start itself. */
  lemma Period(n: nat)
    ensures Frames(Start, n + 512) == Frames(Start, n)
    ensures Frames(Start, 512) == Start
  {
    FramesFromStart(n);
    FramesFromStart(n + 512);
    assert (n + 512) % 512 == n % 512 by {
      assert n + 512 == 512 * (n / 512 + 1) + n % 512;
    }
    assert Triangle(n + 512) == Triangle(n);
    FramesFromStart(512);
    assert Triangle(512) == Start;
  }

  /** The offset reaches 256 exactly at frame 256 of each period, and 0 exactly at its end. */
  lemma TurningPoints(n: nat)
    ensures Frames(Start, n).shift == 256 <==> n % 512 == 256
    ensures Frames(Start, n).shift == 0 <==> n % 512 == 0
  {
    FramesFromStart(n);
  }
}
