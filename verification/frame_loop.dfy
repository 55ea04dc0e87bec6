/** The frame loop both timer screens run while the timer is Running: it
    waits for one frame to seed its clock (`withFrameMillis`), then advances
    the time by the milliseconds between consecutive frames. */
module FrameLoop {

  /** Not running, waiting for the frame that seeds the clock, or ticking
      with the time of the last frame seen. */
  datatype Loop = Idle | AwaitFirstFrame | Ticking(lastFrameMs: int)

  /** `(frameTimeMillis - lastFrameTimeMillis) / 1000f`: seconds between two frames. */
  function Elapsed(lastFrameMs: int, frameMs: int): (r: real)
    ensures lastFrameMs <= frameMs ==> 0.0 <= r
    ensures r * 1000.0 == (frameMs - lastFrameMs) as real
  {
    (frameMs - lastFrameMs) as real / 1000.0
  }
}
