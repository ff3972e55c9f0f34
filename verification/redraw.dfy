/**
 * The redraw scheduler: the shared dirty flag (`requires_redraw`, an
 * `Arc<AtomicBool>`), the host context's repaint requests, and the messenger the
 * map and its layers call when something changed. Background threads are
 * represented only as messenger calls that may occur between frames.
 */
module Redraw {
  /** The shared dirty flag. Every holder of the `Arc` refers to the same object. */
  class AtomicBool {
    var value: bool

    constructor (initial: bool)
      ensures value == initial
    {
      value := initial;
    }

    /** Atomic swap: stores `v` and returns the value it replaced. */
    method Swap(v: bool) returns (previous: bool)
      modifies this
      ensures previous == old(value) && value == v
    {
      previous := value;
      value := v;
    }
  }

  /** The host UI context, reduced to the repaint requests it has received. */
  class HostContext {
    ghost var repaintRequests: nat

    constructor ()
      ensures repaintRequests == 0
    {
      repaintRequests := 0;
    }

    method RequestRepaint()
      modifies this
      ensures repaintRequests == old(repaintRequests) + 1
    {
      repaintRequests := repaintRequests + 1;
    }
  }

  /** The observable redraw state: the dirty flag and how many repaints were requested. */
  datatype Signal = Signal(dirty: bool, repaints: nat)

  /** One `request_redraw`: set the flag; request a repaint only if it was clear. */
  function RequestStep(s: Signal): Signal
  {
    Signal(true, if s.dirty then s.repaints else s.repaints + 1)
  }

  /** `n` consecutive `request_redraw` calls with no frame in between. */
  function RequestBurst(s: Signal, n: nat): Signal
  {
    if n == 0 then s else RequestStep(RequestBurst(s, n - 1))
  }

  /** The frame's swap-clear: whether this frame draws, and the state after it. */
  function TakeAndClear(s: Signal): (bool, Signal)
  {
    (s.dirty, s.(dirty := false))
  }

  /**
   * Coalescing: any burst of one or more requests leaves the flag set and adds
   * exactly one repaint request if the flag was clear, none if it was already set.
   */
  lemma {:induction false} BurstCoalesces(s: Signal, n: nat)
    requires n >= 1
    ensures RequestBurst(s, n) == Signal(true, if s.dirty then s.repaints else s.repaints + 1)
  {
    if n > 1 {
      BurstCoalesces(s, n - 1);
    }
  }

  /**
   * After a burst, the next frame takes the flag (it draws) and the frame after it,
   * with no request in between, does not; a request that follows a frame's clear
   * is kept for the next frame and asks for a repaint again.
   */
  lemma {:induction false} BurstDrawsOnce(s: Signal, n: nat)
    requires n >= 1
    ensures TakeAndClear(RequestBurst(s, n)).0
    ensures !TakeAndClear(TakeAndClear(RequestBurst(s, n)).1).0
    ensures var after := TakeAndClear(RequestBurst(s, n)).1;
      RequestStep(after) == Signal(true, after.repaints + 1)
  {
    BurstCoalesces(s, n);
  }

  /** `MapStateMessenger`: holds the shared flag and the host context. */
  class MapStateMessenger {
    const requiresRedraw: AtomicBool
    const context: HostContext

    constructor (requiresRedraw: AtomicBool, context: HostContext)
      ensures this.requiresRedraw == requiresRedraw && this.context == context
    {
      this.requiresRedraw := requiresRedraw;
      this.context := context;
    }

    /** `request_redraw`: swap the flag to true and repaint only on the false-to-true edge. */
    method RequestRedraw()
      modifies requiresRedraw, context
      ensures Signal(requiresRedraw.value, context.repaintRequests) ==
        RequestStep(old(Signal(requiresRedraw.value, context.repaintRequests)))
    {
      var wasSet := requiresRedraw.Swap(true);
      if !wasSet {
        context.RequestRepaint();
      }
    }
  }
}
