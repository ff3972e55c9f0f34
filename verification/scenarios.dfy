/**
 * Client scenarios: what a caller can conclude about whole frames from the
 * contracts of `EguiMapState` and `EguiMap` alone.
 */
module Scenarios {
  import opened Wrappers
  import E = EguiInput
  import G = GalileoMap
  import opened Redraw
  import opened MapState
  import opened Widget
  import opened EventConversion

  const StartView := G.MapView(None, 15000.0, 1.0)

  function NoEvents(c: G.ControllerState, e: G.RawUserEvent): G.ControllerState { c }

  function NoAnimation(v: G.MapView): G.MapView { v }

  function QuietFrame(available: E.Vec2, pixelsPerPoint: real): FrameInput
  {
    FrameInput(available, pixelsPerPoint, E.Pos2(0.0, 0.0), false, [])
  }

  /**
   * A first frame whose floored size at one pixel per point is the 1x1 placeholder
   * does not resize, so the map is not ready, yet the first frame always draws and
   * `draw` loads the layers: the layers are loaded before the map is ready. The
   * painted image is the placeholder texture.
   */
  method PlaceholderFrameLoadsBeforeReady()
    returns (ready: bool, image: SizedTexture, ghost draws: nat, ghost loadsBeforeReady: nat)
    ensures !ready
    ensures image == SizedTexture(0, E.Vec2(1.0, 1.0))
    ensures draws == 1 && loadsBeforeReady == 1
  {
    var context := new HostContext();
    var state := new EguiMapState(StartView, [], context, 1.0, false);
    var overlay;
    image, overlay := state.Render(QuietFrame(E.Vec2(1.5, 1.2), 1.0), NoEvents, NoAnimation);
    assert !Resizes(QuietFrame(E.Vec2(1.5, 1.2), 1.0), Sizing.PixelSize(1, 1));
    ready := state.mapReady;
    draws, loadsBeforeReady := state.draws, state.loadsBeforeReady;
  }

  /**
   * 101 by 100 points at 1.5 pixels per point: the stored size is 151 by 150 but
   * the measurement is 151.5 by 150, so each frame resizes again, registers
   * another texture and draws again.
   */
  method FractionalSizeResizesEveryFrame() returns (first: SizedTexture, second: SizedTexture)
    ensures first.id == 1 && second.id == 2
    ensures second.size == E.Vec2(151.0, 150.0)
  {
    var context := new HostContext();
    var state := new EguiMapState(StartView, [], context, 1.5, false);
    var frame := QuietFrame(E.Vec2(101.0, 100.0), 1.5);
    Sizing.FractionalExample(state.rendererSize);
    var overlay;
    first, overlay := state.Render(frame, NoEvents, NoAnimation);
    assert state.rendererSize == Sizing.PixelSize(151, 150);
    Sizing.FractionalExample(state.rendererSize);
    second, overlay := state.Render(frame, NoEvents, NoAnimation);
    assert state.draws == 2;
  }

  /**
   * 100 by 50 points at 2 pixels per point: the first frame resizes to 200 by 100
   * with linear filtering and draws; the second, identical frame neither resizes
   * nor draws and paints the same texture.
   */
  method WholeSizeSettles() returns (first: SizedTexture, second: SizedTexture)
    ensures first.id == 1 && second.id == 1
    ensures first.size == E.Vec2(1.0, 1.0) && second.size == E.Vec2(200.0, 100.0)
  {
    var context := new HostContext();
    var state := new EguiMapState(StartView, [], context, 2.0, false);
    var frame := QuietFrame(E.Vec2(100.3, 50.9), 2.0);
    var overlay;
    first, overlay := state.Render(frame, NoEvents, NoAnimation);
    assert state.rendererSize == Sizing.PixelSize(200, 100) && state.filterMode == Linear;
    assert state.draws == 1 && state.mapReady;
    second, overlay := state.Render(frame, NoEvents, NoAnimation);
    assert state.draws == 1 && state.layerLoads == 3;
  }

  /** A drag that moves the view to `moved` on every event it sees. */
  function DragTo(moved: G.GeoPoint): G.EventHandler
  {
    (c: G.ControllerState, e: G.RawUserEvent) => c.(view := c.view.(position := Some(moved)))
  }

  /** A hovered frame whose batch is one pointer move forwards that move, in widget-local coordinates. */
  lemma HoveredMoveForwarded(frame: FrameInput, pos: E.Pos2, dragging: bool, wasm: bool)
    requires frame.hovered && frame.events == [E.PointerMoved(pos)]
    ensures FrameEvents(frame, dragging, wasm) ==
      [G.PointerMoved(G.Point2(pos.x - frame.rectMin.x, pos.y - frame.rectMin.y))]
  {
    var e := E.PointerMoved(pos);
    PointerToLocal(pos, frame.rectMin, wasm);
    TranslatedSingle(e, LocalOffset(frame.rectMin), wasm);
  }

  /** The drag moves the view whatever event it sees. */
  lemma DragMoves(moved: G.GeoPoint, s: G.ControllerState, event: G.RawUserEvent)
    ensures G.HandleAll(DragTo(moved), s, [event]).view.position == Some(moved)
  {
    assert [event][..0] == [];
  }

  /**
   * View binding round trip: a bound position that differs from the view is pushed
   * into it; a drag during the frame moves the view, and the bound value then
   * receives the moved position, not the one it started with.
   */
  method BindingRoundTrip(start: G.GeoPoint, moved: G.GeoPoint, pointer: E.Pos2)
    returns (ghost pushes: nat, bound: G.GeoPoint)
    requires start != moved
    ensures pushes == 1 && bound == moved
  {
    var context := new HostContext();
    var state := new EguiMapState(StartView, [], context, 1.0, false);
    var widget := new EguiMap(state);
    var cell := new MutRef(start);
    ghost var setsBefore := state.viewSets;
    widget.WithPosition(cell);
    pushes := state.viewSets - setsBefore;
    var frame := FrameInput(E.Vec2(1.0, 1.0), 1.0, E.Pos2(0.0, 0.0), true, [E.PointerMoved(pointer)]);
    HoveredMoveForwarded(frame, pointer, state.dragging, state.wasm);
    DragMoves(moved, state.Controls(), G.PointerMoved(G.Point2(pointer.x - 0.0, pointer.y - 0.0)));
    assert widget.Bound() == {cell};
    var image := widget.ShowUi(frame, DragTo(moved), NoAnimation);
    bound := cell.value;
  }

  /**
   * Coalescing seen from a caller: after a frame has cleared the flag, any burst of
   * `n >= 1` messenger requests asks the host for one repaint, the next frame draws
   * once, and the frame after it does not draw. Neither frame resizes, so both
   * paint the same texture.
   */
  method BurstBetweenFrames(n: nat) returns (first: SizedTexture, second: SizedTexture, ghost repaints: nat, ghost draws: nat)
    requires n >= 1
    ensures first == second
    ensures repaints == 1 && draws == 1
  {
    var context := new HostContext();
    var state := new EguiMapState(StartView, [], context, 1.0, false);
    var frame := QuietFrame(E.Vec2(1.0, 1.0), 1.0);
    var image, overlay := state.Render(frame, NoEvents, NoAnimation);
    ghost var repaintsBefore := context.repaintRequests;
    ghost var drawsBefore := state.draws;
    var i := 0;
    while i < n
      invariant 0 <= i <= n
      invariant Signal(state.requiresRedraw.value, context.repaintRequests) == RequestBurst(Signal(false, repaintsBefore), i)
      invariant i > 0 ==> state.Valid()
      modifies state.requiresRedraw, context
    {
      state.messenger.RequestRedraw();
      i := i + 1;
    }
    BurstCoalesces(Signal(false, repaintsBefore), n);
    first, overlay := state.Render(frame, NoEvents, NoAnimation);
    second, overlay := state.Render(frame, NoEvents, NoAnimation);
    repaints := context.repaintRequests - repaintsBefore;
    draws := state.draws - drawsBefore;
  }
}
