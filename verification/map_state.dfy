/**
 * `EguiMapState`: the per-widget state that owns the map, the render target and
 * its registered texture id, the dirty flag and the event processor, and the
 * per-frame `render` that ties them together.
 */
module MapState {
  import opened Wrappers
  import E = EguiInput
  import G = GalileoMap
  import opened Sizing
  import opened Redraw
  import opened EventConversion

  /** The sampling filter a texture is registered with. */
  datatype FilterMode = Nearest | Linear

  /** The image painted into the widget's rectangle: a texture id and a size. */
  datatype SizedTexture = SizedTexture(id: nat, size: E.Vec2)

  /**
   * What one frame reads from the host UI: the available size, the pixels per
   * point, the top-left corner of the rectangle the widget was allocated, whether
   * the pointer hovers over it, and the batch of input events.
   */
  datatype FrameInput = FrameInput(
    availableSize: E.Vec2,
    pixelsPerPoint: real,
    rectMin: E.Pos2,
    hovered: bool,
    events: seq<E.Event>)

  /** Whether a frame with this input resizes a renderer currently of size `current`. */
  function Resizes(input: FrameInput, current: PixelSize): bool
  {
    NeedsResize(PhysicalSize(LogicalSize(input.availableSize), input.pixelsPerPoint), current)
  }

  /** The renderer size a resize in a frame with this input stores. */
  function ResizedTo(input: FrameInput): PixelSize
  {
    TruncatedSize(PhysicalSize(LogicalSize(input.availableSize), input.pixelsPerPoint))
  }

  /** The events a frame forwards to the pipeline: its translated batch when dragging or hovered, else none. */
  function FrameEvents(input: FrameInput, dragging: bool, wasm: bool): (r: seq<G.RawUserEvent>)
    ensures r != [] ==> dragging || input.hovered
    ensures |r| <= |input.events|
    ensures forall x :: x in r ==>
      exists i :: 0 <= i < |input.events| && ConvertEvent(input.events[i], LocalOffset(input.rectMin), wasm) == Some(x)
  {
    if dragging || input.hovered then
      TranslatedExactly(input.events, LocalOffset(input.rectMin), wasm);
      Translated(input.events, LocalOffset(input.rectMin), wasm)
    else []
  }

  /** The attribution filter-map over the map's layers, in layer order. */
  function LayerAttributions(layers: seq<G.Layer>): (r: seq<G.Attribution>)
    ensures |r| <= |layers|
    ensures r == [] <==> forall i :: 0 <= i < |layers| ==> layers[i].attribution.None?
    ensures forall a :: a in r ==> exists i :: 0 <= i < |layers| && layers[i].attribution == Some(a)
  {
    if layers == [] then []
    else
      var rest := LayerAttributions(layers[1..]);
      assert forall i :: 1 <= i < |layers| ==> layers[i] == layers[1..][i - 1];
      match layers[0].attribution
      case Some(a) => [a] + rest
      case None => rest
  }

  /** A single layer contributes its attribution, if it has one. */
  lemma LayerAttributionsSingle(layer: G.Layer)
    ensures LayerAttributions([layer]) == if layer.attribution.Some? then [layer.attribution.value] else []
  {
    assert [layer][1..] == [];
  }

  /**
   * Layer order is kept: the attributions of two runs of layers are those of the
   * first run followed by those of the second. With `LayerAttributionsSingle`, this
   * gives exactly one entry per attributed layer, in layer order.
   */
  lemma {:induction false} LayerAttributionsAppend(a: seq<G.Layer>, b: seq<G.Layer>)
    ensures LayerAttributions(a + b) == LayerAttributions(a) + LayerAttributions(b)
  {
    if a == [] {
      assert a + b == b;
    } else {
      assert (a + b)[1..] == a[1..] + b;
      assert (a + b)[0] == a[0];
      LayerAttributionsAppend(a[1..], b);
    }
  }

  /** `collect_attributions`: the layers' attributions, or `None` when no layer has one. */
  function CollectAttributions(layers: seq<G.Layer>): (r: Option<seq<G.Attribution>>)
    ensures r.None? <==> forall i :: 0 <= i < |layers| ==> layers[i].attribution.None?
    ensures r.Some? ==> r.value != [] && r.value == LayerAttributions(layers)
  {
    var all := LayerAttributions(layers);
    if all == [] then None else Some(all)
  }

  /** Every layer attribution is collected. */
  lemma {:induction false} AttributionCollected(layers: seq<G.Layer>, i: nat)
    requires i < |layers| && layers[i].attribution.Some?
    ensures layers[i].attribution.value in LayerAttributions(layers)
  {
    if i > 0 {
      assert layers[1..][i - 1] == layers[i];
      AttributionCollected(layers[1..], i - 1);
    }
  }

  class EguiMapState {
    // The map, reduced to what the widget reads and writes.
    var view: G.MapView
    var mapSize: E.Vec2
    const layers: seq<G.Layer>

    // The renderer and the texture the host displays.
    var rendererSize: PixelSize
    var textureId: nat
    var filterMode: FilterMode
    /** The host renderer's texture-id allocator: the next id it hands out. */
    var nextTextureId: nat

    // The redraw scheduler, shared with the messenger.
    const requiresRedraw: AtomicBool
    const context: HostContext
    const messenger: MapStateMessenger

    /** The event processor's state: whether a drag is in progress. */
    var dragging: bool
    var mapReady: bool
    /** The build target: true for the web build. */
    const wasm: bool

    /** The events handed to the event processor, in order. */
    ghost var forwarded: seq<G.RawUserEvent>
    /** Render passes into the texture. */
    ghost var draws: nat
    /** Calls of the map's `load_layers`, and those made while the map was not ready. */
    ghost var layerLoads: nat
    ghost var loadsBeforeReady: nat
    /** Calls of the map's `set_view`. */
    ghost var viewSets: nat
    /** Whether the current texture has been rendered into since it was created. */
    ghost var textureRendered: bool

    ghost predicate Valid()
      reads this, requiresRedraw
    {
      messenger.requiresRedraw == requiresRedraw && messenger.context == context &&
      textureId < nextTextureId &&
      // a texture nobody has drawn into yet is always owed a draw
      (textureRendered || requiresRedraw.value)
    }

    function Controls(): G.ControllerState
      reads this
    {
      G.ControllerState(dragging, view)
    }

    /**
     * `EguiMapState::new`: wires a fresh messenger to a new dirty flag that starts
     * set, gives the map a 1x1 placeholder size and the host's pixels per point,
     * and registers the 1x1 render target with nearest filtering.
     */
    constructor (view: G.MapView, layers: seq<G.Layer>, context: HostContext, pixelsPerPoint: real, wasm: bool)
      ensures Valid() && fresh(requiresRedraw) && fresh(messenger)
      ensures this.context == context && this.layers == layers && this.wasm == wasm
      ensures requiresRedraw.value && !mapReady && !dragging
      ensures this.view == view.(dpiScale := pixelsPerPoint) && mapSize == E.Vec2(1.0, 1.0)
      ensures rendererSize == PixelSize(1, 1) && textureId == 0 && nextTextureId == 1 && filterMode == Nearest
      ensures forwarded == [] && draws == 0 && layerLoads == 0 && loadsBeforeReady == 0 && viewSets == 1
      ensures !textureRendered
    {
      var flag := new AtomicBool(true);
      requiresRedraw := flag;
      this.context := context;
      messenger := new MapStateMessenger(flag, context);
      this.layers := layers;
      this.wasm := wasm;
      mapSize := E.Vec2(1.0, 1.0);
      this.view := view.(dpiScale := pixelsPerPoint);
      viewSets := 1;
      rendererSize := PixelSize(1, 1);
      textureId := 0;
      nextTextureId := 1;
      filterMode := Nearest;
      dragging := false;
      mapReady := false;
      forwarded := [];
      draws := 0;
      layerLoads := 0;
      loadsBeforeReady := 0;
      textureRendered := false;
    }

    /**
     * `request_redraw`, through the map's `redraw`. That `Map::redraw` reaches the
     * installed messenger is an assumption of this model, not something proved.
     */
    method RequestRedraw()
      requires Valid()
      modifies requiresRedraw, context
      ensures Valid()
      ensures Signal(requiresRedraw.value, context.repaintRequests) ==
        RequestStep(old(Signal(requiresRedraw.value, context.repaintRequests)))
    {
      messenger.RequestRedraw();
    }

    /** The map's `set_view`. */
    method SetView(v: G.MapView)
      modifies this`view, this`viewSets
      ensures view == v && viewSets == old(viewSets) + 1
    {
      view := v;
      viewSets := viewSets + 1;
    }

    /** The map's `load_layers` (opaque: only the call, and whether the map was ready, is recorded). */
    method LoadLayers()
      modifies this`layerLoads, this`loadsBeforeReady
      ensures layerLoads == old(layerLoads) + 1
      ensures loadsBeforeReady == old(loadsBeforeReady) + (if mapReady then 0 else 1)
    {
      layerLoads := layerLoads + 1;
      if !mapReady {
        loadsBeforeReady := loadsBeforeReady + 1;
      }
    }

    /** `draw`: load the layers, whether or not the map is ready, then render into the current texture. */
    method Draw()
      modifies this`layerLoads, this`loadsBeforeReady, this`draws, this`textureRendered
      ensures layerLoads == old(layerLoads) + 1
      ensures loadsBeforeReady == old(loadsBeforeReady) + (if mapReady then 0 else 1)
      ensures draws == old(draws) + 1 && textureRendered
    {
      LoadLayers();
      draws := draws + 1;
      textureRendered := true;
    }

    /**
     * `resize_map`: give the map the logical size, store the truncated physical
     * size in the renderer, register the new texture under a fresh id (linear
     * filtering only above one pixel per point) and mark the map dirty.
     */
    method ResizeMap(logical: E.Vec2, pixelsPerPoint: real)
      requires Valid()
      modifies this`mapSize, this`rendererSize, this`textureId, this`nextTextureId, this`filterMode,
        this`textureRendered, requiresRedraw, context
      ensures Valid()
      ensures mapSize == logical
      ensures rendererSize == TruncatedSize(PhysicalSize(logical, pixelsPerPoint))
      ensures textureId == old(nextTextureId) && nextTextureId == old(nextTextureId) + 1
      ensures filterMode == (if pixelsPerPoint > 1.0 then Linear else Nearest)
      ensures !textureRendered
      ensures Signal(requiresRedraw.value, context.repaintRequests) ==
        RequestStep(old(Signal(requiresRedraw.value, context.repaintRequests)))
    {
      mapSize := logical;
      rendererSize := TruncatedSize(PhysicalSize(logical, pixelsPerPoint));
      // the renderer now targets a new texture: register it and replace the id
      textureRendered := false;
      filterMode := if pixelsPerPoint > 1.0 then Linear else Nearest;
      textureId := nextTextureId;
      nextTextureId := nextTextureId + 1;
      messenger.RequestRedraw();
    }

    /** `process_events`: hand every translatable event to the pipeline, in order. */
    method ProcessEvents(events: seq<E.Event>, offset: E.Vec2, handle: G.EventHandler)
      modifies this`dragging, this`view, this`forwarded
      ensures forwarded == old(forwarded) + Translated(events, offset, wasm)
      ensures Controls() == G.HandleAll(handle, old(Controls()), Translated(events, offset, wasm))
    {
      var i := 0;
      while i < |events|
        invariant 0 <= i <= |events|
        invariant forwarded == old(forwarded) + Translated(events[..i], offset, wasm)
        invariant Controls() == G.HandleAll(handle, old(Controls()), Translated(events[..i], offset, wasm))
      {
        ghost var before := Translated(events[..i], offset, wasm);
        TranslatedStep(events, i, offset, wasm);
        var converted := ConvertEvent(events[i], offset, wasm);
        if converted.Some? {
          assert Translated(events[..i + 1], offset, wasm) == before + [converted.value];
          G.HandleAllSnoc(handle, old(Controls()), before, converted.value);
          var next := handle(Controls(), converted.value);
          dragging, view := next.dragging, next.view;
          forwarded := forwarded + [converted.value];
        } else {
          assert Translated(events[..i + 1], offset, wasm) == before;
        }
        i := i + 1;
      }
      assert events[..i] == events;
    }

    /** The input step of `render`: forward the frame's events only when dragging or hovered. */
    method ForwardInput(input: FrameInput, handle: G.EventHandler)
      modifies this`dragging, this`view, this`forwarded
      ensures forwarded == old(forwarded) + FrameEvents(input, old(dragging), wasm)
      ensures Controls() == G.HandleAll(handle, old(Controls()), FrameEvents(input, old(dragging), wasm))
    {
      if dragging || input.hovered {
        ProcessEvents(input.events, LocalOffset(input.rectMin), handle);
      }
    }

    /**
     * The resize step of `render`: when the unrounded physical size differs from
     * the renderer's, mark the map ready, resize, and push the pixels per point
     * into the view.
     */
    method ResizeIfNeeded(input: FrameInput)
      requires Valid()
      modifies this`mapReady, this`mapSize, this`rendererSize, this`textureId, this`nextTextureId,
        this`filterMode, this`textureRendered, this`view, this`viewSets, requiresRedraw, context
      ensures Valid()
      ensures mapReady == (old(mapReady) || Resizes(input, old(rendererSize)))
      ensures Resizes(input, old(rendererSize)) ==>
        mapSize == LogicalSize(input.availableSize) && rendererSize == ResizedTo(input) &&
        textureId == old(nextTextureId) && nextTextureId == old(nextTextureId) + 1 &&
        filterMode == (if input.pixelsPerPoint > 1.0 then Linear else Nearest) &&
        view == old(view).(dpiScale := input.pixelsPerPoint) && viewSets == old(viewSets) + 1 &&
        requiresRedraw.value && !textureRendered &&
        context.repaintRequests == old(context.repaintRequests) + (if old(requiresRedraw.value) then 0 else 1)
      ensures !Resizes(input, old(rendererSize)) ==>
        mapSize == old(mapSize) && rendererSize == old(rendererSize) &&
        textureId == old(textureId) && nextTextureId == old(nextTextureId) && filterMode == old(filterMode) &&
        view == old(view) && viewSets == old(viewSets) && textureRendered == old(textureRendered) &&
        requiresRedraw.value == old(requiresRedraw.value) && context.repaintRequests == old(context.repaintRequests)
    {
      var logical := LogicalSize(input.availableSize);
      var physical := PhysicalSize(logical, input.pixelsPerPoint);
      if NeedsResize(physical, rendererSize) {
        mapReady := true;
        ResizeMap(logical, input.pixelsPerPoint);
        SetView(view.(dpiScale := input.pixelsPerPoint));
      }
    }

    /** The drawing step of `render`: load layers once ready, then swap-clear the flag and draw if it was set. */
    method LoadAndDraw()
      requires Valid()
      modifies this`layerLoads, this`loadsBeforeReady, this`draws, this`textureRendered, requiresRedraw
      ensures Valid()
      ensures draws == old(draws) + (if old(requiresRedraw.value) then 1 else 0)
      ensures layerLoads == old(layerLoads) + (if mapReady then 1 else 0) + (if old(requiresRedraw.value) then 1 else 0)
      ensures loadsBeforeReady == old(loadsBeforeReady) + (if old(requiresRedraw.value) && !mapReady then 1 else 0)
      ensures !requiresRedraw.value && textureRendered
      ensures TakeAndClear(old(Signal(requiresRedraw.value, context.repaintRequests))) ==
        (draws > old(draws), Signal(requiresRedraw.value, context.repaintRequests))
    {
      if mapReady {
        LoadLayers();
      }
      var dirty := requiresRedraw.Swap(false);
      if dirty {
        Draw();
      }
    }

    /**
     * `render`: one frame. Measures the floored logical size, forwards input when
     * dragging or hovered, steps the animation, resizes when the unrounded physical
     * size differs from the renderer's, loads layers once ready, swap-clears the
     * dirty flag and draws at most once, and paints the texture at the renderer
     * size read before any resize. Returns the painted image and the attribution
     * overlay's entries.
     */
    method Render(input: FrameInput, handle: G.EventHandler, animate: G.MapView -> G.MapView)
      returns (image: SizedTexture, overlay: Option<seq<G.Attribution>>)
      requires Valid()
      modifies this, requiresRedraw, context
      ensures Valid()
      ensures overlay == CollectAttributions(layers)
      // input forwarding
      ensures forwarded == old(forwarded) + FrameEvents(input, old(dragging), wasm)
      ensures var c := G.HandleAll(handle, old(Controls()), FrameEvents(input, old(dragging), wasm));
        dragging == c.dragging &&
        view == (if Resizes(input, old(rendererSize)) then animate(c.view).(dpiScale := input.pixelsPerPoint)
                 else animate(c.view))
      ensures viewSets == old(viewSets) + (if Resizes(input, old(rendererSize)) then 1 else 0)
      // resizing and readiness
      ensures mapReady == (old(mapReady) || Resizes(input, old(rendererSize)))
      ensures Resizes(input, old(rendererSize)) ==>
        mapSize == LogicalSize(input.availableSize) && rendererSize == ResizedTo(input) &&
        textureId == old(nextTextureId) && nextTextureId == old(nextTextureId) + 1 &&
        filterMode == (if input.pixelsPerPoint > 1.0 then Linear else Nearest)
      ensures !Resizes(input, old(rendererSize)) ==>
        mapSize == old(mapSize) && rendererSize == old(rendererSize) &&
        textureId == old(textureId) && nextTextureId == old(nextTextureId) && filterMode == old(filterMode)
      // drawing: at most once, exactly when the flag was set or a resize set it
      ensures var drew := old(requiresRedraw.value) || Resizes(input, old(rendererSize));
        draws == old(draws) + (if drew then 1 else 0) &&
        layerLoads == old(layerLoads) + (if mapReady then 1 else 0) + (if drew then 1 else 0) &&
        loadsBeforeReady == old(loadsBeforeReady) + (if drew && !mapReady then 1 else 0)
      ensures !requiresRedraw.value && textureRendered
      ensures context.repaintRequests ==
        old(context.repaintRequests) + (if Resizes(input, old(rendererSize)) && !old(requiresRedraw.value) then 1 else 0)
      // painting
      ensures image == SizedTexture(textureId, E.Vec2(old(rendererSize).width as real, old(rendererSize).height as real))
    {
      var rendererSizeBefore := rendererSize;
      overlay := CollectAttributions(layers);
      ForwardInput(input, handle);
      view := animate(view);
      ResizeIfNeeded(input);
      LoadAndDraw();
      image := SizedTexture(textureId, E.Vec2(rendererSizeBefore.width as real, rendererSizeBefore.height as real));
    }
  }
}
