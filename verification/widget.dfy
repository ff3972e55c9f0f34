/**
 * `EguiMap`: the per-call widget that borrows the state and optionally binds a
 * caller-owned position and resolution to the map's view, two ways.
 */
module Widget {
  import opened Wrappers
  import G = GalileoMap
  import E = EguiInput
  import opened Sizing
  import opened MapState

  /** A caller-owned value the widget holds a mutable reference to (`&mut T`). */
  class MutRef<T> {
    var value: T

    constructor (value: T)
      ensures this.value == value
    {
      this.value := value;
    }
  }

  class EguiMap {
    const state: EguiMapState
    var position: Option<MutRef<G.GeoPoint>>
    var resolution: Option<MutRef<real>>

    /** The caller-owned values this widget writes back to. */
    ghost function Bound(): set<object>
      reads this
    {
      (if position.Some? then {position.value as object} else {}) +
      (if resolution.Some? then {resolution.value as object} else {})
    }

    /** `EguiMap::new`: nothing bound. */
    constructor (state: EguiMapState)
      ensures this.state == state && position == None && resolution == None
    {
      this.state := state;
      position := None;
      resolution := None;
    }

    /**
     * `with_position`: bind a position; the bound value wins, and `set_view` is
     * called only when it differs from the view's current position.
     */
    method WithPosition(p: MutRef<G.GeoPoint>)
      modifies this`position, state`view, state`viewSets
      ensures position == Some(p)
      ensures state.view == old(state.view).(position := Some(p.value))
      ensures state.viewSets == old(state.viewSets) + (if old(state.view.position) == Some(p.value) then 0 else 1)
    {
      var current := state.view;
      if current.position != Some(p.value) {
        state.SetView(current.(position := Some(p.value)));
      }
      position := Some(p);
    }

    /**
     * `with_resolution`: bind a resolution; the bound value wins, and `set_view` is
     * called only when it differs from the view's current resolution.
     */
    method WithResolution(r: MutRef<real>)
      modifies this`resolution, state`view, state`viewSets
      ensures resolution == Some(r)
      ensures state.view == old(state.view).(resolution := r.value)
      ensures state.viewSets == old(state.viewSets) + (if old(state.view.resolution) == r.value then 0 else 1)
    {
      var current := state.view;
      if current.resolution != r.value {
        state.SetView(current.(resolution := r.value));
      }
      resolution := Some(r);
    }

    /**
     * `show_ui`: render one frame, then copy the view back out: the resolution
     * always, the position only when the view has one.
     */
    method ShowUi(input: FrameInput, handle: G.EventHandler, animate: G.MapView -> G.MapView)
      returns (image: SizedTexture)
      requires state.Valid()
      modifies state, state.requiresRedraw, state.context, Bound()
      ensures state.Valid()
      ensures resolution.Some? ==> resolution.value.value == state.view.resolution
      ensures position.Some? && state.view.position.Some? ==> position.value.value == state.view.position.value
      ensures position.Some? && state.view.position.None? ==> position.value.value == old(position.value.value)
      // the frame, as `EguiMapState.Render` states it
      ensures state.forwarded == old(state.forwarded) + FrameEvents(input, old(state.dragging), state.wasm)
      ensures var c := G.HandleAll(handle, old(state.Controls()), FrameEvents(input, old(state.dragging), state.wasm));
        state.dragging == c.dragging &&
        state.view == (if Resizes(input, old(state.rendererSize)) then animate(c.view).(dpiScale := input.pixelsPerPoint)
                       else animate(c.view))
      ensures state.viewSets == old(state.viewSets) + (if Resizes(input, old(state.rendererSize)) then 1 else 0)
      ensures state.mapReady == (old(state.mapReady) || Resizes(input, old(state.rendererSize)))
      ensures Resizes(input, old(state.rendererSize)) ==>
        state.mapSize == LogicalSize(input.availableSize) && state.rendererSize == ResizedTo(input) &&
        state.textureId == old(state.nextTextureId) && state.nextTextureId == old(state.nextTextureId) + 1 &&
        state.filterMode == (if input.pixelsPerPoint > 1.0 then Linear else Nearest)
      ensures !Resizes(input, old(state.rendererSize)) ==>
        state.mapSize == old(state.mapSize) && state.rendererSize == old(state.rendererSize) &&
        state.textureId == old(state.textureId) && state.nextTextureId == old(state.nextTextureId) &&
        state.filterMode == old(state.filterMode)
      ensures var drew := old(state.requiresRedraw.value) || Resizes(input, old(state.rendererSize));
        state.draws == old(state.draws) + (if drew then 1 else 0) &&
        state.layerLoads == old(state.layerLoads) + (if state.mapReady then 1 else 0) + (if drew then 1 else 0) &&
        state.loadsBeforeReady == old(state.loadsBeforeReady) + (if drew && !state.mapReady then 1 else 0)
      ensures !state.requiresRedraw.value && state.textureRendered
      ensures state.context.repaintRequests == old(state.context.repaintRequests) +
        (if Resizes(input, old(state.rendererSize)) && !old(state.requiresRedraw.value) then 1 else 0)
      ensures image == SizedTexture(state.textureId,
        E.Vec2(old(state.rendererSize).width as real, old(state.rendererSize).height as real))
    {
      var overlay;
      image, overlay := state.Render(input, handle, animate);
      var updated := state.view;
      if resolution.Some? {
        resolution.value.value := updated.resolution;
      }
      if position.Some? && updated.position.Some? {
        position.value.value := updated.position.value;
      }
    }
  }
}
