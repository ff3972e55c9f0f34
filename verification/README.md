# Galileo map widget for egui: a Dafny model

This project models the core of `galileo-egui/src/egui_map.rs`. That file bridges Galileo's
on-demand, texture-rendered map into egui's immediate-mode frame loop. The model covers five
pieces:

- **Redraw scheduler** (`redraw.dfy`). The shared dirty flag `requires_redraw` is an
  `AtomicBool` object that the state and its `MapStateMessenger` both refer to. The host
  context records how many repaints it was asked for. `request_redraw` swaps the flag to true
  and asks for a repaint only on the false-to-true edge. Calls from background threads are
  modelled as messenger calls that may happen between frames.
- **Per-frame state machine** (`map_state.dfy`, class `EguiMapState`). `render` does these
  steps in order:
  1. Measures the floored logical size.
  2. Forwards input while dragging or hovered.
  3. Steps the animation.
  4. Resizes when the unrounded physical size `floor(logical) * ppp` differs from the
     renderer's stored size. A resize marks the map ready, stores `(logical * ppp) as u32`,
     registers a fresh texture id, picks Linear filtering only when `ppp > 1.0`, and marks the
     map dirty.
  5. Loads layers once ready.
  6. Swap-clears the flag and draws at most once. `draw` loads the layers again whether or not
     the map is ready.
  7. Paints the texture at the renderer size read before any resize.
- **Size arithmetic** (`sizing.dfy`). Sizes and pixels per point are `real`. `as u32` is
  Rust's saturating truncation.
- **Event translation** (`event_conversion.dfy`). `convert_event` is a total function from a
  host event and an offset to an optional map event. The web build's wheel normalisation is
  selected by a `wasm` flag. `process_events` forwards the translations in input order.
- **View binding** (`widget.dfy`, class `EguiMap`). `with_position` and `with_resolution`
  push a caller-owned value into the view when it differs. `show_ui` copies the view back out
  after rendering. A caller-owned `&mut` value is modelled as a `MutRef` object.

What the model proves about the code as written:

- A frame whose `floor(logical) * ppp` is not a whole number of pixels resizes on every frame.
  The stored truncated size can never equal the unrounded measurement
  (`Sizing.ResizeSettlesIff`, `Scenarios.FractionalSizeResizesEveryFrame`). So resizing is
  idempotent only for whole-pixel sizes.
- The dirty flag starts set, so the first frame always draws. A first frame whose measured size
  equals the 1x1 placeholder does not resize, so `draw` loads the layers while the map is not
  yet ready (`Scenarios.PlaceholderFrameLoadsBeforeReady`).
- A resize happens before the frame's swap-clear. So a resizing frame always draws into the new
  texture, and the painted texture has always been rendered into (`textureRendered` after every
  `Render`).
- The painted image carries the new texture id but the renderer size from before the resize.

Three details of the code that the model keeps as written:

- **Filter mode.** Linear filtering is chosen only when `pixels_per_point > 1.0`
  (`galileo-egui/src/egui_map.rs` line 349), so exactly 1.0 gives Nearest.
- **Layer loading.** `draw` (line 370) loads the layers whatever `map_ready` is. Only the
  load in `render` (lines 259-261) is gated on readiness.
- **Map size.** A resize gives the map the floored logical size (line 332), not the truncated
  physical size the renderer stores.

Assumption (not proved): `Map::redraw` reaches the installed messenger's `request_redraw`. The
code wires this at `galileo-egui/src/egui_map.rs` lines 172-175, so `ResizeMap` and
`EguiMapState.RequestRedraw` call the messenger directly.

## Model

| member | source | states |
|---|---|---|
| `Redraw.MapStateMessenger.RequestRedraw` | galileo-egui/src/egui_map.rs:449-455 | The flag is set afterwards. One repaint request is added exactly when the flag was clear before; none is added when it was already set. |
| `Redraw.AtomicBool.Swap` | galileo-egui/src/egui_map.rs:263 | Returns the value the flag held and leaves it holding the new value. |
| `Redraw.BurstCoalesces` | galileo-egui/src/egui_map.rs:449-455 | Any N >= 1 requests with no frame in between leave the flag set. They add exactly one repaint request if the flag was clear, and none if it was set. |
| `Redraw.BurstDrawsOnce` | galileo-egui/src/egui_map.rs:263-265 | After a burst, the next frame's swap-clear reports a draw and the following frame's does not. A request made after a clear is kept for the next frame and asks for a repaint again. |
| `MapState.LayerAttributions` | galileo-egui/src/egui_map.rs:275-280 | No more entries than layers. Empty exactly when no layer has an attribution. Every entry is some layer's attribution. |
| `MapState.LayerAttributionsSingle` | galileo-egui/src/egui_map.rs:277-279 | One layer contributes its attribution if it has one, and nothing otherwise. |
| `MapState.LayerAttributionsAppend` | galileo-egui/src/egui_map.rs:275-280 | The attributions of two runs of layers are the first run's followed by the second's. Together with the one-layer case: exactly one entry per attributed layer, in layer order. |
| `MapState.FrameEvents` | galileo-egui/src/egui_map.rs:245-247 | A frame forwards events only when dragging or hovered. It forwards no more events than the batch holds, and each is the translation of one of the batch's events. |
| `MapState.CollectAttributions` | galileo-egui/src/egui_map.rs:274-286 | `None` exactly when no layer has an attribution. Otherwise it holds the non-empty list of the layers' attributions. |
| `MapState.AttributionCollected` | galileo-egui/src/egui_map.rs:274-286 | Every layer's attribution appears in the collected list. |
| `MapState.EguiMapState.constructor` | galileo-egui/src/egui_map.rs:159-216 | The flag starts set and the map starts not ready. Map and renderer are 1x1. The view's DPI scale is the host's. The first texture is registered with Nearest filtering. The messenger shares the state's flag and context. |
| `MapState.EguiMapState.RequestRedraw` | galileo-egui/src/egui_map.rs:218-221 | Same effect on the flag and the repaint count as one messenger request. The state's invariant is kept. |
| `MapState.EguiMapState.Draw` | galileo-egui/src/egui_map.rs:368-373 | Loads the layers whether or not the map is ready (counted as a load before readiness when it is not). Renders once into the current texture. |
| `MapState.EguiMapState.ResizeMap` | galileo-egui/src/egui_map.rs:325-366 | The map gets the logical size. The renderer gets the `u32`-truncated physical size. A fresh texture id replaces the old one, registered Linear iff pixels per point > 1.0. The new texture is not yet rendered, and a redraw is requested. |
| `MapState.EguiMapState.ProcessEvents` | galileo-egui/src/egui_map.rs:375-381 | Hands the pipeline exactly the translated events, in input order. The pipeline's drag state and view are the fold of the handler over them. |
| `MapState.EguiMapState.ForwardInput` | galileo-egui/src/egui_map.rs:245-248 | Events are forwarded only when the processor was dragging or the widget is hovered. The offset is minus the widget's top-left corner. |
| `MapState.EguiMapState.ResizeIfNeeded` | galileo-egui/src/egui_map.rs:252-257 | A resize happens iff the unrounded physical size differs from the stored size. It sets readiness and pushes the DPI scale into the view. Otherwise renderer, texture, map size and view are untouched. |
| `MapState.EguiMapState.LoadAndDraw` | galileo-egui/src/egui_map.rs:259-265 | The gated layer load happens only when ready. The flag's swap-clear is `Redraw.TakeAndClear`: a draw happens exactly when the flag was set, and the flag is clear afterwards. The texture is then rendered. |
| `MapState.EguiMapState.Render` | galileo-egui/src/egui_map.rs:224-272 | One frame:<br>• at most one draw, exactly when the flag was set or the frame resized;<br>• readiness is set only by a resizing frame and never reset;<br>• layer loads and repaint requests are counted;<br>• the flag is clear and the current texture rendered afterwards;<br>• the painted image is the current texture id at the pre-resize renderer size;<br>• the overlay is the collected attributions. |
| `EventConversion.MapButton` | galileo-egui/src/egui_map.rs:388-393 | Left iff Primary, Right iff Secondary, Middle iff Middle, Other iff one of the extra buttons. |
| `EventConversion.WheelDivisor` | galileo-egui/src/egui_map.rs:425-429 | The reference divisor of the vertical wheel delta: 1 on native builds; 120, 6 or 1 by unit on the web build. Never below 1. |
| `EventConversion.WheelZoom` | galileo-egui/src/egui_map.rs:410-429 | The zoom times the reference divisor gives back the vertical wheel delta. |
| `EventConversion.LocalOffset` | galileo-egui/src/egui_map.rs:247 | The offset cancels the widget's top-left corner, turning window coordinates into widget-local ones. |
| `EventConversion.ConvertEvent` | galileo-egui/src/egui_map.rs:383-440 | The result is present iff the event is a button event, a pointer move, or a wheel event whose zoom has magnitude >= 0.0001. Button events keep the mapped button and the pressed state. Moves are shifted by the offset. Scrolls carry the zoom. Every other kind is dropped. |
| `EventConversion.WheelDiscardedIff` | galileo-egui/src/egui_map.rs:409-436 | A wheel event is dropped iff the magnitude of its vertical delta is below 0.0001 times the unit's divisor. |
| `EventConversion.PointerToLocal` | galileo-egui/src/egui_map.rs:400-407 | A pointer move translated with the widget's offset lands at the host position minus the widget's corner. |
| `EventConversion.TranslationExamples` | galileo-egui/src/egui_map.rs:383-440 | Literal cases: primary press, secondary release, a move by offset (-10, -10), a sub-threshold wheel delta dropped, a page-unit wheel delta of 5 kept. |
| `EventConversion.Translated` | galileo-egui/src/egui_map.rs:376-379 | The batch `process_events` forwards has no more events than the host batch. `TranslatedExactly` states which events they are. |
| `EventConversion.TranslatedStep` | galileo-egui/src/egui_map.rs:376-379 | Handling one more host event extends the forwarded batch by that event's translation alone. |
| `EventConversion.TranslatedSingle` | galileo-egui/src/egui_map.rs:376-379 | A one-event batch forwards that event's translation, if any. |
| `EventConversion.TranslatedAppend` | galileo-egui/src/egui_map.rs:375-381 | Forwarding two batches in turn forwards the same events as forwarding their concatenation. |
| `EventConversion.TranslatedAt` | galileo-egui/src/egui_map.rs:375-381 | Event i's translation comes after those of the events before it and before those of the events after it. |
| `EventConversion.TranslatedExactly` | galileo-egui/src/egui_map.rs:375-381 | No more outputs than inputs. Every forwarded event is the translation of some input. Every translatable input is forwarded. |
| `Sizing.AsU32` | galileo-egui/src/egui_map.rs:335-338 | Rust's float-to-`u32` cast: 0 at or below zero, `u32::MAX` at or above it, otherwise the largest whole number not above the value. |
| `Sizing.LogicalSize` | galileo-egui/src/egui_map.rs:225 | Each component is a whole number within one point below the available size, so it is exactly the floor. |
| `Sizing.NeedsResize` | galileo-egui/src/egui_map.rs:252 | The resize decision. A renderer that is left alone already holds the size a resize would store. |
| `Sizing.StableIff` | galileo-egui/src/egui_map.rs:252 | No resize iff both physical dimensions are whole pixels in the `u32` range and equal the stored size. |
| `Sizing.ResizeSettlesIff` | galileo-egui/src/egui_map.rs:252-257 | After a resize stores the truncated size, the same measurement resizes again iff some physical dimension is not a whole pixel count in range. |
| `Sizing.FractionalAlwaysResizes` | galileo-egui/src/egui_map.rs:252 | A fractional physical dimension triggers a resize whatever size is stored. |
| `Sizing.FractionalExample` | galileo-egui/src/egui_map.rs:225-227 | 101 by 100 points at 1.5 pixels per point stores 151 by 150 and resizes on every frame. |
| `Widget.EguiMap.constructor` | galileo-egui/src/egui_map.rs:83-89 | Nothing is bound. |
| `Widget.EguiMap.WithPosition` | galileo-egui/src/egui_map.rs:95-103 | The view's position becomes the bound value and nothing else in the view changes. `set_view` is called iff the position differed. |
| `Widget.EguiMap.WithResolution` | galileo-egui/src/egui_map.rs:108-118 | The view's resolution becomes the bound value and nothing else in the view changes. `set_view` is called iff the resolution differed. |
| `Widget.EguiMap.ShowUi` | galileo-egui/src/egui_map.rs:123-136 | After the frame, a bound resolution equals the view's. A bound position equals the view's when the view has one and is unchanged otherwise. The frame's effects are those of `EguiMapState.Render`: forwarded events, drag state and view; resize, readiness and texture; draw, load and repaint counts; the cleared flag; and the painted image. |
| `Scenarios.PlaceholderFrameLoadsBeforeReady` | galileo-egui/src/egui_map.rs:259-265 | A first frame measuring 1x1 at one pixel per point does not resize. The map stays not ready, yet the frame draws once and loads the layers once before readiness. The placeholder texture is painted. |
| `Scenarios.FractionalSizeResizesEveryFrame` | galileo-egui/src/egui_map.rs:252-257 | Two identical frames at a fractional physical size each register a new texture. |
| `Scenarios.WholeSizeSettles` | galileo-egui/src/egui_map.rs:252-265 | At a whole-pixel size, the second identical frame keeps the texture and does not draw. |
| `Scenarios.HoveredMoveForwarded` | galileo-egui/src/egui_map.rs:245-247 | A hovered frame with one pointer move forwards it in widget-local coordinates. |
| `Scenarios.BindingRoundTrip` | galileo-egui/src/egui_map.rs:95-136 | A bound position that differs from the view is pushed in with exactly one `set_view`. After a frame whose drag moves the view, the bound value holds the moved position. |
| `Scenarios.BurstBetweenFrames` | galileo-egui/src/egui_map.rs:263-265 | After a frame has cleared the flag, any n >= 1 messenger requests ask for one repaint. The next frame draws once and the one after does not. Both paint the same texture. |

## Left out

- GPU resources are not part of this model.
  - `WgpuRenderer::new_with_device_and_texture`, `set_horizon_options` and `render_to_texture_view` are foreign GPU calls. A render pass is a ghost draw counter plus a "texture rendered" flag.
  - `register_native_texture` is modelled as handing out the next id from a counter.
  - `texture_view` and `texture_id` are always replaced together and are modelled as one id.
  - The fatal `expect` on texture-view acquisition is not modelled; acquisition always succeeds.
- egui layout and painting are UI. `available_size`, `pixels_per_point`, the allocated rectangle's corner, `hovered` and the event batch are frame inputs. `Image::paint_at` becomes the returned image.
- The attributions `Window`, `show_attributions` (which emits `" | "` after each non-first entry) and `add_attribution_entry` are UI output. Only `collect_attributions` is modelled.
- Galileo `Map` internals are opaque:
  - `animate` is a function parameter over the view.
  - `load_layers` is a call counter.
  - `set_view` replaces the view.
  - `with_position`, `with_resolution` and `with_dpi_scale_factor` are record updates, so any projection or clamping they do is not modelled.
  - `set_size` stores the size.
  - `set_messenger` on the map and its layers is not modelled.
- The event processor, with its user handlers and the default `MapController`, is one opaque function from (drag state, view, event) to (drag state, view).
- MapState.EguiMapState.Render: states that the flag is clear after the frame. Redraw requests the map may issue from inside `animate`, `load_layers`, `set_view`, event handling or rendering are not seen by this model.
- The accessors `map`, `map_mut` and `messenger` return fields and are not modelled separately.
- Atomic memory ordering, `Arc` and threads are out of scope. Concurrency is only messenger calls between frames.
- Floating point is modelled as `real`, without f32/f64 rounding or NaN. This includes the `as f32` cast of the renderer size, which is exact below 2^24 pixels. The `as u32` truncation is kept.
- Logging (`log::trace!`, `log::info!`) is left out.
- The `cfg(target_arch = "wasm32")` split is a `wasm` flag fixed at construction and passed to the translation.
