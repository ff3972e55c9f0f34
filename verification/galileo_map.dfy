/**
 * The map engine's (Galileo's) side of the widget: its input vocabulary, its view,
 * its layers' attributions, and the event pipeline, which is opaque here.
 */
module GalileoMap {
  import opened Wrappers

  /** Mouse buttons as the map engine names them. */
  datatype MouseButton = Left | Right | Middle | Other

  /** A point in widget-local coordinates. */
  datatype Point2 = Point2(x: real, y: real)

  /** Map-domain input events. */
  datatype RawUserEvent =
    | ButtonPressed(button: MouseButton)
    | ButtonReleased(button: MouseButton)
    | PointerMoved(position: Point2)
    | Scroll(delta: real)

  /** A geographic position. */
  datatype GeoPoint = GeoPoint(lat: real, lon: real)

  /** The part of the map view the widget reads and writes. */
  datatype MapView = MapView(position: Option<GeoPoint>, resolution: real, dpiScale: real)

  /** A layer's attribution text and optional link. */
  datatype Attribution = Attribution(text: string, url: Option<string>)

  /** A map layer, reduced to its attribution. */
  datatype Layer = Layer(attribution: Option<Attribution>)

  /**
   * What the event pipeline (the user handlers followed by the default map
   * controller) sees and changes: whether a drag is in progress, and the view.
   */
  datatype ControllerState = ControllerState(dragging: bool, view: MapView)

  /** The event pipeline is opaque: any function from state and event to state. */
  type EventHandler = (ControllerState, RawUserEvent) -> ControllerState

  /** The pipeline's state after handling `events` in order, starting from `s`. */
  function HandleAll(handle: EventHandler, s: ControllerState, events: seq<RawUserEvent>): ControllerState
  {
    if events == [] then s
    else handle(HandleAll(handle, s, events[..|events| - 1]), events[|events| - 1])
  }

  /** Handling one more event is one more step of the pipeline. */
  lemma HandleAllSnoc(handle: EventHandler, s: ControllerState, events: seq<RawUserEvent>, e: RawUserEvent)
    ensures HandleAll(handle, s, events + [e]) == handle(HandleAll(handle, s, events), e)
  {
    assert (events + [e])[..|events|] == events;
  }
}
