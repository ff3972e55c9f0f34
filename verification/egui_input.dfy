/**
 * The host UI's (egui's) input vocabulary, reduced to what the map widget reads.
 * Coordinates and deltas are reals: the f32 rounding of the host is not modelled.
 */
module EguiInput {
  /** A point in window (logical) coordinates. */
  datatype Pos2 = Pos2(x: real, y: real)

  /** A two-component vector: sizes, offsets and wheel deltas. */
  datatype Vec2 = Vec2(x: real, y: real)

  /** The host's pointer buttons. */
  datatype PointerButton = Primary | Secondary | Middle | Extra1 | Extra2

  /** The unit a wheel delta is reported in. */
  datatype MouseWheelUnit = Point | Line | Page

  /**
   * Host input events. The three kinds the widget translates are spelled out;
   * the remaining kinds stand for the many others the host reports.
   */
  datatype Event =
    | PointerButton(pos: Pos2, button: PointerButton, pressed: bool)
    | PointerMoved(pos: Pos2)
    | MouseWheel(unit: MouseWheelUnit, delta: Vec2)
    | PointerGone
    | Zoom(factor: real)
    | Text(text: string)
    | Key(name: string, pressed: bool)
}
