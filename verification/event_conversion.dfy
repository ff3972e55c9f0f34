/**
 * Translation of host input events into map-domain events (`convert_event`), and
 * the sequence of events `process_events` hands to the map's event pipeline.
 */
module EventConversion {
  import opened Wrappers
  import E = EguiInput
  import G = GalileoMap

  /** Wheel zooms smaller than this in magnitude are discarded as noise. */
  const ScrollNoiseThreshold: real := 0.0001

  /** Divisor for wheel deltas reported in points, on the web build. */
  const PointDivisor: real := 120.0

  /** Divisor for wheel deltas reported in lines, on the web build. */
  const LineDivisor: real := 6.0

  function Abs(x: real): real
  {
    if x < 0.0 then -x else x
  }

  /** Host button to map button. */
  function MapButton(b: E.PointerButton): (r: G.MouseButton)
    ensures r == G.Left <==> b == E.Primary
    ensures r == G.Right <==> b == E.Secondary
    ensures r == G.Middle <==> b == E.Middle
    ensures r == G.Other <==> b == E.Extra1 || b == E.Extra2
  {
    match b
    case Primary => G.Left
    case Secondary => G.Right
    case Middle => G.Middle
    case _ => G.Other
  }

  /**
   * The zoom a wheel event produces. The native build uses the vertical delta as
   * it is; the web build (`wasm`) normalises it by the unit it was reported in.
   */
  function WheelZoom(delta: E.Vec2, unit: E.MouseWheelUnit, wasm: bool): (z: real)
    ensures z * WheelDivisor(unit, wasm) == delta.y
  {
    if !wasm then delta.y
    else match unit
      case Point => delta.y / PointDivisor
      case Line => delta.y / LineDivisor
      case Page => delta.y
  }

  /** The factor a build divides the vertical wheel delta by, as a reference definition. */
  function WheelDivisor(unit: E.MouseWheelUnit, wasm: bool): (d: real)
    ensures d >= 1.0
  {
    if !wasm then 1.0
    else match unit
      case Point => PointDivisor
      case Line => LineDivisor
      case Page => 1.0
  }

  /** The offset that turns window coordinates into coordinates local to a widget whose top-left corner is `rectMin`. */
  function LocalOffset(rectMin: E.Pos2): (off: E.Vec2)
    ensures off.x + rectMin.x == 0.0 && off.y + rectMin.y == 0.0
  {
    E.Vec2(-rectMin.x, -rectMin.y)
  }

  /** Translates one host event, or discards it (`None`). */
  function ConvertEvent(event: E.Event, offset: E.Vec2, wasm: bool): (r: Option<G.RawUserEvent>)
    ensures r.Some? <==>
      event.PointerButton? || event.PointerMoved? ||
      (event.MouseWheel? && Abs(WheelZoom(event.delta, event.unit, wasm)) >= ScrollNoiseThreshold)
    ensures r.Some? && (r.value.ButtonPressed? || r.value.ButtonReleased?) <==> event.PointerButton?
    ensures event.PointerButton? ==>
      r.value.button == MapButton(event.button) && (r.value.ButtonPressed? <==> event.pressed)
    ensures r.Some? && r.value.PointerMoved? <==> event.PointerMoved?
    ensures event.PointerMoved? ==>
      r.value.position.x - offset.x == event.pos.x && r.value.position.y - offset.y == event.pos.y
    ensures r.Some? && r.value.Scroll? ==>
      event.MouseWheel? && r.value.delta == WheelZoom(event.delta, event.unit, wasm) &&
      Abs(r.value.delta) >= ScrollNoiseThreshold
  {
    match event
    case PointerButton(_, button, pressed) =>
      var b := MapButton(button);
      Some(if pressed then G.ButtonPressed(b) else G.ButtonReleased(b))
    case PointerMoved(pos) =>
      // the map engine's scale is 1.0, so the division by it is left out
      Some(G.PointerMoved(G.Point2(pos.x + offset.x, pos.y + offset.y)))
    case MouseWheel(unit, delta) =>
      var zoom := WheelZoom(delta, unit, wasm);
      if Abs(zoom) < ScrollNoiseThreshold then None else Some(G.Scroll(zoom))
    case _ => None
  }

  /** A wheel event is discarded exactly when its vertical delta is below the threshold scaled by the unit's divisor. */
  lemma WheelDiscardedIff(unit: E.MouseWheelUnit, delta: E.Vec2, offset: E.Vec2, wasm: bool)
    ensures ConvertEvent(E.MouseWheel(unit, delta), offset, wasm).None? <==>
      Abs(delta.y) < ScrollNoiseThreshold * WheelDivisor(unit, wasm)
  {
    var d := WheelDivisor(unit, wasm);
    assert WheelZoom(delta, unit, wasm) * d == delta.y;
    assert Abs(WheelZoom(delta, unit, wasm)) * d == Abs(delta.y);
  }

  /** A pointer position, translated with a widget's local offset, is the host position less the widget's corner. */
  lemma PointerToLocal(pos: E.Pos2, rectMin: E.Pos2, wasm: bool)
    ensures ConvertEvent(E.PointerMoved(pos), LocalOffset(rectMin), wasm) ==
      Some(G.PointerMoved(G.Point2(pos.x - rectMin.x, pos.y - rectMin.y)))
  {
  }

  /** Literal translations: a primary press, a secondary release, a move by an offset, a dropped and a kept wheel delta. */
  lemma TranslationExamples(pos: E.Pos2, wasm: bool)
    ensures ConvertEvent(E.PointerButton(pos, E.Primary, true), E.Vec2(0.0, 0.0), wasm) == Some(G.ButtonPressed(G.Left))
    ensures ConvertEvent(E.PointerButton(pos, E.Secondary, false), E.Vec2(0.0, 0.0), wasm) == Some(G.ButtonReleased(G.Right))
    ensures ConvertEvent(E.PointerMoved(E.Pos2(100.0, 50.0)), E.Vec2(-10.0, -10.0), wasm) ==
      Some(G.PointerMoved(G.Point2(90.0, 40.0)))
    ensures ConvertEvent(E.MouseWheel(E.Point, E.Vec2(0.00005, 0.0)), E.Vec2(0.0, 0.0), wasm) == None
    ensures ConvertEvent(E.MouseWheel(E.Page, E.Vec2(0.0, 5.0)), E.Vec2(0.0, 0.0), wasm) == Some(G.Scroll(5.0))
  {
  }

  /** The translated events as a (possibly empty) sequence. */
  function Converted(event: E.Event, offset: E.Vec2, wasm: bool): seq<G.RawUserEvent>
  {
    var r := ConvertEvent(event, offset, wasm);
    if r.Some? then [r.value] else []
  }

  /** The events the widget hands to the event pipeline for one batch of host events. */
  function Translated(events: seq<E.Event>, offset: E.Vec2, wasm: bool): (r: seq<G.RawUserEvent>)
    ensures |r| <= |events|
  {
    if events == [] then []
    else Converted(events[0], offset, wasm) + Translated(events[1..], offset, wasm)
  }

  /** A single event is forwarded as its own translation. */
  lemma TranslatedSingle(e: E.Event, offset: E.Vec2, wasm: bool)
    ensures Translated([e], offset, wasm) == Converted(e, offset, wasm)
  {
    assert [e][1..] == [];
  }

  /** Translating a concatenation is translating its parts. */
  lemma {:induction false} TranslatedAppend(a: seq<E.Event>, b: seq<E.Event>, offset: E.Vec2, wasm: bool)
    ensures Translated(a + b, offset, wasm) == Translated(a, offset, wasm) + Translated(b, offset, wasm)
  {
    if a == [] {
      assert a + b == b;
    } else {
      assert (a + b)[1..] == a[1..] + b;
      TranslatedAppend(a[1..], b, offset, wasm);
    }
  }

  /** Extending a batch by its next event extends the translation by that event's translation. */
  lemma TranslatedStep(events: seq<E.Event>, i: nat, offset: E.Vec2, wasm: bool)
    requires i < |events|
    ensures Translated(events[..i + 1], offset, wasm) == Translated(events[..i], offset, wasm) + Converted(events[i], offset, wasm)
  {
    assert events[..i + 1] == events[..i] + [events[i]];
    TranslatedAppend(events[..i], [events[i]], offset, wasm);
    TranslatedSingle(events[i], offset, wasm);
  }

  /**
   * Order: the translation of event `i` comes right after the translations of the
   * events before it and right before those of the events after it.
   */
  lemma TranslatedAt(events: seq<E.Event>, i: nat, offset: E.Vec2, wasm: bool)
    requires i < |events|
    ensures Translated(events, offset, wasm) ==
      Translated(events[..i], offset, wasm) + Converted(events[i], offset, wasm) + Translated(events[i + 1..], offset, wasm)
  {
    assert events == events[..i] + ([events[i]] + events[i + 1..]);
    TranslatedAppend(events[..i], [events[i]] + events[i + 1..], offset, wasm);
    TranslatedAppend([events[i]], events[i + 1..], offset, wasm);
    TranslatedSingle(events[i], offset, wasm);
  }

  /**
   * Exactly the translatable events are forwarded: every forwarded event is the
   * translation of some input event, every translatable input event is forwarded,
   * and nothing is invented.
   */
  lemma {:induction false} TranslatedExactly(events: seq<E.Event>, offset: E.Vec2, wasm: bool)
    ensures |Translated(events, offset, wasm)| <= |events|
    ensures forall k :: 0 <= k < |Translated(events, offset, wasm)| ==>
      exists i :: 0 <= i < |events| && ConvertEvent(events[i], offset, wasm) == Some(Translated(events, offset, wasm)[k])
    ensures forall i :: 0 <= i < |events| && ConvertEvent(events[i], offset, wasm).Some? ==>
      ConvertEvent(events[i], offset, wasm).value in Translated(events, offset, wasm)
  {
    if events != [] {
      var t := Translated(events, offset, wasm);
      TranslatedExactly(events[1..], offset, wasm);
      var head := Converted(events[0], offset, wasm);
      var rest := Translated(events[1..], offset, wasm);
      assert t == head + rest;
      forall k | 0 <= k < |t|
        ensures exists i :: 0 <= i < |events| && ConvertEvent(events[i], offset, wasm) == Some(t[k])
      {
        if k < |head| {
          assert ConvertEvent(events[0], offset, wasm) == Some(t[k]);
        } else {
          assert t[k] == rest[k - |head|];
          var j :| 0 <= j < |events[1..]| && ConvertEvent(events[1..][j], offset, wasm) == Some(rest[k - |head|]);
          assert events[1..][j] == events[j + 1];
        }
      }
      forall i | 0 <= i < |events| && ConvertEvent(events[i], offset, wasm).Some?
        ensures ConvertEvent(events[i], offset, wasm).value in t
      {
        if i == 0 {
          assert Converted(events[0], offset, wasm) == [ConvertEvent(events[0], offset, wasm).value];
        } else {
          assert events[1..][i - 1] == events[i];
        }
      }
    }
  }

}
