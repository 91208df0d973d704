/**
 * The device listeners' side of the trigger grammar: the physical event a
 * listener receives, the trigger it emits, and the pressed state it records.
 */
module ControlEvents {
  import opened Feedback
  import opened TriggerCodec

  /** The events the device library reports for one control. */
  datatype ControlEvent =
    | Down
    | Up
    | Rotate(delta: int)
    | LcdShortPress(x: int, y: int)
    | LcdLongPress(x: int, y: int)
    | LcdSwipe(fromX: int, fromY: int, toX: int, toY: int)

  /** The action name a listener appends to the control's id. */
  function ActionName(ev: ControlEvent): (r: string)
    ensures r != "" && NoSpace(r)
  {
    match ev
    case Down => DOWN
    case Up => UP
    case Rotate(_) => JOG
    case LcdShortPress(_, _) => "Tap"
    case LcdLongPress(_, _) => "Press"
    case LcdSwipe(_, _, _, _) => "Swipe"
  }

  /** What a listener hands to the controller: a trigger, or an analog update for rotation. */
  datatype Emitted =
    | Trigger(triggerId: string, arguments: map<string, int>)
    | AnalogTrigger(triggerId: string, deltaValue: int)

  /** The trigger string a listener builds: `${id} ${action}`. */
  function EventTriggerId(c: ControlDef, ev: ControlEvent): string {
    TriggerId(c) + " " + ActionName(ev)
  }

  function EmittedFor(c: ControlDef, ev: ControlEvent): Emitted {
    var t := EventTriggerId(c, ev);
    match ev
    case Down => Trigger(t, map[])
    case Up => Trigger(t, map[])
    case Rotate(delta) => AnalogTrigger(t, delta)
    case LcdShortPress(x, y) => Trigger(t, map["xPosition" := x, "yPosition" := y])
    case LcdLongPress(x, y) => Trigger(t, map["xPosition" := x, "yPosition" := y])
    case LcdSwipe(fx, fy, tx, ty) =>
      Trigger(t, map["fromXPosition" := fx, "fromYPosition" := fy, "toXPosition" := tx, "toYPosition" := ty])
  }

  /** The `isButtonDown` record after a listener ran: only down and up touch it. */
  function DownStateAfter(isButtonDown: map<string, bool>, id: string, ev: ControlEvent): map<string, bool> {
    match ev
    case Down => isButtonDown[id := true]
    case Up => isButtonDown[id := false]
    case _ => isButtonDown
  }

  /** `isButtonDown[id] ?? false`. */
  function IsDown(isButtonDown: map<string, bool>, id: string): bool {
    if id in isButtonDown then isButtonDown[id] else false
  }

  /**
   * Every trigger a listener emits decodes back to the control that fired
   * and the action that happened; the written parser loses only an LCD
   * segment's number.
   */
  lemma EmittedTriggerDecodes(parser: Parser, c: ControlDef, ev: ControlEvent)
    ensures Parse(parser, EventTriggerId(c, ev)) == DecodedBy(parser, c, ActionName(ev))
    ensures Parse(parser, EventTriggerId(c, ev)).id == TriggerId(c)
    ensures Parse(parser, EventTriggerId(c, ev)).action == ActionName(ev)
    ensures ParseTriggerId(EventTriggerId(c, ev)) == Decoded(c, ActionName(ev))
  {
    ParseControlId(parser, c, ActionName(ev));
    ParseId(c, ActionName(ev));
  }

  /** After a down event the control reads as pressed, after an up event as released. */
  lemma PressedStateFollowsLastEvent(isButtonDown: map<string, bool>, id: string, ev: ControlEvent)
    ensures ev.Down? ==> IsDown(DownStateAfter(isButtonDown, id, ev), id)
    ensures ev.Up? ==> !IsDown(DownStateAfter(isButtonDown, id, ev), id)
    ensures !ev.Down? && !ev.Up? ==> IsDown(DownStateAfter(isButtonDown, id, ev), id) == IsDown(isButtonDown, id)
    ensures forall other :: other != id ==>
              IsDown(DownStateAfter(isButtonDown, id, ev), other) == IsDown(isButtonDown, other)
  {
  }
}
