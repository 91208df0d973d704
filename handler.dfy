/**
 * `StreamDeckDeviceHandler`: the per-connection handler the TCP proxy
 * creates. It owns the feedback store and the pressed state of one
 * device session. What it writes to the device and what it emits to the
 * controller are recorded in two ghost logs.
 */
module StreamDeckHandler {
  import opened Wrappers
  import opened Feedback
  import opened Styles
  import opened TriggerCodec
  import opened Dispatch
  import opened ControlEvents

  const DEFAULT_BRIGHTNESS := 100

  class StreamDeckDeviceHandler {
    /** The device's `CONTROLS`. */
    const controls: seq<ControlDef>
    /** Whether the device is the TCP kind (which cannot be closed, only blanked). */
    const isTcp: bool
    const brightness: Option<int>
    const stylePresets: Option<seq<StylePreset>>
    /** The trigger parser the redraws use: the written one, or the corrected one. */
    const parser: Parser

    var feedbacks: Store
    var isButtonDown: map<string, bool>
    /** Whether `init` has registered the device listeners. */
    var listening: bool

    ghost var commands: seq<DeviceCommand>
    ghost var emitted: seq<Emitted>

    constructor (controls: seq<ControlDef>, isTcp: bool, brightness: Option<int>, stylePresets: Option<seq<StylePreset>>,
                 parser: Parser)
      ensures this.controls == controls && this.isTcp == isTcp
      ensures this.brightness == brightness && this.stylePresets == stylePresets && this.parser == parser
      ensures feedbacks == EmptyStore && isButtonDown == map[] && !listening
      ensures commands == [] && emitted == []
    {
      this.controls := controls;
      this.isTcp := isTcp;
      this.brightness := brightness;
      this.stylePresets := stylePresets;
      this.parser := parser;
      feedbacks := EmptyStore;
      isButtonDown := map[];
      listening := false;
      commands := [];
      emitted := [];
    }

    /** `init`: set the brightness, register the listeners, blank the panel. */
    method Init()
      modifies this
      ensures listening
      ensures commands == old(commands) + [SetBrightness(brightness.GetOr(DEFAULT_BRIGHTNESS)), ClearPanel]
      ensures feedbacks == old(feedbacks) && isButtonDown == old(isButtonDown) && emitted == old(emitted)
    {
      commands := commands + [SetBrightness(brightness.GetOr(DEFAULT_BRIGHTNESS))];
      listening := true;
      commands := commands + [ClearPanel];
    }

    /** `destroy`: a TCP device is blanked, any other is closed. */
    method Destroy()
      modifies this
      ensures commands == old(commands) + [if isTcp then ClearPanel else Close]
      ensures feedbacks == old(feedbacks) && isButtonDown == old(isButtonDown)
      ensures emitted == old(emitted) && listening == old(listening)
    {
      if isTcp {
        commands := commands + [ClearPanel];
      } else {
        commands := commands + [Close];
      }
    }

    /** `updateFeedback`: one redraw of `trigger` with the given pressed state. */
    method UpdateFeedback(trigger: string, isDown: bool)
      modifies this
      ensures commands == old(commands) + Redraw(parser, trigger, feedbacks, controls, TallyAware, stylePresets, isDown)
      ensures feedbacks == old(feedbacks) && isButtonDown == old(isButtonDown)
      ensures emitted == old(emitted) && listening == old(listening)
    {
      commands := commands + Redraw(parser, trigger, feedbacks, controls, TallyAware, stylePresets, isDown);
    }

    /**
     * A device listener: emit the trigger, record a press or release, and
     * redraw the control with its current pressed state.
     */
    method OnControlEvent(c: ControlDef, ev: ControlEvent)
      requires listening
      modifies this
      ensures emitted == old(emitted) + [EmittedFor(c, ev)]
      ensures isButtonDown == DownStateAfter(old(isButtonDown), TriggerId(c), ev)
      ensures commands == old(commands) + Redraw(parser, TriggerId(c), feedbacks, controls, TallyAware, stylePresets, IsDown(isButtonDown, TriggerId(c)))
      ensures feedbacks == old(feedbacks) && listening
    {
      var id := TriggerId(c);
      emitted := emitted + [EmittedFor(c, ev)];
      isButtonDown := DownStateAfter(isButtonDown, id, ev);
      UpdateFeedback(id, IsDown(isButtonDown, id));
    }

    /**
     * `setFeedback`: a trigger string without an action changes nothing;
     * otherwise the feedback fills the (id, action) slot and the id is
     * redrawn with its pressed state.
     */
    method SetFeedback(triggerId: string, fb: Option<Feedback>)
      modifies this
      ensures var (id, action) := SplitTrigger(triggerId);
              if action == "" then
                feedbacks == old(feedbacks) && commands == old(commands)
              else
                feedbacks == StoreSet(old(feedbacks), id, action, fb) &&
                commands == old(commands) + Redraw(parser, id, feedbacks, controls, TallyAware, stylePresets, IsDown(isButtonDown, id))
      ensures isButtonDown == old(isButtonDown) && emitted == old(emitted) && listening == old(listening)
    {
      var p := Parse(parser, triggerId);
      if p.action == "" {
        return;
      }
      feedbacks := StoreSet(feedbacks, p.id, p.action, fb);
      UpdateFeedback(p.id, IsDown(isButtonDown, p.id));
    }

    /**
     * `clearFeedbackAll`: empty the store, then redraw, unpressed, every id
     * that held feedback before, each once and in no particular order.
     */
    method ClearFeedbackAll() returns (ids: seq<string>)
      modifies this
      ensures feedbacks == EmptyStore
      ensures Distinct(ids) && (forall k :: k in ids <==> k in old(feedbacks))
      ensures commands == old(commands) + BlankRedraws(parser, ids, controls, TallyAware, stylePresets)
      ensures isButtonDown == old(isButtonDown) && emitted == old(emitted) && listening == old(listening)
    {
      ids := AllFeedbackIds(feedbacks);
      feedbacks := EmptyStore;
      for i := 0 to |ids|
        invariant commands == old(commands) + BlankRedraws(parser, ids[..i], controls, TallyAware, stylePresets)
        invariant feedbacks == EmptyStore
        invariant isButtonDown == old(isButtonDown) && emitted == old(emitted) && listening == old(listening)
      {
        BlankRedrawsAppend(parser, old(commands), ids[..i], ids[i], controls, TallyAware, stylePresets);
        assert ids[..i + 1] == ids[..i] + [ids[i]];
        UpdateFeedback(ids[i], false);
      }
      assert ids[..|ids|] == ids;
    }
  }
}
