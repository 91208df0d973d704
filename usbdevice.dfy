/**
 * `StreamDeckDevice`: the USB Stream Deck. It selects and opens a device
 * in `init`, then behaves like the TCP handler with two differences: every
 * feedback operation is a no-op until a device is open, and style presets
 * are resolved without looking at the tally.
 *
 * The device list and the result of opening a device are parameters of
 * `Init`; what is written to the device and what is emitted to the
 * controller are recorded in two ghost logs.
 */
module StreamDeckUsb {
  import opened Wrappers
  import opened Feedback
  import opened Styles
  import opened TriggerCodec
  import opened Dispatch
  import opened ControlEvents

  const DEFAULT_BRIGHTNESS := 100

  /** One entry of `listStreamDecks()`. */
  datatype DeviceInfo = DeviceInfo(path: string, serialNumber: string)

  /**
   * The selectors of the configuration. A falsy selector is ignored:
   * `""` for a path or serial number, `0` for an index.
   */
  datatype Selector = Selector(path: string, serialNumber: string, index: int)

  /** The `find` callback of `init`: the device at `index` passes every set selector. */
  predicate Matches(sel: Selector, d: DeviceInfo, index: nat) {
    (sel.path == "" || d.path == sel.path) &&
    (sel.serialNumber == "" || d.serialNumber == sel.serialNumber) &&
    (sel.index == 0 || index == sel.index)
  }

  /** The position of the first device, from `from` on, that matches. */
  function FindFrom(devices: seq<DeviceInfo>, sel: Selector, from: nat): (r: Option<nat>)
    requires from <= |devices|
    ensures r.Some? ==> from <= r.value < |devices| && Matches(sel, devices[r.value], r.value)
    ensures r.Some? ==> forall j :: from <= j < r.value ==> !Matches(sel, devices[j], j)
    ensures r.None? <==> forall j :: from <= j < |devices| ==> !Matches(sel, devices[j], j)
    decreases |devices| - from
  {
    if from == |devices| then None
    else if Matches(sel, devices[from], from) then Some(from)
    else FindFrom(devices, sel, from + 1)
  }

  /** `allDevices.find(...)`: the first listed device that matches, by position. */
  function FindDevice(devices: seq<DeviceInfo>, sel: Selector): (r: Option<nat>)
    ensures r.Some? ==> r.value < |devices| && Matches(sel, devices[r.value], r.value)
    ensures r.Some? ==> forall j :: 0 <= j < r.value ==> !Matches(sel, devices[j], j)
    ensures r.None? <==> forall j :: 0 <= j < |devices| ==> !Matches(sel, devices[j], j)
  {
    FindFrom(devices, sel, 0)
  }

  /** With no selector set, the first listed device is chosen, if there is one. */
  lemma NoSelectorPicksFirst(devices: seq<DeviceInfo>)
    ensures FindDevice(devices, Selector("", "", 0)) == if devices == [] then None else Some(0)
  {
  }

  /**
   * An index selector alone picks exactly that position; index 0 cannot be
   * selected this way, since 0 reads as "not set" and picks the first device.
   */
  lemma IndexSelectorPicksPosition(devices: seq<DeviceInfo>, k: int)
    ensures 0 < k < |devices| ==> FindDevice(devices, Selector("", "", k)) == Some(k)
    ensures (k < 0 || k >= |devices|) ==> FindDevice(devices, Selector("", "", k)).None?
  {
    if 0 < k < |devices| {
      assert Matches(Selector("", "", k), devices[k], k);
    }
  }

  /** The error `init` throws when opening the selected device fails. */
  function OpenError(path: string): string {
    "Could not open device: \"" + path + "\""
  }

  class StreamDeckDevice {
    const selector: Selector
    const brightness: Option<int>
    const stylePresets: Option<seq<StylePreset>>
    /** The trigger parser the redraws use: the written one, or the corrected one. */
    const parser: Parser

    /** The open device, represented by its `CONTROLS`; `None` until `init` succeeds. */
    var streamDeck: Option<seq<ControlDef>>
    var feedbacks: Store
    var isButtonDown: map<string, bool>

    ghost var commands: seq<DeviceCommand>
    ghost var emitted: seq<Emitted>

    constructor (selector: Selector, brightness: Option<int>, stylePresets: Option<seq<StylePreset>>, parser: Parser)
      ensures this.selector == selector && this.brightness == brightness && this.stylePresets == stylePresets
      ensures this.parser == parser
      ensures streamDeck.None? && feedbacks == EmptyStore && isButtonDown == map[]
      ensures commands == [] && emitted == []
    {
      this.selector := selector;
      this.brightness := brightness;
      this.stylePresets := stylePresets;
      this.parser := parser;
      streamDeck := None;
      feedbacks := EmptyStore;
      isButtonDown := map[];
      commands := [];
      emitted := [];
    }

    /**
     * `init`: select a device from `devices`; `openResult` is what opening it
     * gives (`None` when it fails). On success the device is kept, its
     * brightness set and its panel cleared.
     */
    method Init(devices: seq<DeviceInfo>, openResult: Option<seq<ControlDef>>) returns (r: Outcome)
      modifies this
      ensures FindDevice(devices, selector).None? ==>
                r == Fail("Matching device not found") &&
                streamDeck == old(streamDeck) && commands == old(commands)
      ensures FindDevice(devices, selector).Some? && openResult.None? ==>
                r == Fail(OpenError(devices[FindDevice(devices, selector).value].path)) &&
                streamDeck == old(streamDeck) && commands == old(commands)
      ensures FindDevice(devices, selector).Some? && openResult.Some? ==>
                r == Pass && streamDeck == openResult &&
                commands == old(commands) + [SetBrightness(brightness.GetOr(DEFAULT_BRIGHTNESS)), ClearPanel]
      ensures feedbacks == old(feedbacks) && isButtonDown == old(isButtonDown) && emitted == old(emitted)
    {
      var found := FindDevice(devices, selector);
      if found.None? {
        return Fail("Matching device not found");
      }
      if openResult.None? {
        return Fail(OpenError(devices[found.value].path));
      }
      streamDeck := openResult;
      commands := commands + [SetBrightness(brightness.GetOr(DEFAULT_BRIGHTNESS)), ClearPanel];
      r := Pass;
    }

    /** `destroy`: close the device if one is open. */
    method Destroy()
      modifies this
      ensures commands == old(commands) + (if streamDeck.Some? then [Close] else [])
      ensures streamDeck == old(streamDeck) && feedbacks == old(feedbacks)
      ensures isButtonDown == old(isButtonDown) && emitted == old(emitted)
    {
      if streamDeck.Some? {
        commands := commands + [Close];
      }
    }

    /** `updateFeedback`: redraw `trigger` if a device is open, otherwise do nothing. */
    method UpdateFeedback(trigger: string, isDown: bool)
      modifies this
      ensures commands == old(commands) +
                (if streamDeck.Some? then Redraw(parser, trigger, feedbacks, streamDeck.value, TallyFree, stylePresets, isDown)
                 else [])
      ensures streamDeck == old(streamDeck) && feedbacks == old(feedbacks)
      ensures isButtonDown == old(isButtonDown) && emitted == old(emitted)
    {
      if streamDeck.Some? {
        commands := commands + Redraw(parser, trigger, feedbacks, streamDeck.value, TallyFree, stylePresets, isDown);
      }
    }

    /**
     * A device listener (registered only once a device is open): emit the
     * trigger, record a press or release, and redraw the control.
     */
    method OnControlEvent(c: ControlDef, ev: ControlEvent)
      requires streamDeck.Some?
      modifies this
      ensures streamDeck == old(streamDeck) && feedbacks == old(feedbacks)
      ensures emitted == old(emitted) + [EmittedFor(c, ev)]
      ensures isButtonDown == DownStateAfter(old(isButtonDown), TriggerId(c), ev)
      ensures commands == old(commands) +
                Redraw(parser, TriggerId(c), feedbacks, streamDeck.value, TallyFree, stylePresets, IsDown(isButtonDown, TriggerId(c)))
    {
      var id := TriggerId(c);
      emitted := emitted + [EmittedFor(c, ev)];
      isButtonDown := DownStateAfter(isButtonDown, id, ev);
      UpdateFeedback(id, IsDown(isButtonDown, id));
    }

    /**
     * `setFeedback`: nothing at all without an open device or without an
     * action; otherwise store the feedback and redraw the id.
     */
    method SetFeedback(triggerId: string, fb: Option<Feedback>)
      modifies this
      ensures var (id, action) := SplitTrigger(triggerId);
              if streamDeck.None? || action == "" then
                feedbacks == old(feedbacks) && commands == old(commands)
              else
                feedbacks == StoreSet(old(feedbacks), id, action, fb) &&
                commands == old(commands) +
                  Redraw(parser, id, feedbacks, streamDeck.value, TallyFree, stylePresets, IsDown(isButtonDown, id))
      ensures streamDeck == old(streamDeck) && isButtonDown == old(isButtonDown) && emitted == old(emitted)
    {
      if streamDeck.None? {
        return;
      }
      var p := Parse(parser, triggerId);
      if p.action == "" {
        return;
      }
      feedbacks := StoreSet(feedbacks, p.id, p.action, fb);
      UpdateFeedback(p.id, IsDown(isButtonDown, p.id));
    }

    /**
     * `clearFeedbackAll`: empty the store (with or without a device), then
     * redraw, unpressed, every id that held feedback before.
     */
    method ClearFeedbackAll() returns (ids: seq<string>)
      modifies this
      ensures feedbacks == EmptyStore
      ensures Distinct(ids) && (forall k :: k in ids <==> k in old(feedbacks))
      ensures streamDeck == old(streamDeck) && isButtonDown == old(isButtonDown) && emitted == old(emitted)
      ensures streamDeck.None? ==> commands == old(commands)
      ensures streamDeck.Some? ==>
                commands == old(commands) + BlankRedraws(parser, ids, streamDeck.value, TallyFree, stylePresets)
    {
      ids := AllFeedbackIds(feedbacks);
      feedbacks := EmptyStore;
      for i := 0 to |ids|
        invariant streamDeck == old(streamDeck) && isButtonDown == old(isButtonDown) && emitted == old(emitted)
        invariant feedbacks == EmptyStore
        invariant streamDeck.None? ==> commands == old(commands)
        invariant streamDeck.Some? ==>
                    commands == old(commands) + BlankRedraws(parser, ids[..i], streamDeck.value, TallyFree, stylePresets)
      {
        if streamDeck.Some? {
          BlankRedrawsAppend(parser, old(commands), ids[..i], ids[i], streamDeck.value, TallyFree, stylePresets);
        }
        assert ids[..i + 1] == ids[..i] + [ids[i]];
        UpdateFeedback(ids[i], false);
      }
      assert ids[..|ids|] == ids;
    }
  }
}
