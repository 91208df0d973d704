/**
 * `updateFeedback`: which device commands one redraw of a trigger issues.
 *
 * The rasteriser is not modelled: a `Bitmap` is the symbolic result of
 * `getBitmap(feedback, width, height, pressed)`, so two images are equal
 * exactly when they were requested with equal arguments. Device writes
 * are commands; a thrown error (an unknown control in a size lookup)
 * ends the command list, as the `try` around the body does.
 */
module Dispatch {
  import opened Wrappers
  import opened Feedback
  import opened Styles
  import opened TriggerCodec

  datatype Bitmap = Bitmap(feedback: Option<Feedback>, width: nat, height: nat, pressed: bool)

  datatype DeviceCommand =
    | SetBrightness(level: int)
    | ClearPanel
    | Close
    | ClearKey(key: JsNumber)
    | FillKey(keyIndex: nat, image: Bitmap)
    | FillLcd(segment: nat, image: Bitmap)

  /** `isValidButtonIndex`: some button of the device has this index. */
  predicate IsValidButtonIndex(controls: seq<ControlDef>, key: JsNumber) {
    key.Num? && exists i :: 0 <= i < |controls| && controls[i].ButtonControl? && controls[i].index == key.value
  }

  /** `getLCDSizeForButtonIndex`: the size of the first LCD button with this index; `None` throws. */
  function ButtonLcdSize(controls: seq<ControlDef>, index: nat): (r: Option<Size>)
    ensures r.None? <==> forall i :: 0 <= i < |controls| ==> !IsLcdButton(controls[i], index)
    ensures r.Some? ==> ButtonControl(index, r) in controls
  {
    if controls == [] then None
    else if IsLcdButton(controls[0], index) then controls[0].lcdSize
    else
      assert forall i :: 1 <= i < |controls| ==> controls[i] == controls[1..][i - 1];
      ButtonLcdSize(controls[1..], index)
  }

  /** A button with this index that has an LCD. */
  predicate IsLcdButton(c: ControlDef, index: nat) {
    c.ButtonControl? && c.index == index && c.lcdSize.Some?
  }

  /** `getLCDSizeForLCDSegmentId`: the size of the first LCD segment with this id; `None` throws. */
  function LcdSegmentSize(controls: seq<ControlDef>, id: nat): (r: Option<Size>)
    ensures r.None? <==> forall i :: 0 <= i < |controls| ==> !(controls[i].LcdSegmentControl? && controls[i].id == id)
    ensures r.Some? ==> LcdSegmentControl(id, r.value) in controls
  {
    if controls == [] then None
    else if controls[0].LcdSegmentControl? && controls[0].id == id then Some(controls[0].size)
    else
      assert forall i :: 1 <= i < |controls| ==> controls[i] == controls[1..][i - 1];
      LcdSegmentSize(controls[1..], id)
  }

  /** Fill LCD segment `segment` with an image of `fb`, if the segment exists. */
  function FillSegment(controls: seq<ControlDef>, segment: nat, fb: Option<Feedback>, pressed: bool): seq<DeviceCommand> {
    match LcdSegmentSize(controls, segment)
    case None => []
    case Some(size) => [FillLcd(segment, Bitmap(fb, size.width, size.height, pressed))]
  }

  /**
   * The body of `updateFeedback` once the feedback has been looked up and
   * styled: `shown` is `None` when the store holds no feedback.
   */
  function UpdateCommands(p: ParsedTrigger, shown: Option<Feedback>, controls: seq<ControlDef>, isDown: bool)
    : seq<DeviceCommand>
  {
    match shown
    case None =>
      (if p.key.Some? then [ClearKey(p.key.value)] else []) +
      (if p.lcdSegment.Some? then FillSegment(controls, p.lcdSegment.value, None, false) else [])
    case Some(_) =>
      if p.key.Some? && IsValidButtonIndex(controls, p.key.value) then
        match ButtonLcdSize(controls, p.key.value.value)
        case None => []
        case Some(size) => [FillKey(p.key.value.value, Bitmap(shown, size.width, size.height, isDown))]
      else if p.lcdSegment.Some? then
        FillSegment(controls, p.lcdSegment.value, shown, isDown)
      else []
  }

  /**
   * What one redraw may write. Without feedback: a clear of the key if
   * there is a key, and a blank, unpressed image for the LCD segment if
   * there is one. With feedback: at most one image of it, drawn with the
   * pressed state, on the key when the key is a valid button index and
   * otherwise on the LCD segment.
   */
  lemma UpdateCommandsShape(p: ParsedTrigger, shown: Option<Feedback>, controls: seq<ControlDef>, isDown: bool)
    ensures var r := UpdateCommands(p, shown, controls, isDown);
            (forall c :: c in r ==> c.ClearKey? || c.FillKey? || c.FillLcd?) &&
            (shown.None? ==> (HasClearKey(r) <==> p.key.Some?)) &&
            (shown.None? ==> forall c :: c in r && c.ClearKey? ==> Some(c.key) == p.key) &&
            (shown.None? ==> forall c :: c in r && !c.ClearKey? ==>
                c.FillLcd? && Some(c.segment) == p.lcdSegment && c.image.feedback.None? && !c.image.pressed) &&
            (shown.Some? ==> |r| <= 1) &&
            (shown.Some? ==> forall c :: c in r ==>
                !c.ClearKey? && c.image.feedback == shown && c.image.pressed == isDown) &&
            (shown.Some? && p.key.Some? && IsValidButtonIndex(controls, p.key.value) ==>
                forall c :: c in r ==> c.FillKey? && Num(c.keyIndex) == p.key.value) &&
            (shown.Some? && !(p.key.Some? && IsValidButtonIndex(controls, p.key.value)) ==>
                forall c :: c in r ==> c.FillLcd? && Some(c.segment) == p.lcdSegment) &&
            ((shown.Some? && p.key.Some? && IsValidButtonIndex(controls, p.key.value) &&
              ButtonLcdSize(controls, p.key.value.value).None?) ==> r == []) &&
            ((shown.Some? && !(p.key.Some? && IsValidButtonIndex(controls, p.key.value)) && p.lcdSegment.Some? &&
              LcdSegmentSize(controls, p.lcdSegment.value).None?) ==> r == []) &&
            (shown.None? && p.lcdSegment.Some? && LcdSegmentSize(controls, p.lcdSegment.value).None? ==>
                forall c :: c in r ==> c.ClearKey?)
  {
    var r := UpdateCommands(p, shown, controls, isDown);
    if shown.None? && p.key.Some? {
      assert r[0] == ClearKey(p.key.value);
    }
  }

  /** Whether some command is a ClearKey. */
  predicate HasClearKey(r: seq<DeviceCommand>) {
    exists c :: c in r && c.ClearKey?
  }

  /** The feedback a redraw shows: the store's choice for `id`, styled by the device's resolution. */
  function Shown(store: Store, id: string, mode: StyleMode, presets: Option<seq<StylePreset>>): Option<Feedback> {
    match StoreGet(store, id, ACTION_PRIORITIES)
    case None => None
    case Some(f) => Some(Convert(mode, f, presets))
  }

  /** One complete redraw of `trigger` (an id, possibly followed by an action), parsed by `parser`. */
  function Redraw(parser: Parser, trigger: string, store: Store, controls: seq<ControlDef>, mode: StyleMode,
                  presets: Option<seq<StylePreset>>, isDown: bool): seq<DeviceCommand>
  {
    var p := Parse(parser, trigger);
    UpdateCommands(p, Shown(store, p.id, mode, presets), controls, isDown)
  }

  /**
   * Redrawing a button with an LCD fills that key with the shown
   * feedback, pressed or not; with nothing to show, the key is cleared.
   */
  lemma RedrawButton(parser: Parser, index: nat, size: Size, store: Store, controls: seq<ControlDef>, mode: StyleMode,
                     presets: Option<seq<StylePreset>>, isDown: bool)
    requires ButtonLcdSize(controls, index) == Some(size)
    ensures var id := TriggerId(ButtonControl(index, Some(size)));
            var shown := Shown(store, id, mode, presets);
            Redraw(parser, id, store, controls, mode, presets, isDown) ==
              if shown.None? then [ClearKey(Num(index))]
              else [FillKey(index, Bitmap(shown, size.width, size.height, isDown))]
  {
    var c := ButtonControl(index, Some(size));
    var id := TriggerId(c);
    ParseControlId(parser, c, "");
    assert IsValidButtonIndex(controls, Num(index)) by {
      var k :| 0 <= k < |controls| && controls[k] == ButtonControl(index, Some(size));
    }
    UpdateButton(Parse(parser, id), index, size, Shown(store, id, mode, presets), controls, isDown);
  }

  lemma UpdateButton(p: ParsedTrigger, index: nat, size: Size, shown: Option<Feedback>,
                     controls: seq<ControlDef>, isDown: bool)
    requires p.key == Some(Num(index)) && p.lcdSegment.None?
    requires IsValidButtonIndex(controls, Num(index)) && ButtonLcdSize(controls, index) == Some(size)
    ensures UpdateCommands(p, shown, controls, isDown) ==
              if shown.None? then [ClearKey(Num(index))]
              else [FillKey(index, Bitmap(shown, size.width, size.height, isDown))]
  {
  }

  /**
   * Redrawing an encoder addresses the LCD segment with the encoder's
   * index: its image when there is feedback, a blank unpressed image otherwise.
   */
  lemma RedrawEncoder(parser: Parser, index: nat, store: Store, controls: seq<ControlDef>, mode: StyleMode,
                      presets: Option<seq<StylePreset>>, isDown: bool)
    ensures var id := TriggerId(EncoderControl(index));
            var shown := Shown(store, id, mode, presets);
            Redraw(parser, id, store, controls, mode, presets, isDown) ==
              FillSegment(controls, index, shown, shown.Some? && isDown)
  {
    ParseControlId(parser, EncoderControl(index), "");
  }

  /** Redrawing an LCD segment fills that segment (with the corrected parser). */
  lemma RedrawLcdSegment(segment: nat, size: Size, store: Store, controls: seq<ControlDef>, mode: StyleMode,
                         presets: Option<seq<StylePreset>>, isDown: bool)
    requires LcdSegmentSize(controls, segment) == Some(size)
    ensures var id := TriggerId(LcdSegmentControl(segment, size));
            var shown := Shown(store, id, mode, presets);
            Redraw(Corrected, id, store, controls, mode, presets, isDown) ==
              [FillLcd(segment, Bitmap(shown, size.width, size.height, shown.Some? && isDown))]
  {
    var id := TriggerId(LcdSegmentControl(segment, size));
    ParseControlId(Corrected, LcdSegmentControl(segment, size), "");
    UpdateSegment(Parse(Corrected, id), segment, size, Shown(store, id, mode, presets), controls, isDown);
  }

  lemma UpdateSegment(p: ParsedTrigger, segment: nat, size: Size, shown: Option<Feedback>,
                      controls: seq<ControlDef>, isDown: bool)
    requires p.key.None? && p.lcdSegment == Some(segment) && LcdSegmentSize(controls, segment) == Some(size)
    ensures UpdateCommands(p, shown, controls, isDown) ==
              [FillLcd(segment, Bitmap(shown, size.width, size.height, shown.Some? && isDown))]
  {
  }

  /**
   * With the parser as written, an LCD segment's id redraws nothing at
   * all: neither its feedback nor a blank image ever reaches the segment.
   */
  lemma RedrawLcdSegmentAsWritten(segment: nat, size: Size, store: Store, controls: seq<ControlDef>,
                                  mode: StyleMode, presets: Option<seq<StylePreset>>, isDown: bool)
    ensures Redraw(AsWritten, TriggerId(LcdSegmentControl(segment, size)), store, controls, mode, presets, isDown) == []
  {
    ParseControlId(AsWritten, LcdSegmentControl(segment, size), "");
  }

  /** After the store is emptied, a redraw never shows feedback: it only clears or blanks. */
  lemma RedrawEmptyIsBlank(parser: Parser, trigger: string, controls: seq<ControlDef>, mode: StyleMode,
                           presets: Option<seq<StylePreset>>, isDown: bool)
    ensures forall c :: c in Redraw(parser, trigger, EmptyStore, controls, mode, presets, isDown) ==>
              c.ClearKey? || (c.FillLcd? && c.image.feedback.None? && !c.image.pressed)
  {
  }

  /** The redraws that follow a clear: each id in turn, against the empty store, unpressed. */
  function BlankRedraws(parser: Parser, ids: seq<string>, controls: seq<ControlDef>, mode: StyleMode,
                        presets: Option<seq<StylePreset>>): seq<DeviceCommand>
  {
    if ids == [] then []
    else BlankRedraws(parser, ids[..|ids| - 1], controls, mode, presets) +
         Redraw(parser, ids[|ids| - 1], EmptyStore, controls, mode, presets, false)
  }

  /** One more id redrawn after a log: the log grows by that id's redraw. */
  lemma BlankRedrawsAppend(parser: Parser, log: seq<DeviceCommand>, ids: seq<string>, id: string, controls: seq<ControlDef>,
                           mode: StyleMode, presets: Option<seq<StylePreset>>)
    ensures log + BlankRedraws(parser, ids + [id], controls, mode, presets) ==
            log + BlankRedraws(parser, ids, controls, mode, presets) + Redraw(parser, id, EmptyStore, controls, mode, presets, false)
  {
    assert (ids + [id])[..|ids|] == ids;
  }

  /** Nothing a clear redraws shows feedback: every command clears a key or blanks a segment. */
  lemma {:induction false} BlankRedrawsAreBlank(parser: Parser, ids: seq<string>, controls: seq<ControlDef>, mode: StyleMode,
                                                presets: Option<seq<StylePreset>>)
    ensures forall c :: c in BlankRedraws(parser, ids, controls, mode, presets) ==>
              c.ClearKey? || (c.FillLcd? && c.image.feedback.None? && !c.image.pressed)
  {
    if ids != [] {
      BlankRedrawsAreBlank(parser, ids[..|ids| - 1], controls, mode, presets);
      RedrawEmptyIsBlank(parser, ids[|ids| - 1], controls, mode, presets, false);
    }
  }
}
