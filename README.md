# Stream Deck integration and send queue: a Dafny model

This project models three pieces of the input gateway and input manager.

**The Stream Deck trigger codec and feedback dispatch.** There are two near-duplicate classes:
- the per-connection TCP handler `StreamDeckDeviceHandler`, in `device.ts`;
- the USB device `StreamDeckDevice`, in `index.ts`.

Both classes share the following logic:
- a control becomes a trigger id: `""`, `Enc` or `LCD`, followed by its number;
- a trigger string `"<id> <action>"` is parsed back into `{id, key, encoder, lcdSegment, action}`;
- style presets are resolved from a feedback's class names;
- one redraw of a trigger produces device commands: clear a key, fill a key, or fill an LCD segment;
- each session keeps a feedback store and a pressed-state record.

The two classes differ in two places:
- The TCP handler resolves styles with tally qualifiers (`:active`, `:next`, `:other`, `:present`). The USB device looks up bare names only.
- The USB device selects and opens a device in `init`. Until that succeeds, its feedback operations do nothing.

**The TCP reconnect proxy** `StreamDeckTcpProxy` (`tcp-proxy.ts`).
- When a device connects, it creates a handler only if that device has controls and no handler exists yet; otherwise the connection is ignored. It caches every feedback it is given.
- After a new handler's `init`, it replays the cache to that handler.

**`SendQueue`** (`sendQueue.ts`). This is a FIFO queue of asynchronous jobs with:
- a `paused` flag;
- an auto-start rule;
- removal by class name;
- `clear`.

The queue runs one job at a time (`SingleDrain`: at most one job in flight, and one exactly when the queue is not paused), with or without `autoStart`: `add`, the settling of a job, `clear` and `remove` keep that, and so does `start` on a paused queue. But `start` itself has no guard, so calling it by hand while a drain runs starts a second drain beside it (`SendQueue.ManualStartRunsTwoDrains`). Whether any caller does so is outside the modelled core.

## Modules

The modules follow that structure:
- `Wrappers`: `Option`, `Outcome`, `Distinct`, and the enumeration of a finite set.
- `Feedback`: feedback values, the action names and their display priority, and the feedback store.
- `Styles`: both style resolutions and how they relate to each other.
- `TriggerCodec`: the id grammar. It contains the parser as written, the corrected parser, the choice `Parser` between them, and the round trips.
- `Dispatch`: `updateFeedback` as a list of device commands, plus the control-size lookups.
- `ControlEvents`: what a device listener emits and how it updates the pressed state.
- `StreamDeckHandler`: the TCP handler class.
- `StreamDeckUsb`: the USB device class and its device selection.
- `TcpProxy`: the proxy class. The calls it makes on its handlers are kept as a ghost log.
- `SendQueue`: the queue class.

## How the model represents the environment

Images, devices and concurrency are represented as follows:
- **Images.** The rasteriser is not modelled. An image is the term `Bitmap(feedback, width, height, pressed)`.
- **Device writes.** Writes to a device are `DeviceCommand` values, recorded in a ghost log.
- **Emitted triggers.** Triggers emitted to the controller are `Emitted` values, recorded in a second ghost log.
- **`listStreamDecks` and `openStreamDeck`.** Their results are parameters of `Init`.
- **Asynchronous completion.** Each asynchronous completion is a separate method:
  - the proxy's handler-`init` success is `OnHandlerInitSucceeded`;
  - a queued job settling is `JobSettled`.
- **A drain of the queue.** A running drain is represented by the job it is awaiting.

`Number(id)` never returns null or undefined, so the `?? 0` fallback never applies: an id such as `abc` gives the key NaN, not 0 (device.ts:215). The model reads every id that is not a decimal digit string as NaN (see Left out). Clearing such a key is still attempted, and a NaN key is never a valid button index.

## Model

| member | source | states |
|---|---|---|
| Feedback.StoreSetSlots | packages/input-manager/src/integrations/streamdeck/device.ts:326 | setting a slot makes the (id, action) slot hold the new feedback; every other slot of the id and every other id keep what they held |
| Feedback.StoreGet | packages/input-manager/src/integrations/streamdeck/device.ts:225 | an id without slots yields no feedback (the store's semantics are assumed, see Left out) |
| Feedback.AllFeedbackIds | packages/input-manager/src/integrations/streamdeck/device.ts:332 | the ids returned are exactly the ids in the store, each once |
| Feedback.GetFindsFirstSlot | packages/input-manager/src/integrations/streamdeck/device.ts:225 | the feedback shown is the one in the slot of the first action in priority order that has a slot |
| Feedback.GetWithoutSlots | packages/input-manager/src/integrations/streamdeck/device.ts:225 | when no action in the priority list has a slot, there is no feedback |
| Feedback.SetCommutes | packages/input-manager/src/integrations/streamdeck/device.ts:326 | setting two different actions of one id gives the same store in either order |
| Feedback.DownShownOverUp | packages/input-manager/src/integrations/streamdeck/device.ts:347 | with DOWN and UP feedback both set on a trigger, in either order, the DOWN feedback is shown |
| Styles.FindPreset | packages/input-manager/src/integrations/streamdeck/device.ts:275-277 | the result is the first preset whose id equals the name, or none exactly when no preset has that id |
| Styles.HighestQualifier | packages/input-manager/src/integrations/streamdeck/device.ts:278-299 | the only qualifier tried is the highest set tally bit, in the order ACTIVE, NEXT, OTHER, PRESENT; no qualifier without tally |
| Styles.ResolveName | packages/input-manager/src/integrations/streamdeck/device.ts:275-299 | a qualified preset wins over the bare one; the bare one is the fallback; resolution fails exactly when both lookups fail |
| Styles.ResolveNameBareFallback | packages/input-manager/src/integrations/streamdeck/device.ts:275-299 | when there is no tally qualifier, or no preset for the qualified name, the result is exactly the bare-name lookup |
| Styles.FirstResolved | packages/input-manager/src/integrations/streamdeck/device.ts:274-308 | the result is the resolution of the first class name that resolves, or none exactly when no name resolves |
| Styles.ConvertTallyAware | packages/input-manager/src/integrations/streamdeck/device.ts:269-311 | only the style can change; without class names or presets the feedback is returned unchanged |
| Styles.TallyAwareOutcome | packages/input-manager/src/integrations/streamdeck/device.ts:269-311 | the feedback is unchanged when nothing resolves; otherwise its style is that of the first class name that resolves |
| Styles.NoFallbackToLowerQualifier | packages/input-manager/src/integrations/streamdeck/device.ts:278-299 | a preset for a lower qualifier is never used, even when it is the only preset that matches |
| Styles.ActiveQualifierExample | packages/input-manager/src/integrations/streamdeck/device.ts:279-283 | with ACTIVE set, `X:active` is chosen over `X`, and `X` is used when it is the only preset |
| Styles.FirstBareMatch | packages/input-manager/src/integrations/streamdeck/index.ts:275-294 | the result is the preset of the first class name that names a preset exactly, or none exactly when no name does |
| Styles.ConvertTallyFree | packages/input-manager/src/integrations/streamdeck/index.ts:275-294 | only the style can change; without class names or presets the feedback is returned unchanged |
| Styles.FirstResolvedIgnoringTally | packages/input-manager/src/integrations/streamdeck/index.ts:275-294 | without tally bits, the tally-aware search and the bare search agree |
| Styles.TallyFreeIsTallyAwareWithoutTally | packages/input-manager/src/integrations/streamdeck/index.ts:275-294 | the USB resolution is the TCP resolution with the tally cleared, and the two agree on feedback without tally |
| TriggerCodec.NatToStringDigits | packages/input-manager/src/integrations/streamdeck/device.ts:187-189 | a number renders as a non-empty decimal digit string with no leading zero whose value is the number |
| TriggerCodec.ToNumber | packages/input-manager/src/integrations/streamdeck/device.ts:215 | a digit string is a number (the empty string is 0); anything else is NaN |
| TriggerCodec.TriggerIdShape | packages/input-manager/src/integrations/streamdeck/device.ts:169-191 | an id is the prefix of the control kind followed by the decimal digits of its index (or segment id), and has no whitespace |
| TriggerCodec.TriggerIdInjective | packages/input-manager/src/integrations/streamdeck/device.ts:169-191 | two controls with the same id have the same kind and the same number |
| TriggerCodec.IdShape | packages/input-manager/src/integrations/streamdeck/device.ts:207-216 | a button id takes the numeric branch with the button index as key; an encoder id takes the `Enc` branch and an LCD id the `LCD` branch, each with its number |
| TriggerCodec.TakeWord | packages/input-manager/src/integrations/streamdeck/device.ts:200 | the first field is the longest whitespace-free prefix of the trigger |
| TriggerCodec.DropSpaces | packages/input-manager/src/integrations/streamdeck/device.ts:200 | a separator is a maximal run of whitespace |
| TriggerCodec.Fields | packages/input-manager/src/integrations/streamdeck/device.ts:200 | a split gives at least one field, and no field contains whitespace (that the fields are cut at maximal whitespace runs is `TriggerCodec.FieldsSplitAtRun`) |
| TriggerCodec.DropSpacesRun | packages/input-manager/src/integrations/streamdeck/device.ts:200 | a whole whitespace run is skipped, up to the next non-whitespace character |
| TriggerCodec.FieldsSplitAtRun | packages/input-manager/src/integrations/streamdeck/device.ts:200 | `split(/\s+/)` cuts at maximal whitespace runs: a word, a non-empty run of whitespace and a rest that starts with non-whitespace split into that word followed by the fields of the rest |
| TriggerCodec.TakeWordStrip | packages/input-manager/src/integrations/streamdeck/device.ts:200 | taking the first field loses no non-whitespace character |
| TriggerCodec.DropSpacesStrip | packages/input-manager/src/integrations/streamdeck/device.ts:200 | skipping a separator loses no non-whitespace character |
| TriggerCodec.FieldsConcat | packages/input-manager/src/integrations/streamdeck/device.ts:200 | the fields, joined together, are exactly the trigger's non-whitespace characters in order |
| TriggerCodec.TakeWordWhole | packages/input-manager/src/integrations/streamdeck/device.ts:200 | a whitespace-free word followed by whitespace or the end is taken whole |
| TriggerCodec.FieldsOfWord | packages/input-manager/src/integrations/streamdeck/device.ts:200-202 | a whitespace-free trigger is a single field, so its action is `''` |
| TriggerCodec.FieldsOfPair | packages/input-manager/src/integrations/streamdeck/device.ts:200-202 | `"<id> <action>"` splits into exactly the id and the action |
| TriggerCodec.SplitTrigger | packages/input-manager/src/integrations/streamdeck/device.ts:200-202 | the id and the action are whitespace-free fields (which fields they are is `TriggerCodec.SplitTriggerTokens`) |
| TriggerCodec.SplitTriggerTokens | packages/input-manager/src/integrations/streamdeck/device.ts:200-202 | the id is the first whitespace-separated token and the action the second, whatever whitespace separates them and whatever tokens follow; with no second token the action is `''` |
| TriggerCodec.TagsExclusive | packages/input-manager/src/integrations/streamdeck/device.ts:207-211 | no id matches both the `Enc` and the `LCD` pattern |
| TriggerCodec.ParseTriggerIdAsWritten | packages/input-manager/src/integrations/streamdeck/device.ts:193-217 | the code as written: the id and action are the first two fields, and an `LCD<n>` id has key, encoder and lcdSegment all undefined |
| TriggerCodec.ParseTriggerId | packages/input-manager/src/integrations/streamdeck/device.ts:193-217 | corrected parser: `Enc<n>` gives encoder = lcdSegment = n, `LCD<n>` gives lcdSegment = n, and any other id gives key = Number(id) |
| TriggerCodec.DecodedIsDecodeId | packages/input-manager/src/integrations/streamdeck/device.ts:207-216 | the decoding of each kind of control's id is the grammar branch for that id |
| TriggerCodec.ParseId | packages/input-manager/src/integrations/streamdeck/device.ts:183-217 | round trip: parsing a control's id, alone or followed by an action, gives back the control's kind and number and the action |
| TriggerCodec.AsWrittenDiffersOnlyOnLcd | packages/input-manager/src/integrations/streamdeck/device.ts:211-214 | the written and corrected parsers agree on every trigger, except for the lcdSegment of an `LCD<n>` id |
| TriggerCodec.LcdSegmentIdLost | packages/input-manager/src/integrations/streamdeck/device.ts:211-214 | for every LCD segment, the written parser loses the segment id and the corrected parser recovers it |
| Dispatch.ButtonLcdSize | packages/input-manager/src/integrations/streamdeck/device.ts:147-156 | the size belongs to a button with that index and an LCD; there is no size (the call throws) exactly when no such button exists |
| Dispatch.LcdSegmentSize | packages/input-manager/src/integrations/streamdeck/device.ts:158-167 | the size belongs to the segment with that id; there is no size (the call throws) exactly when no such segment exists |
| Dispatch.UpdateCommandsShape | packages/input-manager/src/integrations/streamdeck/device.ts:227-266 | without feedback: a clear exactly when there is a key, and otherwise only a blank, unpressed LCD image; with feedback: at most one image, drawn pressed as requested, on the key when the key is valid and otherwise on the LCD segment; a size lookup that throws is swallowed, so with feedback nothing is written, and without feedback only the key clear before it remains |
| Dispatch.UpdateButton | packages/input-manager/src/integrations/streamdeck/device.ts:241-251 | a valid key with an LCD is cleared without feedback and filled with the feedback otherwise |
| Dispatch.RedrawButton | packages/input-manager/src/integrations/streamdeck/device.ts:219-251 | under either parser, redrawing an LCD button clears its key when there is no feedback, and fills it with the feedback and pressed state otherwise |
| Dispatch.RedrawEncoder | packages/input-manager/src/integrations/streamdeck/device.ts:219-263 | under either parser, redrawing an encoder draws on the LCD segment with the encoder's index |
| Dispatch.UpdateSegment | packages/input-manager/src/integrations/streamdeck/device.ts:252-262 | a known segment gets exactly one image |
| Dispatch.RedrawLcdSegment | packages/input-manager/src/integrations/streamdeck/device.ts:219-263 | with the corrected parser, redrawing an LCD segment fills that segment with its feedback, or with a blank image |
| Dispatch.RedrawLcdSegmentAsWritten | packages/input-manager/src/integrations/streamdeck/device.ts:211-263 | with the parser as written, `Redraw` of an LCD segment's id writes nothing at all |
| Dispatch.RedrawEmptyIsBlank | packages/input-manager/src/integrations/streamdeck/device.ts:228-238 | against an empty store, a redraw only clears keys or draws blank, unpressed LCD images |
| Dispatch.BlankRedrawsAreBlank | packages/input-manager/src/integrations/streamdeck/device.ts:331-340 | nothing redrawn after a clear shows feedback |
| ControlEvents.ActionName | packages/input-manager/src/integrations/streamdeck/device.ts:44-124 | every listener appends a non-empty, whitespace-free action name |
| ControlEvents.EmittedTriggerDecodes | packages/input-manager/src/integrations/streamdeck/device.ts:44-124 | under either parser, every emitted trigger parses back to the id of the control that fired and the action that happened; the corrected parser recovers every number, the written one all but an LCD segment's |
| TriggerCodec.ParseControlId | packages/input-manager/src/integrations/streamdeck/device.ts:193-217 | under either parser a control's id, alone or with an action, parses to that id, action and numbers, except that the written parser drops an LCD segment's number |
| ControlEvents.PressedStateFollowsLastEvent | packages/input-manager/src/integrations/streamdeck/device.ts:44-63 | after down the control reads as pressed, after up as released; other events and other controls are unchanged |
| StreamDeckHandler.StreamDeckDeviceHandler.constructor | packages/input-manager/src/integrations/streamdeck/device.ts:25-36 | a new handler has an empty store, nothing pressed, no listeners, and the given trigger parser |
| StreamDeckHandler.StreamDeckDeviceHandler.Init | packages/input-manager/src/integrations/streamdeck/device.ts:38-130 | sets the configured brightness (100 by default), registers the listeners, and clears the panel |
| StreamDeckHandler.StreamDeckDeviceHandler.Destroy | packages/input-manager/src/integrations/streamdeck/device.ts:132-141 | a TCP device is blanked and any other device is closed |
| StreamDeckHandler.StreamDeckDeviceHandler.UpdateFeedback | packages/input-manager/src/integrations/streamdeck/device.ts:219-267 | issues exactly the commands of one redraw and changes nothing else; every redraw parses with the instance's `parser`, the written one (an LCD segment's id then redraws nothing) or the corrected one |
| StreamDeckHandler.StreamDeckDeviceHandler.OnControlEvent | packages/input-manager/src/integrations/streamdeck/device.ts:44-124 | emits the event's trigger, records press or release, and redraws the control with its current pressed state; every redraw parses with the instance's `parser`, the written one (an LCD segment's id then redraws nothing) or the corrected one |
| StreamDeckHandler.StreamDeckDeviceHandler.SetFeedback | packages/input-manager/src/integrations/streamdeck/device.ts:319-329 | without an action nothing changes; otherwise the (id, action) slot is set and the id is redrawn with its pressed state; every redraw parses with the instance's `parser`, the written one (an LCD segment's id then redraws nothing) or the corrected one |
| StreamDeckHandler.StreamDeckDeviceHandler.ClearFeedbackAll | packages/input-manager/src/integrations/streamdeck/device.ts:331-340 | the store is emptied, then every id it held before is redrawn blank and unpressed, each exactly once; every redraw parses with the instance's `parser`, the written one (an LCD segment's id then redraws nothing) or the corrected one |
| StreamDeckUsb.FindFrom | packages/input-manager/src/integrations/streamdeck/index.ts:31-38 | the first matching position from a start point on, or none exactly when no later device matches |
| StreamDeckUsb.FindDevice | packages/input-manager/src/integrations/streamdeck/index.ts:31-38 | the first listed device that satisfies every selector that is set, or none exactly when no device does |
| StreamDeckUsb.NoSelectorPicksFirst | packages/input-manager/src/integrations/streamdeck/index.ts:31-38 | with no selector set, the first device is chosen |
| StreamDeckUsb.IndexSelectorPicksPosition | packages/input-manager/src/integrations/streamdeck/index.ts:35 | an index selector alone picks that position, or nothing when the index is out of range |
| StreamDeckUsb.StreamDeckDevice.constructor | packages/input-manager/src/integrations/streamdeck/index.ts:24-27 | a new device object has no open device, an empty store, nothing pressed, and the given trigger parser |
| StreamDeckUsb.StreamDeckDevice.Init | packages/input-manager/src/integrations/streamdeck/index.ts:29-141 | fails with 'Matching device not found', or with the open error naming the path; on success it keeps the device, sets the brightness and clears the panel |
| StreamDeckUsb.StreamDeckDevice.Destroy | packages/input-manager/src/integrations/streamdeck/index.ts:143-147 | closes the device if one is open |
| StreamDeckUsb.StreamDeckDevice.UpdateFeedback | packages/input-manager/src/integrations/streamdeck/index.ts:225-273 | without an open device nothing is written; otherwise it issues one redraw using tally-free styles; every redraw parses with the instance's `parser`, the written one (an LCD segment's id then redraws nothing) or the corrected one |
| StreamDeckUsb.StreamDeckDevice.OnControlEvent | packages/input-manager/src/integrations/streamdeck/index.ts:58-135 | emits the trigger, records press or release, and redraws the control with its current pressed state; every redraw parses with the instance's `parser`, the written one (an LCD segment's id then redraws nothing) or the corrected one |
| StreamDeckUsb.StreamDeckDevice.SetFeedback | packages/input-manager/src/integrations/streamdeck/index.ts:302-312 | without an open device or without an action nothing changes; otherwise the slot is set and the id is redrawn; every redraw parses with the instance's `parser`, the written one (an LCD segment's id then redraws nothing) or the corrected one |
| StreamDeckUsb.StreamDeckDevice.ClearFeedbackAll | packages/input-manager/src/integrations/streamdeck/index.ts:314-323 | the store is always emptied; with an open device, every id held before is redrawn blank, each exactly once; every redraw parses with the instance's `parser`, the written one (an LCD segment's id then redraws nothing) or the corrected one |
| TcpProxy.ReplayCallsShape | packages/input-manager/src/integrations/streamdeck/tcp-proxy.ts:69-76 | the replay is one `setFeedback` per key, to the captured handler, carrying that key's cached feedback |
| TcpProxy.ReplayDeliversEveryEntry | packages/input-manager/src/integrations/streamdeck/tcp-proxy.ts:69-76 | the replay delivers every cache entry exactly once and nothing else |
| TcpProxy.ForwardKeepsTrack | packages/input-manager/src/integrations/streamdeck/tcp-proxy.ts:92-105 | forwarding a call to an existing handler never creates or destroys a handler |
| TcpProxy.StreamDeckTcpProxy.constructor | packages/input-manager/src/integrations/streamdeck/tcp-proxy.ts:19-28 | a new proxy has no handler and an empty cache, and has made no calls |
| TcpProxy.StreamDeckTcpProxy.AtMostOneLive | packages/input-manager/src/integrations/streamdeck/tcp-proxy.ts:56-63 | there are never two live handlers |
| TcpProxy.StreamDeckTcpProxy.Init | packages/input-manager/src/integrations/streamdeck/tcp-proxy.ts:30-85 | registers the listeners; without an IP it fails before any connect attempt, otherwise it connects to the configured ip and port |
| TcpProxy.StreamDeckTcpProxy.OnConnected | packages/input-manager/src/integrations/streamdeck/tcp-proxy.ts:49-68 | a device without controls, or a device arriving while a handler exists, changes nothing; otherwise a new handler becomes current and is initialised; at most one handler is ever live |
| TcpProxy.StreamDeckTcpProxy.OnHandlerInitSucceeded | packages/input-manager/src/integrations/streamdeck/tcp-proxy.ts:65-79 | every cache entry is sent once to the handler that was initialised, whether or not it is still current |
| TcpProxy.StreamDeckTcpProxy.OnDisconnected | packages/input-manager/src/integrations/streamdeck/tcp-proxy.ts:36-47 | destroys the current handler, if any, and always unsets it |
| TcpProxy.StreamDeckTcpProxy.Destroy | packages/input-manager/src/integrations/streamdeck/tcp-proxy.ts:86-90 | disconnects from everything and destroys the current handler, if any |
| TcpProxy.StreamDeckTcpProxy.SetFeedback | packages/input-manager/src/integrations/streamdeck/tcp-proxy.ts:92-98 | always caches the feedback; forwards it only while a handler exists |
| TcpProxy.StreamDeckTcpProxy.ClearFeedbackAll | packages/input-manager/src/integrations/streamdeck/tcp-proxy.ts:99-105 | always empties the cache; forwards the call only while a handler exists |
| SendQueue.KeepOthers | packages/input-gateway/src/sendQueue.ts:44 | keeps exactly the jobs whose class name differs from the one given |
| SendQueue.KeepOthersIncreasing | packages/input-gateway/src/sendQueue.ts:44 | the jobs that stay keep their relative order |
| SendQueue.KeepOthersIdempotent | packages/input-gateway/src/sendQueue.ts:43-45 | removing a class twice is the same as removing it once |
| SendQueue.KeepOthersWithoutClass | packages/input-gateway/src/sendQueue.ts:43-45 | a queue without jobs of the class is left unchanged |
| SendQueue.TakeFirstKeepsOrder | packages/input-gateway/src/sendQueue.ts:52 | taking the head keeps the jobs started and the jobs waiting in the order they were added |
| SendQueue.Settle | packages/input-gateway/src/sendQueue.ts:54-59 | a job resolves exactly when it succeeds and is rejected otherwise |
| SendQueue.SettleNew | packages/input-gateway/src/sendQueue.ts:54-59 | settling a job that had not settled keeps every job settled at most once |
| SendQueue.AppendKeepsOrder | packages/input-gateway/src/sendQueue.ts:29-34 | a job pushed at the tail comes after every job started or waiting |
| SendQueue.RemoveAwaited | packages/input-gateway/src/sendQueue.ts:54-59 | a settled job leaves the jobs in flight, and only that job does |
| SendQueue.SendQueue.constructor | packages/input-gateway/src/sendQueue.ts:19-25 | the queue starts empty and paused, with no drain running; `autoStart` defaults to true |
| SendQueue.SendQueue.WaitingJobHasDrain | packages/input-gateway/src/sendQueue.ts:35 | with `autoStart`, a waiting job always has a running drain ahead of it |
| SendQueue.SendQueue.TakeNext | packages/input-gateway/src/sendQueue.ts:51-61 | one turn of the drain loop: the head job is shifted and awaited, or, with the queue empty, the loop ends and the queue is paused; all queue invariants hold afterwards |
| SendQueue.SendQueue.Start | packages/input-gateway/src/sendQueue.ts:47-65 | unpauses and takes the head job, or pauses again at once when the queue is empty; started from a paused queue that runs one job at a time, it keeps doing so |
| SendQueue.ManualStartRunsTwoDrains | packages/input-gateway/src/sendQueue.ts:47-65 | `start` has no guard: with `autoStart`, two adds and a manual `start` leave two jobs in flight together |
| SendQueue.SendQueue.Add | packages/input-gateway/src/sendQueue.ts:27-37 | appends exactly one job; a paused queue with `autoStart` starts and takes that job at once; otherwise the state does not change; a queue that ran one job at a time still does |
| SendQueue.SendQueue.JobSettled | packages/input-gateway/src/sendQueue.ts:51-61 | records the outcome of this one job only; the drain then takes the next job in FIFO order, or pauses the queue when it is empty; a queue that ran one job at a time still does |
| SendQueue.SendQueue.Clear | packages/input-gateway/src/sendQueue.ts:39-41 | empties the waiting jobs; the jobs in flight are not affected; a queue that ran one job at a time still does |
| SendQueue.SendQueue.Remove | packages/input-gateway/src/sendQueue.ts:43-45 | keeps exactly the waiting jobs of other classes, in order; the jobs in flight are not affected; a queue that ran one job at a time still does |

## Left out

- `FeedbackStore` is not part of this model. `Feedback.StoreSet` and `Feedback.StoreGet` give it the assumed semantics of a map from id to action slots, where `get` takes the first action in priority order that has a slot. Likewise, `Feedback.AllFeedbackIds` returns the ids in an unspecified order.
- The `Symbols` constants are not part of this model. The action names (`Down`, `Up`, `Jog`, and so on) are assumed spellings; only their being distinct matters.
- Tally is four independent flags. The numeric bit encoding is not modelled.
- The bitmap rasteriser (`getBitmap`) is not part of this model. It involves a foreign canvas library, floating-point scaling and file probing. An image is the symbolic term `Bitmap(...)`.
- Device I/O, `listStreamDecks`, `openStreamDeck` and the TCP connection manager are left out as behaviour: they appear only as commands, parameters or recorded targets. Exceptions thrown by device writes are not modelled. Only the thrown size lookup, which ends a redraw, is modelled.
- Logging, the device `error` listener and the connection `error` listener are left out: they only log or re-emit.
- ControlEvents.EmittedFor: rotation is emitted as one analog update carrying the delta. The accumulation and rate limiting done by `updateTriggerAnalog` in the `Device` base class are not modelled, because that class is not part of this model.
- Concurrency. The `Promise.all` fan-outs in `clearFeedbackAll` and in the proxy's replay are modelled as sequential loops in an unspecified order. Their interleaving with other events is not modelled.
- The replay race in `tcp-proxy.ts`. The replay goes to the handler that was initialised, and the model shows this. How it interleaves with later connect and disconnect events is not explored.
- TcpProxy.StreamDeckTcpProxy.OnConnected: the proxy does not record which device a handler was created for. Only the number of controls is inspected.
- StreamDeckUsb.StreamDeckDevice.Destroy: the `super.destroy()` call into the `Device` base class is not part of this model.
- JavaScript `Number()` is restricted to decimal digit strings. Hexadecimal, exponent and other spellings are all NaN here. The `?? 0` fallbacks in the parser can never fire, so they are absent.
- TriggerCodec.NatToString, TriggerCodec.ToNumber: numbers are exact naturals, while JavaScript numbers are doubles. `Number()` rounds digit strings above 2^53, and `${n}` renders 10^21 and above in exponent form. The round-trip and injectivity lemmas (`TriggerCodec.ParseId`, `TriggerCodec.ParseControlId`, `TriggerCodec.TriggerIdInjective`) therefore describe the code only for control numbers and ids below 2^53.
- SendQueue: the job functions and the promises they return are opaque. A job's outcome is the `ok` argument of `JobSettled`. Rejection errors and the `console.error` of the drain are not modelled.
- The HTTP integration, the gateway's process setup, the connector types and the packaging script are outside the modelled core.

## Findings

| source | as written | input that shows it | evidently intended | confidence | as-written member | corrected member |
|---|---|---|---|---|---|---|
| packages/input-manager/src/integrations/streamdeck/device.ts:211-214 (same code at packages/input-manager/src/integrations/streamdeck/index.ts:217-219) | in the `LCD<n>` branch, `lcdSegment` is copied from `encoder`, which that branch never sets, so `lcdSegment` stays undefined | the trigger `"LCD0 Tap"`: every LCD segment's id parses with no segment, and a redraw of an LCD segment writes nothing at all | `lcdSegment = Number(n)`, so that an LCD segment's feedback reaches that segment | high (not executed) | TriggerCodec.ParseTriggerIdAsWritten, TriggerCodec.LcdSegmentIdLost, Dispatch.RedrawLcdSegmentAsWritten | TriggerCodec.ParseTriggerId, Dispatch.RedrawLcdSegment |

Both device classes take the parser as a constructor argument: with `AsWritten` their redraws behave as the code does and never reach an LCD segment, with `Corrected` they fill it.
