/**
 * The device facade: the position-mapper slot of a `Device`, and the
 * operations that issue input, clipboard, power-mode and rotation requests
 * to the Android services. The facade's static operations are module-level
 * methods taking the services they talk to as `os`.
 */
module Device {
  import opened Platform
  import opened Policy
  import opened Services

  datatype Point = Point(x: int, y: int)
  datatype Size = Size(width: int, height: int)
  /** A point together with the size of the frame it is expressed in. */
  datatype Position = Position(point: Point, screenSize: Size)
  /** Maps a position in video space to a physical point, or to none when it cannot. */
  datatype PositionMapper = PositionMapper(apply: Position -> Option<Point>)

  class Device {
    /** The mapper installed by the screen capture, if any. */
    var positionMapper: Option<PositionMapper>

    constructor ()
      ensures positionMapper == None
    {
      positionMapper := None;
    }

    /** `getPhysicalPoint`: none without a mapper; otherwise whatever the installed mapper answers. */
    method GetPhysicalPoint(position: Position) returns (p: Option<Point>)
      ensures positionMapper.None? ==> p == None
      ensures positionMapper.Some? ==> p == positionMapper.value.apply(position)
    {
      var mapper := positionMapper;
      if mapper.None? {
        return None;
      }
      p := mapper.value.apply(position);
    }

    /** `setPositionMapper`: replaces the installed mapper (null uninstalls it). */
    method SetPositionMapper(mapper: Option<PositionMapper>)
      modifies this
      ensures positionMapper == mapper
    {
      positionMapper := mapper;
    }
  }

  /**
   * A fresh device maps nothing; after two installations it maps with the
   * most recent mapper; after uninstalling it maps nothing again.
   */
  method LastMapperWins(m1: PositionMapper, m2: PositionMapper, position: Position)
    returns (initially: Option<Point>, afterTwo: Option<Point>, afterRemoval: Option<Point>)
    ensures initially == None
    ensures afterTwo == m2.apply(position)
    ensures afterRemoval == None
  {
    var device := new Device();
    initially := device.GetPhysicalPoint(position);
    device.SetPositionMapper(Some(m1));
    device.SetPositionMapper(Some(m2));
    afterTwo := device.GetPhysicalPoint(position);
    device.SetPositionMapper(None);
    afterRemoval := device.GetPhysicalPoint(position);
  }

  // ---------------------------------------------------------------------------
  // Input injection

  /**
   * The `injectInputEvent` call that `injectEvent` makes for `event` on
   * `displayId`: none when the display id cannot be tagged onto the event.
   */
  function InjectionOf(env: Environment, event: InputEvent, displayId: int, mode: int): (i: Option<Injection>) {
    if displayId == 0 then Some(Injection(event, mode))
    else if env.acceptsDisplayTag(event, displayId) then Some(Injection(event.(displayId := Some(displayId)), mode))
    else None
  }

  /** The injection log entries that an optional injection adds. */
  function Attempted(i: Option<Injection>): (log: seq<Injection>) {
    if i.Some? then [i.value] else []
  }

  /** Whether an optional injection happened and the input manager accepted it. */
  function Succeeds(env: Environment, i: Option<Injection>): (ok: bool) {
    i.Some? && env.acceptsInjection(i.value)
  }

  /**
   * `injectEvent`: injecting on a display that does not support input is a
   * caller error; on a secondary display the event is first tagged with the
   * display id, and a failed tag returns false without injecting.
   */
  method InjectEvent(os: AndroidServices, event: InputEvent, displayId: int, injectMode: int) returns (ok: bool)
    requires SupportsInputEvents(os.build.sdk, displayId)
    modifies os`injected
    ensures displayId == 0 ==>
      os.injected == old(os.injected) + [Injection(event, injectMode)] &&
      ok == os.env.acceptsInjection(Injection(event, injectMode))
    ensures displayId != 0 && !os.env.acceptsDisplayTag(event, displayId) ==>
      !ok && os.injected == old(os.injected)
    ensures displayId != 0 && os.env.acceptsDisplayTag(event, displayId) ==>
      var tagged := event.(displayId := Some(displayId));
      os.injected == old(os.injected) + [Injection(tagged, injectMode)] &&
      ok == os.env.acceptsInjection(Injection(tagged, injectMode))
  {
    var e := event;
    if displayId != 0 {
      if !os.env.acceptsDisplayTag(e, displayId) {
        return false;
      }
      e := e.(displayId := Some(displayId));
    }
    ok := os.InjectInputEvent(e, injectMode);
  }

  /** The untagged synthetic key event built by `injectKeyEvent` at uptime `now`. */
  function KeyEventAt(now: int, action: int, keyCode: int, repeat: int, metaState: int): (e: InputEvent) {
    InputEvent(Key(KeyEvent(now, now, action, keyCode, repeat, metaState, VIRTUAL_KEYBOARD, 0, 0, SOURCE_KEYBOARD)), None)
  }

  /** `injectKeyEvent`: builds a keyboard event stamped with the uptime `now` and injects it. */
  method InjectKeyEvent(os: AndroidServices, action: int, keyCode: int, repeat: int, metaState: int,
                        displayId: int, injectMode: int, now: int) returns (ok: bool)
    requires SupportsInputEvents(os.build.sdk, displayId)
    modifies os`injected
    ensures var i := InjectionOf(os.env, KeyEventAt(now, action, keyCode, repeat, metaState), displayId, injectMode);
      os.injected == old(os.injected) + Attempted(i) && ok == Succeeds(os.env, i)
  {
    var event := KeyEventAt(now, action, keyCode, repeat, metaState);
    ok := InjectEvent(os, event, displayId, injectMode);
  }

  /**
   * `pressReleaseKeycode`: DOWN at `downTime`, then UP at `upTime` only if
   * DOWN succeeded; true iff both succeeded.
   */
  method PressReleaseKeycode(os: AndroidServices, keyCode: int, displayId: int, injectMode: int,
                             downTime: int, upTime: int) returns (ok: bool)
    requires SupportsInputEvents(os.build.sdk, displayId)
    modifies os`injected
    ensures var down := InjectionOf(os.env, KeyEventAt(downTime, ACTION_DOWN, keyCode, 0, 0), displayId, injectMode);
      var up := InjectionOf(os.env, KeyEventAt(upTime, ACTION_UP, keyCode, 0, 0), displayId, injectMode);
      && (ok <==> Succeeds(os.env, down) && Succeeds(os.env, up))
      && (!Succeeds(os.env, down) ==> os.injected == old(os.injected) + Attempted(down))
      && (Succeeds(os.env, down) ==> os.injected == old(os.injected) + [down.value] + Attempted(up))
  {
    ok := InjectKeyEvent(os, ACTION_DOWN, keyCode, 0, 0, displayId, injectMode, downTime);
    if ok {
      ok := InjectKeyEvent(os, ACTION_UP, keyCode, 0, 0, displayId, injectMode, upTime);
    }
  }

  /** `powerOffScreen`: nothing to do when the screen is already off; otherwise press POWER asynchronously. */
  method PowerOffScreen(os: AndroidServices, displayId: int, downTime: int, upTime: int) returns (ok: bool)
    requires os.screenOn ==> SupportsInputEvents(os.build.sdk, displayId)
    modifies os`injected
    ensures !os.screenOn ==> ok && os.injected == old(os.injected)
    ensures os.screenOn ==>
      var down := InjectionOf(os.env, KeyEventAt(downTime, ACTION_DOWN, KEYCODE_POWER, 0, 0), displayId, INJECT_MODE_ASYNC);
      var up := InjectionOf(os.env, KeyEventAt(upTime, ACTION_UP, KEYCODE_POWER, 0, 0), displayId, INJECT_MODE_ASYNC);
      (ok <==> Succeeds(os.env, down) && Succeeds(os.env, up)) &&
      os.injected == old(os.injected) + Attempted(down) + (if Succeeds(os.env, down) then Attempted(up) else [])
  {
    if !os.screenOn {
      return true;
    }
    ok := PressReleaseKeycode(os, KEYCODE_POWER, displayId, INJECT_MODE_ASYNC, downTime, upTime);
  }

  // ---------------------------------------------------------------------------
  // Clipboard

  /** `getClipboardText`: none without a clipboard manager or when the clipboard is empty. */
  function GetClipboardText(os: AndroidServices): (r: Option<string>)
    reads os
    ensures r.Some? <==> os.env.hasClipboardManager && os.clipboardText.Some?
    ensures r.Some? ==> r == os.clipboardText
  {
    if !os.env.hasClipboardManager then None
    else if os.clipboardText.None? then None
    else Some(os.clipboardText.value)
  }

  /**
   * `setClipboardText`: false and no write without a clipboard manager or
   * when the clipboard already holds `text`; otherwise exactly one write,
   * whose answer is returned.
   */
  method SetClipboardText(os: AndroidServices, text: string) returns (ok: bool)
    modifies os`clipboardText, os`clipboardWrites
    ensures !os.env.hasClipboardManager ==>
      !ok && os.clipboardText == old(os.clipboardText) && os.clipboardWrites == old(os.clipboardWrites)
    ensures os.env.hasClipboardManager && old(GetClipboardText(os)) == Some(text) ==>
      !ok && os.clipboardText == old(os.clipboardText) && os.clipboardWrites == old(os.clipboardWrites)
    ensures os.env.hasClipboardManager && old(GetClipboardText(os)) != Some(text) ==>
      os.clipboardWrites == old(os.clipboardWrites) + [text] &&
      ok == os.env.acceptsClipboardText(text) &&
      os.clipboardText == (if ok then Some(text) else old(os.clipboardText))
  {
    if !os.env.hasClipboardManager {
      return false;
    }
    var current := GetClipboardText(os);
    if current.Some? && current.value == text {
      return false;
    }
    ok := os.SetClipboard(text);
  }

  /**
   * Setting the same text twice in a row: once the first write is accepted,
   * the second call writes nothing and returns false, so the pair writes at
   * most once; a rejected write is retried by the second call.
   */
  method SetClipboardTextTwice(os: AndroidServices, text: string) returns (first: bool, second: bool)
    modifies os`clipboardText, os`clipboardWrites
    ensures os.env.acceptsClipboardText(text) ==>
      !second && |os.clipboardWrites| <= |old(os.clipboardWrites)| + 1
    ensures os.env.hasClipboardManager && old(GetClipboardText(os)) != Some(text) && os.env.acceptsClipboardText(text) ==>
      first && os.clipboardWrites == old(os.clipboardWrites) + [text]
    ensures os.env.hasClipboardManager && !os.env.acceptsClipboardText(text) && old(GetClipboardText(os)) != Some(text) ==>
      !first && !second && os.clipboardWrites == old(os.clipboardWrites) + [text, text]
  {
    first := SetClipboardText(os, text);
    second := SetClipboardText(os, text);
  }

  // ---------------------------------------------------------------------------
  // Screen power mode

  /** The physical display ids, from DisplayControl or from SurfaceControl as the build dictates; none when unavailable. */
  function PhysicalDisplayIds(os: AndroidServices): (ids: Option<seq<int>>) {
    if UseDisplayControl(os.build) then os.env.displayControlIds else os.env.surfaceControlIds
  }

  /** The token of a physical display, from the same service as the ids. */
  function PhysicalDisplayToken(os: AndroidServices, id: int): (t: Option<Token>) {
    if UseDisplayControl(os.build) then os.env.displayControlToken(id) else os.env.surfaceControlToken(id)
  }

  /** One power-mode call per listed display, in the order of the list. */
  function PowerCallsFor(os: AndroidServices, ids: seq<int>, mode: int): (calls: seq<PowerCall>)
  {
    seq(|ids|, i requires 0 <= i < |ids| => PowerCall(PhysicalDisplayToken(os, ids[i]), mode))
  }

  /** What the power service answers to each call. */
  function Outcomes(calls: seq<PowerCall>, accepts: PowerCall -> bool): (r: seq<bool>)
  {
    seq(|calls|, i requires 0 <= i < |calls| => accepts(calls[i]))
  }

  /**
   * The loop of `setScreenPowerMode`: one power-mode call per listed display,
   * in order, whatever the earlier calls answered; the result is the
   * conjunction of all answers, true for an empty list.
   */
  method SetPowerModeOnEach(os: AndroidServices, ids: seq<int>, useDisplayControl: bool, mode: int) returns (allOk: bool)
    requires useDisplayControl == UseDisplayControl(os.build)
    modifies os`powerModes, os`powerCalls
    ensures var calls := PowerCallsFor(os, ids, mode);
      os.powerCalls == old(os.powerCalls) + calls &&
      os.powerModes == ApplyPowerCalls(old(os.powerModes), calls, os.env.acceptsPowerCall) &&
      allOk == AllOk(Outcomes(calls, os.env.acceptsPowerCall)) &&
      (allOk <==> forall i :: 0 <= i < |calls| ==> os.env.acceptsPowerCall(calls[i]))
  {
    ghost var calls := PowerCallsFor(os, ids, mode);
    assert |calls| == |ids|;
    ghost var done: seq<PowerCall> := [];
    ghost var results: seq<bool> := [];
    allOk := true;
    var i := 0;
    while i < |ids|
      invariant 0 <= i <= |ids|
      invariant done == calls[..i] && |results| == i
      invariant forall j :: 0 <= j < i ==> results[j] == os.env.acceptsPowerCall(calls[j])
      invariant os.powerCalls == old(os.powerCalls) + done
      invariant os.powerModes == ApplyPowerCalls(old(os.powerModes), done, os.env.acceptsPowerCall)
      invariant allOk == AllOk(results)
    {
      var binder := if useDisplayControl then os.env.displayControlToken(ids[i]) else os.env.surfaceControlToken(ids[i]);
      assert PowerCall(binder, mode) == calls[i];
      var r := os.SetDisplayPowerMode(binder, mode);
      AllOkSnoc(results, r);
      ApplyPowerCallsSnoc(old(os.powerModes), done, calls[i], os.env.acceptsPowerCall);
      done := done + [calls[i]];
      results := results + [r];
      allOk := allOk && r;
      i := i + 1;
      assert done == calls[..i];
    }
    assert done == calls;
    assert results == Outcomes(calls, os.env.acceptsPowerCall);
    AllOkIff(Outcomes(calls, os.env.acceptsPowerCall));
  }

  /**
   * `setScreenPowerMode`. With the multi-display policy: false when the ids
   * cannot be listed; otherwise every listed display gets exactly one call,
   * a failure does not stop the others, and the result is the conjunction of
   * all answers (true for no display). With the single-display policy:
   * false when there is no built-in display, else the answer of its one call.
   */
  method SetScreenPowerMode(os: AndroidServices, mode: int) returns (ok: bool)
    modifies os`powerModes, os`powerCalls
    ensures !ApplyToMultiPhysicalDisplays(os.build) && os.env.builtInDisplay.None? ==>
      !ok && os.powerCalls == old(os.powerCalls) && os.powerModes == old(os.powerModes)
    ensures !ApplyToMultiPhysicalDisplays(os.build) && os.env.builtInDisplay.Some? ==>
      var c := PowerCall(os.env.builtInDisplay, mode);
      os.powerCalls == old(os.powerCalls) + [c] &&
      os.powerModes == ApplyPowerCall(old(os.powerModes), c, os.env.acceptsPowerCall) &&
      ok == os.env.acceptsPowerCall(c)
    ensures ApplyToMultiPhysicalDisplays(os.build) && PhysicalDisplayIds(os).None? ==>
      !ok && os.powerCalls == old(os.powerCalls) && os.powerModes == old(os.powerModes)
    ensures ApplyToMultiPhysicalDisplays(os.build) && PhysicalDisplayIds(os).Some? ==>
      var calls := PowerCallsFor(os, PhysicalDisplayIds(os).value, mode);
      os.powerCalls == old(os.powerCalls) + calls &&
      os.powerModes == ApplyPowerCalls(old(os.powerModes), calls, os.env.acceptsPowerCall) &&
      ok == AllOk(Outcomes(calls, os.env.acceptsPowerCall)) &&
      (ok <==> forall i :: 0 <= i < |calls| ==> os.env.acceptsPowerCall(calls[i]))
  {
    var applyToMultiPhysicalDisplays := ApplyToMultiPhysicalDisplays(os.build);
    if applyToMultiPhysicalDisplays {
      var useDisplayControl := UseDisplayControl(os.build);
      var physicalDisplayIds := if useDisplayControl then os.env.displayControlIds else os.env.surfaceControlIds;
      if physicalDisplayIds.None? {
        return false;
      }
      var ids := physicalDisplayIds.value;
      ok := SetPowerModeOnEach(os, ids, useDisplayControl, mode);
      return ok;
    }
    var d := os.env.builtInDisplay;
    if d.None? {
      return false;
    }
    ok := os.SetDisplayPowerMode(d, mode);
  }

  /** A listed display whose token is known and whose call is accepted ends in the requested mode, whatever the other displays answer. */
  lemma PowerModeReachesListedDisplays(os: AndroidServices, before: map<Token, int>, ids: seq<int>, mode: int, k: int)
    requires 0 <= k < |ids|
    requires PhysicalDisplayToken(os, ids[k]).Some?
    requires os.env.acceptsPowerCall(PowerCall(PhysicalDisplayToken(os, ids[k]), mode))
    ensures var calls := PowerCallsFor(os, ids, mode);
      var t := PhysicalDisplayToken(os, ids[k]).value;
      t in ApplyPowerCalls(before, calls, os.env.acceptsPowerCall) &&
      ApplyPowerCalls(before, calls, os.env.acceptsPowerCall)[t] == mode
  {
    var calls := PowerCallsFor(os, ids, mode);
    var t := PhysicalDisplayToken(os, ids[k]).value;
    assert calls[k].token == Some(t);
    ApplyPowerCallsEffect(before, calls, mode, os.env.acceptsPowerCall, t);
  }

  // ---------------------------------------------------------------------------
  // Rotation

  /**
   * `getCurrentRotation`: the window manager's rotation for the default
   * display, the display manager's for any other; both read the display's
   * rotation here.
   */
  function CurrentRotation(os: AndroidServices, displayId: int): (r: int32)
    reads os
    requires displayId in os.rotation
    ensures r == os.rotation[displayId]
  {
    if displayId == 0 then os.rotation[0] else os.rotation[displayId]
  }

  /**
   * `rotateDevice`: freezes the display at the toggled rotation and, when
   * auto-rotation was on, thaws it again, so the lock ends as it began.
   */
  method RotateDevice(os: AndroidServices, displayId: int)
    requires os.Valid() && displayId in os.rotation
    modifies os`rotation, os`rotationFrozen, os`windowCalls
    ensures os.Valid()
    ensures os.rotation == old(os.rotation)[displayId := NewRotation(old(os.rotation[displayId]))]
    ensures os.rotationFrozen == old(os.rotationFrozen)
    ensures os.windowCalls == old(os.windowCalls) + [Freeze(displayId, NewRotation(old(os.rotation[displayId])))]
                              + (if old(os.rotationFrozen[displayId]) then [] else [Thaw(displayId)])
  {
    var accelerometerRotation := !os.rotationFrozen[displayId];
    var currentRotation := CurrentRotation(os, displayId);
    var newRotation := NewRotation(currentRotation);
    os.FreezeRotation(displayId, newRotation);
    if accelerometerRotation {
      os.ThawRotation(displayId);
    }
  }

  /** Rotating twice restores the lock and leaves the display at rotation `r & 1`, of the same parity as `r`. */
  method RotateDeviceTwice(os: AndroidServices, displayId: int)
    requires os.Valid() && displayId in os.rotation
    modifies os`rotation, os`rotationFrozen, os`windowCalls
    ensures os.Valid()
    ensures os.rotationFrozen == old(os.rotationFrozen)
    ensures displayId in os.rotation && os.rotation[displayId] == FromBits(Bits(old(os.rotation[displayId])) & 1)
    ensures Bits(os.rotation[displayId]) & 1 == Bits(old(os.rotation[displayId])) & 1
  {
    RotateDevice(os, displayId);
    RotateDevice(os, displayId);
    RotateTwiceKeepsParity(old(os.rotation[displayId]));
  }
}
