/**
 * The Android system services behind the device facade, as abstract state.
 *
 * What a service answers (whether it accepts a display tag, an injected
 * event, a clipboard write or a power-mode change; which display ids and
 * tokens it reports) is fixed by an `Environment` of functions. What the
 * services remember (the events injected so far, the clipboard, the power
 * mode of each display, the rotation and rotation lock of each display, and
 * logs of the calls received) is held in the fields of `AndroidServices`,
 * which the service methods update.
 */
module Services {
  import opened Platform

  datatype Option<T> = None | Some(value: T)

  /** A synthetic key event as built by `injectKeyEvent`. */
  datatype KeyEvent = KeyEvent(
    downTime: int, eventTime: int, action: int, keyCode: int, repeat: int, metaState: int,
    deviceId: int, scanCode: int, flags: int, source: int)

  /**
   * An input event: its payload and the display it is tagged with
   * (`None` until `InputManager.setDisplayId` tags it).
   */
  datatype InputEvent = InputEvent(body: EventBody, displayId: Option<int>)
  datatype EventBody = Key(key: KeyEvent) | OtherEvent(payload: int)

  /** One call of `injectInputEvent`: the event and the injection mode. */
  datatype Injection = Injection(event: InputEvent, mode: int)

  /** An opaque display token (an IBinder). */
  datatype Token = Token(handle: int)

  /** One call of `SurfaceControl.setDisplayPowerMode`; the token may be null. */
  datatype PowerCall = PowerCall(token: Option<Token>, mode: int)

  /** One call received by the window manager. */
  datatype WindowCall = Freeze(displayId: int, rotation: int32) | Thaw(displayId: int)

  /** How the services answer; fixed for the lifetime of the device. */
  datatype Environment = Environment(
    acceptsDisplayTag: (InputEvent, int) -> bool,
    acceptsInjection: Injection -> bool,
    hasClipboardManager: bool,
    acceptsClipboardText: string -> bool,
    surfaceControlIds: Option<seq<int>>,
    displayControlIds: Option<seq<int>>,
    surfaceControlToken: int -> Option<Token>,
    displayControlToken: int -> Option<Token>,
    builtInDisplay: Option<Token>,
    acceptsPowerCall: PowerCall -> bool)

  /** The power modes after one `setDisplayPowerMode` call: an accepted call on a real token sets that display's mode. */
  function ApplyPowerCall(modes: map<Token, int>, c: PowerCall, accepts: PowerCall -> bool): (after: map<Token, int>) {
    if accepts(c) && c.token.Some? then modes[c.token.value := c.mode] else modes
  }

  /** The power modes after a sequence of calls, applied from the first to the last. */
  function ApplyPowerCalls(modes: map<Token, int>, calls: seq<PowerCall>, accepts: PowerCall -> bool): (after: map<Token, int>)
    decreases |calls|
  {
    if calls == [] then modes
    else ApplyPowerCall(ApplyPowerCalls(modes, calls[..|calls| - 1], accepts), calls[|calls| - 1], accepts)
  }

  /** One more call is applied after the earlier ones. */
  lemma ApplyPowerCallsSnoc(modes: map<Token, int>, calls: seq<PowerCall>, c: PowerCall, accepts: PowerCall -> bool)
    ensures ApplyPowerCalls(modes, calls + [c], accepts) == ApplyPowerCall(ApplyPowerCalls(modes, calls, accepts), c, accepts)
  {
    assert (calls + [c])[..|calls|] == calls;
  }

  /** Some call in `calls` was accepted and carried token `t`. */
  ghost predicate Reached(t: Token, calls: seq<PowerCall>, accepts: PowerCall -> bool) {
    exists i :: 0 <= i < |calls| && calls[i].token == Some(t) && accepts(calls[i])
  }

  /**
   * When every call asks for the same mode, the displays some accepted call
   * reached are in that mode afterwards and every other display keeps its mode.
   */
  lemma {:induction false} ApplyPowerCallsEffect(modes: map<Token, int>, calls: seq<PowerCall>, mode: int, accepts: PowerCall -> bool, t: Token)
    requires forall i :: 0 <= i < |calls| ==> calls[i].mode == mode
    ensures Reached(t, calls, accepts) ==>
      t in ApplyPowerCalls(modes, calls, accepts) && ApplyPowerCalls(modes, calls, accepts)[t] == mode
    ensures !Reached(t, calls, accepts) ==>
      (t in ApplyPowerCalls(modes, calls, accepts) <==> t in modes) &&
      (t in modes ==> ApplyPowerCalls(modes, calls, accepts)[t] == modes[t])
    decreases |calls|
  {
    if calls != [] {
      var init, last := calls[..|calls| - 1], calls[|calls| - 1];
      ApplyPowerCallsEffect(modes, init, mode, accepts, t);
      if Reached(t, calls, accepts) && !(last.token == Some(t) && accepts(last)) {
        var i :| 0 <= i < |calls| && calls[i].token == Some(t) && accepts(calls[i]);
        assert init[i] == calls[i];
      }
      if Reached(t, init, accepts) {
        var i :| 0 <= i < |init| && init[i].token == Some(t) && accepts(init[i]);
        assert calls[i] == init[i];
      }
    }
  }

  class AndroidServices {
    const build: Build
    const env: Environment

    /** InputManager: the events injected so far, in order. */
    var injected: seq<Injection>
    /** PowerManager: whether the screen is on. */
    var screenOn: bool
    /** ClipboardManager: the current text (null when empty) and the texts written so far. */
    var clipboardText: Option<string>
    var clipboardWrites: seq<string>
    /** SurfaceControl: the power mode of each display it has set, and the calls it received. */
    var powerModes: map<Token, int>
    var powerCalls: seq<PowerCall>
    /** WindowManager: rotation and rotation lock of each display, and the calls it received. */
    var rotation: map<int, int32>
    var rotationFrozen: map<int, bool>
    var windowCalls: seq<WindowCall>

    /** The window manager knows the rotation and the lock of the same displays, the default display among them. */
    ghost predicate Valid()
      reads this
    {
      0 in rotation && rotation.Keys == rotationFrozen.Keys
    }

    constructor (build: Build, env: Environment, screenOn: bool, clipboardText: Option<string>,
                 rotation: map<int, int32>, rotationFrozen: map<int, bool>)
      requires 0 in rotation && rotation.Keys == rotationFrozen.Keys
      ensures Valid()
      ensures this.build == build && this.env == env
      ensures this.screenOn == screenOn && this.clipboardText == clipboardText
      ensures this.rotation == rotation && this.rotationFrozen == rotationFrozen
      ensures injected == [] && clipboardWrites == [] && powerModes == map[] && powerCalls == [] && windowCalls == []
    {
      this.build := build;
      this.env := env;
      this.screenOn := screenOn;
      this.clipboardText := clipboardText;
      this.rotation := rotation;
      this.rotationFrozen := rotationFrozen;
      injected := [];
      clipboardWrites := [];
      powerModes := map[];
      powerCalls := [];
      windowCalls := [];
    }

    /** `InputManager.injectInputEvent`: records the event and answers as the environment says. */
    method InjectInputEvent(event: InputEvent, mode: int) returns (ok: bool)
      modifies this`injected
      ensures injected == old(injected) + [Injection(event, mode)]
      ensures ok == env.acceptsInjection(Injection(event, mode))
    {
      injected := injected + [Injection(event, mode)];
      ok := env.acceptsInjection(Injection(event, mode));
    }

    /** `ClipboardManager.setText`: records the write; an accepted write replaces the text. */
    method SetClipboard(text: string) returns (ok: bool)
      requires env.hasClipboardManager
      modifies this`clipboardText, this`clipboardWrites
      ensures clipboardWrites == old(clipboardWrites) + [text]
      ensures ok == env.acceptsClipboardText(text)
      ensures clipboardText == if ok then Some(text) else old(clipboardText)
    {
      clipboardWrites := clipboardWrites + [text];
      ok := env.acceptsClipboardText(text);
      if ok {
        clipboardText := Some(text);
      }
    }

    /** `SurfaceControl.setDisplayPowerMode`: records the call; an accepted call on a token sets its mode. */
    method SetDisplayPowerMode(token: Option<Token>, mode: int) returns (ok: bool)
      modifies this`powerModes, this`powerCalls
      ensures powerCalls == old(powerCalls) + [PowerCall(token, mode)]
      ensures ok == env.acceptsPowerCall(PowerCall(token, mode))
      ensures powerModes == ApplyPowerCall(old(powerModes), PowerCall(token, mode), env.acceptsPowerCall)
    {
      powerCalls := powerCalls + [PowerCall(token, mode)];
      ok := env.acceptsPowerCall(PowerCall(token, mode));
      powerModes := ApplyPowerCall(powerModes, PowerCall(token, mode), env.acceptsPowerCall);
    }

    /** `WindowManager.freezeRotation`: sets the display's rotation and locks it. */
    method FreezeRotation(displayId: int, r: int32)
      requires Valid() && displayId in rotation
      modifies this`rotation, this`rotationFrozen, this`windowCalls
      ensures Valid()
      ensures rotation == old(rotation)[displayId := r]
      ensures rotationFrozen == old(rotationFrozen)[displayId := true]
      ensures windowCalls == old(windowCalls) + [Freeze(displayId, r)]
    {
      rotation := rotation[displayId := r];
      rotationFrozen := rotationFrozen[displayId := true];
      windowCalls := windowCalls + [Freeze(displayId, r)];
    }

    /** `WindowManager.thawRotation`: unlocks the display's rotation. */
    method ThawRotation(displayId: int)
      requires Valid() && displayId in rotation
      modifies this`rotationFrozen, this`windowCalls
      ensures Valid()
      ensures rotationFrozen == old(rotationFrozen)[displayId := false]
      ensures windowCalls == old(windowCalls) + [Thaw(displayId)]
    {
      rotationFrozen := rotationFrozen[displayId := false];
      windowCalls := windowCalls + [Thaw(displayId)];
    }
  }
}
