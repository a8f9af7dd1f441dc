# scrcpy server: the `Device` facade, modelled in Dafny

The scrcpy server runs on an Android device and carries out the commands of
the desktop client. Its `Device` class is a thin facade over the Android
system services. It holds the installed position mapper, which turns video
coordinates into physical display points. It injects synthetic key events on
a display, if that display accepts input on this Android version. It reads
and writes the clipboard, skipping writes that would change nothing. It sets
the screen power mode on every physical display, or on the built-in one only,
depending on the Android version and on a workaround for Honor devices on
Android 14. It toggles the display rotation and keeps the auto-rotation lock
as it was.

The model is organised as follows:

- `platform.dfy` (module `Platform`): the build description (SDK level,
  brand, which hidden SurfaceControl methods exist), the framework constants,
  Java's 32-bit `int` with its two's-complement bits, and
  `String.equalsIgnoreCase`.
- `policy.dfy` (module `Policy`): the decisions that are plain expressions.
  These are input eligibility, the multi-display and DisplayControl
  choices, the rotation toggle `(r & 1) ^ 1`, and the `allOk &= …`
  accumulation.
- `services.dfy` (module `Services`): the Android services as abstract state.
  The class `AndroidServices` holds what the services remember: the events
  injected so far, the clipboard text and the texts written, the power mode
  of each display token and the power-mode calls received, and the rotation,
  rotation lock and window-manager calls of each display. Its methods model
  the service calls the facade makes. An `Environment` of functions fixes how
  the services answer: whether a display tag, an injection, a clipboard write
  or a power-mode call is accepted, and which display ids and tokens are
  reported.
- `device.dfy` (module `Device`): the facade. The class `Device` holds the
  mapper slot. The static operations of the Java class are module-level
  methods that take the services as `os`. Each one states its result and the
  new service state, call logs included. So "UP is not attempted", "every
  display is attempted" and "zero writes" are stated outright.

The Android version (`Build.VERSION.SDK_INT`), the brand and the presence of
the hidden methods are the `build` of the services. The monotonic clock
(`SystemClock.uptimeMillis`) is replaced by parameters: `now` for one key
event, and `downTime` and `upTime` for a press and release. `isScreenOn` is
the `screenOn` field.

## Model

| member | source | states |
|---|---|---|
| `Platform.EqualsIgnoreCaseIff` | server/src/main/java/com/genymobile/scrcpy/device/Device.java:137 | two brands match ignoring case iff they have the same length and agree at every position after lower-casing |
| `Platform.EqualsIgnoreCaseSymmetric` | server/src/main/java/com/genymobile/scrcpy/device/Device.java:137 | a general fact about the `equalsIgnoreCase` model, used by no facade promise: matching ignoring case does not depend on the order of the two strings |
| `Platform.EqualsIgnoreCaseReflexive` | server/src/main/java/com/genymobile/scrcpy/device/Device.java:137 | a general fact about the `equalsIgnoreCase` model, used by no facade promise: every string matches itself ignoring case |
| `Policy.SupportsInputEvents` | server/src/main/java/com/genymobile/scrcpy/device/Device.java:51-53 | display 0 accepts input on every SDK level; any other display accepts it iff the SDK level is at least Q (29) |
| `Policy.ApplyToMultiPhysicalDisplays` | server/src/main/java/com/genymobile/scrcpy/device/Device.java:133-143 | power changes go to all physical displays iff SDK >= Q and it is not an Android 14+ Honor build that has `getBuiltInDisplay`; below Q never |
| `Policy.UseDisplayControl` | server/src/main/java/com/genymobile/scrcpy/device/Device.java:146-148 | displays are enumerated through DisplayControl iff SDK >= 34 and SurfaceControl lacks `getPhysicalDisplayIds`; never below Android 14 |
| `Policy.HonorDowngradeIff` | server/src/main/java/com/genymobile/scrcpy/device/Device.java:135-143 | on an Android 14+ build with `getBuiltInDisplay`, multi-display mode is dropped iff the brand is "honor" in any capitalisation (five letters, each matching ignoring case) |
| `Policy.NewRotation` | server/src/main/java/com/genymobile/scrcpy/device/Device.java:191 | the toggled rotation is always 0 or 1, and it is 1 exactly when the current rotation's low bit is 0 |
| `Policy.NewRotationTable` | server/src/main/java/com/genymobile/scrcpy/device/Device.java:191 | the toggle maps 0 to 1, 1 to 0, 2 to 1 and 3 to 0 |
| `Policy.RotateTwiceKeepsParity` | server/src/main/java/com/genymobile/scrcpy/device/Device.java:191 | toggling twice yields `r & 1`, which has the same low bit as `r` |
| `Policy.AllOkIff` | server/src/main/java/com/genymobile/scrcpy/device/Device.java:157-163 | the `allOk &=` accumulation is true iff every per-display result is true, and true for no display |
| `Services.ApplyPowerCallsEffect` | server/src/main/java/com/genymobile/scrcpy/device/Device.java:158-162 | after a series of calls for one mode, every token that an accepted call reached is in that mode, and every other display keeps its mode |
| `Device.Device.constructor` | server/src/main/java/com/genymobile/scrcpy/device/Device.java:34 | a new device has no position mapper installed |
| `Device.Device.GetPhysicalPoint` | server/src/main/java/com/genymobile/scrcpy/device/Device.java:36-45 | none when no mapper is installed; otherwise exactly the installed mapper's answer for the position |
| `Device.Device.SetPositionMapper` | server/src/main/java/com/genymobile/scrcpy/device/Device.java:55-57 | the installed mapper becomes the given one (none uninstalls) |
| `Device.LastMapperWins` | server/src/main/java/com/genymobile/scrcpy/device/Device.java:34-57 | a fresh device maps nothing; after two installations it uses the most recent mapper; after uninstalling it maps nothing |
| `Device.InjectEvent` | server/src/main/java/com/genymobile/scrcpy/device/Device.java:59-69 | requires an input-capable display; on display 0 it injects the event as is; on another display a failed tag returns false with no injection, and a successful tag injects the tagged event; the result is the input manager's answer |
| `Device.InjectKeyEvent` | server/src/main/java/com/genymobile/scrcpy/device/Device.java:71-76 | injects at most one keyboard event (none when tagging a secondary display fails), stamped with `now` (down and event time), virtual keyboard, scan code 0, flags 0, keyboard source |
| `Device.PressReleaseKeycode` | server/src/main/java/com/genymobile/scrcpy/device/Device.java:78-81 | true iff DOWN and UP both succeed; when DOWN fails, UP is never attempted and the log gains only DOWN's injection (or none if tagging failed) |
| `Device.PowerOffScreen` | server/src/main/java/com/genymobile/scrcpy/device/Device.java:175-180 | with the screen off: true and no injection; with it on: a press of POWER in asynchronous mode, then the release only if the press succeeded, true iff both succeeded |
| `Device.GetClipboardText` | server/src/main/java/com/genymobile/scrcpy/device/Device.java:99-109 | some text iff there is a clipboard manager and the clipboard is not empty, and then exactly that text |
| `Device.SetClipboardText` | server/src/main/java/com/genymobile/scrcpy/device/Device.java:111-127 | false with no write when there is no clipboard manager or it already holds the text; otherwise exactly one write of the text, returning its answer, after which the clipboard holds the text iff the write was accepted |
| `Device.SetClipboardTextTwice` | server/src/main/java/com/genymobile/scrcpy/device/Device.java:117-124 | once one write is accepted, the second call returns false and the pair writes at most once; with a clipboard manager and different old text, an accepted write happens exactly once; a rejected write is retried, so the pair writes twice and both calls return false |
| `Device.SetScreenPowerMode` | server/src/main/java/com/genymobile/scrcpy/device/Device.java:132-173 | multi-display: false with no call when the ids are unavailable; otherwise one call per listed display in order, even after a failure, and the result is the AND of all answers (true for an empty list); single-display: false with no call without a built-in token, else that one call's answer; power modes change only through accepted calls |
| `Device.SetPowerModeOnEach` | server/src/main/java/com/genymobile/scrcpy/device/Device.java:157-163 | one power-mode call per listed display, in list order, whatever earlier calls answered; the result is the AND of all answers (true for no display), and power modes change only through accepted calls |
| `Device.PowerModeReachesListedDisplays` | server/src/main/java/com/genymobile/scrcpy/device/Device.java:157-163 | a listed display whose token is known and whose call is accepted ends in the requested power mode, whatever the other displays answer |
| `Device.CurrentRotation` | server/src/main/java/com/genymobile/scrcpy/device/Device.java:203-210 | the rotation read for the default display (window manager) and for any other display (display manager) is the rotation the services hold for that display |
| `Device.RotateDevice` | server/src/main/java/com/genymobile/scrcpy/device/Device.java:185-210 | the display ends at `(r & 1) ^ 1`; the lock state of every display is as before; the window manager gets a freeze at the new rotation, then a thaw iff auto-rotation was on |
| `Device.RotateDeviceTwice` | server/src/main/java/com/genymobile/scrcpy/device/Device.java:185-201 | two rotations keep the lock state and leave the display at `r & 1`, with the same low bit as the starting rotation |

## Left out

- Logging (`Ln.e`, `Ln.i`) and the "portrait"/"landscape" string built only for the log message are not modelled; they do not affect control flow.
- `getDeviceName`, `expandNotificationPanel`, `expandSettingsPanel` and `collapsePanels` are one-line pass-throughs to `Build.MODEL` and the status bar service, with nothing to state.
- The atomicity of the `AtomicReference` mapper slot is not modelled: the slot is a plain field, and the model is sequential.
- How `PositionMapper.map` computes a point is not part of this model: a mapper is an arbitrary function from positions to optional points.
- `ServiceManager` lookups: the clipboard manager's presence is a constant of the environment; every other manager is assumed present.
- The service answers are fixed functions of the request, so one request always gets the same answer.
- Pressing POWER does not change `screenOn` in the model; what the key does to the screen is up to the operating system.
- A thaw lets the sensor rotate the display later; that later change is outside the model.
- Null arguments (a null event, a null clipboard text) are not modelled.
- `Device.InjectEvent`: `InputManager.setDisplayId` tags the caller's event object in place; the model tags a copy, so the caller's `event` value stays untagged and only the injected event carries the display id.
- `Policy.NewRotation`: for an arbitrary Java `int` the toggle is related to the parity through the low bit of its two's-complement pattern; the integer form (1 minus the remainder modulo 2) is not stated; for the four quarter-turn rotations 0 to 3 `Policy.NewRotationTable` gives the values one by one.
- `Platform.EqualsIgnoreCase`: only ASCII letters are folded; Java's Unicode case mappings for other characters are not modelled.
- `Device.RotateDevice`: requires the display to be known to the window manager. `getCurrentRotation` would throw a NullPointerException for a display the display manager does not know. For display 0 this always holds.
- `Device.CurrentRotation`: the window manager (display 0) and the display manager (other displays) read the same rotation map.
- An empty list of physical display ids makes `setScreenPowerMode` return true with no call, as the code does. Only a null list is treated as the failure to enumerate.
