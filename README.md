# Game caster: input-to-device translation, in Dafny

The game caster is a desktop window that drives an Android phone over `adb`.
Key presses are looked up in a per-game mapping catalog and become Android
keyevents. A left click becomes a tap scaled into the phone's 1080x1920
screen. A right click is always BACK. An AI assistant can propose a key
table for a game. The window also holds a little session state: the phone's
address, the `scrcpy` mirroring process and its button label, and a status
line.

The project models that core in four modules:

- `Wrappers` (`wrappers.dfy`): `Option`, standing for Python's value-or-`None`.
- `PyText` (`py_text.dfy`): the Python string built-ins the code relies on.
  These are `str(int)` with the parse that undoes it, `str.upper()` and
  `str.strip()`.
- `AdbController` (`adb_controller.dfy`), for `adb_controller.py`. Each
  wrapper's f-string becomes a function producing the command line. The
  `shlex.split` in `run_cmd` is modelled as whitespace tokenisation, which
  agrees with `shlex` on lines without quotes or backslashes. Lemmas state
  the exact argument vector of every command, and the escaping of
  `text_input`.
- `App` (`app.dfy`), for `app.py`. Pure functions cover the two lookup
  policies (`ResolveKey` per key, `ShownTable` per table), the key outcome,
  key names, coordinate scaling and the conversion of an AI proposal. The
  window is the class `GameCaster`, with fields `mappings`, `deviceIp`,
  `scrcpyProc`, `streamLabel` and `log`. A ghost field `trace` records, in
  order, every command line handed to `run_cmd` and every process spawned
  or killed. Contracts can therefore say "sent exactly this" and "sent
  nothing".

Unlike what one might expect of such a tool:

- Taps are neither rounded nor clamped.
- A click's position is relative to the widget but is scaled by the primary
  screen's size, so a widget wider or taller than the screen can tap beyond
  the phone's screen.
- `connect_device` is not idempotent and records the address before the
  connect runs, whatever the outcome.
- There is no disconnected state and no "not connected" guard on sends.
- Keyevents and taps are sent without `-s <device>`; the stored `device_ip`
  is never passed to them.
- An AI item that raises aborts the whole conversion silently; there is no
  typed rejection.

Outside input is passed in as parameters:

- the list's current item;
- the primary screen's size;
- what `poll()` reports;
- what `Popen` did;
- what `adb connect` returned;
- what the AI call delivered.

## Model

| member | source | states |
|---|---|---|
| `PyText.IntToString` | app.py:206 | `str(i)`: non-empty, digits after an optional leading `-`, the `-` present exactly for negatives, and no leading zero (only `0` itself starts with `0`) |
| `PyText.IntToStringRoundTrip` | app.py:206 | parsing the decimal string gives the number back, so `str` on ints loses nothing |
| `PyText.IntToStringInjective` | app.py:206 | distinct ints have distinct decimal strings |
| `PyText.Upper` | app.py:147 | `text.upper()` keeps the length and maps each character to its upper case (ASCII) |
| `PyText.UpperIdempotent` | app.py:129 | upper-casing twice is upper-casing once |
| `PyText.Strip` | app.py:87 | `strip()` is a contiguous slice whose dropped prefix and suffix are all whitespace, whose ends are not whitespace, and which is empty exactly when the text is all whitespace |
| `PyText.StripIdempotent` | app.py:87 | stripping twice is stripping once |
| `AdbController.RunCmdArgv` | adb_controller.py:6-8 | a list command passes through unchanged; a string command becomes non-empty tokens without whitespace (their values are given by `RunCmdLineWords`) |
| `AdbController.RunCmdLineWords` | adb_controller.py:6-8 | a string of plain, non-empty fields joined by single spaces executes exactly those fields, in order |
| `AdbController.SplitWords` | adb_controller.py:7-8 | splitting fields joined by single spaces splits each field on its own, in order |
| `AdbController.ConnectArgv` | adb_controller.py:12-13 | `connect(ip, port)` runs exactly `adb connect ip:port` |
| `AdbController.DisconnectArgv` | adb_controller.py:15-16 | `disconnect(ip, port)` runs exactly `adb disconnect ip:port` |
| `AdbController.DevicesArgv` | adb_controller.py:18-19 | `devices()` runs exactly `adb devices` |
| `AdbController.TargetSplit` | adb_controller.py:23 | no device, or an empty device name, adds no token; device `d` adds `-s d` |
| `AdbController.SendKeyeventArgv` | adb_controller.py:22-24 | runs `adb [-s d] shell input keyevent <code>`, with `-s d` right after `adb` |
| `AdbController.TapArgv` | adb_controller.py:26-28 | runs `adb [-s d] shell input tap <x> <y>` |
| `AdbController.SwipeArgv` | adb_controller.py:30-32 | runs `adb [-s d] shell input swipe x1 y1 x2 y2 ms`, in that order |
| `AdbController.SwipeDefaultDuration` | adb_controller.py:30 | a swipe without an explicit duration ends with the token `100` |
| `AdbController.EscapeTextSpec` | adb_controller.py:35 | the escaped text has no space, is longer by the number of spaces, and is unchanged when there is no space (what each character becomes is stated by `EscapeTextSplice`) |
| `AdbController.EscapeTextAppend` | adb_controller.py:35 | escaping works character by character: it distributes over concatenation |
| `AdbController.EscapeTextSplice` | adb_controller.py:35 | wherever it stands, a space becomes `%s` and any other character stays as it is; with `EscapeTextAppend` this fixes the escaping of every text |
| `AdbController.TextInputArgv` | adb_controller.py:34-37 | a text whose only whitespace is spaces reaches the device as one escaped token (none when empty) after `adb [-s d] shell input text` |
| `App.GameOf` | app.py:171 | with no list selection the game is `"default"`, otherwise the selected item's text |
| `App.ResolveKey` | app.py:171-175 | the game's own truthy entry wins; otherwise the `"default"` table's truthy entry is used; nothing resolves exactly when neither exists, so an empty own entry falls through |
| `App.ShownTable` | app.py:81-82 | the game's table whenever the game exists, even an empty one; otherwise the whole `"default"` table, or `{}` |
| `App.FallbackPoliciesDiffer` | app.py:172-174 | a game whose table lacks a key shows a table without it, yet the key resolves to the default binding |
| `App.FalsyEntryShownButSkipped` | app.py:173 | an empty entry the game holds is shown by `show_mapping`, but a key press skips it for the default's |
| `App.KeyDecision` | app.py:172-182 | unresolved: "no mapping"; entry without `type`: KeyError, nothing sent; a keyevent is sent iff it is a press, the type is `'key'` and the keycode is truthy, and then exactly that keycode |
| `App.ReleaseNeverSends` | app.py:178 | a key release never sends, whatever the catalog holds |
| `App.DefaultOnlyScenario` | app.py:172-181 | a game with no table pressing a key bound only in `"default"` sends the default's keycode as `adb shell input keyevent 19` |
| `App.QtKeyToName` | app.py:197-206 | exactly Up/Down/Left/Right/Escape/Space map to `DPAD_UP`/`DPAD_DOWN`/`DPAD_LEFT`/`DPAD_RIGHT`/`ESCAPE`/`SPACE` (both directions); every other code maps to its decimal string |
| `App.QtKeyToNameInjective` | app.py:197-206 | no two key codes get the same name |
| `App.KeyName` | app.py:146-151 | the upper-cased event text when the text is non-empty, otherwise `qt_key_to_name` of the key code |
| `App.Scale` | app.py:189-190 | `int(v / extent * phone)` truncates toward zero: for `v >= 0` the result is the floor of `v*phone/extent`; zero extent is the ZeroDivisionError |
| `App.ScaleInRange` | app.py:188-190 | a coordinate in `[0, extent)` of the primary screen scales into `[0, phone)` |
| `App.MouseDecision` | app.py:184-195 | right click is BACK, always and only; a left click with both coordinates and a non-zero screen taps at the scaled point; a missing coordinate sends nothing |
| `App.LeftClickInsideScreen` | app.py:185-191 | a left click at a point in `[0, screen_w) x [0, screen_h)` taps inside `[0,1080) x [0,1920)` |
| `App.WideWidgetTapsOffScreen` | app.py:184-191 | the widget-local position is scaled by the screen's size: on an 800x480 screen a click at x = 850 inside the 900-wide widget taps at x = 1147, off the phone's screen |
| `App.PressDispatch` | app.py:162-168 | the left button passes its position as `LEFT_CLICK`, the right button `RIGHT_CLICK` without coordinates, other buttons nothing |
| `App.ItemEntry` | app.py:130-136 | each kept binding has type `'key'`, the item's action as `desc` (default `'action'`), and the keycode only when it is truthy |
| `App.ConvertFails` | app.py:128-137 | the conversion fails exactly when some item raises |
| `App.ConvertKeys` | app.py:128-136 | the table's keys are exactly the items' non-empty upper-cased keys, each bound with type `'key'` |
| `App.ConvertKeysUpper` | app.py:129-132 | every key of the table is non-empty and already upper case |
| `App.ConvertLastWins` | app.py:132-136 | the last item with a given upper-cased key decides that key's binding |
| `App.BuildMapping` | app.py:127-136 | the worker's loop builds exactly the converted table, and reports a raise exactly when the conversion fails |
| `App.Ingest` | app.py:126-142 | a keys dict whose items all convert replaces the game's table wholesale; every other game's entry stays as it was; any other result leaves the catalog unchanged |
| `App.GameCaster.constructor` | app.py:12-19 | starts with the loaded catalog (or `{}`), no device, no process, label `Start Stream`, status `Status: idle`, nothing sent |
| `App.GameCaster.ShowMapping` | app.py:80-82 | the table `show_mapping` displays, under the whole-table fallback |
| `App.GameCaster.ConnectDevice` | app.py:86-96 | a blank address changes nothing and calls nothing; otherwise the stripped address is stored, `adb connect ip:5555` is run, and the status line reports success or failure |
| `App.GameCaster.ToggleStream` | app.py:98-111 | a live process is killed and forgotten, label `Start Stream`; otherwise a new one is spawned and recorded, label `Stop Stream`; a missing binary changes nothing; the label always matches whether a process is held |
| `App.GameCaster.AnalyzeGame` | app.py:113-142 | with no game selected nothing changes; otherwise the catalog becomes `Ingest` of the delivered result, so a raising item leaves it untouched |
| `App.GameCaster.HandleKey` | app.py:170-182 | sends at most one keyevent, exactly the one `KeyDecision` picks, with the matching status line; nothing else is sent |
| `App.GameCaster.KeyPressEvent` | app.py:145-152 | `handle_key` on the event's key name, pressed |
| `App.GameCaster.KeyReleaseEvent` | app.py:154-160 | sends nothing; only an unresolved name is reported |
| `App.GameCaster.HandleMouse` | app.py:184-195 | sends exactly the tap or BACK that `MouseDecision` picks, never reading the mappings |
| `App.GameCaster.MousePressEvent` | app.py:162-168 | right button sends BACK; left button taps at the scaled position; other buttons send nothing |

## Left out

- `ai_helper.py` is not part of this model: the network call, the key lookup and the JSON parsing are replaced by the `AiResult` value the worker receives.
- `run_cmd`'s process execution, its 30-second timeout and the stripping of its output are not modelled. The transport is the trace of command lines, and `adb connect`'s reply is a parameter.
- `load_mappings`/`save_mappings` (file I/O and JSON) are not modelled. The constructor takes the loaded catalog, `None` standing for a failed load. A failed save, which only rewrites the status line, is not modelled.
- The Qt widgets are not modelled: layout, message boxes, the mapping display's text and `json.dumps` formatting. The status line is the `log` field.
- The worker thread of `analyze_game` runs to completion inside `AnalyzeGame`; interleavings with other handlers are not captured.
- `subprocess.Popen`, `poll` and `kill` are abstract. A spawn either yields a process or reports the missing binary; other exceptions `Popen` might raise are not modelled.
- App.Scale: computes over exact rationals, not IEEE doubles, so a product that is a whole number in exact arithmetic but a hair below it in floating point is not modelled.
- AdbController.Split: only whitespace splitting is modelled, not `shlex`'s quotes and backslash escapes. The lemmas about tokens require arguments free of those characters.
- PyText.Upper: only ASCII letters change case; Unicode case mapping (including changes of length such as `ß` to `SS`) is not modelled.
- PyText.Strip: only the whitespace below U+0080 is stripped; the non-ASCII characters `str.isspace()` accepts (U+0085, U+00A0, U+1680, U+2000 to U+200A, U+2028, U+2029, U+202F, U+205F, U+3000) are kept.
- App.Entry: JSON `null` values, keycodes that are not integers (an AI proposal may give a keycode name as a string), and table entries that are not objects are not represented. Nor is an entry whose only keys are other names, such as `{"action": "jump"}` in a hand-edited catalog: the source finds it truthy, does not fall back to `"default"`, and raises KeyError on `mapping['type']`. The nearest model value, `Entry(None, None, None)`, is falsy and falls back to the default binding.
- App.Item: non-string `action` values are not represented. An item whose conversion raises is the single case `Malformed`.
- AdbController.Devices: only the command line is modelled, not the returned output.
