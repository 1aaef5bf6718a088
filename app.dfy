/**
 * The input-to-device translation of the game caster window (`app.py`):
 * the mapping catalog and its two fallback policies, the key names derived
 * from keyboard events, the mouse translation into phone coordinates, the
 * conversion of an AI proposal into a per-game table, and the window's own
 * session state (device address, mirroring process, button label, status
 * line) as a class whose methods record every command they hand to the
 * transport in a ghost trace.
 */
module App {
  import opened Wrappers
  import opened PyText
  import AdbController

  const DefaultGame := "default"
  const PhoneW := 1080
  const PhoneH := 1920
  /** Android's KEYCODE_BACK, sent for a right click. */
  const BackKeycode := 4
  const ScrcpyArgv := ["scrcpy", "--stay-awake"]
  const StartLabel := "Start Stream"
  const StopLabel := "Stop Stream"

  // Qt::Key codes of the six keys that have no text
  const QtKeyEscape := 0x0100_0000
  const QtKeyLeft := 0x0100_0012
  const QtKeyUp := 0x0100_0013
  const QtKeyRight := 0x0100_0014
  const QtKeyDown := 0x0100_0015
  const QtKeySpace := 0x20

  // ---------------------------------------------------------------------------
  // The mapping catalog

  /**
   * One binding, a JSON object: each field is `None` when the key is absent
   * from the object.
   */
  datatype Entry = Entry(kind: Option<string>, androidKeycode: Option<int>, desc: Option<string>)

  /** Python truthiness of the binding's dict: it has at least one key. */
  predicate Truthy(e: Entry) {
    e.kind.Some? || e.androidKeycode.Some? || e.desc.Some?
  }

  /** Python truthiness of `mapping.get('android_keycode')`: present and non-zero. */
  predicate KeycodeTruthy(code: Option<int>) {
    code.Some? && code.value != 0
  }

  type Table = map<string, Entry>
  type Catalog = map<string, Table>

  /** The game named by the list's current item, `"default"` when there is none. */
  function GameOf(current: Option<string>): (game: string)
    ensures current.None? ==> game == DefaultGame
    ensures current.Some? ==> game == current.value
  {
    current.GetOr(DefaultGame)
  }

  /** The game's own table binds `key` to a truthy entry. */
  predicate OwnHit(c: Catalog, game: string, key: string) {
    game in c && key in c[game] && Truthy(c[game][key])
  }

  /** The `"default"` table binds `key` to a truthy entry. */
  predicate DefaultHit(c: Catalog, key: string) {
    DefaultGame in c && key in c[DefaultGame] && Truthy(c[DefaultGame][key])
  }

  /**
   * The per-key fallback of `handle_key`: the game's own entry when it is
   * present and truthy, else the `"default"` table's entry when that is
   * present and truthy, else nothing. A game's empty entry falls through.
   */
  function ResolveKey(c: Catalog, game: string, key: string): (r: Option<Entry>)
    ensures r.Some? ==> Truthy(r.value)
    ensures OwnHit(c, game, key) ==> r == Some(c[game][key])
    ensures !OwnHit(c, game, key) && DefaultHit(c, key) ==> r == Some(c[DefaultGame][key])
    ensures r.None? <==> !OwnHit(c, game, key) && !DefaultHit(c, key)
  {
    var own := if game in c then (if key in c[game] then Some(c[game][key]) else None) else None;
    if own.Some? && Truthy(own.value) then own
    else
      var dflt := if DefaultGame in c then (if key in c[DefaultGame] then Some(c[DefaultGame][key]) else None) else None;
      if dflt.Some? && Truthy(dflt.value) then dflt else None
  }

  /**
   * The whole-table fallback of `show_mapping`: the game's table whenever
   * the game has one, even an empty one; only otherwise the `"default"`
   * table, or the empty table when there is none.
   */
  function ShownTable(c: Catalog, game: string): (t: Table)
    ensures game in c ==> t == c[game]
    ensures game !in c ==> t == if DefaultGame in c then c[DefaultGame] else map[]
  {
    if game in c then c[game] else if DefaultGame in c then c[DefaultGame] else map[]
  }

  /**
   * The two policies part ways: a game whose table exists but lacks `key`
   * shows its own table, without `key`, while a key press still resolves to
   * the `"default"` binding.
   */
  lemma FallbackPoliciesDiffer(c: Catalog, game: string, key: string)
    requires game in c && key !in c[game] && DefaultHit(c, key)
    ensures key !in ShownTable(c, game)
    ensures ResolveKey(c, game, key) == Some(c[DefaultGame][key])
  {
  }

  /** And a falsy entry the game does hold is shown, yet skipped when a key is pressed. */
  lemma FalsyEntryShownButSkipped(c: Catalog, game: string, key: string)
    requires game in c && key in c[game] && !Truthy(c[game][key]) && DefaultHit(c, key)
    ensures ShownTable(c, game)[key] == c[game][key] != c[DefaultGame][key]
    ensures ResolveKey(c, game, key) == Some(c[DefaultGame][key])
  {
  }

  // ---------------------------------------------------------------------------
  // What a key event does (handle_key)

  datatype KeyOutcome =
    | NoMapping      // logs `No mapping for K`
    | MissingType    // `mapping['type']` raises KeyError: nothing sent
    | Send(code: int)
    | Ignored        // a release, a non-'key' binding, or a falsy keycode

  /**
   * The decision of `handle_key`: at most one keyevent, only on a press,
   * and exactly the resolved entry's keycode when its type is `'key'` and
   * the keycode is truthy.
   */
  function KeyDecision(c: Catalog, game: string, key: string, down: bool): (o: KeyOutcome)
    ensures o == NoMapping <==> ResolveKey(c, game, key).None?
    ensures o == MissingType <==> ResolveKey(c, game, key).Some? && ResolveKey(c, game, key).value.kind.None?
    ensures o.Send? <==>
      && down
      && ResolveKey(c, game, key).Some?
      && ResolveKey(c, game, key).value.kind == Some("key")
      && KeycodeTruthy(ResolveKey(c, game, key).value.androidKeycode)
    ensures o.Send? ==> Some(o.code) == ResolveKey(c, game, key).value.androidKeycode && o.code != 0
  {
    match ResolveKey(c, game, key)
    case None => NoMapping
    case Some(e) =>
      if e.kind.None? then MissingType
      else if e.kind.value == "key" && down && KeycodeTruthy(e.androidKeycode) then Send(e.androidKeycode.value)
      else Ignored
  }

  /** A key release never sends anything, whatever the catalog holds. */
  lemma ReleaseNeverSends(c: Catalog, game: string, key: string)
    ensures !KeyDecision(c, game, key, false).Send?
  {
  }

  /**
   * A game without a table of its own, pressing a key only the `"default"`
   * table binds: the default keycode goes out as `adb shell input keyevent`.
   */
  lemma DefaultOnlyScenario()
    ensures var c := map[DefaultGame := map["UP" := Entry(Some("key"), Some(19), None)]];
      KeyDecision(c, "Granny 1", "UP", true) == Send(19)
    ensures AdbController.Split(AdbController.SendKeyevent(19, None)) == ["adb", "shell", "input", "keyevent", "19"]
  {
    AdbController.SendKeyeventArgv(19, None);
    assert IntToString(19) == "19";
    assert AdbController.TargetArgs(None) == [];
  }

  // ---------------------------------------------------------------------------
  // Key names (keyPressEvent, keyReleaseEvent, qt_key_to_name)

  predicate IsNamedQtKey(k: int) {
    k == QtKeyUp || k == QtKeyDown || k == QtKeyLeft || k == QtKeyRight || k == QtKeyEscape || k == QtKeySpace
  }

  /**
   * `qt_key_to_name`: exactly the six text-less keys get a name, every other
   * code its decimal string.
   */
  function QtKeyToName(k: int): (name: string)
    ensures name == "DPAD_UP" <==> k == QtKeyUp
    ensures name == "DPAD_DOWN" <==> k == QtKeyDown
    ensures name == "DPAD_LEFT" <==> k == QtKeyLeft
    ensures name == "DPAD_RIGHT" <==> k == QtKeyRight
    ensures name == "ESCAPE" <==> k == QtKeyEscape
    ensures name == "SPACE" <==> k == QtKeySpace
    ensures !IsNamedQtKey(k) ==> name == IntToString(k)
  {
    if k == QtKeyUp then "DPAD_UP"
    else if k == QtKeyDown then "DPAD_DOWN"
    else if k == QtKeyLeft then "DPAD_LEFT"
    else if k == QtKeyRight then "DPAD_RIGHT"
    else if k == QtKeyEscape then "ESCAPE"
    else if k == QtKeySpace then "SPACE"
    else IntToString(k)
  }

  /** No two key codes share a name: the names and the decimal strings never meet. */
  lemma QtKeyToNameInjective(a: int, b: int)
    ensures QtKeyToName(a) == QtKeyToName(b) ==> a == b
  {
    if !IsNamedQtKey(a) && !IsNamedQtKey(b) {
      IntToStringInjective(a, b);
    }
  }

  /**
   * The key name of a key event: the upper-cased text when the event has
   * text, otherwise the name of the Qt key code.
   */
  function KeyName(text: string, qtKey: int): (name: string)
    ensures text != "" ==> name == Upper(text)
    ensures text == "" ==> name == QtKeyToName(qtKey)
  {
    var upper := Upper(text);
    if upper == "" then QtKeyToName(qtKey) else upper
  }

  // ---------------------------------------------------------------------------
  // Mouse translation (handle_mouse, mousePressEvent)

  /**
   * `int(v / extent * phone)` over exact rationals: Python's `int` truncates
   * toward zero; `None` is the ZeroDivisionError of a zero extent.
   */
  function Scale(v: int, extent: nat, phone: nat): (r: Option<int>)
    ensures r.None? <==> extent == 0
    ensures r.Some? && v >= 0 ==> r.value * extent <= v * phone < (r.value + 1) * extent
    ensures r.Some? && v < 0 ==> -r.value * extent <= -v * phone < (-r.value + 1) * extent
  {
    if extent == 0 then None
    else if v >= 0 then Some(v * phone / extent)
    else Some(-((-v * phone) / extent))
  }

  lemma MulLeft(a: int, b: int, c: int)
    requires a <= b && c >= 0
    ensures a * c <= b * c
  {
  }

  /**
   * A coordinate in `[0, extent)` scales into `[0, phone)`. The extent is the
   * primary screen's, not the widget's, so this says nothing about a click
   * beyond the screen's size.
   */
  lemma ScaleInRange(v: int, extent: nat, phone: nat)
    requires 0 <= v < extent && phone > 0
    ensures Scale(v, extent, phone).Some?
    ensures 0 <= Scale(v, extent, phone).value < phone
  {
    var q := Scale(v, extent, phone).value;
    MulLeft(v, extent - 1, phone);
    if q >= phone {
      MulLeft(phone, q, extent);
    }
    if q < 0 {
      MulLeft(q + 1, 0, extent);
    }
  }

  datatype MouseOutcome = TapAt(x: int, y: int) | Back | DivByZero | NoAction

  /**
   * `handle_mouse`: a left click with both coordinates scales them into the
   * 1080x1920 phone space; a right click is BACK, whatever the mappings say.
   */
  function MouseDecision(action: string, x: Option<int>, y: Option<int>, screenW: nat, screenH: nat): (o: MouseOutcome)
    ensures action == "RIGHT_CLICK" <==> o == Back
    ensures o.TapAt? <==> action == "LEFT_CLICK" && x.Some? && y.Some? && screenW > 0 && screenH > 0
    ensures o.TapAt? ==> Some(o.x) == Scale(x.value, screenW, PhoneW) && Some(o.y) == Scale(y.value, screenH, PhoneH)
    ensures o == DivByZero <==> action == "LEFT_CLICK" && x.Some? && y.Some? && (screenW == 0 || screenH == 0)
  {
    if action == "LEFT_CLICK" && x.Some? && y.Some? then
      match (Scale(x.value, screenW, PhoneW), Scale(y.value, screenH, PhoneH))
      case (Some(px), Some(py)) => TapAt(px, py)
      case _ => DivByZero
    else if action == "RIGHT_CLICK" then Back
    else NoAction
  }

  /**
   * A left click at a point in `[0, screenW) x [0, screenH)` taps inside the
   * phone's screen. The widget's own position is scaled by the screen's
   * size, so a click in a widget wider than the screen can tap beyond it.
   */
  lemma LeftClickInsideScreen(x: int, y: int, screenW: nat, screenH: nat)
    requires 0 <= x < screenW && 0 <= y < screenH
    ensures MouseDecision("LEFT_CLICK", Some(x), Some(y), screenW, screenH).TapAt?
    ensures var o := MouseDecision("LEFT_CLICK", Some(x), Some(y), screenW, screenH);
      0 <= o.x < PhoneW && 0 <= o.y < PhoneH
  {
    ScaleInRange(x, screenW, PhoneW);
    ScaleInRange(y, screenH, PhoneH);
  }

  /**
   * The widget's minimum width of 900 exceeds an 800x480 screen: a click at
   * x = 850, inside the widget, taps at x = 1147, beyond the phone's 1080.
   */
  lemma WideWidgetTapsOffScreen()
    ensures var o := MouseDecision("LEFT_CLICK", Some(850), Some(100), 800, 480);
      o == TapAt(1147, 400) && o.x >= PhoneW
  {
  }

  datatype Button = LeftButton | RightButton | OtherButton

  /** The `handle_mouse` call `mousePressEvent` makes for a button, if any. */
  datatype MouseCall = MouseCall(action: string, x: Option<int>, y: Option<int>)

  function PressDispatch(button: Button, x: int, y: int): (r: Option<MouseCall>)
    ensures button == LeftButton ==> r == Some(MouseCall("LEFT_CLICK", Some(x), Some(y)))
    ensures button == RightButton ==> r == Some(MouseCall("RIGHT_CLICK", None, None))
    ensures button == OtherButton <==> r.None?
  {
    match button
    case LeftButton => Some(MouseCall("LEFT_CLICK", Some(x), Some(y)))
    case RightButton => Some(MouseCall("RIGHT_CLICK", None, None))
    case OtherButton => None
  }

  // ---------------------------------------------------------------------------
  // AI proposals (the analyze_game worker)

  /**
   * One element of the proposal's `keys` list: a dict whose fields are
   * `None` when absent, or something whose conversion raises (not a dict,
   * a key that is not a string).
   */
  datatype Item = Item(key: Option<string>, action: Option<string>, code: Option<int>) | Malformed

  /** What `ai_helper.analyze_game` delivered to the worker. */
  datatype AiResult =
    | KeysDict(items: seq<Item>)   // a dict with a `keys` list
    | OtherResult                  // anything else: shown raw
    | AiRaised                     // the call raised: an error is shown

  /** `item.get('key', '').upper()`. */
  function ItemKey(it: Item): string
    requires it.Item?
  {
    Upper(it.key.GetOr(""))
  }

  /** The binding an item becomes: type `'key'`, the keycode only when truthy, the action as description. */
  function ItemEntry(it: Item): (e: Entry)
    requires it.Item?
    ensures e.kind == Some("key") && e.desc == Some(it.action.GetOr("action"))
    ensures KeycodeTruthy(it.code) ==> e.androidKeycode == it.code
    ensures !KeycodeTruthy(it.code) ==> e.androidKeycode.None?
  {
    Entry(Some("key"), if KeycodeTruthy(it.code) then it.code else None, Some(it.action.GetOr("action")))
  }

  /**
   * The table the worker's loop builds from the items, in order, or `None`
   * when an item raises part-way.
   */
  function Convert(items: seq<Item>): Option<Table>
  {
    if |items| == 0 then Some(map[])
    else
      match Convert(items[..|items| - 1])
      case None => None
      case Some(t) =>
        var it := items[|items| - 1];
        if it.Malformed? then None
        else if ItemKey(it) == "" then Some(t)
        else Some(t[ItemKey(it) := ItemEntry(it)])
  }

  /** The conversion fails exactly when some item is malformed. */
  lemma {:induction false} ConvertFails(items: seq<Item>)
    ensures Convert(items).None? <==> exists i :: 0 <= i < |items| && items[i].Malformed?
    decreases |items|
  {
    if |items| > 0 {
      var init := items[..|items| - 1];
      ConvertFails(init);
      assert forall i :: 0 <= i < |init| ==> init[i] == items[i];
    }
  }

  /**
   * The keys of a converted table are exactly the non-empty upper-cased keys
   * of the items, and every binding has type `'key'`.
   */
  lemma {:induction false} ConvertKeys(items: seq<Item>, t: Table)
    requires Convert(items) == Some(t)
    ensures forall k :: k in t <==> exists i :: 0 <= i < |items| && items[i].Item? && ItemKey(items[i]) == k != ""
    ensures forall k :: k in t ==> t[k].kind == Some("key")
    decreases |items|
  {
    if |items| > 0 {
      var init := items[..|items| - 1];
      var t0 := Convert(init).value;
      ConvertKeys(init, t0);
      assert forall i :: 0 <= i < |init| ==> init[i] == items[i];
    }
  }

  /** Every key of a converted table is non-empty and already upper-case. */
  lemma ConvertKeysUpper(items: seq<Item>, t: Table, k: string)
    requires Convert(items) == Some(t) && k in t
    ensures k != "" && Upper(k) == k
  {
    ConvertKeys(items, t);
    var i :| 0 <= i < |items| && items[i].Item? && ItemKey(items[i]) == k != "";
    UpperIdempotent(items[i].key.GetOr(""));
  }

  /** The last item with a given upper-cased key decides that key's binding. */
  lemma {:induction false} ConvertLastWins(items: seq<Item>, t: Table, i: nat)
    requires Convert(items) == Some(t)
    requires i < |items| && items[i].Item? && ItemKey(items[i]) != ""
    requires forall j :: i < j < |items| && items[j].Item? ==> ItemKey(items[j]) != ItemKey(items[i])
    ensures ItemKey(items[i]) in t && t[ItemKey(items[i])] == ItemEntry(items[i])
    decreases |items|
  {
    var init := items[..|items| - 1];
    if i < |items| - 1 {
      var t0 := Convert(init).value;
      assert init[i] == items[i];
      assert forall j :: i < j < |init| ==> init[j] == items[j];
      ConvertLastWins(init, t0, i);
    }
  }

  /**
   * The worker's loop over `result['keys']`: builds the table item by item,
   * a later item overwriting an earlier one with the same key, and reports
   * whether an item raised before the loop finished.
   */
  method BuildMapping(items: seq<Item>) returns (mapping: Table, raised: bool)
    ensures raised <==> Convert(items).None?
    ensures !raised ==> Convert(items) == Some(mapping)
  {
    mapping := map[];
    var i := 0;
    while i < |items|
      invariant 0 <= i <= |items|
      invariant Convert(items[..i]) == Some(mapping)
    {
      var it := items[i];
      assert items[..i + 1][..i] == items[..i];
      if it.Malformed? {
        ConvertFails(items);
        return mapping, true;
      }
      var key := Upper(it.key.GetOr(""));
      if key != "" {
        if KeycodeTruthy(it.code) {
          mapping := mapping[key := Entry(Some("key"), it.code, Some(it.action.GetOr("action")))];
        } else {
          mapping := mapping[key := Entry(Some("key"), None, Some(it.action.GetOr("action")))];
        }
      }
      i := i + 1;
    }
    assert items[..i] == items;
    return mapping, false;
  }

  /**
   * The catalog after the worker: a keys dict whose items all convert
   * replaces the game's table wholesale; anything else leaves it as it was.
   */
  function Ingest(c: Catalog, game: string, result: AiResult): (c': Catalog)
    ensures forall g :: g != game ==> (g in c' <==> g in c) && (g in c ==> c'[g] == c[g])
    ensures result.KeysDict? && Convert(result.items).Some? ==> game in c' && c'[game] == Convert(result.items).value
    ensures !(result.KeysDict? && Convert(result.items).Some?) ==> c' == c
  {
    if result.KeysDict? && Convert(result.items).Some? then c[game := Convert(result.items).value] else c
  }

  // ---------------------------------------------------------------------------
  // The window's state

  datatype Proc = Proc(pid: nat)

  /** What `subprocess.Popen(['scrcpy', '--stay-awake'])` did. */
  datatype SpawnResult = Spawned(p: Proc) | BinaryNotFound

  /** What `adb.connect` returned: `(rc, out, err)`. */
  datatype AdbReply = AdbReply(rc: int, out: string, err: string)

  /** Everything the window asks of the outside world, in order. */
  datatype Effect =
    | AdbRun(line: string)        // a command line handed to `run_cmd`
    | Spawn(argv: seq<string>)
    | Kill(p: Proc)

  /** Python's `a or b` on strings. */
  function OrElse(a: string, b: string): string {
    if a != "" then a else b
  }

  class GameCaster {
    var mappings: Catalog
    var deviceIp: Option<string>
    var scrcpyProc: Option<Proc>
    var streamLabel: string
    var log: string
    ghost var trace: seq<Effect>

    /** The stream button says what a click would do next. */
    ghost predicate Valid()
      reads this`scrcpyProc, this`streamLabel
    {
      (scrcpyProc.None? && streamLabel == StartLabel) || (scrcpyProc.Some? && streamLabel == StopLabel)
    }

    /** `loaded` is what `load_mappings` read, `None` when the file is missing or unreadable. */
    constructor (loaded: Option<Catalog>)
      ensures Valid()
      ensures mappings == loaded.GetOr(map[]) && deviceIp == None && scrcpyProc == None
      ensures streamLabel == StartLabel && log == "Status: idle" && trace == []
    {
      mappings := loaded.GetOr(map[]);
      deviceIp := None;
      scrcpyProc := None;
      streamLabel := StartLabel;
      log := "Status: idle";
      trace := [];
    }

    /** The table `show_mapping` displays. */
    function ShowMapping(current: Option<string>): (t: Table)
      reads this`mappings
      ensures GameOf(current) in mappings ==> t == mappings[GameOf(current)]
      ensures GameOf(current) !in mappings && DefaultGame in mappings ==> t == mappings[DefaultGame]
      ensures GameOf(current) !in mappings && DefaultGame !in mappings ==> t == map[]
    {
      ShownTable(mappings, GameOf(current))
    }

    /**
     * `connect_device`: a blank address changes nothing and calls nothing;
     * otherwise the stripped address is recorded before `adb connect` runs,
     * and kept whether or not the connect succeeds.
     */
    method ConnectDevice(ipText: string, reply: AdbReply)
      modifies this`deviceIp, this`log, this`trace
      ensures Strip(ipText) == "" ==> deviceIp == old(deviceIp) && log == old(log) && trace == old(trace)
      ensures Strip(ipText) != "" ==>
        && deviceIp == Some(Strip(ipText))
        && trace == old(trace) + [AdbRun(AdbController.Connect(Strip(ipText), AdbController.DefaultPort))]
        && log == if reply.rc == 0 then "Connected: " + OrElse(reply.out, reply.err)
                  else "Connect failed: " + OrElse(reply.err, reply.out)
    {
      var ip := Strip(ipText);
      if ip == "" {
        return;
      }
      deviceIp := Some(ip);
      trace := trace + [AdbRun(AdbController.Connect(ip, AdbController.DefaultPort))];
      if reply.rc == 0 {
        log := "Connected: " + OrElse(reply.out, reply.err);
      } else {
        log := "Connect failed: " + OrElse(reply.err, reply.out);
      }
    }

    /**
     * `toggle_stream`: a live process is killed and forgotten; otherwise a
     * new one is spawned and recorded, unless the binary is missing, which
     * changes nothing. `alive` is what `poll()` would report.
     */
    method ToggleStream(alive: bool, spawn: SpawnResult)
      modifies this`scrcpyProc, this`streamLabel, this`log, this`trace
      ensures old(scrcpyProc).Some? && alive ==>
        && scrcpyProc == None && streamLabel == StartLabel && log == "Stream stopped"
        && trace == old(trace) + [Kill(old(scrcpyProc).value)]
      ensures !(old(scrcpyProc).Some? && alive) && spawn.Spawned? ==>
        && scrcpyProc == Some(spawn.p) && streamLabel == StopLabel && log == "Streaming via scrcpy"
        && trace == old(trace) + [Spawn(ScrcpyArgv)]
      ensures !(old(scrcpyProc).Some? && alive) && spawn.BinaryNotFound? ==>
        && scrcpyProc == old(scrcpyProc) && streamLabel == old(streamLabel)
        && log == old(log) && trace == old(trace)
      ensures old(Valid()) ==> Valid()
    {
      if scrcpyProc.Some? && alive {
        trace := trace + [Kill(scrcpyProc.value)];
        scrcpyProc := None;
        streamLabel := StartLabel;
        log := "Stream stopped";
        return;
      }
      match spawn
      case Spawned(p) =>
        scrcpyProc := Some(p);
        trace := trace + [Spawn(ScrcpyArgv)];
        streamLabel := StopLabel;
        log := "Streaming via scrcpy";
      case BinaryNotFound =>
    }

    /**
     * `analyze_game` with its worker run to completion on `result`: without
     * a selected game nothing happens; a keys dict whose items all convert
     * replaces that game's table, and nothing else changes the catalog.
     */
    method AnalyzeGame(current: Option<string>, result: AiResult)
      modifies this`mappings
      ensures current.None? || current.value == "" ==> mappings == old(mappings)
      ensures current.Some? && current.value != "" ==> mappings == Ingest(old(mappings), current.value, result)
    {
      if current.None? || current.value == "" {
        return;
      }
      var game := current.value;
      match result
      case KeysDict(items) =>
        var mapping, raised := BuildMapping(items);
        if !raised {
          mappings := mappings[game := mapping];
        }
      case OtherResult =>
      case AiRaised =>
    }

    /**
     * `handle_key`: sends the keyevent `KeyDecision` picks, and nothing else;
     * an unresolved key only reports itself.
     */
    method HandleKey(key: string, down: bool, current: Option<string>)
      modifies this`log, this`trace
      ensures match KeyDecision(mappings, GameOf(current), key, down)
        case NoMapping => log == "No mapping for " + key && trace == old(trace)
        case Send(code) =>
          && trace == old(trace) + [AdbRun(AdbController.SendKeyevent(code, None))]
          && log == "Sent key " + key + " -> keycode " + IntToString(code)
        case _ => log == old(log) && trace == old(trace)
    {
      var game := GameOf(current);
      var mapping := if game in mappings && key in mappings[game] then Some(mappings[game][key]) else None;
      if mapping.None? || !Truthy(mapping.value) {
        mapping := if DefaultGame in mappings && key in mappings[DefaultGame] then Some(mappings[DefaultGame][key]) else None;
      }
      if mapping.None? || !Truthy(mapping.value) {
        log := "No mapping for " + key;
        return;
      }
      var e := mapping.value;
      if e.kind.None? {
        return;
      }
      if e.kind.value == "key" && down {
        var code := e.androidKeycode;
        if KeycodeTruthy(code) {
          trace := trace + [AdbRun(AdbController.SendKeyevent(code.value, None))];
          log := "Sent key " + key + " -> keycode " + IntToString(code.value);
        }
      }
    }

    /** `keyPressEvent`: the event's key name, pressed. */
    method KeyPressEvent(text: string, qtKey: int, current: Option<string>)
      modifies this`log, this`trace
      ensures match KeyDecision(mappings, GameOf(current), KeyName(text, qtKey), true)
        case NoMapping => log == "No mapping for " + KeyName(text, qtKey) && trace == old(trace)
        case Send(code) =>
          && trace == old(trace) + [AdbRun(AdbController.SendKeyevent(code, None))]
          && log == "Sent key " + KeyName(text, qtKey) + " -> keycode " + IntToString(code)
        case _ => log == old(log) && trace == old(trace)
    {
      var keyText := Upper(text);
      var keyName := if keyText == "" then QtKeyToName(qtKey) else keyText;
      HandleKey(keyName, true, current);
    }

    /** `keyReleaseEvent`: never sends; only an unresolved name is reported. */
    method KeyReleaseEvent(text: string, qtKey: int, current: Option<string>)
      modifies this`log, this`trace
      ensures trace == old(trace)
      ensures ResolveKey(mappings, GameOf(current), KeyName(text, qtKey)).None? ==>
        log == "No mapping for " + KeyName(text, qtKey)
      ensures ResolveKey(mappings, GameOf(current), KeyName(text, qtKey)).Some? ==> log == old(log)
    {
      var keyText := Upper(text);
      var keyName := if keyText == "" then QtKeyToName(qtKey) else keyText;
      HandleKey(keyName, false, current);
    }

    /**
     * `handle_mouse`: a tap at the scaled point for a left click, BACK for a
     * right click; it never reads the mappings. The screen size is the
     * primary screen's, passed in.
     */
    method HandleMouse(action: string, x: Option<int>, y: Option<int>, screenW: nat, screenH: nat)
      modifies this`log, this`trace
      ensures match MouseDecision(action, x, y, screenW, screenH)
        case TapAt(px, py) =>
          && trace == old(trace) + [AdbRun(AdbController.Tap(px, py, None))]
          && log == "Tap at " + IntToString(px) + "," + IntToString(py)
        case Back =>
          && trace == old(trace) + [AdbRun(AdbController.SendKeyevent(BackKeycode, None))]
          && log == "Sent BACK (right click)"
        case _ => log == old(log) && trace == old(trace)
    {
      if action == "LEFT_CLICK" && x.Some? && y.Some? {
        var px := Scale(x.value, screenW, PhoneW);
        if px.None? {
          return;
        }
        var py := Scale(y.value, screenH, PhoneH);
        if py.None? {
          return;
        }
        trace := trace + [AdbRun(AdbController.Tap(px.value, py.value, None))];
        log := "Tap at " + IntToString(px.value) + "," + IntToString(py.value);
      } else if action == "RIGHT_CLICK" {
        trace := trace + [AdbRun(AdbController.SendKeyevent(BackKeycode, None))];
        log := "Sent BACK (right click)";
      }
    }

    /** `mousePressEvent`: left and right buttons go to `handle_mouse`, others are ignored. */
    method MousePressEvent(button: Button, x: int, y: int, screenW: nat, screenH: nat)
      modifies this`log, this`trace
      ensures button == OtherButton ==> log == old(log) && trace == old(trace)
      ensures button == RightButton ==>
        && trace == old(trace) + [AdbRun(AdbController.SendKeyevent(BackKeycode, None))]
        && log == "Sent BACK (right click)"
      ensures button == LeftButton && screenW > 0 && screenH > 0 ==>
        var px := Scale(x, screenW, PhoneW).value;
        var py := Scale(y, screenH, PhoneH).value;
        && trace == old(trace) + [AdbRun(AdbController.Tap(px, py, None))]
        && log == "Tap at " + IntToString(px) + "," + IntToString(py)
      ensures button == LeftButton && (screenW == 0 || screenH == 0) ==> log == old(log) && trace == old(trace)
    {
      var call := PressDispatch(button, x, y);
      if call.Some? {
        HandleMouse(call.value.action, call.value.x, call.value.y, screenW, screenH);
      }
    }
  }
}
