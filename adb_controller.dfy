/**
 * The argument vectors `adb_controller.py` builds. Each wrapper formats one
 * command line with an f-string and hands it to `run_cmd`, which splits it
 * with `shlex.split`. The split is modelled as whitespace tokenisation, which
 * agrees with `shlex` on lines free of quotes and backslashes; every lemma
 * below that speaks of tokens asks its arguments to be such plain words.
 */
module AdbController {
  import opened Wrappers
  import opened PyText

  const Adb := "adb"
  const DefaultPort := 5555
  const DefaultSwipeMs := 100

  // ---------------------------------------------------------------------------
  // Tokenisation (run_cmd, adb_controller.py:6-8)

  /** The separators `shlex` splits on. */
  predicate IsShlexSpace(c: char) {
    c == ' ' || c == '\t' || c == '\r' || c == '\n'
  }

  /** A character `shlex` copies into a token verbatim. */
  predicate IsPlainChar(c: char) {
    !IsShlexSpace(c) && c != '\'' && c != '"' && c != '\\'
  }

  /** A string that `shlex` reads as at most one token, itself. */
  predicate IsPlainWord(w: string) {
    forall i :: 0 <= i < |w| ==> IsPlainChar(w[i])
  }

  /** The token `cur` collected so far, if any. */
  function Flush(cur: string): seq<string> {
    if cur == [] then [] else [cur]
  }

  /** Splits `s` on whitespace, continuing a token `cur` already begun. */
  function Tokens(s: string, cur: string): seq<string>
    decreases |s|
  {
    if s == [] then Flush(cur)
    else if IsShlexSpace(s[0]) then Flush(cur) + Tokens(s[1..], [])
    else Tokens(s[1..], cur + [s[0]])
  }

  function Split(s: string): seq<string> {
    Tokens(s, [])
  }

  /** Every token is non-empty and holds no whitespace. */
  lemma {:induction false} TokensAreWords(s: string, cur: string)
    requires forall i :: 0 <= i < |cur| ==> !IsShlexSpace(cur[i])
    ensures forall k :: 0 <= k < |Tokens(s, cur)| ==> Tokens(s, cur)[k] != []
    ensures forall k, i :: 0 <= k < |Tokens(s, cur)| && 0 <= i < |Tokens(s, cur)[k]| ==> !IsShlexSpace(Tokens(s, cur)[k][i])
    decreases |s|
  {
    if s != [] {
      if IsShlexSpace(s[0]) {
        TokensAreWords(s[1..], []);
      } else {
        TokensAreWords(s[1..], cur + [s[0]]);
      }
    }
  }

  /** What `run_cmd` is given: a command line or a ready argument list. */
  datatype Cmd = Line(line: string) | Argv(args: seq<string>)

  /**
   * The argument vector `run_cmd` executes: a list is passed through as it
   * is, a string is split into non-empty, whitespace-free tokens.
   */
  function RunCmdArgv(cmd: Cmd): (argv: seq<string>)
    ensures cmd.Argv? ==> argv == cmd.args
    ensures cmd.Line? ==> forall k :: 0 <= k < |argv| ==> argv[k] != []
    ensures cmd.Line? ==> forall k, i :: 0 <= k < |argv| && 0 <= i < |argv[k]| ==> !IsShlexSpace(argv[k][i])
  {
    match cmd
    case Line(s) => TokensAreWords(s, []); Split(s)
    case Argv(a) => a
  }

  /**
   * Fields joined by single spaces: an f-string whose literal text between
   * its fields is one space each, such as `f"{ADB} {target} shell ..."`.
   */
  function Words(ws: seq<string>): string {
    if |ws| == 0 then ""
    else if |ws| == 1 then ws[0]
    else ws[0] + " " + Words(ws[1..])
  }

  /** The tokens of each field, in order. */
  function SplitEach(ws: seq<string>): seq<string> {
    if |ws| == 0 then [] else Split(ws[0]) + SplitEach(ws[1..])
  }

  lemma {:induction false} TokensAfterSpace(a: string, c: char, b: string, cur: string)
    requires IsShlexSpace(c)
    ensures Tokens(a + [c] + b, cur) == Tokens(a, cur) + Tokens(b, [])
    decreases |a|
  {
    if a == [] {
      assert a + [c] + b == [c] + b;
    } else {
      assert (a + [c] + b)[1..] == a[1..] + [c] + b;
      if IsShlexSpace(a[0]) {
        TokensAfterSpace(a[1..], c, b, []);
      } else {
        TokensAfterSpace(a[1..], c, b, cur + [a[0]]);
      }
    }
  }

  lemma {:induction false} TokensOfWord(w: string, cur: string)
    requires IsPlainWord(w)
    ensures Tokens(w, cur) == Flush(cur + w)
    decreases |w|
  {
    if w != [] {
      assert cur + w == (cur + [w[0]]) + w[1..];
      TokensOfWord(w[1..], cur + [w[0]]);
    } else {
      assert cur + w == cur;
    }
  }

  /** A plain word splits into itself, or into nothing when it is empty. */
  lemma SplitPlainWord(w: string)
    requires IsPlainWord(w)
    ensures Split(w) == Flush(w)
  {
    TokensOfWord(w, []);
    assert [] + w == w;
  }

  /** Splitting fields joined by spaces splits each field on its own. */
  lemma {:induction false} SplitWords(ws: seq<string>)
    ensures Split(Words(ws)) == SplitEach(ws)
    decreases |ws|
  {
    if |ws| == 1 {
      assert SplitEach(ws) == Split(ws[0]) + SplitEach([]);
    } else if |ws| > 1 {
      assert ws[0] + " " + Words(ws[1..]) == ws[0] + [' '] + Words(ws[1..]);
      TokensAfterSpace(ws[0], ' ', Words(ws[1..]), []);
      SplitWords(ws[1..]);
    }
  }

  lemma {:induction false} SplitEachAppend(a: seq<string>, b: seq<string>)
    ensures SplitEach(a + b) == SplitEach(a) + SplitEach(b)
    decreases |a|
  {
    if |a| == 0 {
      assert a + b == b;
    } else {
      assert (a + b)[1..] == a[1..] + b;
      SplitEachAppend(a[1..], b);
    }
  }

  /** Fields that are non-empty plain words come through splitting unchanged. */
  lemma {:induction false} SplitEachPlain(ws: seq<string>)
    requires forall k :: 0 <= k < |ws| ==> IsPlainWord(ws[k]) && ws[k] != []
    ensures SplitEach(ws) == ws
    decreases |ws|
  {
    if |ws| > 0 {
      SplitPlainWord(ws[0]);
      SplitEachPlain(ws[1..]);
    }
  }

  /**
   * `run_cmd` on a line of plain, non-empty fields joined by single spaces
   * executes exactly those fields, in order.
   */
  lemma RunCmdLineWords(ws: seq<string>)
    requires forall k :: 0 <= k < |ws| ==> IsPlainWord(ws[k]) && ws[k] != []
    ensures RunCmdArgv(Line(Words(ws))) == ws
  {
    SplitWords(ws);
    SplitEachPlain(ws);
  }

  // ---------------------------------------------------------------------------
  // The command lines (adb_controller.py:12-37)

  function Connect(ip: string, port: int): string {
    Words([Adb, "connect", ip + ":" + IntToString(port)])
  }

  function Disconnect(ip: string, port: int): string {
    Words([Adb, "disconnect", ip + ":" + IntToString(port)])
  }

  function Devices(): string {
    Words([Adb, "devices"])
  }

  /** The `-s <device>` selector; `None` and the empty name select nothing. */
  function Target(device: Option<string>): string {
    if device.Some? && device.value != "" then Words(["-s", device.value]) else ""
  }

  function SendKeyevent(keycode: int, device: Option<string>): string {
    Words([Adb, Target(device), "shell", "input", "keyevent", IntToString(keycode)])
  }

  function Tap(x: int, y: int, device: Option<string>): string {
    Words([Adb, Target(device), "shell", "input", "tap", IntToString(x), IntToString(y)])
  }

  function Swipe(x1: int, y1: int, x2: int, y2: int, durationMs: int, device: Option<string>): string {
    Words([Adb, Target(device), "shell", "input", "swipe", IntToString(x1), IntToString(y1),
           IntToString(x2), IntToString(y2), IntToString(durationMs)])
  }

  /** `text.replace(' ', '%s')`. */
  function EscapeText(text: string): string {
    if text == [] then []
    else (if text[0] == ' ' then "%s" else [text[0]]) + EscapeText(text[1..])
  }

  function TextInput(text: string, device: Option<string>): string {
    Words([Adb, Target(device), "shell", "input", "text", EscapeText(text)])
  }

  // ---------------------------------------------------------------------------
  // What each command line splits into

  /** The tokens the device selector contributes: none, or `-s` and the name. */
  function TargetArgs(device: Option<string>): seq<string> {
    if device.Some? && device.value != "" then ["-s", device.value] else []
  }

  predicate PlainDevice(device: Option<string>) {
    device.Some? ==> IsPlainWord(device.value)
  }

  lemma TargetSplit(device: Option<string>)
    requires PlainDevice(device)
    ensures Split(Target(device)) == TargetArgs(device)
  {
    if device.Some? && device.value != "" {
      SplitWords(["-s", device.value]);
      SplitEachPair("-s", device.value);
      SplitPlainWord("-s");
      SplitPlainWord(device.value);
    }
  }

  lemma SplitEachPair(a: string, b: string)
    ensures SplitEach([a, b]) == Split(a) + Split(b)
  {
    assert [a, b][1..] == [b];
    assert SplitEach([b]) == Split(b) + SplitEach([]);
  }

  /** `adb`, a selector field that splits into `targs`, then plain fields. */
  lemma {:induction false} SplitAdbLine(t: string, targs: seq<string>, rest: seq<string>)
    requires Split(t) == targs
    requires forall k :: 0 <= k < |rest| ==> IsPlainWord(rest[k]) && rest[k] != []
    ensures Split(Words([Adb, t] + rest)) == [Adb] + targs + rest
  {
    SplitWords([Adb, t] + rest);
    SplitEachAppend([Adb, t], rest);
    SplitEachPlain(rest);
    SplitEachPair(Adb, t);
    SplitPlainWord(Adb);
  }

  /** As `SplitAdbLine`, with a last field that may be empty and then yields no token. */
  lemma {:induction false} SplitAdbLineLast(t: string, targs: seq<string>, rest: seq<string>, last: string)
    requires Split(t) == targs
    requires forall k :: 0 <= k < |rest| ==> IsPlainWord(rest[k]) && rest[k] != []
    requires IsPlainWord(last)
    ensures Split(Words([Adb, t] + rest + [last])) == [Adb] + targs + rest + Flush(last)
  {
    var pre := [Adb, t] + rest;
    SplitWords(pre + [last]);
    SplitEachAppend(pre, [last]);
    SplitAdbLine(t, targs, rest);
    SplitWords(pre);
    SplitPlainWord(last);
    assert SplitEach([last]) == Split(last) + SplitEach([]);
  }

  /** A targeted line splits into `adb`, the selector's tokens, then the other fields. */
  lemma {:induction false} TargetedArgv(device: Option<string>, rest: seq<string>)
    requires PlainDevice(device)
    requires forall k :: 0 <= k < |rest| ==> IsPlainWord(rest[k]) && rest[k] != []
    ensures Split(Words([Adb, Target(device)] + rest)) == [Adb] + TargetArgs(device) + rest
  {
    TargetSplit(device);
    SplitAdbLine(Target(device), TargetArgs(device), rest);
  }

  lemma IntToStringIsPlain(i: int)
    ensures IsPlainWord(IntToString(i)) && IntToString(i) != []
  {
  }

  lemma PlainConcat(a: string, b: string)
    requires IsPlainWord(a) && IsPlainWord(b)
    ensures IsPlainWord(a + b)
  {
    assert forall i :: |a| <= i < |a + b| ==> (a + b)[i] == b[i - |a|];
  }

  /** The `ip:port` field is one plain word. */
  lemma AddressIsPlain(ip: string, port: int)
    requires IsPlainWord(ip)
    ensures IsPlainWord(ip + ":" + IntToString(port)) && ip + ":" + IntToString(port) != []
  {
    PlainConcat(ip, ":");
    IntToStringIsPlain(port);
    PlainConcat(ip + ":", IntToString(port));
  }

  /** Three plain, non-empty fields split back into themselves. */
  lemma {:induction false} SplitThree(a: string, b: string, c: string)
    requires IsPlainWord(a) && IsPlainWord(b) && IsPlainWord(c) && a != [] && b != [] && c != []
    ensures Split(Words([a, b, c])) == [a, b, c]
  {
    SplitWords([a, b, c]);
    SplitEachPlain([a, b, c]);
  }

  /** `adb connect ip:port`: three tokens. */
  lemma ConnectArgv(ip: string, port: int)
    requires IsPlainWord(ip)
    ensures Split(Connect(ip, port)) == [Adb, "connect", ip + ":" + IntToString(port)]
  {
    AddressIsPlain(ip, port);
    SplitThree(Adb, "connect", ip + ":" + IntToString(port));
  }

  /** `adb disconnect ip:port`: three tokens. */
  lemma DisconnectArgv(ip: string, port: int)
    requires IsPlainWord(ip)
    ensures Split(Disconnect(ip, port)) == [Adb, "disconnect", ip + ":" + IntToString(port)]
  {
    AddressIsPlain(ip, port);
    SplitThree(Adb, "disconnect", ip + ":" + IntToString(port));
  }

  lemma DevicesArgv()
    ensures Split(Devices()) == [Adb, "devices"]
  {
    SplitWords([Adb, "devices"]);
    SplitEachPlain([Adb, "devices"]);
  }

  /** `adb [-s d] shell input keyevent <code>`. */
  lemma SendKeyeventArgv(keycode: int, device: Option<string>)
    requires PlainDevice(device)
    ensures Split(SendKeyevent(keycode, device))
         == [Adb] + TargetArgs(device) + ["shell", "input", "keyevent", IntToString(keycode)]
  {
    var rest := ["shell", "input", "keyevent", IntToString(keycode)];
    assert [Adb, Target(device)] + rest
        == [Adb, Target(device), "shell", "input", "keyevent", IntToString(keycode)];
    TargetedArgv(device, rest);
  }

  /** `adb [-s d] shell input tap <x> <y>`. */
  lemma TapArgv(x: int, y: int, device: Option<string>)
    requires PlainDevice(device)
    ensures Split(Tap(x, y, device))
         == [Adb] + TargetArgs(device) + ["shell", "input", "tap", IntToString(x), IntToString(y)]
  {
    var rest := ["shell", "input", "tap", IntToString(x), IntToString(y)];
    assert [Adb, Target(device)] + rest
        == [Adb, Target(device), "shell", "input", "tap", IntToString(x), IntToString(y)];
    TargetedArgv(device, rest);
  }

  /** `adb [-s d] shell input swipe <x1> <y1> <x2> <y2> <ms>`, in that order. */
  lemma SwipeArgv(x1: int, y1: int, x2: int, y2: int, durationMs: int, device: Option<string>)
    requires PlainDevice(device)
    ensures Split(Swipe(x1, y1, x2, y2, durationMs, device))
         == [Adb] + TargetArgs(device) + ["shell", "input", "swipe", IntToString(x1), IntToString(y1),
                                          IntToString(x2), IntToString(y2), IntToString(durationMs)]
  {
    var rest := ["shell", "input", "swipe", IntToString(x1), IntToString(y1),
                 IntToString(x2), IntToString(y2), IntToString(durationMs)];
    assert [Adb, Target(device)] + rest
        == [Adb, Target(device), "shell", "input", "swipe", IntToString(x1), IntToString(y1),
            IntToString(x2), IntToString(y2), IntToString(durationMs)];
    TargetedArgv(device, rest);
  }

  /** A swipe that leaves the duration out lasts 100 ms: its last token is `100`. */
  lemma SwipeDefaultDuration(x1: int, y1: int, x2: int, y2: int, device: Option<string>)
    requires PlainDevice(device)
    ensures var argv := Split(Swipe(x1, y1, x2, y2, DefaultSwipeMs, device));
      |argv| > 0 && argv[|argv| - 1] == "100"
  {
    SwipeArgv(x1, y1, x2, y2, DefaultSwipeMs, device);
    assert IntToString(100) == "100";
  }

  function CountSpaces(s: string): nat {
    if s == [] then 0 else (if s[0] == ' ' then 1 else 0) + CountSpaces(s[1..])
  }

  /**
   * The escaping of `text_input`: no space survives, the text grows by one
   * character per space, and a text without spaces is unchanged.
   */
  lemma {:induction false} EscapeTextSpec(text: string)
    ensures forall i :: 0 <= i < |EscapeText(text)| ==> EscapeText(text)[i] != ' '
    ensures |EscapeText(text)| == |text| + CountSpaces(text)
    ensures ' ' !in text ==> EscapeText(text) == text
    decreases |text|
  {
    if text != [] {
      EscapeTextSpec(text[1..]);
      assert ' ' !in text ==> ' ' !in text[1..];
    }
  }

  /** Escaping distributes over concatenation, character by character. */
  lemma {:induction false} EscapeTextAppend(a: string, b: string)
    ensures EscapeText(a + b) == EscapeText(a) + EscapeText(b)
    decreases |a|
  {
    if a != [] {
      assert (a + b)[1..] == a[1..] + b;
      EscapeTextAppend(a[1..], b);
    } else {
      assert a + b == b;
    }
  }

  /**
   * Each character is escaped on its own: a space becomes the two characters
   * `%s` and any other character stays, whatever surrounds it.
   */
  lemma EscapeTextSplice(a: string, c: char, b: string)
    ensures EscapeText(a + [c] + b) == EscapeText(a) + (if c == ' ' then "%s" else [c]) + EscapeText(b)
  {
    EscapeTextAppend(a + [c], b);
    EscapeTextAppend(a, [c]);
    assert EscapeText([c]) == (if c == ' ' then "%s" else [c]) + EscapeText([]);
  }

  /**
   * `adb [-s d] shell input text <escaped>`: a text whose only whitespace is
   * spaces (and that has no quotes or backslashes) reaches the device as one
   * token, or as none when it is empty.
   */
  lemma {:induction false} TextInputArgv(text: string, device: Option<string>)
    requires PlainDevice(device)
    requires forall i :: 0 <= i < |text| ==> text[i] == ' ' || IsPlainChar(text[i])
    ensures Split(TextInput(text, device))
         == [Adb] + TargetArgs(device) + ["shell", "input", "text"] + Flush(EscapeText(text))
  {
    var esc := EscapeText(text);
    EscapePlain(text);
    TargetSplit(device);
    assert [Adb, Target(device), "shell", "input", "text", esc]
        == [Adb, Target(device)] + ["shell", "input", "text"] + [esc];
    SplitAdbLineLast(Target(device), TargetArgs(device), ["shell", "input", "text"], esc);
  }

  lemma {:induction false} EscapePlain(text: string)
    requires forall i :: 0 <= i < |text| ==> text[i] == ' ' || IsPlainChar(text[i])
    ensures IsPlainWord(EscapeText(text))
    decreases |text|
  {
    if text != [] {
      EscapePlain(text[1..]);
    }
  }
}
