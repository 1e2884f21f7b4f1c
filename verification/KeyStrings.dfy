/** Key sequences as text: the parser of the configuration file and the printer of
    the on-screen hints (todoers/src/config.rs:372-548). */
module KeyStrings {
  import opened Helpers
  import opened Keyboard

  // ── parsing ───────────────────────────────────────────────────────────────

  function LowerChar(c: char): char {
    if 'A' <= c <= 'Z' then (c as int - 'A' as int + 'a' as int) as char else c
  }

  function UpperChar(c: char): char {
    if 'a' <= c <= 'z' then (c as int - 'a' as int + 'A' as int) as char else c
  }

  function Lower(s: string): (r: string)
    ensures |r| == |s| && forall i | 0 <= i < |s| :: r[i] == LowerChar(s[i])
  {
    seq(|s|, i requires 0 <= i < |s| => LowerChar(s[i]))
  }

  /** The modifier prefixes of a text, taken off one after another. */
  function Stripped(s: string, modifiers: set<Modifier>): (string, set<Modifier>)
    decreases |s|
  {
    if "ctrl-" <= s then Stripped(s[5..], modifiers + {Control})
    else if "alt-" <= s || "opt-" <= s then Stripped(s[4..], modifiers + {Alt})
    else if "shift-" <= s then Stripped(s[6..], modifiers + {Shift})
    else (s, modifiers)
  }

  /** The loop ends: each round takes a prefix off. */
  method ExtractModifiers(raw: string) returns (current: string, modifiers: set<Modifier>)
    ensures (current, modifiers) == Stripped(raw, {})
  {
    modifiers, current := {}, raw;
    while true
      invariant Stripped(current, modifiers) == Stripped(raw, {})
      decreases |current|
    {
      if "ctrl-" <= current {
        modifiers, current := modifiers + {Control}, current[5..];
      } else if "alt-" <= current || "opt-" <= current {
        modifiers, current := modifiers + {Alt}, current[4..];
      } else if "shift-" <= current {
        modifiers, current := modifiers + {Shift}, current[6..];
      } else {
        break;
      }
    }
  }

  function NamedCode(raw: string): Option<KeyCode> {
    if raw == "esc" then Some(Esc)
    else if raw == "enter" then Some(Enter)
    else if raw == "left" then Some(Left)
    else if raw == "right" then Some(Right)
    else if raw == "up" then Some(Up)
    else if raw == "down" then Some(Down)
    else if raw == "home" then Some(Home)
    else if raw == "end" then Some(End)
    else if raw == "pageup" then Some(PageUp)
    else if raw == "pagedown" then Some(PageDown)
    else if raw == "backtab" then Some(BackTab)
    else if raw == "backspace" then Some(Backspace)
    else if raw == "delete" then Some(Delete)
    else if raw == "insert" then Some(Insert)
    else if raw == "f1" then Some(F(1))
    else if raw == "f2" then Some(F(2))
    else if raw == "f3" then Some(F(3))
    else if raw == "f4" then Some(F(4))
    else if raw == "f5" then Some(F(5))
    else if raw == "f6" then Some(F(6))
    else if raw == "f7" then Some(F(7))
    else if raw == "f8" then Some(F(8))
    else if raw == "f9" then Some(F(9))
    else if raw == "f10" then Some(F(10))
    else if raw == "f11" then Some(F(11))
    else if raw == "f12" then Some(F(12))
    else if raw == "space" then Some(Char(' '))
    else if raw == "hyphen" then Some(Char('-'))
    else if raw == "minus" then Some(Char('-'))
    else if raw == "tab" then Some(Tab)
    else None
  }

  /** One byte of UTF-8. */
  predicate OneByte(raw: string) {
    |raw| == 1 && raw[0] as int < 128
  }

  function ParseCode(raw: string, modifiers: set<Modifier>): Result<KeyEvent, string> {
    match NamedCode(raw)
    case Some(code) => Ok(KeyEvent(code, if code == BackTab then modifiers + {Shift} else modifiers))
    case None =>
      if OneByte(raw) then
        Ok(KeyEvent(Char(if Shift in modifiers then UpperChar(raw[0]) else raw[0]), modifiers))
      else Err("Unable to parse " + raw)
  }

  function ParseKey(raw: string): Result<KeyEvent, string> {
    var (rest, modifiers) := Stripped(Lower(raw), {});
    match ParseCode(rest, modifiers)
    case Ok(key) => Ok(Normalize(key))
    case Err(e) => Err(e)
  }

  function Split(s: string): (parts: seq<string>)
    ensures |parts| > 0
  {
    if s == "" then [""]
    else if s[0] == '+' then [""] + Split(s[1..])
    else var rest := Split(s[1..]); [[s[0]] + rest[0]] + rest[1..]
  }

  function ParseAll(parts: seq<string>): Result<seq<KeyEvent>, string> {
    if parts == [] then Ok([])
    else
      match ParseKey(parts[0])
      case Err(e) => Err(e)
      case Ok(key) =>
        match ParseAll(parts[1..])
        case Err(e) => Err(e)
        case Ok(rest) => Ok([key] + rest)
  }

  /** `parse_key_sequence` */
  function Parse(raw: string): Result<seq<KeyEvent>, string> {
    ParseAll(Split(raw))
  }

  // ── printing ──────────────────────────────────────────────────────────────

  function CodeText(code: KeyCode): string {
    match code
    case Backspace => "backspace"
    case Enter => "enter"
    case Left => "left"
    case Right => "right"
    case Up => "up"
    case Down => "down"
    case Home => "home"
    case End => "end"
    case PageUp => "pageup"
    case PageDown => "pagedown"
    case Tab => "tab"
    case BackTab => "backtab"
    case Delete => "delete"
    case Insert => "insert"
    case F(n) => "f(" + Decimal(n) + ")"
    case Char(c) => if c == ' ' then "space" else [c]
    case Esc => "esc"
    case _ => ""
  }

  function Join(parts: seq<string>, separator: string): string {
    if parts == [] then ""
    else if |parts| == 1 then parts[0]
    else parts[0] + separator + Join(parts[1..], separator)
  }

  function ModifierNames(modifiers: set<Modifier>): seq<string> {
    (if Control in modifiers then ["ctrl"] else [])
    + (if Shift in modifiers then ["shift"] else [])
    + (if Alt in modifiers then ["alt"] else [])
  }

  /** `key_event_to_string` */
  function PrintKey(key: KeyEvent): string {
    var prefix := Join(ModifierNames(key.modifiers), "-");
    (if prefix != "" then prefix + "-" else prefix) + CodeText(key.code)
  }

  function PrintEach(keys: seq<KeyEvent>): seq<string> {
    seq(|keys|, i requires 0 <= i < |keys| => PrintKey(keys[i]))
  }

  /** `key_sequence_to_string` */
  function Print(keys: seq<KeyEvent>): string {
    Join(PrintEach(keys), "+")
  }

  // ── one key there and back ────────────────────────────────────────────────

  function Marked(present: bool, prefix: string): string {
    if present then prefix else ""
  }

  /** The prefix the modifiers print as. */
  function Prefix(modifiers: set<Modifier>): string {
    Marked(Control in modifiers, "ctrl-") + Marked(Shift in modifiers, "shift-") + Marked(Alt in modifiers, "alt-")
  }

  lemma PrintedKey(key: KeyEvent)
    ensures PrintKey(key) == Prefix(key.modifiers) + CodeText(key.code)
  {
    var names := ModifierNames(key.modifiers);
    if |names| > 1 {
      assert Join(names, "-") == names[0] + "-" + Join(names[1..], "-");
    }
    if |names| > 2 {
      assert names[1..][1..] == [names[2]];
      assert Join(names[1..], "-") == names[1] + "-" + Join([names[2]], "-");
    }
  }

  /** A text that starts with no modifier. */
  predicate Bare(s: string) {
    !("ctrl-" <= s) && !("alt-" <= s) && !("opt-" <= s) && !("shift-" <= s)
  }

  function Kept(present: bool, m: Modifier): set<Modifier> {
    if present then {m} else {}
  }

  lemma StripControl(present: bool, modifiers: set<Modifier>, rest: string)
    ensures Stripped(Marked(present, "ctrl-") + rest, modifiers)
         == Stripped(rest, modifiers + Kept(present, Control))
  {
    if present {
      assert ("ctrl-" + rest)[5..] == rest;
    } else {
      assert "" + rest == rest && modifiers + {} == modifiers;
    }
  }

  lemma StripShift(present: bool, modifiers: set<Modifier>, rest: string)
    ensures Stripped(Marked(present, "shift-") + rest, modifiers)
         == Stripped(rest, modifiers + Kept(present, Shift))
  {
    if present {
      var s := "shift-" + rest;
      assert s[0] == 's' && s[6..] == rest;
      assert "ctrl-"[0] == 'c' && "alt-"[0] == 'a' && "opt-"[0] == 'o';
    } else {
      assert "" + rest == rest && modifiers + {} == modifiers;
    }
  }

  lemma StripAlt(present: bool, modifiers: set<Modifier>, rest: string)
    ensures Stripped(Marked(present, "alt-") + rest, modifiers)
         == Stripped(rest, modifiers + Kept(present, Alt))
  {
    if present {
      var s := "alt-" + rest;
      assert s[0] == 'a' && s[4..] == rest;
      assert "ctrl-"[0] == 'c';
    } else {
      assert "" + rest == rest && modifiers + {} == modifiers;
    }
  }

  lemma StrippedBare(modifiers: set<Modifier>, text: string)
    requires Bare(text)
    ensures Stripped(text, modifiers) == (text, modifiers)
  {
  }

  lemma KeptAll(modifiers: set<Modifier>)
    ensures {} + Kept(Control in modifiers, Control) + Kept(Shift in modifiers, Shift) + Kept(Alt in modifiers, Alt)
         == modifiers * {Control, Shift, Alt}
  {
  }

  lemma Regroup(a: string, b: string, c: string, d: string)
    ensures a + b + c + d == a + (b + (c + d))
  {
  }

  lemma StrippedPrefix(modifiers: set<Modifier>, text: string)
    requires Bare(text)
    ensures Stripped(Prefix(modifiers) + text, {}) == (text, modifiers * {Control, Shift, Alt})
  {
    var c, s, a := Control in modifiers, Shift in modifiers, Alt in modifiers;
    var pc, ps, pa := Marked(c, "ctrl-"), Marked(s, "shift-"), Marked(a, "alt-");
    var kc, ks, ka := Kept(c, Control), Kept(s, Shift), Kept(a, Alt);
    calc {
      Stripped(Prefix(modifiers) + text, {});
      { Regroup(pc, ps, pa, text); }
      Stripped(pc + (ps + (pa + text)), {});
      { StripControl(c, {}, ps + (pa + text)); }
      Stripped(ps + (pa + text), {} + kc);
      { StripShift(s, {} + kc, pa + text); }
      Stripped(pa + text, {} + kc + ks);
      { StripAlt(a, {} + kc + ks, text); }
      Stripped(text, {} + kc + ks + ka);
      { StrippedBare({} + kc + ks + ka, text); }
      (text, {} + kc + ks + ka);
      { KeptAll(modifiers); }
      (text, modifiers * {Control, Shift, Alt});
    }
  }

  lemma LowerPrefix(modifiers: set<Modifier>, text: string)
    ensures Lower(Prefix(modifiers) + text) == Prefix(modifiers) + Lower(text)
  {
    assert forall c | c in "ctrl-" :: LowerChar(c) == c;
    assert forall c | c in "shift-" :: LowerChar(c) == c;
    assert forall c | c in "alt-" :: LowerChar(c) == c;
    forall i | 0 <= i < |Prefix(modifiers)|
      ensures LowerChar(Prefix(modifiers)[i]) == Prefix(modifiers)[i]
    {
      assert Prefix(modifiers)[i] in Prefix(modifiers);
    }
  }

  /** A key prints as itself. */
  predicate Printable(key: KeyEvent) {
    && key.modifiers <= {Control, Shift, Alt}
    && match key.code
       case Char(c) => Shift !in key.modifiers && c as int < 128 && c != '+' && !('A' <= c <= 'Z')
       case BackTab => Shift in key.modifiers
       case F(_) => false
       case Null => false
       case CapsLock => false
       case Menu => false
       case ScrollLock => false
       case Media(_) => false
       case NumLock => false
       case PrintScreen => false
       case Pause => false
       case KeypadBegin => false
       case ModifierKey(_) => false
       case _ => true
  }

  lemma CodeTextBare(code: KeyCode)
    ensures Bare(Lower(CodeText(code)))
  {
    var text := CodeText(code);
    assert "ctrl-"[0] == 'c' && "ctrl-"[4] == '-' && "alt-"[3] == '-' && "opt-"[3] == '-' && "shift-"[5] == '-';
    assert "ctrl-"[1] == 't' && "alt-"[0] == 'a' && "opt-"[0] == 'o' && "shift-"[0] == 's' && "shift-"[1] == 'h';
    if code.F? {
      assert text[0] == 'f';
    }
  }

  /** What parsing a printed key comes down to. */
  lemma ParsedKey(key: KeyEvent)
    ensures var code := ParseCode(Lower(CodeText(key.code)), key.modifiers * {Control, Shift, Alt});
            ParseKey(PrintKey(key)) == if code.Ok? then Ok(Normalize(code.value)) else code
  {
    PrintedKey(key);
    LowerPrefix(key.modifiers, CodeText(key.code));
    CodeTextBare(key.code);
    StrippedPrefix(key.modifiers, Lower(CodeText(key.code)));
  }

  /** The names of the keys that are neither characters nor function keys. */
  lemma NamedRoundTrip(code: KeyCode)
    requires !code.Char? && !code.F? && CodeText(code) != ""
    ensures NamedCode(Lower(CodeText(code))) == Some(code)
  {
    assert Lower(CodeText(code)) == CodeText(code);
  }

  lemma NoOtherName(raw: string)
    requires |raw| <= 1 || (|raw| >= 4 && raw[0] == 'f' && raw[1] == '(')
    ensures NamedCode(raw) == None
  {
  }

  predicate PrintablePlus(key: KeyEvent) {
    key.code == Char('+') && key.modifiers <= {Control, Alt}
  }

  lemma OnlyPlain(modifiers: set<Modifier>)
    ensures modifiers * {Control, Shift, Alt} == modifiers <==> modifiers <= {Control, Shift, Alt}
    ensures modifiers * {Control, Shift, Alt} + {Shift} == modifiers <==>
      modifiers <= {Control, Shift, Alt} && Shift in modifiers
    ensures modifiers * {Control, Shift, Alt} - {Shift} == modifiers <==> modifiers <= {Control, Alt}
    ensures modifiers <= {Control, Alt} <==> modifiers <= {Control, Shift, Alt} && Shift !in modifiers
  {
    var m := modifiers * {Control, Shift, Alt};
    if m == modifiers || m + {Shift} == modifiers || m - {Shift} == modifiers {
      assert forall x | x in modifiers :: x in m + {Shift};
    }
  }

  lemma CharRoundTripIff(c: char, modifiers: set<Modifier>)
    ensures var key := KeyEvent(Char(c), modifiers);
            ParseKey(PrintKey(key)) == Ok(key) <==> Printable(key) || PrintablePlus(key)
  {
    ParsedKey(KeyEvent(Char(c), modifiers));
    OnlyPlain(modifiers);
    if c == ' ' {
      assert Lower(CodeText(Char(c))) == "space";
    } else {
      assert Lower(CodeText(Char(c))) == [LowerChar(c)];
      NoOtherName([LowerChar(c)]);
    }
  }

  lemma NamedKeyRoundTripIff(key: KeyEvent)
    requires !key.code.Char? && !key.code.F? && CodeText(key.code) != ""
    ensures ParseKey(PrintKey(key)) == Ok(key) <==> Printable(key)
  {
    ParsedKey(key);
    NamedRoundTrip(key.code);
    OnlyPlain(key.modifiers);
  }

  lemma SilentKeyFails(key: KeyEvent)
    requires key.code.F? || CodeText(key.code) == ""
    ensures ParseKey(PrintKey(key)).Err?
  {
    ParsedKey(key);
    NoOtherName(Lower(CodeText(key.code)));
  }

  /** A key on its own comes back from its printed form exactly when it is
      printable; '+' does too, since only a sequence is split at it. */
  lemma KeyRoundTripIff(key: KeyEvent)
    ensures ParseKey(PrintKey(key)) == Ok(key) <==> Printable(key) || PrintablePlus(key)
  {
    if key.code.Char? {
      CharRoundTripIff(key.code.c, key.modifiers);
    } else if key.code.F? || CodeText(key.code) == "" {
      SilentKeyFails(key);
    } else {
      NamedKeyRoundTripIff(key);
    }
  }

  // ── what a text stands for ────────────────────────────────────────────────

  const PREFIXES: set<string> := {"ctrl-", "alt-", "opt-", "shift-"}

  function Glue(prefixes: seq<string>): string {
    if prefixes == [] then "" else prefixes[0] + Glue(prefixes[1..])
  }

  /** `lower` is some prefixes, in any order and number, and then `rest`. */
  predicate ReadsAs(lower: string, prefixes: seq<string>, rest: string) {
    lower == Glue(prefixes) + rest && (forall p | p in prefixes :: p in PREFIXES) && Bare(rest)
  }

  /** Control for "ctrl-", Alt for "alt-" and for "opt-", Shift for "shift-". */
  function Named(prefixes: seq<string>): (modifiers: set<Modifier>)
    ensures modifiers <= {Control, Alt, Shift}
    ensures Control in modifiers <==> "ctrl-" in prefixes
    ensures Alt in modifiers <==> "alt-" in prefixes || "opt-" in prefixes
    ensures Shift in modifiers <==> "shift-" in prefixes
  {
    Kept("ctrl-" in prefixes, Control) + Kept("alt-" in prefixes || "opt-" in prefixes, Alt)
    + Kept("shift-" in prefixes, Shift)
  }

  lemma OneStripped(p: string, s: string, modifiers: set<Modifier>)
    requires p in PREFIXES
    ensures Stripped(p + s, modifiers) == Stripped(s, modifiers + Named([p]))
  {
    assert (p + s)[|p|..] == s;
    if p == "ctrl-" {
      assert Named([p]) == {Control};
    } else if p == "shift-" {
      assert Named([p]) == {Shift};
      assert (p + s)[0] == 's' && "ctrl-"[0] == 'c' && "alt-"[0] == 'a' && "opt-"[0] == 'o';
    } else {
      assert Named([p]) == {Alt};
      assert (p + s)[0] != 'c' && "ctrl-"[0] == 'c';
    }
  }

  lemma {:induction false} StrippedGlued(prefixes: seq<string>, rest: string, modifiers: set<Modifier>)
    requires (forall p | p in prefixes :: p in PREFIXES) && Bare(rest)
    ensures Stripped(Glue(prefixes) + rest, modifiers) == (rest, modifiers + Named(prefixes))
  {
    if prefixes == [] {
      assert Glue(prefixes) + rest == rest && Named(prefixes) == {} && modifiers + {} == modifiers;
    } else {
      var p, more := prefixes[0], prefixes[1..];
      assert Glue(prefixes) + rest == p + (Glue(more) + rest);
      OneStripped(p, Glue(more) + rest, modifiers);
      StrippedGlued(more, rest, modifiers + Named([p]));
      assert prefixes == [p] + more;
      assert Named(prefixes) == Named([p]) + Named(more);
      assert modifiers + Named([p]) + Named(more) == modifiers + Named(prefixes);
    }
  }

  /** Every text reads in one way. */
  lemma {:induction false} Reading(lower: string) returns (prefixes: seq<string>, rest: string)
    ensures ReadsAs(lower, prefixes, rest)
    decreases |lower|
  {
    if Bare(lower) {
      prefixes, rest := [], lower;
      assert Glue([]) + lower == lower;
    } else {
      var p :| p in PREFIXES && p <= lower;
      var more;
      more, rest := Reading(lower[|p|..]);
      prefixes := [p] + more;
      assert prefixes[1..] == more;
      assert lower == p + lower[|p|..];
    }
  }

  /** What every text parses to, once it is read: a name stands for its key; a single
      ASCII character for itself, in upper case after a "shift-"; a character never
      keeps Shift, BackTab always has it; anything else is an error. */
  lemma KeyOfText(raw: string, prefixes: seq<string>, rest: string)
    requires ReadsAs(Lower(raw), prefixes, rest)
    ensures var name, m := NamedCode(rest), Named(prefixes);
            ParseKey(raw)
              == if name == Some(BackTab) then Ok(KeyEvent(BackTab, m + {Shift}))
                 else if name.Some? && !name.value.Char? then Ok(KeyEvent(name.value, m))
                 else if name.Some? then Ok(KeyEvent(name.value, m - {Shift}))
                 else if |rest| != 1 || rest[0] as int >= 128 then Err("Unable to parse " + rest)
                 else if "shift-" in prefixes && 'a' <= rest[0] <= 'z'
                      then Ok(KeyEvent(Char((rest[0] as int - 32) as char), m - {Shift}))
                 else Ok(KeyEvent(Char(rest[0]), m - {Shift}))
  {
    StrippedGlued(prefixes, rest, {});
    assert {} + Named(prefixes) == Named(prefixes);
  }

  /** The names there are, in turn: motions, editing keys, characters, function keys. */
  lemma MotionNames()
    ensures NamedCode("left") == Some(Left) && NamedCode("right") == Some(Right)
    ensures NamedCode("up") == Some(Up) && NamedCode("down") == Some(Down)
    ensures NamedCode("home") == Some(Home) && NamedCode("end") == Some(End)
    ensures NamedCode("pageup") == Some(PageUp) && NamedCode("pagedown") == Some(PageDown)
  {
  }

  lemma EditingNames()
    ensures NamedCode("esc") == Some(Esc) && NamedCode("enter") == Some(Enter)
    ensures NamedCode("tab") == Some(Tab) && NamedCode("backtab") == Some(BackTab)
    ensures NamedCode("backspace") == Some(Backspace)
    ensures NamedCode("delete") == Some(Delete) && NamedCode("insert") == Some(Insert)
  {
  }

  lemma CharacterNames()
    ensures NamedCode("space") == Some(Char(' '))
    ensures NamedCode("hyphen") == Some(Char('-')) && NamedCode("minus") == Some(Char('-'))
  {
  }

  lemma FunctionKeyNames(n: nat)
    requires 1 <= n <= 12
    ensures NamedCode("f" + Decimal(n)) == Some(F(n))
  {
    var raw := "f" + Decimal(n);
    if n < 10 {
      assert |raw| == 2 && raw[0] == 'f' && raw[1] == DigitChar(n);
    } else {
      assert Decimal(n) == Decimal(1) + [DigitChar(n - 10)];
      assert |raw| == 3 && raw[0] == 'f' && raw[1] == '1' && raw[2] == DigitChar(n - 10);
    }
  }

  const NAMES: set<string> := {
    "left", "right", "up", "down", "home", "end", "pageup", "pagedown", "esc", "enter", "tab", "backtab", "backspace",
    "delete", "insert", "space", "hyphen", "minus", "f1", "f2", "f3", "f4", "f5", "f6", "f7", "f8", "f9", "f10", "f11",
    "f12"}

  lemma NoNamesBut(raw: string)
    ensures NamedCode(raw).Some? ==> raw in NAMES
  {
  }

  /** "shift-" and a letter, in whatever case, is the capital without Shift. */
  lemma ShiftLetter(raw: string, c: char)
    requires 'a' <= c <= 'z' && Lower(raw) == "shift-" + [c]
    ensures ParseKey(raw) == Ok(KeyEvent(Char((c as int - 32) as char), {}))
  {
    assert Glue(["shift-"]) == "shift-" + Glue(["shift-"][1..]);
    KeyOfText(raw, ["shift-"], [c]);
    NoOtherName([c]);
    assert Named(["shift-"]) - {Shift} == {};
  }

  // ── a sequence there and back ─────────────────────────────────────────────

  function Pluses(s: string): nat {
    if s == "" then 0 else (if s[0] == '+' then 1 else 0) + Pluses(s[1..])
  }

  lemma {:induction false} PlusesConcat(a: string, b: string)
    ensures Pluses(a + b) == Pluses(a) + Pluses(b)
  {
    if a == "" {
      assert a + b == b;
    } else {
      PlusesConcat(a[1..], b);
      assert (a + b)[1..] == a[1..] + b;
    }
  }

  lemma {:induction false} SplitCount(s: string)
    ensures |Split(s)| == 1 + Pluses(s)
  {
    if s != "" {
      SplitCount(s[1..]);
    }
  }

  lemma {:induction false} SplitPlain(a: string, b: string)
    requires Pluses(a) == 0
    ensures Split(a) == [a]
    ensures Split(a + "+" + b) == [a] + Split(b)
  {
    if a == "" {
      assert a + "+" + b == "+" + b && ("+" + b)[1..] == b;
    } else {
      SplitPlain(a[1..], b);
      assert (a + "+" + b)[1..] == a[1..] + "+" + b;
      assert [a[0]] + a[1..] == a;
    }
  }

  lemma {:induction false} SplitJoined(parts: seq<string>)
    requires parts != [] && forall p | p in parts :: Pluses(p) == 0
    ensures Split(Join(parts, "+")) == parts
  {
    assert parts == [parts[0]] + parts[1..];
    if |parts| == 1 {
      SplitPlain(parts[0], "");
    } else {
      SplitJoined(parts[1..]);
      SplitPlain(parts[0], Join(parts[1..], "+"));
    }
  }

  lemma {:induction false} JoinedPlusesIff(parts: seq<string>)
    requires parts != []
    ensures Pluses(Join(parts, "+")) >= |parts| - 1
    ensures Pluses(Join(parts, "+")) == |parts| - 1 <==> forall p | p in parts :: Pluses(p) == 0
  {
    assert parts == [parts[0]] + parts[1..];
    if |parts| > 1 {
      var rest := Join(parts[1..], "+");
      JoinedPlusesIff(parts[1..]);
      PlusesConcat(parts[0] + "+", rest);
      PlusesConcat(parts[0], "+");
      assert Pluses("+") == 1 by { assert "+"[1..] == ""; }
    }
  }

  lemma {:induction false} ParsedCount(parts: seq<string>)
    ensures ParseAll(parts).Ok? ==> |ParseAll(parts).value| == |parts|
  {
    if parts != [] {
      ParsedCount(parts[1..]);
    }
  }

  lemma {:induction false} ParsedEachIff(parts: seq<string>, keys: seq<KeyEvent>)
    requires |parts| == |keys|
    ensures ParseAll(parts) == Ok(keys) <==> forall i | 0 <= i < |keys| :: ParseKey(parts[i]) == Ok(keys[i])
  {
    if parts != [] {
      ParsedEachIff(parts[1..], keys[1..]);
      assert forall i | 0 <= i < |keys[1..]| :: keys[1..][i] == keys[i + 1] && parts[1..][i] == parts[i + 1];
      if ParseAll(parts) == Ok(keys) {
        assert ParseAll(parts[1..]) == Ok(keys[1..]);
        forall i | 0 <= i < |keys|
          ensures ParseKey(parts[i]) == Ok(keys[i])
        {
          assert i > 0 ==> parts[1..][i - 1] == parts[i];
        }
      }
      assert [keys[0]] + keys[1..] == keys;
    }
  }

  lemma {:induction false} PlusIn(s: string)
    ensures Pluses(s) > 0 <==> '+' in s
  {
    if s != "" {
      PlusIn(s[1..]);
      assert s == [s[0]] + s[1..];
    }
  }

  lemma PrefixPlain(modifiers: set<Modifier>)
    ensures Pluses(Prefix(modifiers)) == 0
  {
    var pc, ps, pa := Marked(Control in modifiers, "ctrl-"), Marked(Shift in modifiers, "shift-"),
        Marked(Alt in modifiers, "alt-");
    assert '+' !in pc && '+' !in ps && '+' !in pa;
    PlusIn(pc);
    PlusIn(ps);
    PlusIn(pa);
    PlusesConcat(pc, ps);
    PlusesConcat(pc + ps, pa);
  }

  lemma TextPlain(key: KeyEvent)
    requires Printable(key)
    ensures Pluses(CodeText(key.code)) == 0
  {
    PlusIn(CodeText(key.code));
  }

  lemma PrintedPlus(key: KeyEvent)
    ensures key.code == Char('+') ==> Pluses(PrintKey(key)) > 0
    ensures Printable(key) ==> Pluses(PrintKey(key)) == 0
  {
    PrintedKey(key);
    PrefixPlain(key.modifiers);
    PlusesConcat(Prefix(key.modifiers), CodeText(key.code));
    if key.code == Char('+') {
      assert "+"[1..] == "";
    } else if Printable(key) {
      TextPlain(key);
    }
  }

  lemma EmptyFails()
    ensures Parse(Print([])) != Ok([])
  {
    NoOtherName("");
    assert Lower("") == "" && Bare("");
    assert ParseKey("").Err?;
  }

  /** A text with a '+' in one of its keys has too many parts. */
  lemma PlusKeyFails(parts: seq<string>, keys: seq<KeyEvent>)
    requires parts != [] && |parts| == |keys| && exists p | p in parts :: Pluses(p) > 0
    ensures ParseAll(Split(Join(parts, "+"))) != Ok(keys)
  {
    JoinedPlusesIff(parts);
    SplitCount(Join(parts, "+"));
    ParsedCount(Split(Join(parts, "+")));
  }

  lemma Assemble(parts: seq<string>, keys: seq<KeyEvent>, good: seq<bool>)
    requires parts != [] && |parts| == |keys| == |good|
    requires forall i | 0 <= i < |parts| :: good[i] ==> Pluses(parts[i]) == 0
    requires forall i | 0 <= i < |parts| :: Pluses(parts[i]) == 0 ==> (ParseKey(parts[i]) == Ok(keys[i]) <==> good[i])
    ensures ParseAll(Split(Join(parts, "+"))) == Ok(keys) <==> forall i | 0 <= i < |good| :: good[i]
  {
    if forall p | p in parts :: Pluses(p) == 0 {
      SplitJoined(parts);
      ParsedEachIff(parts, keys);
      assert forall i | 0 <= i < |parts| :: parts[i] in parts;
    } else {
      PlusKeyFails(parts, keys);
      var p :| p in parts && Pluses(p) > 0;
      var i :| 0 <= i < |parts| && parts[i] == p;
      assert !good[i];
    }
  }

  /** Printing and parsing again gives a sequence back exactly when it is not empty
      and every key is printable: known modifiers only, no function key or key
      without a name, BackTab with shift, and of the characters the ASCII ones,
      normalized, other than '+' and the upper-case letters. */
  lemma RoundTripIff(keys: seq<KeyEvent>)
    ensures Parse(Print(keys)) == Ok(keys) <==> keys != [] && forall k | k in keys :: Printable(k)
  {
    if keys == [] {
      EmptyFails();
    } else {
      var good := seq(|keys|, i requires 0 <= i < |keys| => Printable(keys[i]));
      forall i | 0 <= i < |keys|
        ensures good[i] ==> Pluses(PrintKey(keys[i])) == 0
        ensures Pluses(PrintKey(keys[i])) == 0 ==> (ParseKey(PrintKey(keys[i])) == Ok(keys[i]) <==> good[i])
      {
        PrintedPlus(keys[i]);
        KeyRoundTripIff(keys[i]);
      }
      Assemble(PrintEach(keys), keys, good);
      assert (forall i | 0 <= i < |keys| :: good[i]) <==> (forall i | 0 <= i < |keys| :: Printable(keys[i]));
    }
  }
}
