/**
 * Key bindings (crates/cmdk/src/keybinding.rs:1-348): chords, two-chord sequences, and the parser and printer that
 * store them as text.
 */
module KeyBindings {
  import opened Wrappers

  datatype NamedKey =
    | Escape | ArrowUp | ArrowDown | ArrowLeft | ArrowRight | Enter | Tab | Space | Backspace | Delete | Home | End
    | PageUp | PageDown | F1 | F2 | F3 | F4 | F5 | F6 | F7 | F8 | F9 | F10 | F11 | F12

  datatype Key = Char(c: char) | Named(n: NamedKey)

  datatype Modifiers = Modifiers(cmdOrCtrl: bool, shift: bool, alt: bool) {
    predicate HasAny() {
      cmdOrCtrl || shift || alt
    }
  }

  const NONE := Modifiers(false, false, false)

  datatype Chord = Chord(key: Key, modifiers: Modifiers)

  datatype KeyBinding = Single(chord: Chord) | Sequence(first: Chord, second: Chord)

  datatype ParseError = UnknownModifier(text: string) | UnknownKey(text: string)

  // ---------------------------------------------------------------- characters and names

  function ToAsciiLowercase(c: char): (r: char) {
    if 'A' <= c <= 'Z' then 'a' + (c - 'A') else c
  }

  function ToAsciiUppercase(c: char): (r: char) {
    if 'a' <= c <= 'z' then 'A' + (c - 'a') else c
  }

  function AsStr(n: NamedKey): (r: string) {
    match n
    case Escape => "Escape"
    case ArrowUp => "ArrowUp"
    case ArrowDown => "ArrowDown"
    case ArrowLeft => "ArrowLeft"
    case ArrowRight => "ArrowRight"
    case Enter => "Enter"
    case Tab => "Tab"
    case Space => "Space"
    case Backspace => "Backspace"
    case Delete => "Delete"
    case Home => "Home"
    case End => "End"
    case PageUp => "PageUp"
    case PageDown => "PageDown"
    case F1 => "F1"
    case F2 => "F2"
    case F3 => "F3"
    case F4 => "F4"
    case F5 => "F5"
    case F6 => "F6"
    case F7 => "F7"
    case F8 => "F8"
    case F9 => "F9"
    case F10 => "F10"
    case F11 => "F11"
    case F12 => "F12"
  }

  const NAMED_KEYS: seq<NamedKey> :=
    [Escape, ArrowUp, ArrowDown, ArrowLeft, ArrowRight, Enter, Tab, Space, Backspace, Delete, Home, End,
     PageUp, PageDown, F1, F2, F3, F4, F5, F6, F7, F8, F9, F10, F11, F12]

  function FindNamed(keys: seq<NamedKey>, s: string): (r: Option<NamedKey>)
    ensures r.Some? ==> AsStr(r.value) == s
    ensures r == None ==> forall n :: n in keys ==> AsStr(n) != s
  {
    if keys == [] then None
    else if AsStr(keys[0]) == s then Some(keys[0])
    else FindNamed(keys[1..], s)
  }

  /** The key with exactly this name. */
  function ParseNamed(s: string): (r: Option<NamedKey>)
    ensures r.Some? ==> AsStr(r.value) == s
  {
    FindNamed(NAMED_KEYS, s)
  }

  /** Length and a character or two tell the names apart. */
  ghost function KeyNamed(s: string): (r: NamedKey)
    requires |s| >= 2
  {
    if |s| == 2 then
      if s[1] == '1' then F1 else if s[1] == '2' then F2 else if s[1] == '3' then F3 else if s[1] == '4' then F4
      else if s[1] == '5' then F5 else if s[1] == '6' then F6 else if s[1] == '7' then F7 else if s[1] == '8' then F8 else F9
    else if |s| == 3 then
      if s[0] == 'T' then Tab else if s[0] == 'E' then End
      else if s[2] == '0' then F10 else if s[2] == '1' then F11 else F12
    else if |s| == 4 then Home
    else if |s| == 5 then if s[0] == 'E' then Enter else Space
    else if |s| == 6 then if s[0] == 'E' then Escape else if s[0] == 'D' then Delete else PageUp
    else if |s| == 7 then ArrowUp
    else if |s| == 8 then PageDown
    else if |s| == 9 then if s[0] == 'B' then Backspace else if s[5] == 'D' then ArrowDown else ArrowLeft
    else ArrowRight
  }

  lemma NameShape(n: NamedKey)
    ensures |AsStr(n)| >= 2 && KeyNamed(AsStr(n)) == n
  {
  }

  lemma NameCharacters(n: NamedKey, c: char)
    requires c in AsStr(n)
    ensures c != '+' && c != ' '
  {
  }

  lemma EveryKeyIsListed(n: NamedKey)
    ensures n in NAMED_KEYS
  {
    var i := match n
      case Escape => 0 case ArrowUp => 1 case ArrowDown => 2 case ArrowLeft => 3 case ArrowRight => 4 case Enter => 5
      case Tab => 6 case Space => 7 case Backspace => 8 case Delete => 9 case Home => 10 case End => 11
      case PageUp => 12 case PageDown => 13 case F1 => 14 case F2 => 15 case F3 => 16 case F4 => 17 case F5 => 18
      case F6 => 19 case F7 => 20 case F8 => 21 case F9 => 22 case F10 => 23 case F11 => 24 case F12 => 25;
    assert NAMED_KEYS[i] == n;
  }

  lemma NamesParseBack(n: NamedKey)
    ensures ParseNamed(AsStr(n)) == Some(n)
  {
    EveryKeyIsListed(n);
    NameShape(n);
    NameShape(ParseNamed(AsStr(n)).value);
  }

  lemma OneCharacterIsNoName(s: string)
    requires |s| <= 1
    ensures ParseNamed(s) == None
  {
    if ParseNamed(s).Some? {
      NameShape(ParseNamed(s).value);
    }
  }

  // ---------------------------------------------------------------- splitting

  /** `split('+')`: at least one part, and no part holds a `+`. */
  function SplitPlus(s: string): (parts: seq<string>)
    ensures parts != [] && forall i :: 0 <= i < |parts| ==> '+' !in parts[i]
  {
    if s == "" then [""]
    else
      var rest := SplitPlus(s[1..]);
      if s[0] == '+' then [""] + rest else [[s[0]] + rest[0]] + rest[1..]
  }

  lemma {:induction false} SplitAfterPlus(head: string, rest: string)
    requires '+' !in head
    ensures SplitPlus(head + ("+" + rest)) == [head] + SplitPlus(rest)
  {
    var s := head + ("+" + rest);
    if head == "" {
      assert s[1..] == rest;
    } else {
      SplitAfterPlus(head[1..], rest);
      assert head[0] in head && s[0] == head[0];
      assert s[1..] == head[1..] + ("+" + rest);
      assert SplitPlus(s[1..])[0] == head[1..] && SplitPlus(s[1..])[1..] == SplitPlus(rest);
      assert [head[0]] + head[1..] == head;
    }
  }

  lemma {:induction false} SplitWithoutPlus(s: string)
    requires '+' !in s
    ensures SplitPlus(s) == [s]
  {
    if s != "" {
      SplitWithoutPlus(s[1..]);
      assert s[0] in s && [s[0]] + s[1..] == s;
    }
  }

  const THEN := " then "

  /** `split_once(" then ")`: around the first occurrence. */
  function SplitThen(s: string): (r: Option<(string, string)>)
    ensures r.Some? ==> s == r.value.0 + THEN + r.value.1
  {
    if |s| < |THEN| then None
    else if s[..|THEN|] == THEN then Some(("", s[|THEN|..]))
    else
      match SplitThen(s[1..])
      case None => None
      case Some((a, b)) => Some(([s[0]] + a, b))
  }

  /** Text whose only space, if any, is its last character. */
  predicate SpaceAtMostLast(s: string) {
    forall i :: 0 <= i < |s| - 1 ==> s[i] != ' '
  }

  lemma {:induction false} SplitAtFirstThen(a: string, b: string)
    requires SpaceAtMostLast(a)
    ensures SplitThen(a + THEN + b) == Some((a, b))
  {
    var s := a + THEN + b;
    if a == "" {
      assert s[..|THEN|] == THEN && s[|THEN|..] == b;
    } else {
      assert s[0] == a[0] && s[1] == if |a| == 1 then ' ' else a[1];
      assert s[..|THEN|][0] == a[0] && s[..|THEN|][1] == s[1];
      assert THEN[0] == ' ' && THEN[1] == 't';
      assert s[1..] == a[1..] + THEN + b;
      SplitAtFirstThen(a[1..], b);
      assert a == [a[0]] + a[1..];
    }
  }

  lemma {:induction false} NoThenInside(s: string)
    requires SpaceAtMostLast(s)
    ensures SplitThen(s) == None
  {
    if |s| >= |THEN| {
      assert s[..|THEN|][0] == s[0] && THEN[0] == ' ';
      NoThenInside(s[1..]);
    }
  }

  // ---------------------------------------------------------------- parsing a chord

  function WithModifier(m: string, modifiers: Modifiers): (r: Result<Modifiers, ParseError>) {
    if m == "CmdOrCtrl" || m == "Ctrl" || m == "Cmd" then Ok(modifiers.(cmdOrCtrl := true))
    else if m == "Alt" then Ok(modifiers.(alt := true))
    else if m == "Shift" then Ok(modifiers.(shift := true))
    else Err(UnknownModifier(m))
  }

  function WithModifiers(parts: seq<string>, modifiers: Modifiers): (r: Result<Modifiers, ParseError>) {
    if parts == [] then Ok(modifiers)
    else
      match WithModifier(parts[0], modifiers)
      case Ok(more) => WithModifiers(parts[1..], more)
      case Err(e) => Err(e)
  }

  function ParseKey(s: string): (r: Result<Key, ParseError>) {
    match ParseNamed(s)
    case Some(n) => Ok(Named(n))
    case None => if |s| == 1 then Ok(Char(ToAsciiLowercase(s[0]))) else Err(UnknownKey(s))
  }

  function ParseParts(parts: seq<string>): (r: Result<Chord, ParseError>)
    requires parts != []
  {
    match WithModifiers(parts[..|parts| - 1], NONE)
    case Err(e) => Err(e)
    case Ok(modifiers) =>
      match ParseKey(parts[|parts| - 1])
      case Err(e) => Err(e)
      case Ok(key) => Ok(Chord(key, modifiers))
  }

  function ParsedChord(s: string): (r: Result<Chord, ParseError>) {
    ParseParts(SplitPlus(s))
  }

  /** `Chord::parse`: modifiers one by one, then the key. */
  method ParseChord(s: string) returns (r: Result<Chord, ParseError>)
    ensures r == ParsedChord(s)
  {
    var parts := SplitPlus(s);
    var keyStr := parts[|parts| - 1];
    var given := parts[..|parts| - 1];
    var modifiers := NONE;
    for i := 0 to |given|
      invariant WithModifiers(given, NONE) == WithModifiers(given[i..], modifiers)
    {
      var m := given[i];
      assert given[i..][0] == m && given[i..][1..] == given[i + 1..];
      if m == "CmdOrCtrl" || m == "Ctrl" || m == "Cmd" {
        modifiers := modifiers.(cmdOrCtrl := true);
      } else if m == "Alt" {
        modifiers := modifiers.(alt := true);
      } else if m == "Shift" {
        modifiers := modifiers.(shift := true);
      } else {
        return Err(UnknownModifier(m));
      }
    }
    var named := ParseNamed(keyStr);
    if named.Some? {
      return Ok(Chord(Named(named.value), modifiers));
    }
    if |keyStr| != 1 {
      return Err(UnknownKey(keyStr));
    }
    r := Ok(Chord(Char(ToAsciiLowercase(keyStr[0])), modifiers));
  }

  // ---------------------------------------------------------------- printing a chord

  function KeyText(chord: Chord): (r: string) {
    match chord.key
    case Char(c) => if chord.modifiers.HasAny() then [ToAsciiUppercase(c)] else [c]
    case Named(n) => AsStr(n)
  }

  /** The modifiers' names, in the order they are printed. */
  function ModifierNames(m: Modifiers, ctrlName: string): (r: seq<string>) {
    (if m.cmdOrCtrl then [ctrlName] else []) + (if m.alt then ["Alt"] else []) + (if m.shift then ["Shift"] else [])
  }

  /** A modifier's name in front of the rest, if it is set. */
  function Prefixed(present: bool, name: string, rest: string): (r: string) {
    if present then name + ("+" + rest) else rest
  }

  function Formatted(chord: Chord, ctrlName: string): (r: string) {
    var m := chord.modifiers;
    Prefixed(m.cmdOrCtrl, ctrlName, Prefixed(m.alt, "Alt", Prefixed(m.shift, "Shift", KeyText(chord))))
  }

  /** Appending a modifier's name and a plus leaves so much less to come. */
  lemma AppendPrefixed(buffer: string, present: bool, name: string, rest: string)
    ensures buffer + Prefixed(present, name, rest) == (if present then buffer + (name + "+") else buffer) + rest
  {
    if present {
      assert buffer + (name + ("+" + rest)) == buffer + (name + "+") + rest;
    }
  }

  /** `format_with_modifier_label`: append to a buffer. */
  method FormatWithModifierLabel(chord: Chord, ctrlName: string) returns (s: string)
    ensures s == Formatted(chord, ctrlName)
  {
    ghost var key := KeyText(chord);
    ghost var afterAlt := Prefixed(chord.modifiers.shift, "Shift", key);
    ghost var afterCtrl := Prefixed(chord.modifiers.alt, "Alt", afterAlt);
    s := "";
    AppendPrefixed(s, chord.modifiers.cmdOrCtrl, ctrlName, afterCtrl);
    assert s + Formatted(chord, ctrlName) == Formatted(chord, ctrlName);
    if chord.modifiers.cmdOrCtrl {
      s := s + (ctrlName + "+");
    }
    AppendPrefixed(s, chord.modifiers.alt, "Alt", afterAlt);
    if chord.modifiers.alt {
      s := s + ("Alt" + "+");
    }
    AppendPrefixed(s, chord.modifiers.shift, "Shift", key);
    if chord.modifiers.shift {
      s := s + ("Shift" + "+");
    }
    assert s + key == Formatted(chord, ctrlName);
    match chord.key {
      case Char(c) =>
        if chord.modifiers.HasAny() {
          s := s + [ToAsciiUppercase(c)];
        } else {
          s := s + [c];
        }
      case Named(n) => s := s + AsStr(n);
    }
  }

  // ---------------------------------------------------------------- chords round-trip

  /** The chords the parser can produce: a character is in lower case and is not `+`. */
  predicate Printable(chord: Chord) {
    chord.key.Char? ==> chord.key.c != '+' && ToAsciiLowercase(chord.key.c) == chord.key.c
  }

  lemma PrefixedSplits(present: bool, name: string, rest: string)
    requires '+' !in name
    ensures SplitPlus(Prefixed(present, name, rest)) == (if present then [name] else []) + SplitPlus(rest)
  {
    if present {
      SplitAfterPlus(name, rest);
    }
  }

  /** The names under which the parser knows the primary modifier: the stored one and the displayed ones. */
  predicate PrimaryName(ctrlName: string) {
    ctrlName == "CmdOrCtrl" || ctrlName == "Ctrl" || ctrlName == "Cmd"
  }

  lemma ModifierNamesParse(m: Modifiers, ctrlName: string)
    requires PrimaryName(ctrlName)
    ensures WithModifiers(ModifierNames(m, ctrlName), NONE) == Ok(m)
  {
    var names := ModifierNames(m, ctrlName);
    var tail := names[if m.cmdOrCtrl then 1 else 0..];
    var last := tail[if m.alt then 1 else 0..];
    assert last == if m.shift then ["Shift"] else [];
    assert WithModifiers(last, m.(shift := false)) == Ok(m) by {
      assert m.shift ==> WithModifiers(last[1..], m) == Ok(m);
    }
    assert WithModifiers(tail, Modifiers(m.cmdOrCtrl, false, false)) == Ok(m) by {
      assert m.alt ==> WithModifier(tail[0], Modifiers(m.cmdOrCtrl, false, false)) == Ok(m.(shift := false));
    }
  }

  lemma KeyTextParses(chord: Chord)
    requires Printable(chord)
    ensures '+' !in KeyText(chord) && ParseKey(KeyText(chord)) == Ok(chord.key)
  {
    match chord.key
    case Named(n) =>
      NamesParseBack(n);
      if '+' in AsStr(n) {
        NameCharacters(n, '+');
      }
    case Char(c) =>
      OneCharacterIsNoName(KeyText(chord));
  }

  lemma FormattedSplits(chord: Chord, ctrlName: string)
    requires '+' !in KeyText(chord) && '+' !in ctrlName
    ensures SplitPlus(Formatted(chord, ctrlName)) == ModifierNames(chord.modifiers, ctrlName) + [KeyText(chord)]
  {
    var m, key := chord.modifiers, KeyText(chord);
    var afterAlt := Prefixed(m.shift, "Shift", key);
    SplitWithoutPlus(key);
    PrefixedSplits(m.shift, "Shift", key);
    PrefixedSplits(m.alt, "Alt", afterAlt);
    PrefixedSplits(m.cmdOrCtrl, ctrlName, Prefixed(m.alt, "Alt", afterAlt));
  }

  /** Printed for storage or for either platform, a printable chord parses back. */
  lemma PrintableChordsRoundTrip(chord: Chord, ctrlName: string)
    requires Printable(chord) && PrimaryName(ctrlName)
    ensures ParsedChord(Formatted(chord, ctrlName)) == Ok(chord)
  {
    var names, key := ModifierNames(chord.modifiers, ctrlName), KeyText(chord);
    ModifierNamesParse(chord.modifiers, ctrlName);
    KeyTextParses(chord);
    FormattedSplits(chord, ctrlName);
    assert (names + [key])[..|names|] == names;
  }

  /** Whatever the text: a chord that parses is printable. */
  lemma ParsedChordsArePrintable(s: string)
    requires ParsedChord(s).Ok?
    ensures Printable(ParsedChord(s).value)
  {
    var parts := SplitPlus(s);
    var keyStr := parts[|parts| - 1];
    assert '+' !in keyStr;
    if |keyStr| == 1 {
      assert keyStr[0] in keyStr;
    }
  }

  // ---------------------------------------------------------------- bindings

  function ParsedBinding(s: string): (r: Result<KeyBinding, ParseError>) {
    match SplitThen(s)
    case None =>
      (match ParsedChord(s)
       case Err(e) => Err(e)
       case Ok(chord) => Ok(Single(chord)))
    case Some((first, second)) =>
      match ParsedChord(first)
      case Err(e) => Err(e)
      case Ok(a) =>
        match ParsedChord(second)
        case Err(e) => Err(e)
        case Ok(b) => Ok(Sequence(a, b))
  }

  /** `display` and, with the platform-agnostic name, `canonical`. */
  function Printed(binding: KeyBinding, ctrlName: string): (r: string) {
    match binding
    case Single(c) => Formatted(c, ctrlName)
    case Sequence(a, b) => Formatted(a, ctrlName) + THEN + Formatted(b, ctrlName)
  }

  function Canonical(binding: KeyBinding): (r: string) {
    Printed(binding, "CmdOrCtrl")
  }

  predicate PrintableBinding(binding: KeyBinding) {
    match binding
    case Single(c) => Printable(c)
    case Sequence(a, b) => Printable(a) && Printable(b)
  }

  lemma PrefixedSpaces(present: bool, name: string, rest: string)
    requires SpaceAtMostLast(rest) && rest != "" && ' ' !in name
    ensures SpaceAtMostLast(Prefixed(present, name, rest)) && Prefixed(present, name, rest) != ""
  {
    var s := name + ("+" + rest);
    forall i | 0 <= i < |s| - 1 ensures s[i] != ' ' {
      if i < |name| {
        assert s[i] in name;
      } else if i > |name| {
        assert s[i] == rest[i - |name| - 1];
      }
    }
  }

  lemma FormattedSpaces(chord: Chord, ctrlName: string)
    requires PrimaryName(ctrlName)
    ensures SpaceAtMostLast(Formatted(chord, ctrlName))
  {
    var m, key := chord.modifiers, KeyText(chord);
    if chord.key.Named? {
      NameShape(chord.key.n);
      if ' ' in key {
        NameCharacters(chord.key.n, ' ');
      }
      assert forall i :: 0 <= i < |key| ==> key[i] in key;
    }
    PrefixedSpaces(m.shift, "Shift", key);
    PrefixedSpaces(m.alt, "Alt", Prefixed(m.shift, "Shift", key));
    PrefixedSpaces(m.cmdOrCtrl, ctrlName, Prefixed(m.alt, "Alt", Prefixed(m.shift, "Shift", key)));
  }

  /** Whatever the text: a binding that parses is printable. */
  lemma ParsedBindingsArePrintable(s: string)
    requires ParsedBinding(s).Ok?
    ensures PrintableBinding(ParsedBinding(s).value)
  {
    match SplitThen(s)
    case None => ParsedChordsArePrintable(s);
    case Some((first, second)) =>
      ParsedChordsArePrintable(first);
      ParsedChordsArePrintable(second);
  }

  /**
   * Printed in any of the three ways, a binding parses back to itself exactly when its characters are in lower case and
   * none is `+`.
   */
  lemma RoundTripIff(binding: KeyBinding, ctrlName: string)
    requires PrimaryName(ctrlName)
    ensures ParsedBinding(Printed(binding, ctrlName)) == Ok(binding) <==> PrintableBinding(binding)
  {
    if ParsedBinding(Printed(binding, ctrlName)) == Ok(binding) {
      ParsedBindingsArePrintable(Printed(binding, ctrlName));
    }
    if PrintableBinding(binding) {
      match binding
      case Single(c) =>
        FormattedSpaces(c, ctrlName);
        NoThenInside(Formatted(c, ctrlName));
        PrintableChordsRoundTrip(c, ctrlName);
      case Sequence(a, b) =>
        FormattedSpaces(a, ctrlName);
        SplitAtFirstThen(Formatted(a, ctrlName), Formatted(b, ctrlName));
        PrintableChordsRoundTrip(a, ctrlName);
        PrintableChordsRoundTrip(b, ctrlName);
    }
  }

  /** Reading and printing again settles: the printed form of what was read is read the same. */
  lemma ReprintedIsStable(s: string)
    requires ParsedBinding(s).Ok?
    ensures ParsedBinding(Canonical(ParsedBinding(s).value)) == ParsedBinding(s)
  {
    ParsedBindingsArePrintable(s);
    RoundTripIff(ParsedBinding(s).value, "CmdOrCtrl");
  }

  /** The plus key prints as text that does not parse, with a modifier or without. */
  lemma PlusDoesNotRoundTrip(modifiers: Modifiers)
    ensures ParsedBinding(Canonical(Single(Chord(Char('+'), modifiers)))) != Ok(Single(Chord(Char('+'), modifiers)))
  {
    RoundTripIff(Single(Chord(Char('+'), modifiers)), "CmdOrCtrl");
  }
}
