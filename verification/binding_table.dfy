/**
 * The key-binding table (crates/cmdk/src/keybinding.rs:365-655): defaults under user overrides, reverse indexes rebuilt
 * in whatever order the hash maps iterate, conflict checks, and the overrides file.
 */
module BindingTables {
  import opened Wrappers
  import opened KeyBindings

  type CommandId = nat

  type Defaults = map<CommandId, KeyBinding>

  /** None: explicitly unbound. */
  type Overrides = map<CommandId, Option<KeyBinding>>

  /** Effective binding of a command: override before default. */
  function BindingFor(defaults: Defaults, overrides: Overrides, id: CommandId): (r: Option<KeyBinding>) {
    if id in overrides then overrides[id]
    else if id in defaults then Some(defaults[id])
    else None
  }

  // ---------------------------------------------------------------- conflicts

  /** Neither may be entered while the other is: equal bindings, or a chord that also starts a sequence. */
  predicate Clash(a: KeyBinding, b: KeyBinding) {
    match (a, b)
    case (Single(x), Single(y)) => x == y
    case (Sequence(x, x'), Sequence(y, y')) => x == y && x' == y'
    case (Single(x), Sequence(y, _)) => x == y
    case (Sequence(x, _), Single(y)) => x == y
  }

  /** No other command's effective binding clashes with this one. */
  ghost predicate NoClash(defaults: Defaults, overrides: Overrides, id: CommandId, binding: KeyBinding) {
    forall other :: other != id && BindingFor(defaults, overrides, other).Some? ==>
      !Clash(BindingFor(defaults, overrides, other).value, binding)
  }

  ghost predicate ConflictFree(defaults: Defaults, overrides: Overrides) {
    forall id :: BindingFor(defaults, overrides, id).Some? ==>
      NoClash(defaults, overrides, id, BindingFor(defaults, overrides, id).value)
  }

  lemma SetKeepsConflictFree(defaults: Defaults, overrides: Overrides, id: CommandId, entry: Option<KeyBinding>)
    requires ConflictFree(defaults, overrides)
    ensures ConflictFree(defaults, overrides[id := entry]) <==>
            entry == None || NoClash(defaults, overrides, id, entry.value)
  {
    var after := overrides[id := entry];
    assert forall other :: other != id ==> BindingFor(defaults, after, other) == BindingFor(defaults, overrides, other);
    if entry.Some? {
      if NoClash(defaults, overrides, id, entry.value) {
        forall x | BindingFor(defaults, after, x).Some?
          ensures NoClash(defaults, after, x, BindingFor(defaults, after, x).value)
        {
          if x != id {
            assert NoClash(defaults, overrides, x, BindingFor(defaults, overrides, x).value);
          }
        }
      }
      if ConflictFree(defaults, after) {
        assert BindingFor(defaults, after, id) == entry;
        assert NoClash(defaults, after, id, entry.value);
      }
    } else {
      forall x | BindingFor(defaults, after, x).Some?
        ensures NoClash(defaults, after, x, BindingFor(defaults, after, x).value)
      {
        assert NoClash(defaults, overrides, x, BindingFor(defaults, overrides, x).value);
      }
    }
  }

  /** Removing an override keeps a conflict-free table conflict-free exactly when the default clashes with no other command. */
  lemma RemoveKeepsConflictFree(defaults: Defaults, overrides: Overrides, id: CommandId)
    requires ConflictFree(defaults, overrides)
    ensures ConflictFree(defaults, overrides - {id}) <==>
            id !in defaults || NoClash(defaults, overrides, id, defaults[id])
  {
    var entry := if id in defaults then Some(defaults[id]) else None;
    SetKeepsConflictFree(defaults, overrides, id, entry);
    if ConflictFree(defaults, overrides - {id}) {
      SameBindings(defaults, overrides - {id}, overrides[id := entry]);
    }
    if ConflictFree(defaults, overrides[id := entry]) {
      SameBindings(defaults, overrides[id := entry], overrides - {id});
    }
  }

  lemma SameBindings(defaults: Defaults, a: Overrides, b: Overrides)
    requires ConflictFree(defaults, a) && forall id :: BindingFor(defaults, a, id) == BindingFor(defaults, b, id)
    ensures ConflictFree(defaults, b)
  {
    forall id | BindingFor(defaults, b, id).Some?
      ensures NoClash(defaults, b, id, BindingFor(defaults, b, id).value)
    {
      assert NoClash(defaults, a, id, BindingFor(defaults, a, id).value);
    }
  }

  /**
   * It can fail: command 0's default is `a`; rebind it to `b`, give `a` to command 1, then remove the override of 0.
   */
  lemma RemoveCanReintroduceAConflict(a: KeyBinding, b: KeyBinding)
    requires !Clash(a, b)
    ensures var defaults: Defaults, overrides: Overrides := map[0 := a], map[0 := Some(b), 1 := Some(a)];
            ConflictFree(defaults, overrides) && !ConflictFree(defaults, overrides - {0})
  {
    var defaults: Defaults, overrides: Overrides := map[0 := a], map[0 := Some(b), 1 := Some(a)];
    assert BindingFor(defaults, overrides, 1) == Some(a);
    assert !NoClash(defaults, overrides, 0, a);
    RemoveKeepsConflictFree(defaults, overrides, 0);
  }

  /** So can loading: overrides that bind two commands alike are taken as they are. */
  lemma LoadCanIntroduceAConflict(a: KeyBinding)
    ensures var loaded: Overrides := map[0 := Some(a), 1 := Some(a)];
            ConflictFree(map[], map[]) && !ConflictFree(map[], loaded)
  {
    var loaded: Overrides := map[0 := Some(a), 1 := Some(a)];
    assert BindingFor(map[], loaded, 0) == Some(a) && BindingFor(map[], loaded, 1) == Some(a);
    assert !NoClash(map[], loaded, 0, a);
  }

  // ---------------------------------------------------------------- reverse indexes

  datatype Index = Index(single: map<Chord, CommandId>, sequences: map<Chord, map<Chord, CommandId>>)

  /** Every entry names a command that really has this binding; a first chord is listed only with a second. */
  ghost predicate Sound(defaults: Defaults, overrides: Overrides, index: Index) {
    && (forall c :: c in index.single ==> BindingFor(defaults, overrides, index.single[c]) == Some(Single(c)))
    && (forall f, s :: f in index.sequences && s in index.sequences[f] ==>
          BindingFor(defaults, overrides, index.sequences[f][s]) == Some(Sequence(f, s)))
    && (forall f :: f in index.sequences ==> index.sequences[f] != map[])
  }

  /** This binding has an entry. */
  predicate Entered(index: Index, binding: KeyBinding) {
    match binding
    case Single(c) => c in index.single
    case Sequence(f, s) => f in index.sequences && s in index.sequences[f]
  }

  /** Sound, and every effective binding has an entry: all that a rebuild promises whatever its order. */
  ghost predicate Indexes(defaults: Defaults, overrides: Overrides, index: Index) {
    && Sound(defaults, overrides, index)
    && forall id :: BindingFor(defaults, overrides, id).Some? ==> Entered(index, BindingFor(defaults, overrides, id).value)
  }

  function Inserted(index: Index, id: CommandId, binding: KeyBinding): (r: Index) {
    match binding
    case Single(c) => index.(single := index.single[c := id])
    case Sequence(f, s) =>
      var seconds := if f in index.sequences then index.sequences[f] else map[];
      index.(sequences := index.sequences[f := seconds[s := id]])
  }

  lemma InsertKeepsSound(defaults: Defaults, overrides: Overrides, index: Index, id: CommandId, binding: KeyBinding)
    requires Sound(defaults, overrides, index) && BindingFor(defaults, overrides, id) == Some(binding)
    ensures Sound(defaults, overrides, Inserted(index, id, binding))
    ensures Entered(Inserted(index, id, binding), binding)
    ensures forall b :: Entered(index, b) ==> Entered(Inserted(index, id, binding), b)
  {
    var after := Inserted(index, id, binding);
    forall f | f in after.sequences ensures after.sequences[f] != map[] {
      if binding.Sequence? && f == binding.first {
        assert binding.second in after.sequences[f];
      }
    }
  }

  /** `rebuild_reverse`, over the command ids in any order. */
  method RebuildReverse(defaults: Defaults, overrides: Overrides) returns (index: Index)
    ensures Indexes(defaults, overrides, index)
  {
    index := Index(map[], map[]);
    var ids := defaults.Keys + overrides.Keys;
    while ids != {}
      invariant Sound(defaults, overrides, index)
      invariant forall id :: id !in ids && BindingFor(defaults, overrides, id).Some? ==> Entered(index, BindingFor(defaults, overrides, id).value)
      decreases |ids|
    {
      var id :| id in ids;
      ids := ids - {id};
      var binding := BindingFor(defaults, overrides, id);
      if binding.Some? {
        InsertKeepsSound(defaults, overrides, index, id, binding.value);
        match binding.value {
          case Single(c) =>
            index := index.(single := index.single[c := id]);
          case Sequence(f, s) =>
            var seconds := if f in index.sequences then index.sequences[f] else map[];
            index := index.(sequences := index.sequences[f := seconds[s := id]]);
        }
      }
    }
  }

  // ---------------------------------------------------------------- resolving

  datatype ResolveResult = NoMatch | Command(id: CommandId) | Pending

  function ResolveChord(index: Index, chord: Chord): (r: ResolveResult) {
    if chord in index.sequences then Pending
    else if chord in index.single then Command(index.single[chord])
    else NoMatch
  }

  function ResolveSequence(index: Index, first: Chord, second: Chord): (r: Option<CommandId>) {
    if first in index.sequences && second in index.sequences[first] then Some(index.sequences[first][second]) else None
  }

  /**
   * In any reachable table, with conflicts or without: a chord is pending exactly when it starts some command's
   * sequence, a resolved command really has that binding, and a binding some command has always resolves to something.
   */
  lemma ResolvedCommandsHaveTheBinding(defaults: Defaults, overrides: Overrides, index: Index, c: Chord, d: Chord)
    requires Indexes(defaults, overrides, index)
    ensures ResolveChord(index, c) == Pending <==>
            exists id, s :: BindingFor(defaults, overrides, id) == Some(Sequence(c, s))
    ensures ResolveChord(index, c).Command? ==>
              BindingFor(defaults, overrides, ResolveChord(index, c).id) == Some(Single(c))
    ensures ResolveChord(index, c) == NoMatch ==>
              forall id :: BindingFor(defaults, overrides, id) != Some(Single(c))
    ensures match ResolveSequence(index, c, d)
            case Some(id) => BindingFor(defaults, overrides, id) == Some(Sequence(c, d))
            case None => forall id :: BindingFor(defaults, overrides, id) != Some(Sequence(c, d))
  {
    if c in index.sequences {
      var s :| s in index.sequences[c];
      assert BindingFor(defaults, overrides, index.sequences[c][s]) == Some(Sequence(c, s));
    }
    forall id, s | BindingFor(defaults, overrides, id) == Some(Sequence(c, s)) ensures c in index.sequences {
      assert Entered(index, Sequence(c, s));
    }
    forall id | BindingFor(defaults, overrides, id) == Some(Single(c)) ensures c in index.single {
      assert Entered(index, Single(c));
    }
    forall id | BindingFor(defaults, overrides, id) == Some(Sequence(c, d))
      ensures c in index.sequences && d in index.sequences[c]
    {
      assert Entered(index, Sequence(c, d));
    }
  }

  lemma ChordResolvesExactly(defaults: Defaults, overrides: Overrides, index: Index, id: CommandId, c: Chord)
    requires Indexes(defaults, overrides, index) && ConflictFree(defaults, overrides)
    ensures ResolveChord(index, c) == Command(id) <==> BindingFor(defaults, overrides, id) == Some(Single(c))
  {
    if BindingFor(defaults, overrides, id) == Some(Single(c)) {
      assert NoClash(defaults, overrides, id, Single(c));
      assert Entered(index, Single(c));
      if c in index.sequences {
        var s :| s in index.sequences[c];
        assert Clash(BindingFor(defaults, overrides, index.sequences[c][s]).value, Single(c));
      }
    }
  }

  lemma SequenceResolvesExactly(defaults: Defaults, overrides: Overrides, index: Index, id: CommandId, c: Chord, d: Chord)
    requires Indexes(defaults, overrides, index) && ConflictFree(defaults, overrides)
    ensures ResolveSequence(index, c, d) == Some(id) <==> BindingFor(defaults, overrides, id) == Some(Sequence(c, d))
  {
    if BindingFor(defaults, overrides, id) == Some(Sequence(c, d)) {
      assert NoClash(defaults, overrides, id, Sequence(c, d));
      assert Entered(index, Sequence(c, d));
    }
  }

  /** Without conflicts, resolving is exact: a command is found by precisely its own binding, whatever the rebuild order. */
  lemma ConflictFreeResolvesExactly(defaults: Defaults, overrides: Overrides, index: Index, id: CommandId, c: Chord, d: Chord)
    requires Indexes(defaults, overrides, index) && ConflictFree(defaults, overrides)
    ensures ResolveChord(index, c) == Command(id) <==> BindingFor(defaults, overrides, id) == Some(Single(c))
    ensures ResolveSequence(index, c, d) == Some(id) <==> BindingFor(defaults, overrides, id) == Some(Sequence(c, d))
  {
    ChordResolvesExactly(defaults, overrides, index, id, c);
    SequenceResolvesExactly(defaults, overrides, index, id, c, d);
  }

  // ---------------------------------------------------------------- conflict check

  /** The check finds nothing: the index has no other command at this binding. */
  predicate Silent(index: Index, id: CommandId, binding: KeyBinding) {
    match binding
    case Single(c) =>
      && (c in index.single ==> index.single[c] == id)
      && (c in index.sequences ==> forall s :: s in index.sequences[c] ==> index.sequences[c][s] == id)
    case Sequence(f, s) =>
      && (f in index.single ==> index.single[f] == id)
      && (f in index.sequences && s in index.sequences[f] ==> index.sequences[f][s] == id)
  }

  method CheckChordConflict(index: Index, id: CommandId, chord: Chord) returns (r: Option<CommandId>)
    ensures r == None <==> Silent(index, id, Single(chord))
    ensures r.Some? ==> r.value != id && FoundAt(index, r.value, Single(chord))
  {
    if chord in index.single && index.single[chord] != id {
      return Some(index.single[chord]);
    }
    if chord in index.sequences {
      var seconds := index.sequences[chord].Keys;
      while seconds != {}
        invariant seconds <= index.sequences[chord].Keys
        invariant forall s :: s in index.sequences[chord] && s !in seconds ==> index.sequences[chord][s] == id
        decreases |seconds|
      {
        var s :| s in seconds;
        seconds := seconds - {s};
        if index.sequences[chord][s] != id {
          return Some(index.sequences[chord][s]);
        }
      }
    }
    r := None;
  }

  method CheckSequenceConflict(index: Index, id: CommandId, first: Chord, second: Chord) returns (r: Option<CommandId>)
    ensures r == None <==> Silent(index, id, Sequence(first, second))
    ensures r.Some? ==> r.value != id && FoundAt(index, r.value, Sequence(first, second))
  {
    if first in index.single && index.single[first] != id {
      return Some(index.single[first]);
    }
    if first in index.sequences && second in index.sequences[first] && index.sequences[first][second] != id {
      return Some(index.sequences[first][second]);
    }
    r := None;
  }

  /** The index holds the command at a place this binding would collide with. */
  ghost predicate FoundAt(index: Index, id: CommandId, binding: KeyBinding) {
    match binding
    case Single(c) =>
      || (c in index.single && index.single[c] == id)
      || (c in index.sequences && exists s :: s in index.sequences[c] && index.sequences[c][s] == id)
    case Sequence(f, s) =>
      || (f in index.single && index.single[f] == id)
      || (f in index.sequences && s in index.sequences[f] && index.sequences[f][s] == id)
  }

  /** What the check reports does clash. */
  lemma FoundMeansClash(defaults: Defaults, overrides: Overrides, index: Index, id: CommandId, binding: KeyBinding)
    requires Indexes(defaults, overrides, index) && FoundAt(index, id, binding)
    ensures BindingFor(defaults, overrides, id).Some? && Clash(BindingFor(defaults, overrides, id).value, binding)
  {
  }

  /** Without conflicts the check misses nothing: silence means that no other command clashes, and only that. */
  lemma SilentMeansNoClash(defaults: Defaults, overrides: Overrides, index: Index, id: CommandId, binding: KeyBinding)
    requires Indexes(defaults, overrides, index) && ConflictFree(defaults, overrides)
    ensures Silent(index, id, binding) <==> NoClash(defaults, overrides, id, binding)
  {
    if Silent(index, id, binding) {
      forall other | other != id && BindingFor(defaults, overrides, other).Some?
        ensures !Clash(BindingFor(defaults, overrides, other).value, binding)
      {
        var theirs := BindingFor(defaults, overrides, other).value;
        match theirs
        case Single(c) => ChordResolvesExactly(defaults, overrides, index, other, c);
        case Sequence(f, s) => SequenceResolvesExactly(defaults, overrides, index, other, f, s);
      }
    }
  }

  /**
   * A table of any origin, for instance one just loaded, is conflict-free exactly when checking each command's own
   * binding finds nothing.
   */
  lemma ConflictFreeIffEveryCheckIsSilent(defaults: Defaults, overrides: Overrides, index: Index)
    requires Indexes(defaults, overrides, index)
    ensures ConflictFree(defaults, overrides) <==>
            forall id :: BindingFor(defaults, overrides, id).Some? ==> Silent(index, id, BindingFor(defaults, overrides, id).value)
  {
    if ConflictFree(defaults, overrides) {
      forall id | BindingFor(defaults, overrides, id).Some?
        ensures Silent(index, id, BindingFor(defaults, overrides, id).value)
      {
        SilentMeansNoClash(defaults, overrides, index, id, BindingFor(defaults, overrides, id).value);
      }
    } else {
      var id :| BindingFor(defaults, overrides, id).Some? && !NoClash(defaults, overrides, id, BindingFor(defaults, overrides, id).value);
      var mine := BindingFor(defaults, overrides, id).value;
      var other :| other != id && BindingFor(defaults, overrides, other).Some? && Clash(BindingFor(defaults, overrides, other).value, mine);
      var theirs := BindingFor(defaults, overrides, other).value;
      assert Entered(index, mine) && Entered(index, theirs);
      assert !(Silent(index, id, mine) && Silent(index, other, theirs));
    }
  }

  // ---------------------------------------------------------------- overrides file

  /** How command ids are written to the file and read back. */
  datatype Codec = Codec(asStr: CommandId -> string, parse: string -> Option<CommandId>) {
    ghost predicate Inverts() {
      forall id: CommandId :: parse(asStr(id)) == Some(id)
    }
  }

  /** The `overrides` object of the file: null means unbound. */
  type FileEntries = map<string, Option<string>>

  /** What reading the file comes to. */
  datatype FileRead = Missing | Refused(error: string) | Parsed(entries: FileEntries)

  function Written(entry: Option<KeyBinding>): (r: Option<string>) {
    if entry.Some? then Some(Canonical(entry.value)) else None
  }

  /** What a file entry reads as; None when the binding does not parse and the entry is skipped. */
  function ReadBack(text: Option<string>): (r: Option<Option<KeyBinding>>) {
    if text == None then Some(None)
    else
      match ParsedBinding(text.value)
      case Ok(binding) => Some(Some(binding))
      case Err(_) => None
  }

  /** The entries a save writes. */
  ghost predicate Saves(codec: Codec, overrides: Overrides, entries: FileEntries) {
    && (forall k :: k in entries ==> exists id :: id in overrides && codec.asStr(id) == k && entries[k] == Written(overrides[id]))
    && (forall id :: id in overrides ==> codec.asStr(id) in entries)
  }

  /** The overrides a load builds: one for each entry whose id is known and whose binding reads. */
  ghost predicate Loads(codec: Codec, entries: FileEntries, overrides: Overrides) {
    && (forall id :: id in overrides ==>
          exists k :: k in entries && codec.parse(k) == Some(id) && ReadBack(entries[k]) == Some(overrides[id]))
    && (forall k :: k in entries && codec.parse(k).Some? && ReadBack(entries[k]).Some? ==> codec.parse(k).value in overrides)
  }

  predicate AllPrintable(overrides: Overrides) {
    forall id :: id in overrides && overrides[id].Some? ==> PrintableBinding(overrides[id].value)
  }

  /** An entry survives exactly when it is an unbinding or its binding is printable. */
  lemma EntrySurvivesIff(entry: Option<KeyBinding>)
    ensures ReadBack(Written(entry)) == Some(entry) <==> (entry.Some? ==> PrintableBinding(entry.value))
  {
    if entry.Some? {
      RoundTripIff(entry.value, "CmdOrCtrl");
    }
  }

  lemma SavedEntry(codec: Codec, overrides: Overrides, entries: FileEntries, id: CommandId)
    requires codec.Inverts() && Saves(codec, overrides, entries) && codec.asStr(id) in entries
    ensures id in overrides && entries[codec.asStr(id)] == Written(overrides[id])
  {
    var other :| other in overrides && codec.asStr(other) == codec.asStr(id) && entries[codec.asStr(id)] == Written(overrides[other]);
    assert codec.parse(codec.asStr(other)) == Some(other) && codec.parse(codec.asStr(id)) == Some(id);
  }

  /** After a save and a load, a command has an override exactly when its entry reads, and then the one that was read. */
  lemma LoadedEntry(codec: Codec, overrides: Overrides, entries: FileEntries, loaded: Overrides, id: CommandId)
    requires codec.Inverts() && Saves(codec, overrides, entries) && Loads(codec, entries, loaded)
    ensures id in loaded <==> id in overrides && ReadBack(Written(overrides[id])).Some?
    ensures id in loaded ==> ReadBack(Written(overrides[id])) == Some(loaded[id])
  {
    if id in loaded {
      var k :| k in entries && codec.parse(k) == Some(id) && ReadBack(entries[k]) == Some(loaded[id]);
      var other :| other in overrides && codec.asStr(other) == k && entries[k] == Written(overrides[other]);
      assert codec.parse(codec.asStr(other)) == Some(other);
    } else if id in overrides {
      assert codec.parse(codec.asStr(id)) == Some(id);
      SavedEntry(codec, overrides, entries, id);
    }
  }

  lemma OverrideLoadsBackIff(codec: Codec, overrides: Overrides, entries: FileEntries, loaded: Overrides, id: CommandId)
    requires codec.Inverts() && Saves(codec, overrides, entries) && Loads(codec, entries, loaded)
    ensures (id in loaded <==> id in overrides) && (id in loaded ==> loaded[id] == overrides[id]) <==>
            (id in overrides && overrides[id].Some? ==> PrintableBinding(overrides[id].value))
  {
    LoadedEntry(codec, overrides, entries, loaded, id);
    if id in overrides {
      EntrySurvivesIff(overrides[id]);
    }
  }

  /** With an invertible codec, saved overrides load back unchanged exactly when each of their bindings is printable. */
  lemma SavedOverridesLoadBackIff(codec: Codec, overrides: Overrides, entries: FileEntries, loaded: Overrides)
    requires codec.Inverts() && Saves(codec, overrides, entries) && Loads(codec, entries, loaded)
    ensures loaded == overrides <==> AllPrintable(overrides)
  {
    forall id: CommandId
      ensures (id in loaded <==> id in overrides) && (id in loaded ==> loaded[id] == overrides[id]) <==>
              (id in overrides && overrides[id].Some? ==> PrintableBinding(overrides[id].value))
    {
      OverrideLoadsBackIff(codec, overrides, entries, loaded, id);
    }
  }

  // ---------------------------------------------------------------- the table

  class BindingTable {
    const defaults: Defaults
    var overrides: Overrides
    var index: Index

    ghost predicate Valid()
      reads this
    {
      Indexes(defaults, overrides, index)
    }

    ghost predicate IsConflictFree()
      reads this
    {
      ConflictFree(defaults, overrides)
    }

    constructor (defaults: Defaults)
      ensures Valid() && this.defaults == defaults && overrides == map[]
    {
      this.defaults := defaults;
      overrides := map[];
      index := Index(map[], map[]);
      new;
      index := RebuildReverse(defaults, overrides);
    }

    method LoadOverrides(loaded: Overrides)
      modifies this
      ensures Valid() && overrides == loaded
    {
      overrides := loaded;
      index := RebuildReverse(defaults, overrides);
    }

    /** What another command clashing with this binding would be; exact when the table is conflict-free. */
    method CheckConflict(id: CommandId, binding: KeyBinding) returns (r: Option<CommandId>)
      requires Valid()
      ensures r == None <==> Silent(index, id, binding)
      ensures r.Some? ==>
                && r.value != id && BindingFor(defaults, overrides, r.value).Some?
                && Clash(BindingFor(defaults, overrides, r.value).value, binding)
      ensures IsConflictFree() ==> (r == None <==> NoClash(defaults, overrides, id, binding))
    {
      match binding {
        case Single(chord) => r := CheckChordConflict(index, id, chord);
        case Sequence(first, second) => r := CheckSequenceConflict(index, id, first, second);
      }
      if r.Some? {
        FoundMeansClash(defaults, overrides, index, r.value, binding);
      }
      if IsConflictFree() {
        SilentMeansNoClash(defaults, overrides, index, id, binding);
      }
    }

    /** Rejected: nothing changes and the named command does clash. Accepted: this one entry is set, and no conflict comes of it. */
    method SetOverride(id: CommandId, binding: KeyBinding) returns (r: Result<(), CommandId>)
      requires Valid()
      modifies this
      ensures Valid()
      ensures r.Err? ==>
                && overrides == old(overrides) && index == old(index)
                && r.error != id && BindingFor(defaults, overrides, r.error).Some?
                && Clash(BindingFor(defaults, overrides, r.error).value, binding)
      ensures r.Ok? ==> overrides == old(overrides)[id := Some(binding)]
      ensures old(IsConflictFree()) ==> IsConflictFree()
      ensures old(IsConflictFree()) ==> (r.Ok? <==> NoClash(defaults, old(overrides), id, binding))
    {
      var conflict := CheckConflict(id, binding);
      if conflict.Some? {
        return Err(conflict.value);
      }
      if IsConflictFree() {
        SetKeepsConflictFree(defaults, overrides, id, Some(binding));
      }
      overrides := overrides[id := Some(binding)];
      index := RebuildReverse(defaults, overrides);
      r := Ok(());
    }

    method Unbind(id: CommandId)
      requires Valid()
      modifies this
      ensures Valid() && overrides == old(overrides)[id := None]
      ensures old(IsConflictFree()) ==> IsConflictFree()
    {
      if IsConflictFree() {
        SetKeepsConflictFree(defaults, overrides, id, None);
      }
      overrides := overrides[id := None];
      index := RebuildReverse(defaults, overrides);
    }

    /** A conflict can come back with the default: exactly when some other command clashes with it. */
    method RemoveOverride(id: CommandId)
      requires Valid()
      modifies this
      ensures Valid() && overrides == old(overrides) - {id}
      ensures old(IsConflictFree()) ==>
                (IsConflictFree() <==> id !in defaults || old(Silent(index, id, defaults[id])))
    {
      if IsConflictFree() {
        RemoveKeepsConflictFree(defaults, overrides, id);
        if id in defaults {
          SilentMeansNoClash(defaults, overrides, index, id, defaults[id]);
        }
      }
      overrides := overrides - {id};
      index := RebuildReverse(defaults, overrides);
    }

    method ResetAll()
      modifies this
      ensures Valid() && overrides == map[]
    {
      overrides := map[];
      index := RebuildReverse(defaults, overrides);
    }

    /**
     * Write the file, or delete it when there is nothing to persist; `io` is the error should the file system refuse.
     * `after` is the file then; what a refused write leaves behind is not said.
     */
    method SaveOverrides(codec: Codec, file: Option<FileEntries>, io: Option<string>)
      returns (r: Result<(), string>, after: Option<FileEntries>)
      ensures overrides == map[] ==> if file.Some? && io.Some? then r == Err(io.value) && after == file else r.Ok? && after == None
      ensures overrides != map[] ==> if io.Some? then r == Err(io.value) else r.Ok? && after.Some?
      ensures overrides != map[] && r.Ok? && codec.Inverts() ==> Saves(codec, overrides, after.value)
    {
      if overrides == map[] {
        if file.Some? && io.Some? {
          return Err(io.value), file;
        }
        return Ok(()), None;
      }
      var entries: FileEntries := map[];
      var ids := overrides.Keys;
      while ids != {}
        invariant ids <= overrides.Keys
        invariant codec.Inverts() ==> forall k :: k in entries ==>
          exists id :: id in overrides && codec.asStr(id) == k && entries[k] == Written(overrides[id])
        invariant forall id :: id in overrides && id !in ids ==> codec.asStr(id) in entries
        decreases |ids|
      {
        var id :| id in ids;
        ids := ids - {id};
        entries := entries[codec.asStr(id) := Written(overrides[id])];
      }
      if io.Some? {
        return Err(io.value), file;
      }
      r, after := Ok(()), Some(entries);
    }

    /** A missing file changes nothing, and neither does one that cannot be read or parsed; otherwise the readable entries replace the overrides. */
    method LoadOverridesFromFile(codec: Codec, file: FileRead) returns (r: Result<(), string>)
      requires Valid()
      modifies this
      ensures Valid()
      ensures match file
              case Missing => r.Ok? && overrides == old(overrides) && index == old(index)
              case Refused(error) => r == Err(error) && overrides == old(overrides) && index == old(index)
              case Parsed(entries) => r.Ok? && Loads(codec, entries, overrides)
    {
      match file
      case Missing => r := Ok(());
      case Refused(error) => r := Err(error);
      case Parsed(entries) =>
        var loaded := ReadEntries(codec, entries);
        overrides := loaded;
        index := RebuildReverse(defaults, overrides);
        r := Ok(());
    }
  }

  /** The loop over the file's entries, in any order; what does not read is skipped. */
  method ReadEntries(codec: Codec, entries: FileEntries) returns (loaded: Overrides)
    ensures Loads(codec, entries, loaded)
  {
    loaded := map[];
    var keys := entries.Keys;
    while keys != {}
      invariant keys <= entries.Keys
      invariant forall id :: id in loaded ==>
        exists k :: k in entries && codec.parse(k) == Some(id) && ReadBack(entries[k]) == Some(loaded[id])
      invariant forall k :: k in entries && k !in keys && codec.parse(k).Some? && ReadBack(entries[k]).Some? ==>
        codec.parse(k).value in loaded
      decreases |keys|
    {
      var k :| k in keys;
      keys := keys - {k};
      var id := codec.parse(k);
      if id == None {
        continue;
      }
      match entries[k] {
        case None => loaded := loaded[id.value := None];
        case Some(text) =>
          var parsed := ParsedBinding(text);
          if parsed.Ok? {
            loaded := loaded[id.value := Some(parsed.value)];
          }
      }
    }
  }
}
