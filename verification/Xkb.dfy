/** The keyboard map as section 7 of the X Keyboard Extension Protocol Specification describes it:
    keys with groups and shift levels, key types, actions and modifier masks.  The two loops of the
    source that look a key up for a modifier state are methods proved against the functions here. */
module Xkb {

  type KeySym = nat

  const NO_SYMBOL: KeySym := 0

  /** A keycode is one byte; 0 is never a key and stands for "none". */
  type KeyCode = k: nat | k < 256

  type Group = g: nat | g < 4

  /** The eight bits of a core modifier mask.  A mask is the set of its bits. */
  datatype Modifier = Shift | Lock | Control | Mod1 | Mod2 | Mod3 | Mod4 | Mod5

  type Mods = set<Modifier>

  /** The core state: modifier bits 0-7 and the group of bits 13-14. */
  datatype CoreState = CoreState(mods: Mods, group: Group)

  datatype MapEntry = MapEntry(active: bool, mods: Mods, level: nat, preserve: Mods)

  datatype KeyType = KeyType(mask: Mods, numLevels: nat, entries: seq<MapEntry>)

  /** What a group number beyond the key's own groups is turned into. */
  datatype OutOfRange = Wrap | Clamp | Redirect(group: Group)

  datatype Action =
    | NoAction
    | SetMods(mask: Mods, useModMap: bool)
    | LockMods(mask: Mods, useModMap: bool)
    | OtherAction

  /** One key: a key type per group, and a row of `width` keysyms (and actions) per group. */
  datatype Key = Key(
    types: seq<nat>, width: nat, outOfRange: OutOfRange,
    syms: seq<KeySym>, hasActions: bool, actions: seq<Action>)

  datatype NameTable = NoNames | Names(names: seq<string>)

  /** The pairs that XkbConvertCase knows; every other keysym is its own lower and upper case. */
  datatype CaseTable = CaseTable(lower: map<KeySym, KeySym>, upper: map<KeySym, KeySym>) {
    function Lower(sym: KeySym): KeySym {
      if sym in lower then lower[sym] else sym
    }

    function Upper(sym: KeySym): KeySym {
      if sym in upper then upper[sym] else sym
    }
  }

  datatype Keymap = Keymap(
    minKey: nat, maxKey: nat, keys: seq<Key>, types: seq<KeyType>,
    modmap: seq<Mods>, names: NameTable, cases: CaseTable)
  {
    predicate InRange(k: nat) {
      minKey <= k <= maxKey
    }
  }

  predicate WellFormedType(t: KeyType) {
    && t.numLevels >= 1
    && forall i :: 0 <= i < |t.entries| ==> t.entries[i].level < t.numLevels
  }

  predicate WellFormedKey(types: seq<KeyType>, key: Key) {
    && |key.types| <= 4
    && (forall g :: 0 <= g < |key.types| ==> key.types[g] < |types| && types[key.types[g]].numLevels <= key.width)
    && |key.syms| == |key.types| * key.width
    && (key.hasActions ==> |key.actions| == |key.types| * key.width)
  }

  /** What the X server guarantees of any keymap it hands out. */
  predicate WellFormed(xkb: Keymap) {
    && 8 <= xkb.minKey <= xkb.maxKey <= 255
    && |xkb.keys| == 256
    && |xkb.modmap| == 256
    && (xkb.names.Names? ==> |xkb.names.names| == 256 && forall k :: 0 <= k < 256 ==> |xkb.names.names[k]| == 4)
    && (forall t :: 0 <= t < |xkb.types| ==> WellFormedType(xkb.types[t]))
    && (forall k :: 0 <= k < 256 ==> WellFormedKey(xkb.types, xkb.keys[k]))
  }

  /** The group a key uses when the keyboard is in group `g`. */
  function EffectiveGroup(key: Key, g: Group): (e: nat)
    requires |key.types| <= 4
    ensures |key.types| > 0 ==> e < |key.types|
    ensures g < |key.types| ==> e == g
  {
    var n := |key.types|;
    if n == 0 then 0
    else if g < n then g
    else match key.outOfRange
      case Wrap => g % n
      case Clamp => n - 1
      case Redirect(r) => if r < n then r else 0
  }

  predicate EntryMatches(t: KeyType, e: MapEntry, mods: Mods) {
    e.active && mods * t.mask == e.mods
  }

  /** The first map entry from index `i` on that matches, |entries| if none does. */
  function FirstEntry(t: KeyType, mods: Mods, i: nat): (r: nat)
    requires i <= |t.entries|
    ensures i <= r <= |t.entries|
    ensures r < |t.entries| ==> EntryMatches(t, t.entries[r], mods)
    ensures forall j :: i <= j < r ==> !EntryMatches(t, t.entries[j], mods)
    decreases |t.entries| - i
  {
    if i == |t.entries| || EntryMatches(t, t.entries[i], mods) then i else FirstEntry(t, mods, i + 1)
  }

  /** The shift level a key type selects; the base level when no entry matches. */
  function ShiftLevel(t: KeyType, mods: Mods): nat {
    var i := FirstEntry(t, mods, 0);
    if i < |t.entries| then t.entries[i].level else 0
  }

  /** The modifiers a key type uses up in choosing the level. */
  function Consumed(t: KeyType, mods: Mods): Mods {
    var i := FirstEntry(t, mods, 0);
    t.mask - (if i < |t.entries| then t.entries[i].preserve else {})
  }

  lemma ColumnInRow(g: nat, n: nat, width: nat, level: nat)
    requires g < n && level < width
    ensures g * width + level < n * width
    decreases n
  {
    assert n * width == (n - 1) * width + width;
    if g < n - 1 {
      ColumnInRow(g, n - 1, width, level);
    }
  }

  predicate HasGroups(xkb: Keymap, k: nat) {
    && xkb.InRange(k)
    && k < |xkb.keys|
    && |xkb.keys[k].types| > 0
  }

  function TypeOf(xkb: Keymap, k: KeyCode, g: Group): (t: KeyType)
    requires WellFormed(xkb) && HasGroups(xkb, k)
    ensures WellFormedType(t)
  {
    assert WellFormedKey(xkb.types, xkb.keys[k]);
    xkb.types[xkb.keys[k].types[EffectiveGroup(xkb.keys[k], g)]]
  }

  /** The column of the key's rows that state `s` selects. */
  function Column(xkb: Keymap, k: KeyCode, s: CoreState): (col: nat)
    requires WellFormed(xkb) && HasGroups(xkb, k)
    ensures col < |xkb.keys[k].syms|
    ensures xkb.keys[k].hasActions ==> col < |xkb.keys[k].actions|
  {
    var key := xkb.keys[k];
    assert WellFormedKey(xkb.types, key);
    var g := EffectiveGroup(key, s.group);
    var level := ShiftLevel(TypeOf(xkb, k, s.group), s.mods);
    ColumnInRow(g, |key.types|, key.width, level);
    g * key.width + level
  }

  /** The keysym in the selected column, NoSymbol for a key without groups. */
  function RawSym(xkb: Keymap, k: KeyCode, s: CoreState): KeySym
    requires WellFormed(xkb)
  {
    if HasGroups(xkb, k) then xkb.keys[k].syms[Column(xkb, k, s)] else NO_SYMBOL
  }

  function ConsumedBy(xkb: Keymap, k: KeyCode, s: CoreState): Mods
    requires WellFormed(xkb)
  {
    if HasGroups(xkb, k) then Consumed(TypeOf(xkb, k, s.group), s.mods) else {}
  }

  /** The keysym a client sees for the key: an unconsumed Lock capitalises it. */
  function KeysymAt(xkb: Keymap, k: KeyCode, s: CoreState): KeySym
    requires WellFormed(xkb)
  {
    var ks := RawSym(xkb, k, s);
    if Lock in s.mods - ConsumedBy(xkb, k, s) then xkb.cases.Upper(ks) else ks
  }

  /** Pressing key `k` in state `s` gives `sym`. */
  predicate Produces(xkb: Keymap, k: KeyCode, s: CoreState, sym: KeySym)
    requires WellFormed(xkb)
  {
    RawSym(xkb, k, s) != NO_SYMBOL && KeysymAt(xkb, k, s) == sym
  }

  /** The action of the key in the selected column. */
  function ActionAt(xkb: Keymap, k: KeyCode, s: CoreState): Action
    requires WellFormed(xkb)
  {
    if HasGroups(xkb, k) && xkb.keys[k].hasActions then xkb.keys[k].actions[Column(xkb, k, s)] else NoAction
  }

  /** The mask an action stands for on key `k`. */
  function ActionMask(xkb: Keymap, k: KeyCode, a: Action): Mods
    requires WellFormed(xkb)
    requires a.SetMods? || a.LockMods?
  {
    if a.useModMap then xkb.modmap[k] else a.mask
  }

  /** The modifiers the key sets while it is held: none unless its action is SetMods. */
  function SetBy(xkb: Keymap, k: KeyCode, s: CoreState): Mods
    requires WellFormed(xkb)
  {
    var a := ActionAt(xkb, k, s);
    if a.SetMods? then ActionMask(xkb, k, a) else {}
  }

  // ---- What a key gives, read off its rows

  /** Rows laid end to end. */
  function Joined<T>(rows: seq<seq<T>>): seq<T> {
    if rows == [] then [] else rows[0] + Joined(rows[1..])
  }

  predicate RowsOf<T(==)>(rows: seq<seq<T>>, width: nat, all: seq<T>) {
    (forall i :: 0 <= i < |rows| ==> |rows[i]| == width) && Joined(rows) == all
  }

  lemma {:induction false} JoinedAt<T>(rows: seq<seq<T>>, width: nat, g: nat, level: nat)
    requires forall i :: 0 <= i < |rows| ==> |rows[i]| == width
    requires g < |rows| && level < width
    ensures g * width + level < |Joined(rows)| && Joined(rows)[g * width + level] == rows[g][level]
    decreases rows
  {
    if g > 0 {
      JoinedAt(rows[1..], width, g - 1, level);
      assert (g - 1) * width + level + width == g * width + level;
    }
  }

  lemma {:induction false} JoinedSize<T>(rows: seq<seq<T>>, width: nat)
    requires forall i :: 0 <= i < |rows| ==> |rows[i]| == width
    ensures |Joined(rows)| == |rows| * width
    decreases rows
  {
    if rows != [] {
      JoinedSize(rows[1..], width);
      assert |rows| * width == (|rows| - 1) * width + width;
    }
  }

  lemma SameNumber(m: nat, n: nat, width: nat)
    requires m * width == n * width && width > 0
    ensures m == n
  {
    if m < n {
      ColumnInRow(m, n, width, 0);
    } else if n < m {
      ColumnInRow(n, m, width, 0);
    }
  }

  /** The key answers from row `e` when the keyboard is in group `g`: from that of the group if it has one, and
      otherwise from the row it wraps around to, its last row, or the row it redirects to, if there is one. */
  predicate UsesRow(key: Key, g: Group, e: nat) {
    var n := |key.types|;
    e < n &&
    if g < n then e == g
    else match key.outOfRange
      case Wrap => g == e + n || g == e + 2 * n || g == e + 3 * n
      case Clamp => e + 1 == n
      case Redirect(r) => e == r || (r >= n && e == 0)
  }

  predicate IsFor(e: MapEntry, t: KeyType, mods: Mods) {
    e.active && e.mods == mods * t.mask
  }

  /** The modifiers select `level` in a key type and leave `preserve` unconsumed: those of the first active entry
      whose modifiers are exactly those of the type that are on, or the base level and none without such an entry. */
  predicate Selects(t: KeyType, mods: Mods, level: nat, preserve: Mods) {
    || (level == 0 && preserve == {} && forall j | 0 <= j < |t.entries| :: !IsFor(t.entries[j], t, mods))
    || (exists i | 0 <= i < |t.entries| ::
          && IsFor(t.entries[i], t, mods) && t.entries[i].level == level && t.entries[i].preserve == preserve
          && forall j | 0 <= j < i :: !IsFor(t.entries[j], t, mods))
  }

  /** There is exactly one such row, and one such level. */
  lemma RowIsUnique(key: Key, g: Group, e: nat)
    requires 0 < |key.types| <= 4
    ensures UsesRow(key, g, e) <==> EffectiveGroup(key, g) == e
  {
  }

  lemma LevelIsUnique(t: KeyType, mods: Mods)
    ensures exists preserve :: Selects(t, mods, ShiftLevel(t, mods), preserve)
    ensures forall level, preserve :: Selects(t, mods, level, preserve) ==>
              ShiftLevel(t, mods) == level && Consumed(t, mods) == t.mask - preserve
  {
    var i := FirstEntry(t, mods, 0);
    assert Selects(t, mods, ShiftLevel(t, mods), if i < |t.entries| then t.entries[i].preserve else {});
  }

  /** A key out of range or without groups gives nothing, does nothing and consumes nothing, and a key without
      actions does nothing. */
  lemma NothingWithoutGroups(xkb: Keymap, k: KeyCode, s: CoreState)
    requires WellFormed(xkb)
    ensures k < xkb.minKey || k > xkb.maxKey || xkb.keys[k].types == [] ==> forall sym :: !Produces(xkb, k, s, sym)
    ensures k < xkb.minKey || k > xkb.maxKey || xkb.keys[k].types == [] ==>
              RawSym(xkb, k, s) == 0 && ConsumedBy(xkb, k, s) == {} && ActionAt(xkb, k, s) == NoAction
    ensures !xkb.keys[k].hasActions ==> ActionAt(xkb, k, s) == NoAction
  {
  }

  /** The keysym of a key is the one at the selected level of the row it uses, and it consumes the modifiers of
      the key type of that row that the entry does not preserve. */
  lemma GivesFromItsRow(xkb: Keymap, k: KeyCode, s: CoreState, rows: seq<seq<KeySym>>, e: nat, level: nat,
                         preserve: Mods)
    requires WellFormed(xkb) && HasGroups(xkb, k)
    requires RowsOf(rows, xkb.keys[k].width, xkb.keys[k].syms) && UsesRow(xkb.keys[k], s.group, e)
    requires xkb.keys[k].types[e] < |xkb.types| && Selects(xkb.types[xkb.keys[k].types[e]], s.mods, level, preserve)
    ensures e < |rows| && level < |rows[e]| && RawSym(xkb, k, s) == rows[e][level]
    ensures ConsumedBy(xkb, k, s) == xkb.types[xkb.keys[k].types[e]].mask - preserve
  {
    ColumnOfRow(xkb, k, s, rows, e, level, preserve);
  }

  /** So is its action, in rows of actions. */
  lemma ActsFromItsRow(xkb: Keymap, k: KeyCode, s: CoreState, rows: seq<seq<Action>>, e: nat, level: nat,
                       preserve: Mods)
    requires WellFormed(xkb) && HasGroups(xkb, k) && xkb.keys[k].hasActions
    requires RowsOf(rows, xkb.keys[k].width, xkb.keys[k].actions) && UsesRow(xkb.keys[k], s.group, e)
    requires xkb.keys[k].types[e] < |xkb.types| && Selects(xkb.types[xkb.keys[k].types[e]], s.mods, level, preserve)
    ensures e < |rows| && level < |rows[e]| && ActionAt(xkb, k, s) == rows[e][level]
  {
    ColumnOfRow(xkb, k, s, rows, e, level, preserve);
  }

  lemma ColumnOfRow<T>(xkb: Keymap, k: KeyCode, s: CoreState, rows: seq<seq<T>>, e: nat, level: nat,
                       preserve: Mods)
    requires WellFormed(xkb) && HasGroups(xkb, k) && UsesRow(xkb.keys[k], s.group, e)
    requires forall i :: 0 <= i < |rows| ==> |rows[i]| == xkb.keys[k].width
    requires |Joined(rows)| == |xkb.keys[k].syms|
    requires xkb.keys[k].types[e] < |xkb.types| && Selects(xkb.types[xkb.keys[k].types[e]], s.mods, level, preserve)
    ensures e < |rows| && level < |rows[e]|
    ensures ConsumedBy(xkb, k, s) == xkb.types[xkb.keys[k].types[e]].mask - preserve
    ensures Column(xkb, k, s) < |Joined(rows)| && Joined(rows)[Column(xkb, k, s)] == rows[e][level]
  {
    var key := xkb.keys[k];
    assert WellFormedKey(xkb.types, key);
    RowIsUnique(key, s.group, e);
    LevelIsUnique(TypeOf(xkb, k, s.group), s.mods);
    JoinedSize(rows, key.width);
    SameNumber(|rows|, |key.types|, key.width);
    JoinedAt(rows, key.width, e, level);
  }

  /** The search loop over the map entries of a key type. */
  method FindEntry(t: KeyType, mods: Mods) returns (i: nat)
    ensures i == FirstEntry(t, mods, 0)
  {
    i := 0;
    while i < |t.entries|
      invariant i <= |t.entries|
      invariant FirstEntry(t, mods, i) == FirstEntry(t, mods, 0)
    {
      if t.entries[i].active && mods * t.mask == t.entries[i].mods {
        return;
      }
      i := i + 1;
    }
  }

  method TranslateKeyCode(xkb: Keymap, k: KeyCode, s: CoreState) returns (sym: KeySym, consumed: Mods)
    requires WellFormed(xkb)
    ensures sym == RawSym(xkb, k, s)
    ensures consumed == ConsumedBy(xkb, k, s)
  {
    consumed := {};
    var key := xkb.keys[k];
    if !xkb.InRange(k) || |key.types| == 0 {
      return NO_SYMBOL, {};
    }
    assert WellFormedKey(xkb.types, key);
    var group := EffectiveGroup(key, s.group);
    var col := group * key.width;
    var t := xkb.types[key.types[group]];
    var preserve := {};
    var i := FindEntry(t, s.mods);
    ghost var c := Column(xkb, k, s);
    if i < |t.entries| {
      col := col + t.entries[i].level;
      preserve := t.entries[i].preserve;
    }
    assert col == c;
    return key.syms[col], t.mask - preserve;
  }

  method KeyAction(xkb: Keymap, k: KeyCode, s: CoreState) returns (a: Action)
    requires WellFormed(xkb)
    ensures a == ActionAt(xkb, k, s)
  {
    var key := xkb.keys[k];
    if !key.hasActions || !xkb.InRange(k) || |key.types| == 0 {
      return NoAction;
    }
    assert WellFormedKey(xkb.types, key);
    var group := EffectiveGroup(key, s.group);
    var col := group * key.width;
    var t := xkb.types[key.types[group]];
    var i := FindEntry(t, s.mods);
    ghost var c := Column(xkb, k, s);
    if i < |t.entries| {
      col := col + t.entries[i].level;
    }
    assert col == c;
    a := key.actions[col];
  }
}
