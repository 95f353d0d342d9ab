/** The list of keysyms that were given a keycode of their own, kept in least-recently-used order,
    and the assignment of a keysym to a free or recycled keycode. */
module AddedKeysyms {
  import opened Common
  import opened Xkb
  import opened KeysymLookup

  /** XkbAlphabeticIndex, the third of the key types every keymap has. */
  const ALPHABETIC: nat := 2

  datatype AddedKeysym = AddedKeysym(keysym: KeySym, keycode: KeyCode)

  /** The first index from `i` on that holds `code`, |added| if none does. */
  function IndexOf(added: seq<AddedKeysym>, code: KeyCode, i: nat): (r: nat)
    requires i <= |added|
    ensures i <= r <= |added|
    ensures r < |added| ==> added[r].keycode == code
    ensures forall j :: i <= j < r ==> added[j].keycode != code
  {
    FirstWith(added, (a: AddedKeysym) => a.keycode, code, i)
  }

  /** The list with the first entry of `code` moved to the front. */
  function MoveToFront(added: seq<AddedKeysym>, code: KeyCode): seq<AddedKeysym> {
    var i := IndexOf(added, code, 0);
    if i < |added| then [added[i]] + added[..i] + added[i + 1..] else added
  }

  /** Nobody else has changed the key since the keysym was put on it. */
  predicate StillOurs(xkb: Keymap, a: AddedKeysym)
    requires WellFormed(xkb)
  {
    var key := xkb.keys[a.keycode];
    assert WellFormedKey(xkb.types, key);
    && |key.types| > 0
    && |key.syms| > 0
    && key.syms[0] == a.keysym
    && (xkb.names.Names? ==> xkb.names.names[a.keycode][0] == 'T')
  }

  /** The oldest usable keycode and the list left when it is taken; 0 and the empty list if none. */
  function Reusable(xkb: Keymap, added: seq<AddedKeysym>): (r: (KeyCode, seq<AddedKeysym>))
    requires WellFormed(xkb)
  {
    if added == [] then (0, [])
    else
      var last := added[|added| - 1];
      var rest := added[..|added| - 1];
      if StillOurs(xkb, last) && last.keycode != 0 then (last.keycode, rest) else Reusable(xkb, rest)
  }

  /** The highest keycode up to `from` that has no groups; 0 if there is none. */
  function FreeKey(xkb: Keymap, from: nat): (k: KeyCode)
    requires WellFormed(xkb) && xkb.minKey - 1 <= from <= xkb.maxKey
    ensures k != 0 ==> xkb.InRange(k) && k <= from && |xkb.keys[k].types| == 0
    ensures forall j :: (if k == 0 then xkb.minKey - 1 else k as int) < j <= from ==> |xkb.keys[j].types| > 0
    decreases from
  {
    if from < xkb.minKey then 0 else if |xkb.keys[from].types| == 0 then from else FreeKey(xkb, from - 1)
  }

  /** The key types the X server guarantees: ALPHABETIC has two levels, Shift selects the second, Lock
      either selects it too or is left to the client, and Shift cancels Lock. */
  predicate CanonicalAlphabetic(t: KeyType) {
    && t.mask == {Shift, Lock}
    && t.numLevels == 2
    && ShiftLevel(t, {}) == 0
    && ShiftLevel(t, {Shift}) == 1
    && (|| (ShiftLevel(t, {Lock}) == 1 && Consumed(t, {Lock}) == {Shift, Lock})
        || (ShiftLevel(t, {Lock}) == 0 && Consumed(t, {Lock}) == {Shift}))
    && ShiftLevel(t, {Shift, Lock}) == 0
    && Consumed(t, {Shift, Lock}) == {Shift, Lock}
  }

  predicate HasCanonicalTypes(xkb: Keymap) {
    |xkb.types| > ALPHABETIC && CanonicalAlphabetic(xkb.types[ALPHABETIC])
  }

  function Digit(n: nat): char {
    "0123456789"[n % 10]
  }

  /** The name given to an assigned key, such as T092. */
  function KeyName(k: KeyCode): (name: string)
    ensures |name| == 4 && name[0] == 'T'
  {
    ['T', Digit(k / 100), Digit(k / 10), Digit(k)]
  }

  /** The keymap after `sym` was put on key `k`: one ALPHABETIC group with its two cases. */
  function Assigned(xkb: Keymap, k: KeyCode, sym: KeySym): (x: Keymap)
    requires WellFormed(xkb) && HasCanonicalTypes(xkb)
    ensures WellFormed(x) && HasCanonicalTypes(x)
  {
    var key := xkb.keys[k].(
      types := [ALPHABETIC], width := 2, hasActions := false, actions := [],
      syms := [xkb.cases.Lower(sym), xkb.cases.Upper(sym)]);
    var names := if xkb.names.Names? then Names(xkb.names.names[k := KeyName(k)]) else NoNames;
    var x := xkb.(keys := xkb.keys[k := key], names := names);
    assert forall j :: 0 <= j < 256 && j != k ==> x.keys[j] == xkb.keys[j] && WellFormedKey(xkb.types, xkb.keys[j]);
    x
  }

  /** The name is the keycode in three decimal digits behind a T. */
  lemma KeyNameIsItsNumber(k: KeyCode, name: string)
    requires name == KeyName(k)
    ensures name[0] == 'T' && forall i :: 1 <= i < 4 ==> '0' <= name[i] <= '9'
    ensures (name[1] - '0') as int * 100 + (name[2] - '0') as int * 10 + (name[3] - '0') as int == k
  {
    var digits := "0123456789";
    assert forall i :: 0 <= i < 10 ==> digits[i] == '0' + i as char;
    assert k == k / 100 * 100 + k / 10 % 10 * 10 + k % 10;
  }

  datatype Addition = Addition(key: KeyCode, xkb: Keymap, added: seq<AddedKeysym>)

  /** Puts `sym` on a free keycode, or on the recycled one; key 0 when there is none. */
  function AddKeysym(xkb: Keymap, added: seq<AddedKeysym>, sym: KeySym): (r: Addition)
    requires WellFormed(xkb) && HasCanonicalTypes(xkb)
    ensures WellFormed(r.xkb) && HasCanonicalTypes(r.xkb)
  {
    var free := FreeKey(xkb, xkb.maxKey);
    var (k, rest) := if free != 0 then (free, added) else Reusable(xkb, added);
    if k == 0 then Addition(0, xkb, rest)
    else Addition(k, Assigned(xkb, k, sym), [AddedKeysym(xkb.cases.Lower(sym), k)] + rest)
  }

  /** The entry still has its key to itself: the key has a group, starts with the keysym, and has the name it was
      given if keys have names. */
  predicate Usable(xkb: Keymap, a: AddedKeysym)
    requires WellFormed(xkb)
  {
    && a.keycode != 0 && |xkb.keys[a.keycode].types| > 0
    && xkb.keys[a.keycode].syms != [] && xkb.keys[a.keycode].syms[0] == a.keysym
    && (xkb.names.Names? ==> |xkb.names.names[a.keycode]| == 4 && xkb.names.names[a.keycode][0] == 'T')
  }

  /** The recycled keycode is that of the last usable entry, and it and everything behind it are dropped; without
      a usable entry all are dropped. */
  lemma {:induction false} TakesLastUsable(xkb: Keymap, added: seq<AddedKeysym>, i: nat)
    requires WellFormed(xkb) && i <= |added|
    requires forall j :: i < j < |added| ==> !Usable(xkb, added[j])
    ensures i < |added| && Usable(xkb, added[i]) ==> Reusable(xkb, added) == (added[i].keycode, added[..i])
    ensures (forall j :: 0 <= j < |added| ==> !Usable(xkb, added[j])) ==> Reusable(xkb, added) == (0, [])
    decreases |added|
  {
    if added != [] {
      var n := |added| - 1;
      assert WellFormedKey(xkb.types, xkb.keys[added[n].keycode]);
      assert Usable(xkb, added[n]) <==> StillOurs(xkb, added[n]) && added[n].keycode != 0;
      if !Usable(xkb, added[n]) {
        TakesLastUsable(xkb, added[..n], if i < n then i else n);
        assert i < n ==> added[..n][..i] == added[..i];
      } else {
        assert i >= n;
      }
    }
  }

  /** An addition takes the highest keycode in range that has no groups, if there is one, and drops no entry. */
  lemma AdditionTakesHighestFree(xkb: Keymap, added: seq<AddedKeysym>, sym: KeySym, k: KeyCode)
    requires WellFormed(xkb) && HasCanonicalTypes(xkb) && xkb.InRange(k) && xkb.keys[k].types == []
    requires forall j :: k < j <= xkb.maxKey ==> xkb.keys[j].types != []
    ensures AddKeysym(xkb, added, sym) ==
            Addition(k, Assigned(xkb, k, sym), [AddedKeysym(xkb.cases.Lower(sym), k)] + added)
  {
    assert FreeKey(xkb, xkb.maxKey) == k;
  }

  /** Otherwise it recycles the keycode of the last usable entry, which goes with all behind it; without one nothing
      is added and the list is empty. */
  lemma AdditionRecycles(xkb: Keymap, added: seq<AddedKeysym>, sym: KeySym, i: nat)
    requires WellFormed(xkb) && HasCanonicalTypes(xkb) && forall j: KeyCode :: xkb.InRange(j) ==> xkb.keys[j].types != []
    ensures i < |added| && Usable(xkb, added[i]) && (forall j :: i < j < |added| ==> !Usable(xkb, added[j])) ==>
              var k := added[i].keycode;
              AddKeysym(xkb, added, sym) ==
              Addition(k, Assigned(xkb, k, sym), [AddedKeysym(xkb.cases.Lower(sym), k)] + added[..i])
    ensures (forall j :: 0 <= j < |added| ==> !Usable(xkb, added[j])) ==>
              AddKeysym(xkb, added, sym) == Addition(0, xkb, [])
  {
    assert FreeKey(xkb, xkb.maxKey) == 0;
    if i < |added| && forall j :: i < j < |added| ==> !Usable(xkb, added[j]) {
      TakesLastUsable(xkb, added, i);
    }
    TakesLastUsable(xkb, added, |added|);
  }

  /** The assigned key has one group, of the alphabetic type, with the lower and the upper case and no actions, and
      its name; all other keys, the modifier map and the types are as before. */
  lemma AssignedIs(xkb: Keymap, k: KeyCode, sym: KeySym)
    requires WellFormed(xkb) && HasCanonicalTypes(xkb)
    ensures var x := Assigned(xkb, k, sym);
            && x == xkb.(keys := x.keys, names := x.names)
            && x.keys[k].types == [2] && !x.keys[k].hasActions && x.keys[k].outOfRange == xkb.keys[k].outOfRange
            && x.keys[k].syms == [xkb.cases.Lower(sym), xkb.cases.Upper(sym)]
            && (forall j :: 0 <= j < 256 && j != k ==> x.keys[j] == xkb.keys[j])
            && x.names.Names? == xkb.names.Names?
            && (xkb.names.Names? ==>
                  && x.names.names[k] == KeyName(k)
                  && forall j :: 0 <= j < 256 && j != k ==> x.names.names[j] == xkb.names.names[j])
  {
  }

  // ---- Least recently used

  datatype Op = Add(sym: KeySym, code: KeyCode) | Use(code: KeyCode) | Evict

  function Apply(added: seq<AddedKeysym>, op: Op): seq<AddedKeysym> {
    match op
    case Add(sym, code) => [AddedKeysym(sym, code)] + added
    case Use(code) => MoveToFront(added, code)
    case Evict => if added == [] then [] else added[..|added| - 1]
  }

  function Run(ops: seq<Op>): seq<AddedKeysym> {
    if ops == [] then [] else Apply(Run(ops[..|ops| - 1]), ops[|ops| - 1])
  }

  predicate Lists(added: seq<AddedKeysym>, code: KeyCode) {
    exists i :: 0 <= i < |added| && added[i].keycode == code
  }

  /** A keycode is only added while it is not in the list. */
  predicate ValidRun(ops: seq<Op>) {
    ops == [] ||
    var before := ops[..|ops| - 1];
    var op := ops[|ops| - 1];
    ValidRun(before) && (op.Add? ==> !Lists(Run(before), op.code))
  }

  /** The time of the last operation that touched `code`, counted from 1; 0 if none did. */
  function LastUse(ops: seq<Op>, code: KeyCode): (t: nat)
    ensures t <= |ops|
  {
    if ops == [] then 0
    else
      var op := ops[|ops| - 1];
      if (op.Add? || op.Use?) && op.code == code then |ops| else LastUse(ops[..|ops| - 1], code)
  }

  predicate Distinct(added: seq<AddedKeysym>) {
    forall i, j :: 0 <= i < j < |added| ==> added[i].keycode != added[j].keycode
  }

  predicate OrderedByUse(added: seq<AddedKeysym>, ops: seq<Op>) {
    forall i, j :: 0 <= i < j < |added| ==> LastUse(ops, added[i].keycode) > LastUse(ops, added[j].keycode)
  }

  /** Moving to the front keeps the order of all other entries. */
  lemma MovedToFront(added: seq<AddedKeysym>, code: KeyCode, a: nat, b: nat)
    requires Distinct(added) && a < b < |added|
    ensures var moved := MoveToFront(added, code);
            && |moved| == |added|
            && moved[b].keycode != code
            && (moved[a].keycode == code ||
                exists i, j :: 0 <= i < j < |added| && moved[a] == added[i] && moved[b] == added[j])
            && moved[a].keycode != moved[b].keycode
  {
    var moved := MoveToFront(added, code);
    var i := IndexOf(added, code, 0);
    if i < |added| {
      var oa := if a == 0 then i else if a <= i then a - 1 else a;
      var ob := if b <= i then b - 1 else b;
      assert moved[a] == added[oa] && moved[b] == added[ob];
    }
  }

  lemma AppliedOrder(before: seq<Op>, op: Op)
    requires var l := Run(before); Distinct(l) && OrderedByUse(l, before) && (op.Add? ==> !Lists(l, op.code))
    ensures var l := Apply(Run(before), op); Distinct(l) && OrderedByUse(l, before + [op])
  {
    var l, ops := Run(before), before + [op];
    assert ops[..|ops| - 1] == before;
    var l' := Apply(l, op);
    assert forall c: KeyCode {:trigger LastUse(ops, c)} ::
      LastUse(ops, c) == if (op.Add? || op.Use?) && op.code == c then |ops| else LastUse(before, c);
    if op.Use? && IndexOf(l, op.code, 0) < |l| {
      forall a, b | 0 <= a < b < |l'|
        ensures l'[a].keycode != l'[b].keycode
        ensures LastUse(ops, l'[a].keycode) > LastUse(ops, l'[b].keycode)
      {
        MovedToFront(l, op.code, a, b);
      }
    }
  }

  /** After any run the list is ordered by decreasing last use, so its last entry, the one an
      eviction takes, is the least recently used of all. */
  lemma {:induction false} LruOrder(ops: seq<Op>)
    requires ValidRun(ops)
    ensures var l := Run(ops);
            && Distinct(l)
            && OrderedByUse(l, ops)
            && (l != [] ==> forall e :: e in l ==> LastUse(ops, l[|l| - 1].keycode) <= LastUse(ops, e.keycode))
  {
    if ops != [] {
      var before := ops[..|ops| - 1];
      var last := ops[|ops| - 1];
      LruOrder(before);
      AppliedOrder(before, last);
      assert before + [last] == ops;
    }
    var l := Run(ops);
    LastIsLeastUsed(l, ops);
  }

  lemma LastIsLeastUsed(added: seq<AddedKeysym>, ops: seq<Op>)
    requires OrderedByUse(added, ops)
    ensures added != [] ==> forall e :: e in added ==> LastUse(ops, added[|added| - 1].keycode) <= LastUse(ops, e.keycode)
  {
    forall e | e in added
      ensures LastUse(ops, added[|added| - 1].keycode) <= LastUse(ops, e.keycode)
    {
      var i :| 0 <= i < |added| && added[i] == e;
      assert i < |added| - 1 ==> LastUse(ops, added[i].keycode) > LastUse(ops, added[|added| - 1].keycode);
    }
  }

  // ---- An added keysym can be reached

  lemma {:induction false} EntryByMask(t: KeyType, mods: Mods, i: nat)
    requires i <= |t.entries|
    ensures FirstEntry(t, mods, i) == FirstEntry(t, mods * t.mask, i)
    decreases |t.entries| - i
  {
    if i < |t.entries| {
      assert mods * t.mask * t.mask == mods * t.mask;
      EntryByMask(t, mods, i + 1);
    }
  }

  /** The ALPHABETIC type lets Lock select the second level; otherwise it leaves Lock to the client. */
  predicate LockSelectsUpper(xkb: Keymap)
    requires HasCanonicalTypes(xkb)
  {
    ShiftLevel(xkb.types[ALPHABETIC], {Lock}) == 1
  }

  /** Everything an ALPHABETIC key can give. */
  lemma AlphabeticGives(xkb: Keymap, k: KeyCode, s: CoreState)
    requires WellFormed(xkb) && HasCanonicalTypes(xkb) && HasGroups(xkb, k)
    requires xkb.keys[k].types == [ALPHABETIC] && xkb.keys[k].width == 2
    ensures var syms := xkb.keys[k].syms;
            var shift, lock := Shift in s.mods, Lock in s.mods;
            && |syms| == 2
            && RawSym(xkb, k, s) == syms[if shift then (if lock then 0 else 1)
                                         else if lock && LockSelectsUpper(xkb) then 1 else 0]
            && KeysymAt(xkb, k, s) == if lock && !shift && !LockSelectsUpper(xkb) then xkb.cases.Upper(syms[0])
                                      else RawSym(xkb, k, s)
  {
    var t := TypeOf(xkb, k, s.group);
    assert WellFormedKey(xkb.types, xkb.keys[k]);
    assert t == xkb.types[ALPHABETIC];
    EntryByMask(t, s.mods, 0);
    var m := s.mods * t.mask;
    assert m == (if Shift in s.mods then {Shift} else {}) + (if Lock in s.mods then {Lock} else {});
    assert ShiftLevel(t, s.mods) == ShiftLevel(t, m) && Consumed(t, s.mods) == Consumed(t, m);
    if Shift in s.mods {
      assert m == if Lock in s.mods then {Shift, Lock} else {Shift};
    } else {
      assert m == if Lock in s.mods then {Lock} else {};
    }
    assert Column(xkb, k, s) == ShiftLevel(t, m);
  }

  /** The key with the two cases of `sym` gives `sym` itself in a state with the modifiers `mods`. */
  predicate GivesIn(xkb: Keymap, sym: KeySym, mods: Mods)
    requires HasCanonicalTypes(xkb)
  {
    var lower, upper := xkb.cases.Lower(sym), xkb.cases.Upper(sym);
    if Shift in mods then
      if Lock in mods then lower != NO_SYMBOL && sym == lower else upper != NO_SYMBOL && sym == upper
    else if Lock !in mods then lower != NO_SYMBOL && sym == lower
    else if LockSelectsUpper(xkb) then upper != NO_SYMBOL && sym == upper
    else lower != NO_SYMBOL && sym == xkb.cases.Upper(lower)
  }

  /** It gives `sym` with Shift or without, while Lock is on (or off). */
  predicate GivesUnderLock(xkb: Keymap, sym: KeySym, lock: bool)
    requires HasCanonicalTypes(xkb)
  {
    var mods := if lock then {Lock} else {};
    GivesIn(xkb, sym, mods) || GivesIn(xkb, sym, mods + {Shift})
  }

  /** The keysym is its own lower case; or it is its own upper case, and with Lock on the key still gives it. */
  predicate AlwaysGiven(xkb: Keymap, sym: KeySym)
    requires HasCanonicalTypes(xkb)
  {
    var lower, upper := xkb.cases.Lower(sym), xkb.cases.Upper(sym);
    && sym != NO_SYMBOL
    && (|| sym == lower
        || (sym == upper && (LockSelectsUpper(xkb) || (lower != NO_SYMBOL && xkb.cases.Upper(lower) == sym))))
  }

  lemma NewKeyGives(xkb: Keymap, k: KeyCode, sym: KeySym, s: CoreState)
    requires WellFormed(xkb) && HasCanonicalTypes(xkb) && xkb.InRange(k)
    ensures Produces(Assigned(xkb, k, sym), k, s, sym) <==> GivesIn(xkb, sym, s.mods)
  {
    AlphabeticGives(Assigned(xkb, k, sym), k, s);
  }

  lemma ByLockAlone(xkb: Keymap, sym: KeySym, s: CoreState, l3: Mods)
    requires HasCanonicalTypes(xkb)
    ensures var c := Candidates(s, l3);
            GivesIn(xkb, sym, c[0].mods) || GivesIn(xkb, sym, c[1].mods) <==> GivesUnderLock(xkb, sym, Lock in s.mods)
  {
    var c := Candidates(s, l3);
    assert c[1].mods == Toggle(s.mods, {Shift});
    assert Shift in s.mods ==> Shift in s.mods * {Shift};
    var mods := if Lock in s.mods then {Lock} else {};
    if Shift in s.mods {
      assert GivesIn(xkb, sym, c[0].mods) == GivesIn(xkb, sym, mods + {Shift});
      assert GivesIn(xkb, sym, c[1].mods) == GivesIn(xkb, sym, mods);
    } else {
      assert GivesIn(xkb, sym, c[0].mods) == GivesIn(xkb, sym, mods);
      assert GivesIn(xkb, sym, c[1].mods) == GivesIn(xkb, sym, mods + {Shift});
    }
  }

  /** In which states a keysym can be typed on its new key, at most by toggling Shift; and exactly when it can in
      all of them, so that no lookup fails. */
  lemma AddedIsReachable(xkb: Keymap, k: KeyCode, sym: KeySym)
    requires WellFormed(xkb) && HasCanonicalTypes(xkb) && xkb.InRange(k)
    ensures var x := Assigned(xkb, k, sym);
            forall s, l3 :: var c := Candidates(s, l3);
              Produces(x, k, c[0], sym) || Produces(x, k, c[1], sym) <==> GivesUnderLock(xkb, sym, Lock in s.mods)
    ensures AlwaysGiven(xkb, sym) <==> GivesUnderLock(xkb, sym, false) && GivesUnderLock(xkb, sym, true)
    ensures AlwaysGiven(xkb, sym) ==> forall s, l3 :: Lookup(Assigned(xkb, k, sym), l3, s, sym).key != 0
  {
    var x := Assigned(xkb, k, sym);
    forall s, l3
      ensures var c := Candidates(s, l3);
              Produces(x, k, c[0], sym) || Produces(x, k, c[1], sym) <==> GivesUnderLock(xkb, sym, Lock in s.mods)
    {
      var c := Candidates(s, l3);
      NewKeyGives(xkb, k, sym, c[0]);
      NewKeyGives(xkb, k, sym, c[1]);
      ByLockAlone(xkb, sym, s, l3);
    }
    if AlwaysGiven(xkb, sym) {
      forall s, l3
        ensures Lookup(x, l3, s, sym).key != 0
      {
        var c := Candidates(s, l3);
        assert Produces(x, k, c[0], sym) || Produces(x, k, c[1], sym);
        LookupIsBest(x, l3, s, sym);
      }
    }
  }

  lemma OtherKeysUnchanged(xkb: Keymap, k: KeyCode, sym: KeySym, j: KeyCode, s: CoreState)
    requires WellFormed(xkb) && HasCanonicalTypes(xkb) && j != k
    ensures var x := Assigned(xkb, k, sym);
            && RawSym(x, j, s) == RawSym(xkb, j, s)
            && KeysymAt(x, j, s) == KeysymAt(xkb, j, s)
            && ActionAt(x, j, s) == ActionAt(xkb, j, s)
  {
  }

  /** If one key at most gives the keysym, the lookup can find no other. */
  lemma LookupFindsOnly(xkb: Keymap, k: KeyCode, l3: Mods, s: CoreState, sym: KeySym)
    requires WellFormed(xkb)
    requires var c := Candidates(s, l3);
             forall i, j: KeyCode :: 0 <= i < |c| && xkb.InRange(j) && j != k ==> !Produces(xkb, j, c[i], sym)
    ensures Lookup(xkb, l3, s, sym).key in {0, k}
  {
    LookupIsBest(xkb, l3, s, sym);
  }

  /** After a failed lookup no key but the assigned one can give the keysym. */
  lemma OnlyTheAddedKey(xkb: Keymap, k: KeyCode, sym: KeySym, l3: Mods, s: CoreState, i: nat, j: KeyCode)
    requires WellFormed(xkb) && HasCanonicalTypes(xkb) && xkb.InRange(j) && j != k
    requires Lookup(xkb, l3, s, sym).key == 0 && i < |Candidates(s, l3)|
    ensures !Produces(Assigned(xkb, k, sym), j, Candidates(s, l3)[i], sym)
  {
    LookupIsBest(xkb, l3, s, sym);
    OtherKeysUnchanged(xkb, k, sym, j, Candidates(s, l3)[i]);
  }

  /** The lookup that failed before the addition now finds exactly the new key, or still fails; it finds it if
      and only if the key gives the keysym in one of the states it tries, which for a level-three mask without
      Lock depends on Lock alone. */
  lemma AddedIsFound(xkb: Keymap, k: KeyCode, sym: KeySym, l3: Mods, s: CoreState)
    requires WellFormed(xkb) && HasCanonicalTypes(xkb) && xkb.InRange(k)
    requires Lookup(xkb, l3, s, sym).key == 0
    ensures var c := Candidates(s, l3);
            Lookup(Assigned(xkb, k, sym), l3, s, sym).key ==
            if exists i :: 0 <= i < |c| && GivesIn(xkb, sym, c[i].mods) then k else 0
    ensures Lock !in l3 ==>
              Lookup(Assigned(xkb, k, sym), l3, s, sym).key ==
              if GivesUnderLock(xkb, sym, Lock in s.mods) then k else 0
  {
    var x, c := Assigned(xkb, k, sym), Candidates(s, l3);
    assert Lookup(x, l3, s, sym).key in {0, k} by {
      forall i, j: KeyCode | 0 <= i < |c| && x.InRange(j) && j != k
        ensures !Produces(x, j, c[i], sym)
      {
        assert xkb.InRange(j);
        OnlyTheAddedKey(xkb, k, sym, l3, s, i, j);
      }
      LookupFindsOnly(x, k, l3, s, sym);
    }
    FoundWhereGiven(xkb, k, sym, l3, s);
    ByLockAlone(xkb, sym, s, l3);
    if Lock !in l3 {
      forall i | 0 <= i < |c| && GivesIn(xkb, sym, c[i].mods)
        ensures GivesUnderLock(xkb, sym, Lock in s.mods)
      {
        ByLockAlone(xkb, sym, c[i], l3);
      }
    }
  }

  lemma FoundWhereGiven(xkb: Keymap, k: KeyCode, sym: KeySym, l3: Mods, s: CoreState)
    requires WellFormed(xkb) && HasCanonicalTypes(xkb) && xkb.InRange(k)
    requires Lookup(Assigned(xkb, k, sym), l3, s, sym).key in {0, k}
    ensures var c := Candidates(s, l3);
            Lookup(Assigned(xkb, k, sym), l3, s, sym).key == k <==>
            exists i :: 0 <= i < |c| && GivesIn(xkb, sym, c[i].mods)
  {
    var x, c := Assigned(xkb, k, sym), Candidates(s, l3);
    forall i | 0 <= i < |c|
      ensures Produces(x, k, c[i], sym) <==> GivesIn(xkb, sym, c[i].mods)
    {
      NewKeyGives(xkb, k, sym, c[i]);
    }
    LookupIsBest(x, l3, s, sym);
  }
}
