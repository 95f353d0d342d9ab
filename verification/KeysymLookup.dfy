/** The search for a key that gives a keysym: in the current modifier state first, then with Shift,
    with the level-three modifier, and with both toggled. */
module KeysymLookup {
  import opened Xkb

  const XK_ISO_LEVEL3_SHIFT: KeySym := 0xfe03
  const XK_MODE_SWITCH: KeySym := 0xff7e
  const XK_NUM_LOCK: KeySym := 0xff7f

  /** Keycodes that real keyboards never send; they are used only when nothing else fits. */
  const FAKE_KEYS: seq<KeyCode> := [92, 203, 204, 205, 206, 207]

  /** The key to press and the state to press it in; `key` is 0 when there is none. */
  datatype Found = Found(key: KeyCode, state: CoreState)

  predicate IsFake(k: nat) {
    k in FAKE_KEYS
  }

  /** The lowest key from `from` on that is fake (or real) and gives `sym` in state `s`; 0 if none. */
  function FirstKey(xkb: Keymap, s: CoreState, sym: KeySym, fake: bool, from: nat): (k: KeyCode)
    requires WellFormed(xkb) && xkb.minKey <= from <= xkb.maxKey + 1
    ensures k != 0 ==> from <= k && xkb.InRange(k) && IsFake(k) == fake && Produces(xkb, k, s, sym)
    ensures k != 0 ==> forall j: KeyCode :: from <= j < k && IsFake(j) == fake ==> !Produces(xkb, j, s, sym)
    ensures k == 0 ==> forall j: KeyCode :: from <= j <= xkb.maxKey && IsFake(j) == fake ==> !Produces(xkb, j, s, sym)
    decreases xkb.maxKey + 1 - from
  {
    if from > xkb.maxKey then 0
    else if IsFake(from) == fake && Produces(xkb, from, s, sym) then from
    else FirstKey(xkb, s, sym, fake, from + 1)
  }

  /** The key for `sym` in exactly the state `s`: a real key if there is one, else a fake one. */
  function KeyFor(xkb: Keymap, s: CoreState, sym: KeySym): (k: KeyCode)
    requires WellFormed(xkb)
  {
    var sent := FirstKey(xkb, s, sym, false, xkb.minKey);
    if sent != 0 then sent else FirstKey(xkb, s, sym, true, xkb.minKey)
  }

  /** The set of modifiers `mods` with the whole mask turned off if any of it is on, else turned on. */
  function Toggle(mods: Mods, mask: Mods): Mods {
    if mods * mask == {} then mods + mask else mods - mask
  }

  /** The states the search tries, in order. */
  function Candidates(s: CoreState, l3: Mods): (c: seq<CoreState>)
    ensures |c| == (if l3 == {} then 2 else 4) && c[0] == s
    ensures forall i :: 0 <= i < |c| ==> c[i].group == s.group
  {
    [s, s.(mods := Toggle(s.mods, {Shift}))] +
    if l3 == {} then []
    else [s.(mods := Toggle(s.mods, l3)),
          s.(mods := s.mods - ({Shift} + l3)
                     + (if Shift in s.mods then {} else {Shift})
                     + (if s.mods * l3 != {} then {} else l3))]
  }

  /** The first candidate from index `i` on in which some key gives `sym`; key 0 if there is none. */
  function FirstFound(xkb: Keymap, states: seq<CoreState>, sym: KeySym, i: nat): Found
    requires WellFormed(xkb) && i < |states|
    decreases |states| - i
  {
    var k := KeyFor(xkb, states[i], sym);
    if k != 0 || i == |states| - 1 then Found(k, states[i]) else FirstFound(xkb, states, sym, i + 1)
  }

  function Lookup(xkb: Keymap, l3: Mods, s: CoreState, sym: KeySym): Found
    requires WellFormed(xkb)
  {
    FirstFound(xkb, Candidates(s, l3), sym, 0)
  }

  /** The key that shifts to level three: ISO_Level3_Shift, or else Mode_switch. */
  function LevelThreeKey(xkb: Keymap, s: CoreState): KeyCode
    requires WellFormed(xkb)
  {
    var k := KeyFor(xkb, s, XK_ISO_LEVEL3_SHIFT);
    if k != 0 then k else KeyFor(xkb, s, XK_MODE_SWITCH)
  }

  /** The modifiers that key sets when no other modifier is on. */
  function LevelThreeMask(xkb: Keymap, g: Group): Mods
    requires WellFormed(xkb)
  {
    var s := CoreState({}, g);
    var k := LevelThreeKey(xkb, s);
    if k == 0 then {} else SetBy(xkb, k, s)
  }

  /** The key that gives Num_Lock when no modifier is on, 0 if there is none that locks modifiers. */
  function NumLockKey(xkb: Keymap, g: Group): KeyCode
    requires WellFormed(xkb)
  {
    var s := CoreState({}, g);
    var k := KeyFor(xkb, s, XK_NUM_LOCK);
    if ActionAt(xkb, k, s).LockMods? then k else 0
  }

  /** The test of the code: the shift level of key `k` depends on the modifier that Num_Lock locks, where a mask
      kept in the modifier map is read at `k`. */
  predicate AffectedByNumLock(xkb: Keymap, g: Group, k: KeyCode)
    requires WellFormed(xkb) && HasGroups(xkb, k)
  {
    var s := CoreState({}, g);
    var numLock := KeyFor(xkb, s, XK_NUM_LOCK);
    var act := ActionAt(xkb, numLock, s);
    numLock != 0 && act.LockMods? && TypeOf(xkb, k, g).mask * ActionMask(xkb, k, act) != {}
  }

  /** What it is meant to be: the mask is the one that the Num_Lock key really locks. */
  predicate GovernedByNumLock(xkb: Keymap, g: Group, k: KeyCode)
    requires WellFormed(xkb) && HasGroups(xkb, k)
  {
    var numLock := NumLockKey(xkb, g);
    numLock != 0 &&
    TypeOf(xkb, k, g).mask * ActionMask(xkb, numLock, ActionAt(xkb, numLock, CoreState({}, g))) != {}
  }

  // ---- What the lookup promises

  /** Within one state: the key found gives the keysym, none is found only if there is none, a real
      key beats every fake one and the lowest keycode of its kind wins. */
  lemma KeyForIsBest(xkb: Keymap, s: CoreState, sym: KeySym)
    requires WellFormed(xkb)
    ensures var k := KeyFor(xkb, s, sym);
            && (k == 0 <==> forall j: KeyCode :: xkb.InRange(j) ==> !Produces(xkb, j, s, sym))
            && (k != 0 ==>
                && HasGroups(xkb, k)
                && Produces(xkb, k, s, sym)
                && forall j: KeyCode :: xkb.InRange(j) && Produces(xkb, j, s, sym) ==>
                                         if IsFake(k) then IsFake(j) && k <= j else IsFake(j) || k <= j)
  {
    var sent := FirstKey(xkb, s, sym, false, xkb.minKey);
    var fake := FirstKey(xkb, s, sym, true, xkb.minKey);
    var k := KeyFor(xkb, s, sym);
    assert k == if sent != 0 then sent else fake;
    if k == 0 {
      forall j: KeyCode | xkb.InRange(j)
        ensures !Produces(xkb, j, s, sym)
      {
        assert IsFake(j) == true || IsFake(j) == false;
      }
    } else {
      assert xkb.InRange(k) && Produces(xkb, k, s, sym);
      forall j: KeyCode | xkb.InRange(j) && Produces(xkb, j, s, sym)
        ensures if IsFake(k) then IsFake(j) && k <= j else IsFake(j) || k <= j
      {
        if IsFake(k) {
          assert sent == 0;
          assert IsFake(j);
        }
      }
    }
  }

  /** Which of the states it stops at. */
  lemma {:induction false} FirstFoundAt(xkb: Keymap, states: seq<CoreState>, sym: KeySym, i: nat) returns (j: nat)
    requires WellFormed(xkb) && i < |states|
    ensures i <= j < |states| && FirstFound(xkb, states, sym, i) == Found(KeyFor(xkb, states[j], sym), states[j])
    ensures FirstFound(xkb, states, sym, i).key == 0 ==> j == |states| - 1
    ensures forall m {:trigger states[m]} :: i <= m < j ==> KeyFor(xkb, states[m], sym) == 0
    decreases |states| - i
  {
    var f := FirstFound(xkb, states, sym, i);
    if f.state == states[i] && f.key == KeyFor(xkb, states[i], sym) && (f.key != 0 || i == |states| - 1) {
      j := i;
    } else {
      j := FirstFoundAt(xkb, states, sym, i + 1);
    }
  }

  /** The lookup is sound, complete and minimal over the states it may ask for. */
  lemma LookupIsBest(xkb: Keymap, l3: Mods, s: CoreState, sym: KeySym)
    requires WellFormed(xkb)
    ensures var f := Lookup(xkb, l3, s, sym);
            var c := Candidates(s, l3);
            && (f.key != 0 ==> HasGroups(xkb, f.key) && Produces(xkb, f.key, f.state, sym))
            && (f.key == 0 <==> forall i, j: KeyCode :: 0 <= i < |c| && xkb.InRange(j) ==> !Produces(xkb, j, c[i], sym))
            && (f.key != 0 ==>
                exists i :: 0 <= i < |c| && f.state == c[i] && f.key == KeyFor(xkb, c[i], sym) &&
                            forall m, j: KeyCode :: 0 <= m < i && xkb.InRange(j) ==> !Produces(xkb, j, c[m], sym))
  {
    var f := Lookup(xkb, l3, s, sym);
    var c := Candidates(s, l3);
    forall i | 0 <= i < |c|
      ensures KeyFor(xkb, c[i], sym) == 0 ==> forall j: KeyCode :: xkb.InRange(j) ==> !Produces(xkb, j, c[i], sym)
      ensures KeyFor(xkb, c[i], sym) != 0 ==>
                var k := KeyFor(xkb, c[i], sym); xkb.InRange(k) && HasGroups(xkb, k) && Produces(xkb, k, c[i], sym)
    {
      KeyForIsBest(xkb, c[i], sym);
    }
    var i := FirstFoundAt(xkb, c, sym, 0);
    if f.key != 0 {
      assert xkb.InRange(f.key) && Produces(xkb, f.key, c[i], sym);
    }
  }

  /** The states tried: as it is, with Shift toggled, with the whole level-three mask turned on if none of it is and
      off otherwise, and with both. */
  lemma CandidatesToggle(s: CoreState, l3: Mods)
    ensures var c := Candidates(s, l3);
            && (forall i :: 0 <= i < |c| ==> c[i].group == s.group)
            && |c| == (if l3 == {} then 2 else 4)
            && c[0] == s
            && (forall m :: m in c[1].mods <==> if m == Shift then Shift !in s.mods else m in s.mods)
            && (l3 != {} ==>
                  && (forall m :: m in c[2].mods <==> if m in l3 then s.mods * l3 == {} else m in s.mods)
                  && (forall m :: m in c[3].mods <==> || (m in l3 && s.mods * l3 == {})
                                                      || (m == Shift && Shift !in s.mods)
                                                      || (m !in l3 + {Shift} && m in s.mods)))
  {
    assert Shift in s.mods <==> s.mods * {Shift} != {};
    assert forall m :: m in s.mods && m in l3 ==> m in s.mods * l3;
  }

  /** The key that shifts to level three is the best one for ISO_Level3_Shift, and for Mode_switch only if no key
      gives that; there is none if no key gives either. */
  lemma LevelThreeKeyIsBest(xkb: Keymap, s: CoreState)
    requires WellFormed(xkb)
    ensures var k := LevelThreeKey(xkb, s);
            && (k == 0 <==> forall j: KeyCode :: xkb.InRange(j) ==>
                              !Produces(xkb, j, s, 0xfe03) && !Produces(xkb, j, s, 0xff7e))
            && (k != 0 ==>
                  && xkb.InRange(k)
                  && var sym := if Produces(xkb, k, s, 0xfe03) then 0xfe03 else 0xff7e;
                     && Produces(xkb, k, s, sym)
                     && (forall j: KeyCode :: xkb.InRange(j) && Produces(xkb, j, s, 0xfe03) ==> sym == 0xfe03)
                     && forall j: KeyCode :: xkb.InRange(j) && Produces(xkb, j, s, sym) ==>
                          if IsFake(k) then IsFake(j) && k <= j else IsFake(j) || k <= j)
  {
    KeyForIsBest(xkb, s, 0xfe03);
    KeyForIsBest(xkb, s, 0xff7e);
  }

  /** The mask is what that key sets while no modifier is on. */
  lemma LevelThreeMaskIs(xkb: Keymap, g: Group, k: KeyCode, a: Action)
    requires WellFormed(xkb) && k == LevelThreeKey(xkb, CoreState({}, g)) && a == ActionAt(xkb, k, CoreState({}, g))
    ensures LevelThreeMask(xkb, g) ==
            if k == 0 || !a.SetMods? then {} else if a.useModMap then xkb.modmap[k] else a.mask
  {
  }

  /** The Num_Lock key is the best one for Num_Lock while no modifier is on, if that one locks modifiers. */
  lemma NumLockKeyIsBest(xkb: Keymap, g: Group)
    requires WellFormed(xkb)
    ensures var k, s := NumLockKey(xkb, g), CoreState({}, g);
            && ((forall j: KeyCode :: xkb.InRange(j) ==> !Produces(xkb, j, s, 0xff7f)) ==> k == 0)
            && (k != 0 ==>
                  && xkb.InRange(k) && Produces(xkb, k, s, 0xff7f) && ActionAt(xkb, k, s).LockMods?
                  && forall j: KeyCode :: xkb.InRange(j) && Produces(xkb, j, s, 0xff7f) ==>
                       if IsFake(k) then IsFake(j) && k <= j else IsFake(j) || k <= j)
            && (k == 0 ==> forall j: KeyCode :: xkb.InRange(j) && Produces(xkb, j, s, 0xff7f)
                             && (forall i: KeyCode :: xkb.InRange(i) && Produces(xkb, i, s, 0xff7f) ==> i == j)
                             ==> !ActionAt(xkb, j, s).LockMods?)
  {
    KeyForIsBest(xkb, CoreState({}, g), 0xff7f);
  }

  /** The test is right about a key exactly when Num_Lock does not use the modifier map, or the map at that key
      and the map at Num_Lock agree on whether they meet the modifiers of the key's type. */
  lemma NumLockTestIsRight(xkb: Keymap, g: Group, k: KeyCode)
    requires WellFormed(xkb) && HasGroups(xkb, k)
    ensures var numLock := NumLockKey(xkb, g);
            var mask := TypeOf(xkb, k, g).mask;
            (AffectedByNumLock(xkb, g, k) <==> GovernedByNumLock(xkb, g, k)) <==>
            || numLock == 0
            || !ActionAt(xkb, numLock, CoreState({}, g)).useModMap
            || (mask * xkb.modmap[k] != {} <==> mask * xkb.modmap[numLock] != {})
  {
    KeyForIsBest(xkb, CoreState({}, g), XK_NUM_LOCK);
  }

  // ---- The loops

  method FindFake(key: nat) returns (found: bool)
    ensures found == IsFake(key)
    ensures found <==> key == 92 || 203 <= key <= 207
  {
    var i := 0;
    while i < |FAKE_KEYS|
      invariant 0 <= i <= |FAKE_KEYS|
      invariant key !in FAKE_KEYS[..i]
    {
      if key == FAKE_KEYS[i] {
        return true;
      }
      i := i + 1;
    }
    assert FAKE_KEYS[..i] == FAKE_KEYS;
    return false;
  }

  /** The mask arithmetic of the source, `(s & ~mask) | ((s & mask) ? 0 : mask)`, toggles the mask. */
  lemma ToggleArithmetic(mods: Mods, mask: Mods)
    ensures mods - mask + (if mods * mask != {} then {} else mask) == Toggle(mods, mask)
  {
    if mods * mask == {} {
      assert forall m :: m in mods && m in mask ==> m in mods * mask;
      assert mods - mask == mods;
    }
  }

  /** The search of one state (the loop over the keycodes and the fallback after it). */
  method SearchState(xkb: Keymap, sym: KeySym, s: CoreState) returns (k: KeyCode)
    requires WellFormed(xkb)
    ensures k == KeyFor(xkb, s, sym)
  {
    var fallback: KeyCode := 0;
    var key := xkb.minKey;
    while key <= xkb.maxKey
      invariant xkb.minKey <= key <= xkb.maxKey + 1
      invariant FirstKey(xkb, s, sym, false, key) == FirstKey(xkb, s, sym, false, xkb.minKey)
      invariant if fallback == 0 then FirstKey(xkb, s, sym, true, key) == FirstKey(xkb, s, sym, true, xkb.minKey)
                else fallback == FirstKey(xkb, s, sym, true, xkb.minKey)
    {
      var ks, consumed := TranslateKeyCode(xkb, key, s);
      if ks != NO_SYMBOL {
        var unconsumed := s.mods - consumed;
        if Lock in unconsumed {
          ks := xkb.cases.Upper(ks);
        }
        if ks == sym {
          var fake := FindFake(key);
          if !fake {
            return key;
          }
          if fallback == 0 {
            fallback := key;
          }
        }
      }
      key := key + 1;
    }
    return fallback;
  }

  /** The lookup; `track` is false when the caller passes no `new_state` and only wants the exact
      state searched.  `current` is the state of the keyboard now, which decides the mask. */
  method KeysymToKeycode(xkb: Keymap, current: CoreState, sym: KeySym, s: CoreState, track: bool)
    returns (k: KeyCode, newState: CoreState)
    requires WellFormed(xkb)
    ensures !track ==> k == KeyFor(xkb, s, sym)
    ensures track ==> Found(k, newState) == Lookup(xkb, LevelThreeMask(xkb, current.group), s, sym)
    decreases if track then 2 else 0
  {
    newState := s;
    k := SearchState(xkb, sym, s);
    if k != 0 || !track {
      return;
    }
    ghost var c := Candidates(s, LevelThreeMask(xkb, current.group));
    assert c[0] == s && FirstFound(xkb, c, sym, 0) == FirstFound(xkb, c, sym, 1);

    ToggleArithmetic(s.mods, {Shift});
    newState := s.(mods := s.mods - {Shift} + (if s.mods * {Shift} != {} then {} else {Shift}));
    assert c[1] == newState;
    var ignored;
    k, ignored := KeysymToKeycode(xkb, current, sym, newState, false);
    if k != 0 {
      return;
    }
    var mask := GetLevelThreeMask(xkb, current);
    if mask == {} {
      return;
    }
    assert FirstFound(xkb, c, sym, 1) == FirstFound(xkb, c, sym, 2);
    ToggleArithmetic(s.mods, mask);
    newState := s.(mods := s.mods - mask + (if s.mods * mask != {} then {} else mask));
    assert c[2] == newState;
    k, ignored := KeysymToKeycode(xkb, current, sym, newState, false);
    if k != 0 {
      return;
    }
    assert FirstFound(xkb, c, sym, 2) == FirstFound(xkb, c, sym, 3);
    newState := s.(mods := s.mods - ({Shift} + mask)
                           + (if Shift in s.mods then {} else {Shift})
                           + (if s.mods * mask != {} then {} else mask));
    assert c[3] == newState;
    k, ignored := KeysymToKeycode(xkb, current, sym, newState, false);
  }

  method GetLevelThreeMask(xkb: Keymap, current: CoreState) returns (mask: Mods)
    requires WellFormed(xkb)
    ensures mask == LevelThreeMask(xkb, current.group)
    decreases 1
  {
    var s := CoreState({}, current.group);
    var k, ignored := KeysymToKeycode(xkb, current, XK_ISO_LEVEL3_SHIFT, s, false);
    if k == 0 {
      k, ignored := KeysymToKeycode(xkb, current, XK_MODE_SWITCH, s, false);
      if k == 0 {
        return {};
      }
    }
    var act := KeyAction(xkb, k, s);
    if !act.SetMods? {
      return {};
    }
    return if act.useModMap then xkb.modmap[k] else act.mask;
  }

  method IsAffectedByNumLock(xkb: Keymap, current: CoreState, k: KeyCode) returns (b: bool)
    requires WellFormed(xkb) && HasGroups(xkb, k)
    ensures b == AffectedByNumLock(xkb, current.group, k)
  {
    var s := CoreState({}, current.group);
    var numLock, ignored := KeysymToKeycode(xkb, current, XK_NUM_LOCK, s, false);
    if numLock == 0 {
      return false;
    }
    var act := KeyAction(xkb, numLock, s);
    if !act.LockMods? {
      return false;
    }
    var mask := if act.useModMap then xkb.modmap[k] else act.mask;
    b := TypeOf(xkb, k, s.group).mask * mask != {};
  }
}
