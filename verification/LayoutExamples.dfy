/** Small layouts on which the theorems about presses can be seen at work. The first has one key for Shift, one
    letter key with four levels, one level-three key that Control turns off, and one free key. Its conversion of
    cases is by the simple case mappings of the Unicode Character Database; the conversion the X server really
    uses is not part of this model. */
module LayoutExamples {
  import opened Common
  import opened Xkb
  import opened KeysymLookup
  import opened AddedKeysyms
  import opened KeyboardServer
  import opened Injection
  import opened InjectionProofs
  import opened SaneLayouts
  import opened PressTheorems

  const SHIFT_KEY: KeyCode := 8

  const LETTER_KEY: KeyCode := 9

  const LEVEL3_KEY: KeyCode := 10

  const FREE_KEY: KeyCode := 11

  const XK_SHIFT_L: KeySym := 0xffe1

  /** Two letters in two cases, and a title-case letter with its two cases (U+01C4 to U+01C6). */
  const LOWER_A: KeySym := 0x61
  const UPPER_A: KeySym := 0x41
  const LOWER_B: KeySym := 0x62
  const UPPER_B: KeySym := 0x42
  const LOWER_DZ: KeySym := 0x10001c6
  const TITLE_DZ: KeySym := 0x10001c5
  const UPPER_DZ: KeySym := 0x10001c4

  /** Capital I with dot above: its lower case is the plain i, whose upper case is the plain I. */
  const DOTTED_I: KeySym := 0x1000130
  const LOWER_I: KeySym := 0x69
  const UPPER_I: KeySym := 0x49

  function On(mods: Mods, level: nat): MapEntry {
    MapEntry(true, mods, level, {})
  }

  const ONE_LEVEL := KeyType({}, 1, [])
  const CONTROL_TYPE := KeyType({Control}, 2, [On({Control}, 1)])
  const ALPHABETIC_TYPE := KeyType({Shift, Lock}, 2, [On({Shift}, 1), On({Lock}, 1)])
  const FOUR_LEVEL := KeyType({Shift, Mod5}, 4, [On({Shift}, 1), On({Mod5}, 2), On({Shift, Mod5}, 3)])

  const NO_KEY := Key([], 0, Wrap, [], false, [])

  function KeyAt(k: nat): Key {
    if k == SHIFT_KEY then Key([0], 1, Wrap, [XK_SHIFT_L], true, [SetMods({Shift}, false)])
    else if k == LETTER_KEY then Key([3], 4, Wrap, [LOWER_A, UPPER_A, LOWER_B, UPPER_B], false, [])
    else if k == LEVEL3_KEY then
      Key([1], 2, Wrap, [XK_ISO_LEVEL3_SHIFT, NO_SYMBOL], true, [SetMods({Mod5}, false), SetMods({Mod5}, false)])
    else NO_KEY
  }

  const CASES := CaseTable(
    map[UPPER_A := LOWER_A, UPPER_B := LOWER_B, UPPER_I := LOWER_I, DOTTED_I := LOWER_I,
        TITLE_DZ := LOWER_DZ, UPPER_DZ := LOWER_DZ],
    map[LOWER_A := UPPER_A, LOWER_B := UPPER_B, LOWER_I := UPPER_I, TITLE_DZ := UPPER_DZ, LOWER_DZ := UPPER_DZ])

  /** The layout, with a form of the alphabetic type. */
  function LayoutWith(alphabetic: KeyType): Keymap {
    Keymap(SHIFT_KEY, FREE_KEY, seq(256, i requires 0 <= i < 256 => KeyAt(i)),
           [ONE_LEVEL, CONTROL_TYPE, alphabetic, FOUR_LEVEL], seq(256, i => {}), NoNames, CASES)
  }

  function Layout(): Keymap {
    LayoutWith(ALPHABETIC_TYPE)
  }

  lemma LayoutIsWellFormed()
    ensures WellFormed(Layout()) && HasCanonicalTypes(Layout())
  {
    var t := ALPHABETIC_TYPE;
    assert Layout().types[ALPHABETIC] == t;
    assert {Shift} * t.mask == {Shift} && {Lock} * t.mask == {Lock} && {Shift, Lock} * t.mask == {Shift, Lock};
    assert FirstEntry(t, {}, 0) == 2 && FirstEntry(t, {Shift}, 0) == 0 && FirstEntry(t, {Lock}, 0) == 1;
    assert FirstEntry(t, {Shift, Lock}, 0) == 2;
  }

  lemma LevelOfLetter(mods: Mods)
    ensures ShiftLevel(FOUR_LEVEL, mods) == (if Shift in mods then 1 else 0) + (if Mod5 in mods then 2 else 0)
  {
    var m := mods * {Shift, Mod5};
    assert m == (if Shift in mods then {Shift} else {}) + (if Mod5 in mods then {Mod5} else {});
    if Shift in mods {
      assert m == if Mod5 in mods then {Shift, Mod5} else {Shift};
    } else {
      assert m == if Mod5 in mods then {Mod5} else {};
    }
  }

  lemma LevelOfLevel3(mods: Mods)
    ensures ShiftLevel(CONTROL_TYPE, mods) == if Control in mods then 1 else 0
  {
    assert mods * {Control} == if Control in mods then {Control} else {};
  }

  /** Everything the layout gives in states without Lock. */
  lemma Gives(k: KeyCode, s: CoreState)
    requires Lock !in s.mods
    ensures WellFormed(Layout())
    ensures var x := Layout();
            && KeysymAt(x, k, s) == RawSym(x, k, s)
            && RawSym(x, k, s) == (
               if k == SHIFT_KEY then XK_SHIFT_L
               else if k == LETTER_KEY then (if Mod5 in s.mods then (if Shift in s.mods then UPPER_B else LOWER_B)
                                    else if Shift in s.mods then UPPER_A else LOWER_A)
               else if k == LEVEL3_KEY then (if Control in s.mods then NO_SYMBOL else XK_ISO_LEVEL3_SHIFT)
               else NO_SYMBOL)
  {
    LayoutIsWellFormed();
    LevelOfLetter(s.mods);
    LevelOfLevel3(s.mods);
    var x := Layout();
    assert x.keys[k] == KeyAt(k);
    if k == SHIFT_KEY {
      assert Column(x, k, s) == 0;
    } else if k == LETTER_KEY {
      assert Column(x, k, s) == ShiftLevel(FOUR_LEVEL, s.mods);
    } else if k == LEVEL3_KEY {
      assert Column(x, k, s) == ShiftLevel(CONTROL_TYPE, s.mods);
    }
  }

  lemma Sets(k: KeyCode, s: CoreState)
    ensures WellFormed(Layout())
    ensures ActionAt(Layout(), k, s) == if k == SHIFT_KEY then SetMods({Shift}, false)
                                        else if k == LEVEL3_KEY then SetMods({Mod5}, false)
                                        else NoAction
    ensures SetBy(Layout(), k, s) == if k == SHIFT_KEY then {Shift} else if k == LEVEL3_KEY then {Mod5} else {}
  {
    LayoutIsWellFormed();
    LevelOfLevel3(s.mods);
    var x := Layout();
    assert x.keys[k] == KeyAt(k);
    if k == SHIFT_KEY {
      assert Column(x, k, s) == 0;
    } else if k == LEVEL3_KEY {
      assert Column(x, k, s) == ShiftLevel(CONTROL_TYPE, s.mods);
    }
  }

  /** The only key that gives `sym` in state `s` is the one found. */
  lemma OnlyKey(s: CoreState, sym: KeySym, k: KeyCode)
    requires Lock !in s.mods && sym != NO_SYMBOL
    requires WellFormed(Layout()) && (k == 0 || RawSym(Layout(), k, s) == sym)
    requires forall j: KeyCode :: SHIFT_KEY <= j <= FREE_KEY && j != k ==> RawSym(Layout(), j, s) != sym
    ensures KeyFor(Layout(), s, sym) == k
  {
    KeyForIsBest(Layout(), s, sym);
    Gives(k, s);
    forall j: KeyCode
      ensures Produces(Layout(), j, s, sym) ==> RawSym(Layout(), j, s) == sym
    {
      Gives(j, s);
    }
  }

  /** The keyboard at rest, with `locked` on. */
  function AtRest(locked: Mods): Injector {
    Injector(Layout(), [], seq(256, i => NO_SYMBOL), Server(map[], locked, 0), [])
  }

  predicate NoEntry(alts: AltTable, sym: KeySym) {
    forall j :: 0 <= j < |alts| ==> !Pairs(alts[j], sym)
  }

  lemma LevelThree(s: CoreState)
    requires Lock !in s.mods && s.group == 0
    ensures WellFormed(Layout())
    ensures LevelThreeMask(Layout(), 0) == {Mod5}
    ensures LevelThreeKey(Layout(), s) == if Control in s.mods then 0 else LEVEL3_KEY
    ensures KeyFor(Layout(), s, XK_NUM_LOCK) == 0
  {
    LayoutIsWellFormed();
    var none := CoreState({}, 0);
    forall j: KeyCode
      ensures RawSym(Layout(), j, s) !in {XK_MODE_SWITCH, XK_NUM_LOCK}
      ensures RawSym(Layout(), j, s) == XK_ISO_LEVEL3_SHIFT <==> j == LEVEL3_KEY && Control !in s.mods
      ensures RawSym(Layout(), j, none) == XK_ISO_LEVEL3_SHIFT <==> j == LEVEL3_KEY
    {
      Gives(j, s);
      Gives(j, none);
    }
    OnlyKey(none, XK_ISO_LEVEL3_SHIFT, LEVEL3_KEY);
    OnlyKey(s, XK_ISO_LEVEL3_SHIFT, if Control in s.mods then 0 else LEVEL3_KEY);
    OnlyKey(s, XK_MODE_SWITCH, 0);
    OnlyKey(s, XK_NUM_LOCK, 0);
    Sets(LEVEL3_KEY, none);
  }

  lemma ShiftKeyGives(s: CoreState)
    ensures WellFormed(Layout()) && KeysymAt(Layout(), SHIFT_KEY, s) == XK_SHIFT_L
  {
    LayoutIsWellFormed();
    assert Layout().keys[SHIFT_KEY] == KeyAt(SHIFT_KEY);
    assert Column(Layout(), SHIFT_KEY, s) == 0;
  }

  lemma LevelThreeAgrees(k: KeyCode, s: CoreState)
    ensures WellFormed(Layout())
    ensures ShiftsToLevelThree(Layout(), k, s) ==> SetBy(Layout(), k, s) == {Mod5}
  {
    LayoutIsWellFormed();
    ShiftKeyGives(s);
    Sets(k, s);
  }

  lemma KeysSet()
    ensures WellFormed(Layout())
    ensures KeysSetExactly(Layout(), 0, {Shift}) && KeysSetExactly(Layout(), 0, {Mod5})
    ensures LevelThreeKeysAgree(Layout(), 0, {Mod5})
  {
    LayoutIsWellFormed();
    forall k: KeyCode, mods: Mods
      ensures SetBy(Layout(), k, CoreState(mods, 0)) ==
              if k == SHIFT_KEY then {Shift} else if k == LEVEL3_KEY then {Mod5} else {}
    {
      Sets(k, CoreState(mods, 0));
    }
    forall k: KeyCode, mods: Mods
      ensures ShiftsToLevelThree(Layout(), k, CoreState(mods, 0)) ==> SetBy(Layout(), k, CoreState(mods, 0)) == {Mod5}
    {
      LevelThreeAgrees(k, CoreState(mods, 0));
    }
  }

  lemma LayoutIsSane(locked: Mods)
    requires locked <= {Control}
    ensures Injection.Valid(AtRest(locked)) && Sane(AtRest(locked), {Mod5})
  {
    KeysSet();
    LayoutIsWellFormed();
  }

  /** The keyboard at rest, as the lookup sees it. */
  lemma StateAtRest(locked: Mods)
    ensures StateOf(AtRest(locked).server) == CoreState(locked, 0)
  {
    assert HeldMods(map[]) == {};
  }

  /** A keysym that has a key is pressed on it, in the state the lookup finds, if there is no NumLock. */
  lemma DecisionWhenFound(st: Injector, alts: AltTable, sym: KeySym, f: Found)
    requires Injection.Valid(st) && st.queue == [] && sym != XK_TAB
    requires Lookup(st.xkb, LevelThreeMask(st.xkb, st.server.group), StateOf(st.server), sym) == f && f.key != 0
    requires KeyFor(st.xkb, CoreState({}, st.server.group), XK_NUM_LOCK) == 0
    ensures Decide(Processed(st), alts, sym) == Decision(st, f.key, f.state)
  {
    assert Processed(st) == st;
    assert !FakesNumLock(st.xkb, StateOf(st.server), f);
  }

  lemma DecisionAtRest(locked: Mods, alts: AltTable, sym: KeySym, f: Found)
    requires locked <= {Control} && sym != XK_TAB && WellFormed(Layout())
    requires Lookup(Layout(), {Mod5}, CoreState(locked, 0), sym) == f && f.key != 0
    ensures Injection.Valid(AtRest(locked))
    ensures Decide(Processed(AtRest(locked)), alts, sym) == Decision(AtRest(locked), f.key, f.state)
  {
    LayoutIsSane(locked);
    StateAtRest(locked);
    LevelThree(CoreState({}, 0));
    DecisionWhenFound(AtRest(locked), alts, sym, f);
  }

  /** UPPER_A is found with Shift alone, UPPER_B with Shift and level three. */
  lemma LetterFound(locked: Mods, wanted: Mods, sym: KeySym)
    requires locked <= {Control}
    requires (sym == UPPER_A && wanted == {Shift}) || (sym == UPPER_B && wanted == {Shift, Mod5})
    ensures WellFormed(Layout())
    ensures Lookup(Layout(), {Mod5}, CoreState(locked, 0), sym) == Found(LETTER_KEY, CoreState(locked + wanted, 0))
  {
    LayoutIsWellFormed();
    var s := CoreState(locked, 0);
    var c := Candidates(s, {Mod5});
    assert c[0].mods == locked && c[1].mods == locked + {Shift} && c[2].mods == locked + {Mod5};
    assert c[3].mods == locked + {Shift, Mod5};
    forall i, j: KeyCode | 0 <= i < 4
      ensures RawSym(Layout(), j, c[i]) == sym <==> j == LETTER_KEY && c[i].mods == locked + wanted
    {
      Gives(j, c[i]);
    }
    forall i | 0 <= i < 4
      ensures KeyFor(Layout(), c[i], sym) == if c[i].mods == locked + wanted then LETTER_KEY else 0
    {
      OnlyKey(c[i], sym, if c[i].mods == locked + wanted then LETTER_KEY else 0);
    }
    var i := FirstFoundAt(Layout(), c, sym, 0);
    var last := if sym == UPPER_A then 1 else 3;
    assert KeyFor(Layout(), c[last], sym) == LETTER_KEY;
    assert i == last;
  }

  lemma ShiftIsFaked(locked: Mods, target: CoreState)
    requires locked <= {Control} && Shift in target.mods
    ensures WellFormed(Layout()) && FakeShift(Layout(), AtRest(locked).server, target) == (true, Fake(SHIFT_KEY, []))
  {
    LayoutIsWellFormed();
    StateAtRest(locked);
    Sets(SHIFT_KEY, CoreState(locked, 0));
  }

  lemma ShiftAlone()
    ensures WellFormed(Layout())
    ensures var plan := PlanFakes(Layout(), AtRest({}).server, CoreState({Shift}, 0));
            plan == FakePlan(true, Fakes(Fake(SHIFT_KEY, []), NO_FAKE))
  {
    StateAtRest({});
    ShiftIsFaked({}, CoreState({Shift}, 0));
  }

  /** An upper-case letter: Shift is faked around its key, and the key alone stays down. */
  lemma ShiftedLetter(alts: AltTable)
    ensures Injection.Valid(AtRest({})) && Sane(AtRest({}), {Mod5})
    ensures var d := Decide(Processed(AtRest({})), alts, UPPER_A);
            && ReachesTheKey(d) && FakedKeys(d) == {SHIFT_KEY, 0}
            && Press(AtRest({}), alts, UPPER_A).server.held == map[LETTER_KEY := {}]
  {
    LayoutIsSane({});
    LetterFound({}, {Shift}, UPPER_A);
    assert {} + {Shift} == {Shift};
    DecisionAtRest({}, alts, UPPER_A, Found(LETTER_KEY, CoreState({Shift}, 0)));
    ShiftAlone();
    Sets(LETTER_KEY, CoreState({Shift}, 0));
    PressEffect(AtRest({}), alts, UPPER_A, {Mod5});
  }

  /** A press whose key and fakes are known. */
  lemma PressWhenDecided(st: Injector, alts: AltTable, sym: KeySym, l3: Mods, key: KeyCode, target: CoreState, f: Fakes)
    requires Injection.Valid(st) && st.queue == [] && Sane(st, l3) && key != 0
    requires Decide(Processed(st), alts, sym) == Decision(st, key, target)
    requires PlanFakes(st.xkb, st.server, target) == FakePlan(true, f)
    ensures var r := Press(st, alts, sym);
            var held := st.server.held;
            && Injection.Valid(r) && Sane(r, l3)
            && r.queue == [] && r.xkb == st.xkb && r.pressed == RecordPress(st.pressed, key, sym)
            && r.server == st.server.(held := if key in {f.shift.press, f.l3.press} then held
                                              else WithKey(held, key, SetBy(st.xkb, key, target)))
  {
    assert Processed(st) == st;
    PressStaysSane(st, alts, sym, l3);
    PressDelivers(st, alts, sym);
    PressEffect(st, alts, sym, l3);
  }

  lemma SmallFound()
    ensures WellFormed(Layout())
    ensures Lookup(Layout(), {Mod5}, CoreState({}, 0), LOWER_A) == Found(LETTER_KEY, CoreState({}, 0))
  {
    var s := CoreState({}, 0);
    LayoutIsWellFormed();
    forall j: KeyCode
      ensures RawSym(Layout(), j, s) == LOWER_A <==> j == LETTER_KEY
    {
      Gives(j, s);
    }
    OnlyKey(s, LOWER_A, LETTER_KEY);
    assert Candidates(s, {Mod5})[0] == s;
  }

  lemma NothingToFake()
    ensures WellFormed(Layout())
    ensures PlanFakes(Layout(), AtRest({}).server, CoreState({}, 0)) == FakePlan(true, Fakes(NO_FAKE, NO_FAKE))
  {
    LayoutIsWellFormed();
    StateAtRest({});
  }

  /** The small letter is pressed, and its key is down. */
  lemma SmallLetter(alts: AltTable)
    ensures Injection.Valid(AtRest({})) && Sane(AtRest({}), {Mod5})
    ensures var a := Press(AtRest({}), alts, LOWER_A);
            && Sane(a, {Mod5})
            && a.xkb == Layout() && a.queue == [] && a.server == Server(map[LETTER_KEY := {}], {}, 0)
            && a.pressed == RecordPress(AtRest({}).pressed, LETTER_KEY, LOWER_A)
  {
    var s := CoreState({}, 0);
    LayoutIsSane({});
    SmallFound();
    DecisionAtRest({}, alts, LOWER_A, Found(LETTER_KEY, s));
    NothingToFake();
    Sets(LETTER_KEY, s);
    PressWhenDecided(AtRest({}), alts, LOWER_A, {Mod5}, LETTER_KEY, s, Fakes(NO_FAKE, NO_FAKE));
  }

  /** The fakes for a capital letter while the letter key is down. */
  lemma ShiftAgain(srv: Server)
    requires srv == Server(map[LETTER_KEY := {}], {}, 0)
    ensures WellFormed(Layout()) && StateOf(srv) == CoreState({}, 0)
    ensures PlanFakes(Layout(), srv, CoreState({Shift}, 0)) == FakePlan(true, Fakes(Fake(SHIFT_KEY, []), NO_FAKE))
  {
    LayoutIsWellFormed();
    assert HeldMods(srv.held) == {};
    Sets(SHIFT_KEY, CoreState({}, 0));
  }

  /** Then the capital letter is pressed on the same key. */
  lemma CapitalLetter(a: Injector, alts: AltTable)
    requires Injection.Valid(a) && Sane(a, {Mod5})
    requires a.xkb == Layout() && a.queue == [] && a.server == Server(map[LETTER_KEY := {}], {}, 0)
    ensures var b := Press(a, alts, UPPER_A);
            b.queue == [] && b.server == a.server && b.pressed == RecordPress(a.pressed, LETTER_KEY, UPPER_A)
  {
    var t := CoreState({Shift}, 0);
    ShiftAgain(a.server);
    LevelThree(CoreState({}, 0));
    LetterFound({}, {Shift}, UPPER_A);
    assert {} + {Shift} == {Shift};
    DecisionWhenFound(a, alts, UPPER_A, Found(LETTER_KEY, t));
    PressWhenDecided(a, alts, UPPER_A, {Mod5}, LETTER_KEY, t, Fakes(Fake(SHIFT_KEY, []), NO_FAKE));
  }

  /** Pressing the small and then the capital letter presses the same key twice, and forgets that it was pressed
      for the small one: releasing that does nothing, and the key stays down. */
  lemma SmallReleaseIsLost(alts: AltTable)
    ensures Injection.Valid(AtRest({})) && Sane(AtRest({}), {Mod5})
    ensures var a := Press(AtRest({}), alts, LOWER_A);
            var b := Press(a, alts, UPPER_A);
            && a.pressed[LETTER_KEY] == LOWER_A
            && Release(b, LOWER_A) == b && b.queue == [] && LETTER_KEY in b.server.held
  {
    SmallLetter(alts);
    var a := Press(AtRest({}), alts, LOWER_A);
    CapitalLetter(a, alts);
    var b := Press(a, alts, UPPER_A);
    var k := FirstIndex(b.pressed, LOWER_A, 0);
    assert forall i :: 0 <= i < 256 ==> b.pressed[i] != LOWER_A;
    assert k == 256;
  }

  lemma LevelThreeIsMissing(target: CoreState)
    requires Mod5 in target.mods
    ensures WellFormed(Layout()) && !FakeLevelThree(Layout(), AtRest({Control}).server, target).0
  {
    LayoutIsWellFormed();
    StateAtRest({Control});
    var s := CoreState({Control}, 0);
    LevelThree(s);
    assert Mod5 in target.mods - {Shift} && Mod5 !in s.mods - {Shift};
    assert s.mods * {Mod5} == {} && Mod5 in target.mods * {Mod5};
  }

  lemma ShiftThenStuck()
    ensures WellFormed(Layout())
    ensures var plan := PlanFakes(Layout(), AtRest({Control}).server, CoreState({Control, Shift, Mod5}, 0));
            plan == FakePlan(false, Fakes(Fake(SHIFT_KEY, []), NO_FAKE))
  {
    var target := CoreState({Control, Shift, Mod5}, 0);
    ShiftIsFaked({Control}, target);
    LevelThreeIsMissing(target);
  }

  /** With Control on the level-three key cannot be found, so a letter of level four fails, and the Shift that
      was faked for it stays down. */
  lemma ShiftStaysDown(alts: AltTable)
    ensures Injection.Valid(AtRest({Control})) && Sane(AtRest({Control}), {Mod5})
    ensures var d := Decide(Processed(AtRest({Control})), alts, UPPER_B);
            var r := Press(AtRest({Control}), alts, UPPER_B);
            && d.key != 0 && !ReachesTheKey(d)
            && r.queue == [KeyPress(SHIFT_KEY)] && r.pressed == AtRest({Control}).pressed
            && RunEvents(r.xkb, r.server, r.queue).held == map[SHIFT_KEY := {Shift}]
  {
    LayoutIsSane({Control});
    LetterFound({Control}, {Shift, Mod5}, UPPER_B);
    assert {Control} + {Shift, Mod5} == {Control, Shift, Mod5};
    DecisionAtRest({Control}, alts, UPPER_B, Found(LETTER_KEY, CoreState({Control, Shift, Mod5}, 0)));
    ShiftThenStuck();
    FailedPressLeavesShift(AtRest({Control}), alts, UPPER_B, {Mod5});
  }

  // ---- Keysyms that their new key does not give

  /** A keysym that is missing, and that its new key does not give with Lock as it is, is added and not typed. */
  lemma AddedButNotTyped(st: Injector, alts: AltTable, sym: KeySym, a: Addition)
    requires Injection.Valid(st) && st.queue == [] && NoEntry(alts, sym)
    requires forall l3 :: Lookup(st.xkb, l3, StateOf(st.server), sym).key == 0
    requires a == AddKeysym(st.xkb, st.added, sym) && a.key != 0 && st.xkb.InRange(a.key)
    requires !GivesUnderLock(st.xkb, sym, Lock in StateOf(st.server).mods)
    requires Lock !in LevelThreeMask(a.xkb, st.server.group)
    ensures Press(st, alts, sym) == st.(xkb := a.xkb, added := a.added)
  {
    NothingExists(st, alts, sym);
    assert FindExisting(st, alts, sym).key == 0;
    AddedIsFound(st.xkb, a.key, sym, LevelThreeMask(a.xkb, st.server.group), StateOf(st.server));
    assert Processed(st) == st;
    assert FindOrAdd(st, alts, sym).1.key == 0;
  }

  /** The alphabetic type that leaves Lock to the client. */
  const CLIENT_LOCK_TYPE := KeyType({Shift, Lock}, 2, [On({Shift}, 1), MapEntry(true, {Lock}, 0, {Lock})])

  function ClientLockLayout(): Keymap {
    LayoutWith(CLIENT_LOCK_TYPE)
  }

  lemma ClientLockIsCanonical(t: KeyType)
    requires t == CLIENT_LOCK_TYPE
    ensures CanonicalAlphabetic(t) && ShiftLevel(t, {Lock}) == 0
  {
    assert {Shift} * t.mask == {Shift} && {Lock} * t.mask == {Lock} && {Shift, Lock} * t.mask == {Shift, Lock};
    assert FirstEntry(t, {}, 0) == 2 && FirstEntry(t, {Shift}, 0) == 0 && FirstEntry(t, {Lock}, 0) == 1;
    assert FirstEntry(t, {Shift, Lock}, 0) == 2;
    assert t.mask - {Lock} == {Shift};
  }

  lemma ClientLockIsWellFormed()
    ensures WellFormed(ClientLockLayout()) && HasCanonicalTypes(ClientLockLayout())
    ensures !LockSelectsUpper(ClientLockLayout())
  {
    ClientLockIsCanonical(CLIENT_LOCK_TYPE);
    assert ClientLockLayout().types[ALPHABETIC] == CLIENT_LOCK_TYPE;
  }

  /** The two layouts. */
  predicate Known(xkb: Keymap) {
    xkb == Layout() || xkb == ClientLockLayout()
  }

  lemma LayoutHas(xkb: Keymap, j: KeyCode, t: CoreState)
    requires Known(xkb) && WellFormed(xkb)
    ensures RawSym(xkb, j, t) in {NO_SYMBOL, XK_SHIFT_L, LOWER_A, UPPER_A, LOWER_B, UPPER_B, XK_ISO_LEVEL3_SHIFT}
  {
    var key := xkb.keys[j];
    assert key == KeyAt(j);
    assert forall i :: 0 <= i < |key.syms| ==>
      key.syms[i] in {NO_SYMBOL, XK_SHIFT_L, LOWER_A, UPPER_A, LOWER_B, UPPER_B, XK_ISO_LEVEL3_SHIFT};
  }

  lemma NoCaseOf(raw: KeySym)
    requires raw in {XK_SHIFT_L, LOWER_A, UPPER_A, LOWER_B, UPPER_B, XK_ISO_LEVEL3_SHIFT}
    ensures CASES.Upper(raw) !in {TITLE_DZ, DOTTED_I}
  {
  }

  lemma NotThere(xkb: Keymap, j: KeyCode, t: CoreState)
    requires Known(xkb) && WellFormed(xkb)
    ensures !Produces(xkb, j, t, TITLE_DZ) && !Produces(xkb, j, t, DOTTED_I)
  {
    LayoutHas(xkb, j, t);
    var raw := RawSym(xkb, j, t);
    if raw != NO_SYMBOL {
      NoCaseOf(raw);
    }
  }

  lemma NeitherFound(xkb: Keymap, l3: Mods, s: CoreState, sym: KeySym)
    requires Known(xkb) && WellFormed(xkb) && sym in {TITLE_DZ, DOTTED_I}
    ensures Lookup(xkb, l3, s, sym).key == 0
  {
    LookupIsBest(xkb, l3, s, sym);
    forall t: CoreState, j: KeyCode
      ensures !Produces(xkb, j, t, sym)
    {
      NotThere(xkb, j, t);
    }
  }

  lemma NeverSetsLock(xkb: Keymap, k: KeyCode, s: CoreState)
    requires Known(xkb) && WellFormed(xkb)
    ensures Lock !in SetBy(xkb, k, s)
  {
    var key := xkb.keys[k];
    assert key == KeyAt(k);
    assert forall i :: 0 <= i < |key.actions| ==> key.actions[i] in {SetMods({Shift}, false), SetMods({Mod5}, false)};
  }

  /** No key of the layouts sets Lock, nor does an assigned key. */
  lemma NoLockAction(xkb: Keymap, sym: KeySym)
    requires Known(xkb) && WellFormed(xkb) && HasCanonicalTypes(xkb)
    ensures Lock !in LevelThreeMask(Assigned(xkb, FREE_KEY, sym), 0)
  {
    var s := CoreState({}, 0);
    var k := LevelThreeKey(Assigned(xkb, FREE_KEY, sym), s);
    NeverSetsLock(xkb, k, s);
    if k != FREE_KEY {
      OtherKeysUnchanged(xkb, FREE_KEY, sym, k, s);
    }
  }

  lemma FreeKeyIsTaken(xkb: Keymap, sym: KeySym)
    requires Known(xkb) && WellFormed(xkb) && HasCanonicalTypes(xkb)
    ensures AddKeysym(xkb, [], sym).key == FREE_KEY && xkb.InRange(FREE_KEY)
  {
    assert xkb.keys[FREE_KEY] == KeyAt(FREE_KEY);
    assert FreeKey(xkb, xkb.maxKey) == FREE_KEY;
  }

  function AtRestOn(xkb: Keymap, locked: Mods): Injector {
    Injector(xkb, [], seq(256, i => NO_SYMBOL), Server(map[], locked, 0), [])
  }

  lemma AddedAtRest(xkb: Keymap, locked: Mods, alts: AltTable, sym: KeySym)
    requires Known(xkb) && WellFormed(xkb) && HasCanonicalTypes(xkb)
    requires sym in {TITLE_DZ, DOTTED_I} && NoEntry(alts, sym) && !GivesUnderLock(xkb, sym, Lock in locked)
    ensures var st := AtRestOn(xkb, locked);
            var a := AddKeysym(xkb, [], sym);
            Injection.Valid(st) && a.key == FREE_KEY && Press(st, alts, sym) == st.(xkb := a.xkb, added := a.added)
  {
    var st := AtRestOn(xkb, locked);
    assert HeldMods(map[]) == {};
    FreeKeyIsTaken(xkb, sym);
    NoLockAction(xkb, sym);
    forall l3
      ensures Lookup(xkb, l3, StateOf(st.server), sym).key == 0
    {
      NeitherFound(xkb, l3, StateOf(st.server), sym);
    }
    AddedButNotTyped(st, alts, sym, AddKeysym(xkb, [], sym));
  }

  /** A title-case letter gets the free key, which gives it in no state, so nothing is typed. */
  lemma TitleCaseIsNotTyped(alts: AltTable)
    requires NoEntry(alts, TITLE_DZ)
    ensures Injection.Valid(AtRestOn(Layout(), {})) && !AlwaysGiven(Layout(), TITLE_DZ)
    ensures var st := AtRestOn(Layout(), {});
            var a := AddKeysym(Layout(), [], TITLE_DZ);
            a.key == FREE_KEY && Press(st, alts, TITLE_DZ) == st.(xkb := a.xkb, added := a.added)
  {
    LayoutIsWellFormed();
    assert Layout().cases == CASES;
    AddedAtRest(Layout(), {}, alts, TITLE_DZ);
  }

  lemma DottedICases(xkb: Keymap)
    requires HasCanonicalTypes(xkb) && !LockSelectsUpper(xkb) && xkb.cases == CASES
    ensures xkb.cases.Upper(DOTTED_I) == DOTTED_I && !AlwaysGiven(xkb, DOTTED_I)
    ensures GivesUnderLock(xkb, DOTTED_I, false) && !GivesUnderLock(xkb, DOTTED_I, true)
  {
    var cases := xkb.cases;
    assert cases.Lower(DOTTED_I) == LOWER_I && cases.Upper(DOTTED_I) == DOTTED_I && cases.Upper(LOWER_I) == UPPER_I;
  }

  /** The dotted capital I is its own upper case, and its new key gives it while Lock is off; with Lock on, and
      left to the client, it gives the plain I, so nothing is typed. */
  lemma DottedIIsNotTypedUnderLock(alts: AltTable)
    requires NoEntry(alts, DOTTED_I)
    ensures var x := ClientLockLayout();
            && Injection.Valid(AtRestOn(x, {Lock}))
            && x.cases.Upper(DOTTED_I) == DOTTED_I && !AlwaysGiven(x, DOTTED_I)
            && GivesUnderLock(x, DOTTED_I, false) && !GivesUnderLock(x, DOTTED_I, true)
    ensures var st := AtRestOn(ClientLockLayout(), {Lock});
            var a := AddKeysym(ClientLockLayout(), [], DOTTED_I);
            a.key == FREE_KEY && Press(st, alts, DOTTED_I) == st.(xkb := a.xkb, added := a.added)
  {
    ClientLockIsWellFormed();
    var x := ClientLockLayout();
    DottedICases(x);
    AddedAtRest(x, {Lock}, alts, DOTTED_I);
  }

  // ---- A key whose test for NumLock is wrong

  const XK_KP_HOME: KeySym := 0xff95
  const XK_KP_7: KeySym := 0xffb7

  const KEYPAD_TYPE := KeyType({Shift, Mod2}, 2, [On({Shift}, 1), On({Mod2}, 1)])

  function KeypadKeyAt(k: nat): Key {
    if k == 8 then Key([0], 1, Wrap, [XK_NUM_LOCK], true, [LockMods({}, true)])
    else if k == 9 then Key([3], 2, Wrap, [XK_KP_HOME, XK_KP_7], false, [])
    else NO_KEY
  }

  /** A Num_Lock key that locks what the modifier map says, which is Mod2, and a keypad key that Mod2 shifts. */
  function KeypadLayout(): Keymap {
    Keymap(8, 9, seq(256, i requires 0 <= i < 256 => KeypadKeyAt(i)),
           [ONE_LEVEL, CONTROL_TYPE, ALPHABETIC_TYPE, KEYPAD_TYPE],
           seq(256, i => if i == 8 then {Mod2} else {}), NoNames, CASES)
  }

  lemma NumLockOnly(xkb: Keymap, s: CoreState)
    requires xkb == KeypadLayout() && WellFormed(xkb) && s == CoreState({}, 0)
    ensures KeyFor(xkb, s, XK_NUM_LOCK) == 8
  {
    KeyForIsBest(xkb, s, XK_NUM_LOCK);
    assert xkb.keys[8] == KeypadKeyAt(8) && xkb.keys[9] == KeypadKeyAt(9);
    assert Column(xkb, 8, s) == 0;
    assert xkb.InRange(8) && Produces(xkb, 8, s, XK_NUM_LOCK);
    assert forall i :: 0 <= i < |xkb.keys[9].syms| ==> xkb.keys[9].syms[i] != XK_NUM_LOCK;
  }

  /** The code takes the keypad key not to be affected by NumLock, although NumLock governs it: it reads the
      modifier map at the keypad key. */
  lemma KeypadIsMisjudged()
    ensures var x := KeypadLayout();
            WellFormed(x) && HasGroups(x, 9) && GovernedByNumLock(x, 0, 9) && !AffectedByNumLock(x, 0, 9)
  {
    var x, s := KeypadLayout(), CoreState({}, 0);
    assert forall k :: 0 <= k < 256 ==> x.keys[k] == KeypadKeyAt(k) && WellFormedKey(x.types, KeypadKeyAt(k));
    NumLockOnly(x, s);
    assert Column(x, 8, s) == 0;
    assert TypeOf(x, 9, 0) == KEYPAD_TYPE && x.modmap[8] == {Mod2} && x.modmap[9] == {};
    assert Mod2 in KEYPAD_TYPE.mask * {Mod2};
  }
}
