/** What the theorems about presses assume of a layout, stated so that it lasts: the server keeps it whatever
    keys are pressed, and so does adding keysyms to it. */
module SaneLayouts {
  import opened Xkb
  import opened KeysymLookup
  import opened AddedKeysyms
  import opened KeyboardServer
  import opened Injection
  import opened InjectionProofs

  /** The key gives a level-three keysym and sets modifiers. */
  predicate ShiftsToLevelThree(xkb: Keymap, k: KeyCode, s: CoreState)
    requires WellFormed(xkb)
  {
    && (Produces(xkb, k, s, XK_ISO_LEVEL3_SHIFT) || Produces(xkb, k, s, XK_MODE_SWITCH))
    && ActionAt(xkb, k, s).SetMods?
  }

  /** Every key that shifts to level three in some state sets exactly `l3` there. */
  ghost predicate LevelThreeKeysAgree(xkb: Keymap, g: Group, l3: Mods)
    requires WellFormed(xkb)
  {
    forall k: KeyCode, mods: Mods ::
      ShiftsToLevelThree(xkb, k, CoreState(mods, g)) ==> SetBy(xkb, k, CoreState(mods, g)) == l3
  }

  /** Shift keys set exactly Shift, level-three keys exactly `l3`, and the bits of both come from held keys. */
  ghost predicate SaneLayout(xkb: Keymap, srv: Server, l3: Mods)
    requires WellFormed(xkb)
  {
    && Shift !in l3
    && KeysSetExactly(xkb, srv.group, {Shift}) && FromHeldKeys(xkb, srv, {Shift})
    && KeysSetExactly(xkb, srv.group, l3) && FromHeldKeys(xkb, srv, l3)
    && LevelThreeKeysAgree(xkb, srv.group, l3)
  }

  ghost predicate SetsNothing(xkb: Keymap, g: Group, k: KeyCode)
    requires WellFormed(xkb)
  {
    forall mods: Mods :: SetBy(xkb, k, CoreState(mods, g)) == {}
  }

  /** The keyboard is sane, and no added keysym sits on a modifier key. */
  ghost predicate Sane(st: Injector, l3: Mods)
    requires Injection.Valid(st)
  {
    && SaneLayout(st.xkb, st.server, l3)
    && forall a :: a in st.added ==> SetsNothing(st.xkb, st.server.group, a.keycode)
  }

  /** The mask in force is that of the layout, or none when no level-three key can be found. */
  lemma MaskInForce(xkb: Keymap, srv: Server, l3: Mods)
    requires WellFormed(xkb) && SaneLayout(xkb, srv, l3)
    ensures LevelThreeMask(xkb, srv.group) in {{}, l3}
  {
    var s := CoreState({}, srv.group);
    KeyForIsBest(xkb, s, XK_ISO_LEVEL3_SHIFT);
    KeyForIsBest(xkb, s, XK_MODE_SWITCH);
  }

  /** On a sane layout the modifiers are sane now, with the mask in force that of the layout or none. */
  lemma SaneNow(xkb: Keymap, srv: Server, l3: Mods)
    requires WellFormed(xkb) && SaneLayout(xkb, srv, l3)
    ensures SaneModifiers(xkb, srv) && LevelThreeMask(xkb, srv.group) in {{}, l3}
  {
    MaskInForce(xkb, srv, l3);
    if LevelThreeMask(xkb, srv.group) == l3 != {} {
      forall mods: Mods
        ensures var s := CoreState(mods, srv.group);
                var k := LevelThreeKey(xkb, s);
                k != 0 && ActionAt(xkb, k, s).SetMods? ==> IsModifierKey(xkb, srv.group, l3, k)
      {
        var s := CoreState(mods, srv.group);
        KeyForIsBest(xkb, s, XK_ISO_LEVEL3_SHIFT);
        KeyForIsBest(xkb, s, XK_MODE_SWITCH);
        ModifierKeyInAnyState(xkb, srv.group, l3, LevelThreeKey(xkb, s), mods);
      }
    }
  }

  // ---- Key events

  lemma PressKeepsMask(xkb: Keymap, srv: Server, mask: Mods, k: KeyCode, mods: Mods)
    requires WellFormed(xkb) && KeysSetExactly(xkb, srv.group, mask) && FromHeldKeys(xkb, srv, mask)
    ensures FromHeldKeys(xkb, srv.(held := srv.held[k := SetBy(xkb, k, CoreState(mods, srv.group))]), mask)
  {
  }

  lemma EventStaysSane(xkb: Keymap, srv: Server, e: Event, l3: Mods)
    requires WellFormed(xkb) && SaneLayout(xkb, srv, l3)
    ensures SaneLayout(xkb, Step(xkb, srv, e), l3)
  {
    match e
    case KeyPress(k) =>
      PressKeepsMask(xkb, srv, {Shift}, k, StateOf(srv).mods);
      PressKeepsMask(xkb, srv, l3, k, StateOf(srv).mods);
    case KeyRelease(k) =>
      ReleaseKeepsMask(xkb, srv, {Shift}, {k});
      ReleaseKeepsMask(xkb, srv, l3, {k});
  }

  lemma {:induction false} EventsStaySane(xkb: Keymap, srv: Server, events: seq<Event>, l3: Mods)
    requires WellFormed(xkb) && SaneLayout(xkb, srv, l3)
    ensures SaneLayout(xkb, RunEvents(xkb, srv, events), l3)
    ensures RunEvents(xkb, srv, events).group == srv.group
    decreases |events|
  {
    if events != [] {
      EventStaysSane(xkb, srv, events[0], l3);
      EventsStaySane(xkb, Step(xkb, srv, events[0]), events[1..], l3);
    }
  }

  lemma ProcessingStaysSane(st: Injector, l3: Mods)
    requires Injection.Valid(st) && Sane(st, l3)
    ensures Sane(Processed(st), l3)
  {
    EventsStaySane(st.xkb, st.server, st.queue, l3);
  }

  // ---- Additions

  /** A key that sets nothing can be given a keysym. */
  lemma AssignedSetsNothing(xkb: Keymap, g: Group, k: KeyCode, sym: KeySym, j: KeyCode)
    requires WellFormed(xkb) && HasCanonicalTypes(xkb)
    requires SetsNothing(xkb, g, j) || j == k
    ensures SetsNothing(Assigned(xkb, k, sym), g, j)
  {
    if j != k {
      forall mods: Mods
        ensures SetBy(Assigned(xkb, k, sym), j, CoreState(mods, g)) == {}
      {
        OtherKeysUnchanged(xkb, k, sym, j, CoreState(mods, g));
        assert SetBy(xkb, j, CoreState(mods, g)) == {};
      }
    }
  }

  lemma SameSetBy(xkb: Keymap, g: Group, k: KeyCode, sym: KeySym, j: KeyCode, mods: Mods)
    requires WellFormed(xkb) && HasCanonicalTypes(xkb) && SetsNothing(xkb, g, k)
    ensures SetBy(Assigned(xkb, k, sym), j, CoreState(mods, g)) == SetBy(xkb, j, CoreState(mods, g))
  {
    if j == k {
      AssignedSetsNothing(xkb, g, k, sym, k);
      assert SetBy(xkb, k, CoreState(mods, g)) == {};
    } else {
      OtherKeysUnchanged(xkb, k, sym, j, CoreState(mods, g));
    }
  }

  lemma AssignedMask(xkb: Keymap, srv: Server, k: KeyCode, sym: KeySym, mask: Mods)
    requires WellFormed(xkb) && HasCanonicalTypes(xkb) && SetsNothing(xkb, srv.group, k)
    requires KeysSetExactly(xkb, srv.group, mask) && FromHeldKeys(xkb, srv, mask)
    ensures var x := Assigned(xkb, k, sym); KeysSetExactly(x, srv.group, mask) && FromHeldKeys(x, srv, mask)
  {
    var x := Assigned(xkb, k, sym);
    forall j: KeyCode, mods: Mods
      ensures SetBy(x, j, CoreState(mods, srv.group)) == SetBy(xkb, j, CoreState(mods, srv.group))
    {
      SameSetBy(xkb, srv.group, k, sym, j, mods);
    }
  }

  lemma AssignedStaysSane(xkb: Keymap, srv: Server, k: KeyCode, sym: KeySym, l3: Mods)
    requires WellFormed(xkb) && HasCanonicalTypes(xkb) && SetsNothing(xkb, srv.group, k)
    requires SaneLayout(xkb, srv, l3)
    ensures SaneLayout(Assigned(xkb, k, sym), srv, l3)
  {
    var x := Assigned(xkb, k, sym);
    AssignedMask(xkb, srv, k, sym, {Shift});
    AssignedMask(xkb, srv, k, sym, l3);
    forall j: KeyCode, mods: Mods
      ensures ShiftsToLevelThree(x, j, CoreState(mods, srv.group)) ==> SetBy(x, j, CoreState(mods, srv.group)) == l3
    {
      if j != k {
        OtherKeysUnchanged(xkb, k, sym, j, CoreState(mods, srv.group));
        assert ShiftsToLevelThree(x, j, CoreState(mods, srv.group)) ==
               ShiftsToLevelThree(xkb, j, CoreState(mods, srv.group));
      }
    }
  }

  /** The recycled keycode and the entries that stay are entries of the list. */
  lemma {:induction false} ReusableIsListed(xkb: Keymap, added: seq<AddedKeysym>)
    requires WellFormed(xkb)
    ensures var (k, rest) := Reusable(xkb, added);
            && (forall a :: a in rest ==> a in added)
            && (k != 0 ==> exists a :: a in added && a.keycode == k)
    decreases |added|
  {
    if added != [] {
      var last, rest := added[|added| - 1], added[..|added| - 1];
      assert last in added;
      if !(StillOurs(xkb, last) && last.keycode != 0) {
        ReusableIsListed(xkb, rest);
      }
    }
  }

  lemma AddingStaysSane(st: Injector, sym: KeySym, l3: Mods)
    requires Injection.Valid(st) && Sane(st, l3)
    ensures var a := AddKeysym(st.xkb, st.added, sym); Sane(st.(xkb := a.xkb, added := a.added), l3)
  {
    var a := AddKeysym(st.xkb, st.added, sym);
    var g := st.server.group;
    ReusableIsListed(st.xkb, st.added);
    if a.key != 0 {
      assert SetsNothing(st.xkb, g, a.key) by {
        if FreeKey(st.xkb, st.xkb.maxKey) == 0 {
          var e :| e in st.added && e.keycode == a.key;
        }
      }
      AssignedStaysSane(st.xkb, st.server, a.key, sym, l3);
      forall e | e in a.added
        ensures SetsNothing(a.xkb, g, e.keycode)
      {
        AssignedSetsNothing(st.xkb, g, a.key, sym, e.keycode);
      }
    }
  }

  /** Deciding on a key, with an addition or without, keeps a sane keyboard sane. */
  lemma DecidingStaysSane(st: Injector, alts: AltTable, sym: KeySym, l3: Mods)
    requires Injection.Valid(st) && Sane(st, l3)
    ensures Sane(Decide(st, alts, sym).st, l3)
  {
    if FindExisting(st, alts, sym).key == 0 {
      AddingStaysSane(st, sym, l3);
    }
  }
}
