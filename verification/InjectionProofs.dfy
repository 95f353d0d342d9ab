/** The end-to-end claims about a press: the key goes down in a state that really gives the keysym,
    and the faked modifiers leave no trace. */
module InjectionProofs {
  import opened Xkb
  import opened KeysymLookup
  import opened KeyboardServer
  import opened Injection

  /** What "a sane layout" means: Shift keys set exactly Shift, level-three keys set exactly the
      level-three mask, Shift is not part of it, and the bits of both come from held keys. */
  ghost predicate SaneModifiers(xkb: Keymap, srv: Server)
    requires WellFormed(xkb)
  {
    var l3 := LevelThreeMask(xkb, srv.group);
    && Shift !in l3
    && KeysSetExactly(xkb, srv.group, {Shift}) && FromHeldKeys(xkb, srv, {Shift})
    && KeysSetExactly(xkb, srv.group, l3) && FromHeldKeys(xkb, srv, l3)
    && LevelThreeKeysSet(xkb, srv.group, l3)
  }

  /** Whatever key is found for level three in some state, if it sets modifiers it sets the mask. */
  ghost predicate LevelThreeKeysSet(xkb: Keymap, g: Group, l3: Mods)
    requires WellFormed(xkb)
  {
    forall mods: Mods ::
      var s := CoreState(mods, g);
      var k := LevelThreeKey(xkb, s);
      k != 0 && ActionAt(xkb, k, s).SetMods? && l3 != {} ==> IsModifierKey(xkb, g, l3, k)
  }

  // ---- One fake

  /** The fake holds a key for `mask` while it is off, or lets go of all the keys that set it. */
  predicate FakesMask(xkb: Keymap, srv: Server, mask: Mods, f: Fake)
    requires WellFormed(xkb)
  {
    if f.press != 0 then
      IsModifierKey(xkb, srv.group, mask, f.press) && StateOf(srv).mods * mask == {} && f.released == []
    else
      f.released == [] ||
      forall k: KeyCode :: k in f.released <==> k in srv.held && IsModifierKey(xkb, srv.group, mask, k)
  }

  function ModsAfter(mods: Mods, mask: Mods, f: Fake): Mods {
    if f.press != 0 then mods + mask else if f.released != [] then mods - mask else mods
  }

  function HeldAfter(held: map<KeyCode, Mods>, mask: Mods, f: Fake): map<KeyCode, Mods> {
    if f.press != 0 then held[f.press := mask] else held - Keys(f.released)
  }

  lemma StartEffect(xkb: Keymap, srv: Server, mask: Mods, f: Fake)
    requires WellFormed(xkb) && mask != {} && KeysSetExactly(xkb, srv.group, mask) && FromHeldKeys(xkb, srv, mask)
    requires FakesMask(xkb, srv, mask, f)
    ensures var next := RunEvents(xkb, srv, Start(f));
            && next == srv.(held := HeldAfter(srv.held, mask, f))
            && StateOf(next).mods == ModsAfter(StateOf(srv).mods, mask, f)
    ensures f.press != 0 ==> f.press !in srv.held
  {
    if f.press != 0 {
      PressSets(xkb, srv, mask, f.press);
      assert Start(f)[1..] == [];
    } else {
      RunReleases(xkb, srv, f.released);
      if f.released != [] {
        ReleaseClears(xkb, srv, mask, Keys(f.released));
      } else {
        assert srv.held - Keys(f.released) == srv.held;
      }
    }
  }

  lemma DisjointMasks(mods: Mods, mask: Mods, other: Mods)
    requires mask * other == {}
    ensures (mods + mask) * other == mods * other
    ensures (mods - mask) * other == mods * other
  {
    assert forall m :: m in mask && m in other ==> m in mask * other;
  }

  lemma NotAKeyForBoth(xkb: Keymap, g: Group, mask: Mods, other: Mods, k: KeyCode)
    requires WellFormed(xkb) && KeysSetExactly(xkb, g, mask) && mask * other == {}
    requires IsModifierKey(xkb, g, mask, k)
    ensures !IsModifierKey(xkb, g, other, k)
  {
  }

  /** Starting one fake leaves the other mask, and the fake planned for it, as they were. */
  lemma StartKeepsOther(xkb: Keymap, srv: Server, mask: Mods, f: Fake, other: Mods, g: Fake)
    requires WellFormed(xkb) && mask != {} && KeysSetExactly(xkb, srv.group, mask) && FromHeldKeys(xkb, srv, mask)
    requires FromHeldKeys(xkb, srv, other) && mask * other == {}
    requires FakesMask(xkb, srv, mask, f) && FakesMask(xkb, srv, other, g)
    ensures var next := RunEvents(xkb, srv, Start(f));
            FromHeldKeys(xkb, next, other) && FakesMask(xkb, next, other, g)
  {
    StartEffect(xkb, srv, mask, f);
    var next := srv.(held := HeldAfter(srv.held, mask, f));
    DisjointMasks(StateOf(srv).mods, mask, other);
    if f.press != 0 {
      OtherMaskUndisturbed(xkb, srv, mask, other, f.press);
      NotAKeyForBoth(xkb, srv.group, mask, other, f.press);
    } else {
      ReleaseKeepsMask(xkb, srv, other, Keys(f.released));
      forall k | k in f.released && f.released != []
        ensures !IsModifierKey(xkb, srv.group, other, k)
      {
        NotAKeyForBoth(xkb, srv.group, mask, other, k);
      }
    }
  }

  /** What the plan promises of the keys it names. */
  lemma ReleasedKeys(xkb: Keymap, srv: Server, mask: Mods)
    requires WellFormed(xkb) && mask != {} && KeysSetExactly(xkb, srv.group, mask)
    ensures var keys := KeysToRelease(xkb, srv, mask);
            keys != [] ==> forall k: KeyCode :: k in keys <==> k in srv.held && IsModifierKey(xkb, srv.group, mask, k)
  {
    var s := StateOf(srv);
    forall k: KeyCode
      ensures IsModifierKey(xkb, srv.group, mask, k) <==> SetBy(xkb, k, s) * mask != {}
      ensures SetBy(xkb, k, s) * mask != {} ==> xkb.InRange(k)
    {
      ModifierKeyInAnyState(xkb, srv.group, mask, k, s.mods);
    }
  }

  lemma ShiftPlanned(xkb: Keymap, srv: Server, target: CoreState)
    requires WellFormed(xkb) && SaneModifiers(xkb, srv) && FakeShift(xkb, srv, target).0
    ensures var f := FakeShift(xkb, srv, target).1;
            && FakesMask(xkb, srv, {Shift}, f)
            && ModsAfter(StateOf(srv).mods, {Shift}, f) == StateOf(srv).mods - {Shift} + target.mods * {Shift}
  {
    ReleasedKeys(xkb, srv, {Shift});
    var f := FakeShift(xkb, srv, target).1;
    var s := StateOf(srv);
    if f.press != 0 {
      assert Shift in SetBy(xkb, f.press, s) * {Shift};
      ModifierKeyInAnyState(xkb, srv.group, {Shift}, f.press, s.mods);
    }
  }

  /** The states a lookup may ask for: Shift free, the level-three bits kept or toggled as a whole. */
  predicate MayAskFor(s: CoreState, l3: Mods, t: CoreState) {
    && t.group == s.group
    && t.mods - ({Shift} + l3) == s.mods - ({Shift} + l3)
    && t.mods * l3 in {s.mods * l3, if s.mods * l3 == {} then l3 else {}}
  }

  lemma HeldKeyFor(xkb: Keymap, srv: Server, mask: Mods, b: Modifier) returns (k: KeyCode)
    requires WellFormed(xkb) && FromHeldKeys(xkb, srv, mask) && b in mask && b in StateOf(srv).mods
    ensures k in srv.held && srv.held[k] == mask
  {
    assert forall m :: m in srv.locked && m in mask ==> m in srv.locked * mask;
    k :| k in srv.held && b in srv.held[k];
    assert b in srv.held[k] * mask;
  }

  /** The level-three bits are all on or all off. */
  lemma AllOrNothing(xkb: Keymap, srv: Server, mask: Mods)
    requires WellFormed(xkb) && FromHeldKeys(xkb, srv, mask)
    ensures StateOf(srv).mods * mask in {{}, mask}
  {
    var mods := StateOf(srv).mods;
    if mods * mask != {} {
      var b :| b in mods * mask;
      var k := HeldKeyFor(xkb, srv, mask, b);
      forall m | m in mask
        ensures m in mods
      {
        HeldBit(srv.held, k, m);
      }
      assert mods * mask == mask;
    }
  }

  /** How the bits of `target` differ from those of `s`, once the mask is all on or all off. */
  lemma ToggledMask(s: Mods, target: Mods, mask: Mods)
    requires s * mask in {{}, mask}
    ensures target * mask == s * mask ==> s - mask + target * mask == s
    ensures target * mask == mask ==> s - mask + target * mask == s + mask
    ensures target * mask == {} ==> s - mask + target * mask == s - mask
    ensures Shift !in mask && target - {Shift} == s - {Shift} ==> target * mask == s * mask
  {
    if target * mask == s * mask {
      forall m
        ensures m in s - mask + target * mask <==> m in s
      {
        assert m in target * mask <==> m in s * mask;
      }
    }
    if Shift !in mask && target - {Shift} == s - {Shift} {
      forall m
        ensures m in target * mask <==> m in s * mask
      {
        assert m in target - {Shift} <==> m in s - {Shift};
      }
    }
  }

  lemma LevelThreePlanned(xkb: Keymap, srv: Server, target: CoreState)
    requires WellFormed(xkb) && SaneModifiers(xkb, srv) && FakeLevelThree(xkb, srv, target).0
    requires MayAskFor(StateOf(srv), LevelThreeMask(xkb, srv.group), target)
    ensures var l3 := LevelThreeMask(xkb, srv.group);
            var f := FakeLevelThree(xkb, srv, target).1;
            && (l3 == {} ==> f == NO_FAKE)
            && (l3 != {} ==> FakesMask(xkb, srv, l3, f))
            && ModsAfter(StateOf(srv).mods, l3, f) == StateOf(srv).mods - l3 + target.mods * l3
  {
    var l3 := LevelThreeMask(xkb, srv.group);
    var s := StateOf(srv);
    var f := FakeLevelThree(xkb, srv, target).1;
    AllOrNothing(xkb, srv, l3);
    ToggledMask(s.mods, target.mods, l3);
    if l3 != {} && !(target.mods - {Shift} == s.mods - {Shift}) {
      if s.mods * l3 == {} && target.mods * l3 != {} {
        assert IsModifierKey(xkb, srv.group, l3, f.press);
      } else if s.mods * l3 != {} && target.mods * l3 == {} {
        ReleasedKeys(xkb, srv, l3);
      }
    }
  }

  lemma TargetMods(s: Mods, t: Mods, l3: Mods)
    requires Shift !in l3 && t - ({Shift} + l3) == s - ({Shift} + l3)
    ensures t == (s - {Shift} + t * {Shift}) - l3 + t * l3
  {
    forall m
      ensures m in t <==> m in (s - {Shift} + t * {Shift}) - l3 + t * l3
    {
      assert m in t - ({Shift} + l3) <==> m in s - ({Shift} + l3);
    }
  }

  /** The faked modifiers take the keyboard to exactly the state that was asked for. */
  lemma FakesReachTarget(xkb: Keymap, srv: Server, target: CoreState)
    requires WellFormed(xkb) && SaneModifiers(xkb, srv) && PlanFakes(xkb, srv, target).ok
    requires MayAskFor(StateOf(srv), LevelThreeMask(xkb, srv.group), target)
    ensures StateOf(RunEvents(xkb, srv, Before(PlanFakes(xkb, srv, target).fakes))) == target
  {
    var l3 := LevelThreeMask(xkb, srv.group);
    var f, g := FakeShift(xkb, srv, target).1, FakeLevelThree(xkb, srv, target).1;
    var s := StateOf(srv);
    ShiftPlanned(xkb, srv, target);
    LevelThreePlanned(xkb, srv, target);
    RunConcat(xkb, srv, Start(f), Start(g));
    StartEffect(xkb, srv, {Shift}, f);
    TargetMods(s.mods, target.mods, l3);
    var next := RunEvents(xkb, srv, Start(f));
    var mods := StateOf(next).mods;
    if l3 == {} {
      assert Start(g) == [];
      assert mods - l3 + target.mods * l3 == mods;
    } else {
      StartKeepsOther(xkb, srv, {Shift}, f, l3, g);
      StartEffect(xkb, next, l3, g);
      AllOrNothing(xkb, srv, l3);
      DisjointMasks(s.mods, {Shift}, l3);
      AllOrNothing(xkb, next, l3);
      ToggledMask(mods, target.mods, l3);
      assert mods * l3 == s.mods * l3;
      assert ModsAfter(mods, l3, g) == mods - l3 + target.mods * l3;
    }
  }

  // ---- The fakes cancel

  /** Undoing a fake on a server whose other keys may have changed since it was started. */
  lemma UndoEffect(xkb: Keymap, srv: Server, mask: Mods, f: Fake)
    requires WellFormed(xkb) && (f == NO_FAKE || (mask != {} && KeysSetExactly(xkb, srv.group, mask)))
    requires f.press == 0 ==> forall k :: k in f.released ==> IsModifierKey(xkb, srv.group, mask, k)
    requires f.press == 0 ==> forall k :: k in f.released && k in srv.held ==> srv.held[k] == mask
    ensures RunEvents(xkb, srv, Undo(f)) == srv.(held := HeldUndone(srv.held, mask, f))
  {
    if f.press != 0 {
      assert Undo(f)[1..] == [];
    } else if f == NO_FAKE {
      assert srv.held + Holding(Keys(f.released), mask) == srv.held;
    } else {
      RunPresses(xkb, srv, mask, f.released);
    }
  }

  function HeldUndone(held: map<KeyCode, Mods>, mask: Mods, f: Fake): map<KeyCode, Mods> {
    if f.press != 0 then held - {f.press} else held + Holding(Keys(f.released), mask)
  }

  function WithKey(held: map<KeyCode, Mods>, key: KeyCode, mods: Mods): map<KeyCode, Mods> {
    if key in held then held else held[key := mods]
  }

  /** The keys a fake works on are up before it holds them, or down for the mask before it lets go. */
  predicate FakeFits(held: map<KeyCode, Mods>, mask: Mods, f: Fake) {
    if f.press != 0 then f.press !in held else forall k :: k in f.released ==> k in held && held[k] == mask
  }

  lemma FakeCancels(held: map<KeyCode, Mods>, mask: Mods, f: Fake)
    requires FakeFits(held, mask, f)
    ensures HeldUndone(HeldAfter(held, mask, f), mask, f) == held
  {
    var end := HeldUndone(HeldAfter(held, mask, f), mask, f);
    assert end.Keys == held.Keys;
  }

  /** A fake around the press of one key. */
  lemma FakeCancelsAround(held: map<KeyCode, Mods>, mask: Mods, f: Fake, key: KeyCode, mods: Mods)
    requires FakeFits(held, mask, f) && key != 0
    requires f.press == 0 && key in f.released ==> mods == mask
    ensures HeldUndone(WithKey(HeldAfter(held, mask, f), key, mods), mask, f)
            == if key == f.press then held else WithKey(held, key, mods)
  {
    var end := HeldUndone(WithKey(HeldAfter(held, mask, f), key, mods), mask, f);
    var want := if key == f.press then held else WithKey(held, key, mods);
    assert end.Keys == want.Keys;
    assert forall k :: k in want ==> end[k] == want[k];
  }

  lemma FitsWhenFaked(xkb: Keymap, srv: Server, mask: Mods, f: Fake)
    requires WellFormed(xkb) && FromHeldKeys(xkb, srv, mask)
    requires f == NO_FAKE || (mask != {} && KeysSetExactly(xkb, srv.group, mask) && FakesMask(xkb, srv, mask, f))
    ensures FakeFits(srv.held, mask, f)
  {
    if f.press != 0 {
      StartEffect(xkb, srv, mask, f);
    }
  }

  /** The two fakes planned for a target fit: Shift on the keyboard as it is, level three after it. */
  lemma PlannedFakes(xkb: Keymap, srv: Server, target: CoreState)
    requires WellFormed(xkb) && SaneModifiers(xkb, srv) && PlanFakes(xkb, srv, target).ok
    requires MayAskFor(StateOf(srv), LevelThreeMask(xkb, srv.group), target)
    ensures var l3 := LevelThreeMask(xkb, srv.group);
            var plan := PlanFakes(xkb, srv, target).fakes;
            var next := RunEvents(xkb, srv, Start(plan.shift));
            && next == srv.(held := HeldAfter(srv.held, {Shift}, plan.shift))
            && FakesMask(xkb, srv, {Shift}, plan.shift)
            && FakeFits(srv.held, {Shift}, plan.shift)
            && FakeFits(next.held, l3, plan.l3)
            && (plan.l3 == NO_FAKE || (l3 != {} && FakesMask(xkb, next, l3, plan.l3)))
            && RunEvents(xkb, next, Start(plan.l3)) == next.(held := HeldAfter(next.held, l3, plan.l3))
  {
    var l3 := LevelThreeMask(xkb, srv.group);
    var plan := PlanFakes(xkb, srv, target).fakes;
    ShiftPlanned(xkb, srv, target);
    LevelThreePlanned(xkb, srv, target);
    StartEffect(xkb, srv, {Shift}, plan.shift);
    FitsWhenFaked(xkb, srv, {Shift}, plan.shift);
    var next := RunEvents(xkb, srv, Start(plan.shift));
    if plan.l3 == NO_FAKE {
      assert next.held - Keys([]) == next.held;
    } else {
      StartKeepsOther(xkb, srv, {Shift}, plan.shift, l3, plan.l3);
      StartEffect(xkb, next, l3, plan.l3);
      FitsWhenFaked(xkb, next, l3, plan.l3);
    }
  }

  lemma PressedAround(xkb: Keymap, srv: Server, f: Fakes, key: KeyCode)
    requires WellFormed(xkb)
    ensures RunEvents(xkb, srv, PressEvents(f, key)) ==
            var b := RunEvents(xkb, RunEvents(xkb, srv, Start(f.shift)), Start(f.l3));
            RunEvents(xkb, RunEvents(xkb, Step(xkb, b, KeyPress(key)), Undo(f.l3)), Undo(f.shift))
  {
    var press := [KeyPress(key)];
    RunConcat(xkb, srv, Before(f) + press, After(f));
    RunConcat(xkb, srv, Before(f), press);
    RunConcat(xkb, srv, Start(f.shift), Start(f.l3));
    var b := RunEvents(xkb, srv, Before(f));
    assert press[1..] == [];
    RunConcat(xkb, Step(xkb, b, press[0]), Undo(f.l3), Undo(f.shift));
  }

  /** Undoing a fake after the key was pressed, and undoing it when no key is in between. */
  lemma UndoAround(xkb: Keymap, srv: Server, mask: Mods, f: Fake, key: KeyCode, c: Mods)
    requires WellFormed(xkb) && key != 0 && FakeFits(srv.held, mask, f)
    requires f == NO_FAKE || (mask != {} && KeysSetExactly(xkb, srv.group, mask) && FakesMask(xkb, srv, mask, f))
    requires IsModifierKey(xkb, srv.group, mask, key) ==> c == mask
    ensures var after := HeldAfter(srv.held, mask, f);
            && RunEvents(xkb, srv.(held := WithKey(after, key, c)), Undo(f)) ==
               srv.(held := if key == f.press then srv.held else WithKey(srv.held, key, c))
            && RunEvents(xkb, srv.(held := after), Undo(f)) == srv
  {
    var after := HeldAfter(srv.held, mask, f);
    UndoEffect(xkb, srv.(held := WithKey(after, key, c)), mask, f);
    UndoEffect(xkb, srv.(held := after), mask, f);
    FakeCancels(srv.held, mask, f);
    FakeCancelsAround(srv.held, mask, f, key, c);
  }

  lemma SetByModifierKey(xkb: Keymap, g: Group, mask: Mods, key: KeyCode, mods: Mods)
    requires WellFormed(xkb) && KeysSetExactly(xkb, g, mask)
    ensures IsModifierKey(xkb, g, mask, key) ==> SetBy(xkb, key, CoreState(mods, g)) == mask
  {
  }

  /** All the events of a press together hold `key` down and change nothing else.  If `key` is itself
      the modifier key that was faked, undoing the fake lets it go again and nothing is held at all. */
  lemma FakesLeaveNoTrace(xkb: Keymap, srv: Server, target: CoreState, key: KeyCode)
    requires WellFormed(xkb) && SaneModifiers(xkb, srv) && PlanFakes(xkb, srv, target).ok && key != 0
    requires MayAskFor(StateOf(srv), LevelThreeMask(xkb, srv.group), target)
    ensures var f := PlanFakes(xkb, srv, target).fakes;
            RunEvents(xkb, srv, PressEvents(f, key)) ==
            srv.(held := if key in {f.shift.press, f.l3.press} then srv.held
                         else WithKey(srv.held, key, SetBy(xkb, key, target)))
  {
    var l3 := LevelThreeMask(xkb, srv.group);
    var f := PlanFakes(xkb, srv, target).fakes;
    var c := SetBy(xkb, key, target);
    PlannedFakes(xkb, srv, target);
    var s1 := srv.(held := HeldAfter(srv.held, {Shift}, f.shift));
    var s2 := s1.(held := HeldAfter(s1.held, l3, f.l3));
    assert StateOf(s2) == target by {
      FakesReachTarget(xkb, srv, target);
      RunConcat(xkb, srv, Start(f.shift), Start(f.l3));
    }
    PressedAround(xkb, srv, f, key);
    var s3 := s2.(held := WithKey(s2.held, key, c));
    assert Step(xkb, s2, KeyPress(key)) == s3;
    SetByModifierKey(xkb, srv.group, l3, key, target.mods);
    SetByModifierKey(xkb, srv.group, {Shift}, key, target.mods);
    assert f.l3 == NO_FAKE || FakesMask(xkb, s1, l3, f.l3);
    UndoAround(xkb, s1, l3, f.l3, key, c);
    UndoAround(xkb, srv, {Shift}, f.shift, key, c);
  }

  // ---- The order of the events

  /** Every key pressed is released again, and every key released is pressed again. */
  predicate Undoes(undo: seq<Event>, start: seq<Event>) {
    |undo| == |start| &&
    forall i :: 0 <= i < |start| ==>
      undo[i] == if start[i].KeyPress? then KeyRelease(start[i].key) else KeyPress(start[i].key)
  }

  /** A fake presses its key, or releases its keys one after the other. */
  predicate Starts(start: seq<Event>, f: Fake) {
    if f.press != 0 then start == [KeyPress(f.press)]
    else |start| == |f.released| && forall i :: 0 <= i < |start| ==> start[i] == KeyRelease(f.released[i])
  }

  /** The events of a press nest: Shift, level three, the key, and the undoing of level three before that of Shift. */
  lemma PressNests(f: Fakes, key: KeyCode)
    returns (shift: seq<Event>, l3: seq<Event>, l3Undo: seq<Event>, shiftUndo: seq<Event>)
    ensures PressEvents(f, key) == shift + l3 + [KeyPress(key)] + l3Undo + shiftUndo
    ensures Starts(shift, f.shift) && Starts(l3, f.l3) && Undoes(l3Undo, l3) && Undoes(shiftUndo, shift)
  {
    shift, l3, l3Undo, shiftUndo := Start(f.shift), Start(f.l3), Undo(f.l3), Undo(f.shift);
  }
}
