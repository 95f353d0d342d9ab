/** When the fakes of a press can be had, in terms of the layout and of the keys held: a modifier is turned on if
    some key can be found that does it, and turned off if at most eight keys are held for it. */
module FakeConditions {
  import opened Xkb
  import opened KeysymLookup
  import opened KeyboardServer
  import opened Injection
  import opened InjectionProofs
  import opened InjectionRuns
  import opened PressTheorems
  import opened SaneLayouts

  /** The keys held for a mask. */
  function HeldFor(xkb: Keymap, srv: Server, mask: Mods): set<KeyCode>
    requires WellFormed(xkb)
  {
    set k | k in srv.held && IsModifierKey(xkb, srv.group, mask, k)
  }

  /** Shift is as it should be, or some key of the layout sets it, or not too many keys are held for it. */
  ghost predicate ShiftAvailable(xkb: Keymap, srv: Server, target: CoreState)
    requires WellFormed(xkb)
  {
    || !ShiftDiffers(StateOf(srv), target)
    || (if Shift in target.mods then exists k: KeyCode :: IsModifierKey(xkb, srv.group, {Shift}, k)
        else |HeldFor(xkb, srv, {Shift})| <= 8)
  }

  /** Level three is as it should be, or the lowest key that gives its keysym in the present state sets
      modifiers, or not too many keys are held for it. */
  predicate LevelThreeAvailable(xkb: Keymap, srv: Server, target: CoreState)
    requires WellFormed(xkb)
  {
    var s := StateOf(srv);
    var l3 := LevelThreeMask(xkb, srv.group);
    || s.mods * l3 == target.mods * l3
    || (if s.mods * l3 == {} then LevelThreeKey(xkb, s) != 0 && ActionAt(xkb, LevelThreeKey(xkb, s), s).SetMods?
        else |HeldFor(xkb, srv, l3)| <= 8)
  }

  function From(keys: set<KeyCode>, from: nat): set<KeyCode> {
    set k | k in keys && from <= k
  }

  lemma FromNext(keys: set<KeyCode>, from: nat)
    ensures |From(keys, from)| == |From(keys, from + 1)| + if exists k :: k in keys && k == from then 1 else 0
  {
    if k :| k in keys && k == from {
      assert From(keys, from) == From(keys, from + 1) + {k};
    } else {
      assert From(keys, from) == From(keys, from + 1);
    }
  }

  /** No key is found twice. */
  lemma {:induction false} DownKeysCount(xkb: Keymap, s: CoreState, held: set<KeyCode>, mask: Mods, from: nat,
                                         down: set<KeyCode>)
    requires WellFormed(xkb) && xkb.minKey <= from <= xkb.maxKey + 1
    requires forall k :: k in down <==> k in held && xkb.InRange(k) && SetBy(xkb, k, s) * mask != {}
    ensures |DownKeys(xkb, s, held, mask, from)| == |From(down, from)|
    decreases xkb.maxKey + 1 - from
  {
    if from > xkb.maxKey {
      assert From(down, from) == {};
    } else {
      DownKeysCount(xkb, s, held, mask, from + 1, down);
      FromNext(down, from);
    }
  }

  predicate Ascends(keys: seq<KeyCode>) {
    forall i, j :: 0 <= i < j < |keys| ==> keys[i] < keys[j]
  }

  /** They are found from the lowest to the highest. */
  lemma {:induction false} DownKeysAscend(xkb: Keymap, s: CoreState, held: set<KeyCode>, mask: Mods, from: nat)
    requires WellFormed(xkb) && xkb.minKey <= from <= xkb.maxKey + 1
    ensures Ascends(DownKeys(xkb, s, held, mask, from))
    decreases xkb.maxKey + 1 - from
  {
    if from <= xkb.maxKey {
      var rest := DownKeys(xkb, s, held, mask, from + 1);
      DownKeysAscend(xkb, s, held, mask, from + 1);
      forall n | 0 <= n < |rest|
        ensures rest[n] > from
      {
        var k: KeyCode := rest[n];
        assert k in rest;
      }
      Ascending(rest, from);
    }
  }

  lemma Ascending(rest: seq<KeyCode>, first: KeyCode)
    requires Ascends(rest) && forall i :: 0 <= i < |rest| ==> rest[i] > first
    ensures Ascends([first] + rest)
  {
    var keys := [first] + rest;
    forall i, j | 0 <= i < j < |keys|
      ensures keys[i] < keys[j]
    {
      assert keys[j] == rest[j - 1] && (i > 0 ==> keys[i] == rest[i - 1]);
    }
  }

  /** The keys to let go of are found exactly if at most eight are held for the mask. */
  lemma ReleaseFound(xkb: Keymap, srv: Server, mask: Mods)
    requires WellFormed(xkb) && mask != {} && KeysSetExactly(xkb, srv.group, mask) && FromHeldKeys(xkb, srv, mask)
    requires StateOf(srv).mods * mask != {}
    ensures KeysToRelease(xkb, srv, mask) != [] <==> |HeldFor(xkb, srv, mask)| <= 8
  {
    var s := StateOf(srv);
    var b :| b in s.mods * mask;
    var k := HeldKeyFor(xkb, srv, mask, b);
    assert k in HeldFor(xkb, srv, mask);
    forall j: KeyCode
      ensures IsModifierKey(xkb, srv.group, mask, j) <==> SetBy(xkb, j, s) * mask != {}
      ensures SetBy(xkb, j, s) * mask != {} ==> xkb.InRange(j)
    {
      ModifierKeyInAnyState(xkb, srv.group, mask, j, s.mods);
    }
    var down := HeldFor(xkb, srv, mask);
    DownKeysCount(xkb, s, srv.held.Keys, mask, xkb.minKey, down);
    assert From(down, xkb.minKey) == down;
  }

  lemma ShiftFound(xkb: Keymap, srv: Server, target: CoreState)
    requires WellFormed(xkb) && KeysSetExactly(xkb, srv.group, {Shift}) && FromHeldKeys(xkb, srv, {Shift})
    ensures FakeShift(xkb, srv, target).0 <==> ShiftAvailable(xkb, srv, target)
  {
    var s := StateOf(srv);
    if Shift in s.mods {
      assert Shift in s.mods * {Shift};
      ReleaseFound(xkb, srv, {Shift});
    } else {
      forall k: KeyCode
        ensures IsModifierKey(xkb, srv.group, {Shift}, k) <==> Shift in SetBy(xkb, k, s)
        ensures Shift in SetBy(xkb, k, s) ==> xkb.InRange(k)
      {
        ModifierKeyInAnyState(xkb, srv.group, {Shift}, k, s.mods);
        assert Shift in SetBy(xkb, k, s) <==> Shift in SetBy(xkb, k, s) * {Shift};
      }
    }
  }

  lemma OnlyShiftDiffers(s: Mods, t: Mods, l3: Mods)
    requires Shift !in l3 && t - ({Shift} + l3) == s - ({Shift} + l3) && t * l3 == s * l3
    ensures t - {Shift} == s - {Shift}
  {
    forall m
      ensures m in t - {Shift} <==> m in s - {Shift}
    {
      assert m in t - ({Shift} + l3) <==> m in s - ({Shift} + l3);
      assert m in t * l3 <==> m in s * l3;
    }
  }

  lemma LevelThreeFound(xkb: Keymap, srv: Server, target: CoreState)
    requires WellFormed(xkb) && SaneModifiers(xkb, srv)
    requires MayAskFor(StateOf(srv), LevelThreeMask(xkb, srv.group), target)
    ensures FakeLevelThree(xkb, srv, target).0 <==> LevelThreeAvailable(xkb, srv, target)
  {
    var l3, s := LevelThreeMask(xkb, srv.group), StateOf(srv);
    AllOrNothing(xkb, srv, l3);
    ToggledMask(s.mods, target.mods, l3);
    if s.mods * l3 == target.mods * l3 {
      OnlyShiftDiffers(s.mods, target.mods, l3);
    } else if s.mods * l3 != {} {
      ReleaseFound(xkb, srv, l3);
    }
  }

  /** When nothing but Shift has to change, level three is left alone. */
  lemma ShiftAloneLeavesLevelThree(xkb: Keymap, srv: Server, target: CoreState)
    requires WellFormed(xkb) && forall m :: m != Shift ==> (m in target.mods <==> m in StateOf(srv).mods)
    ensures FakeLevelThree(xkb, srv, target) == (true, Fake(0, []))
  {
    assert target.mods - {Shift} == StateOf(srv).mods - {Shift};
  }

  /** All fakes can be had exactly if both modifiers are available. */
  lemma PlanSucceeds(xkb: Keymap, srv: Server, target: CoreState)
    requires WellFormed(xkb) && SaneModifiers(xkb, srv)
    requires MayAskFor(StateOf(srv), LevelThreeMask(xkb, srv.group), target)
    ensures PlanFakes(xkb, srv, target).ok <==>
            ShiftAvailable(xkb, srv, target) && LevelThreeAvailable(xkb, srv, target)
  {
    ShiftFound(xkb, srv, target);
    LevelThreeFound(xkb, srv, target);
  }

  /** On a sane keyboard a press reaches its key exactly if a key was found and both modifiers are available; one
      that does not leaves the keyboard as it was exactly if no key was found, or Shift is as it should be or
      not available either. */
  lemma PressSucceeds(st: Injector, alts: AltTable, sym: KeySym, l3: Mods)
    requires Injection.Valid(st)
    ensures var d := Decide(Processed(st), alts, sym);
            var srv, r := d.st.server, Press(st, alts, sym);
            Sane(st, l3) ==>
              && (ReachesTheKey(d) <==>
                  d.key != 0 && ShiftAvailable(d.st.xkb, srv, d.target) && LevelThreeAvailable(d.st.xkb, srv, d.target))
              && (!ReachesTheKey(d) ==>
                    (RunEvents(r.xkb, r.server, r.queue) == srv <==>
                     d.key == 0 || !ShiftDiffers(StateOf(srv), d.target) || !ShiftAvailable(d.st.xkb, srv, d.target)))
  {
    var d := Decide(Processed(st), alts, sym);
    if Sane(st, l3) {
      SaneDecision(st, alts, sym, l3);
      if d.key != 0 {
        PlanSucceeds(d.st.xkb, d.st.server, d.target);
        ShiftFound(d.st.xkb, d.st.server, d.target);
      }
      FailureLeaves(st, alts, sym, l3);
    }
  }
}
