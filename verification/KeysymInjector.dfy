/** The keysym injector itself: global state changed in place and loops over the keymap, each method
    proved against the functions of module Injection. */
module KeysymInjection {
  import opened Common
  import opened Xkb
  import opened KeysymLookup
  import opened AddedKeysyms
  import opened KeyboardServer
  import opened Injection

  /** altKeysym: modifier pairs, keypad keys with their plain twins, and the level-three keys. */
  const ALT_KEYSYMS: AltTable := [
    (0xffe1, 0xffe2), (0xffe3, 0xffe4), (0xffe7, 0xffe8), (0xffe9, 0xffea), (0xffeb, 0xffec), (0xffed, 0xffee),
    (0xff80, 0x0020), (0xff89, 0xff09), (0xff8d, 0xff0d),
    (0xff91, 0xffbe), (0xff92, 0xffbf), (0xff93, 0xffc0), (0xff94, 0xffc1),
    (0xff95, 0xff50), (0xff96, 0xff51), (0xff97, 0xff52), (0xff98, 0xff53), (0xff99, 0xff54),
    (0xff9a, 0xff55), (0xff9b, 0xff56), (0xff9c, 0xff57), (0xff9d, 0xff58), (0xff9e, 0xff63), (0xff9f, 0xffff),
    (0xffbd, 0x003d), (0xffaa, 0x002a), (0xffab, 0x002b), (0xffac, 0x002c), (0xffad, 0x002d), (0xffae, 0x002e),
    (0xffaf, 0x002f),
    (0xffb0, 0x0030), (0xffb1, 0x0031), (0xffb2, 0x0032), (0xffb3, 0x0033), (0xffb4, 0x0034),
    (0xffb5, 0x0035), (0xffb6, 0x0036), (0xffb7, 0x0037), (0xffb8, 0x0038), (0xffb9, 0x0039),
    (0xfe03, 0xff7e)]

  class KeysymInjector {
    var xkb: Keymap
    var added: seq<AddedKeysym>
    const pressed: array<KeySym>
    var server: Server
    var queue: seq<Event>
    const alts: AltTable

    ghost predicate Valid()
      reads this, pressed
    {
      WellFormed(xkb) && HasCanonicalTypes(xkb) && pressed.Length == 256
    }

    /** The state as a value; the methods are specified by functions on it. */
    ghost function Model(): (st: Injector)
      reads this, pressed
      requires Valid()
      ensures Injection.Valid(st)
    {
      Injector(xkb, added, pressed[..], server, queue)
    }

    constructor (xkb: Keymap, server: Server)
      requires WellFormed(xkb) && HasCanonicalTypes(xkb)
      ensures Valid() && fresh(pressed) && alts == ALT_KEYSYMS
      ensures Model() == Injector(xkb, [], seq(256, i => NO_SYMBOL), server, [])
    {
      this.xkb, this.server := xkb, server;
      added, queue, alts := [], [], ALT_KEYSYMS;
      pressed := new KeySym[256](i => NO_SYMBOL);
    }

    method QueueKeyboardEvents(e: Event)
      requires Valid()
      modifies this`queue
      ensures Valid() && queue == old(queue) + [e]
    {
      queue := queue + [e];
    }

    method ProcessInputEvents()
      requires Valid()
      modifies this`queue, this`server
      ensures Valid() && Model() == Processed(old(Model()))
    {
      while queue != []
        invariant Valid() && xkb == old(xkb) && added == old(added)
        invariant RunEvents(xkb, server, queue) == RunEvents(xkb, old(server), old(queue))
        decreases |queue|
      {
        server := Step(xkb, server, queue[0]);
        queue := queue[1..];
      }
    }

    // ---- The list of added keysyms

    /** Keeps the list in order of use; the most recent entry is recognised without a scan. */
    method OnKeyUsed(code: KeyCode)
      requires Valid()
      modifies this`added
      ensures Valid() && added == MoveToFront(old(added), code)
    {
      if added == [] {
        return;
      }
      if added[0].keycode == code {
        assert [added[0]] + added[..0] + added[1..] == added;
        return;
      }
      var i := 0;
      while i < |added|
        invariant i <= |added| && added == old(added)
        invariant IndexOf(added, code, i) == IndexOf(added, code, 0)
      {
        if added[i].keycode == code {
          added := [added[i]] + added[..i] + added[i + 1..];
          break;
        }
        i := i + 1;
      }
    }

    /** Takes the oldest keycode that is still ours; entries changed by others are dropped. */
    method GetReusableKeycode() returns (result: KeyCode)
      requires Valid()
      modifies this`added
      ensures Valid() && (result, added) == Reusable(xkb, old(added))
    {
      result := 0;
      while result == 0 && added != []
        invariant Valid()
        invariant if result == 0 then Reusable(xkb, added) == Reusable(xkb, old(added))
                  else (result, added) == Reusable(xkb, old(added))
        decreases |added|
      {
        var last := added[|added| - 1];
        if StillOurs(xkb, last) {
          result := last.keycode;
        }
        added := added[..|added| - 1];
      }
    }

    method AddNewKeysym(sym: KeySym) returns (k: KeyCode)
      requires Valid()
      modifies this`added, this`xkb
      ensures Valid()
      ensures var r := AddKeysym(old(xkb), old(added), sym);
              k == r.key && xkb == r.xkb && added == r.added
    {
      var key := xkb.maxKey;
      while key >= xkb.minKey && |xkb.keys[key].types| != 0
        invariant xkb.minKey - 1 <= key <= xkb.maxKey
        invariant FreeKey(xkb, key) == FreeKey(xkb, xkb.maxKey)
      {
        key := key - 1;
      }
      if key < xkb.minKey {
        key := GetReusableKeycode();
      }
      if key == 0 {
        return 0;
      }
      xkb := Assigned(xkb, key, sym);
      added := [AddedKeysym(xkb.cases.Lower(sym), key)] + added;
      return key;
    }

    // ---- Modifier keys

    method PressShift() returns (k: KeyCode)
      requires Valid()
      ensures k == ShiftToPress(xkb, StateOf(server))
    {
      var s := StateOf(server);
      if Shift in s.mods {
        return 0;
      }
      var key := xkb.minKey;
      while key <= xkb.maxKey
        invariant xkb.minKey <= key <= xkb.maxKey + 1
        invariant FirstShiftKey(xkb, s, key) == FirstShiftKey(xkb, s, xkb.minKey)
      {
        var act := KeyAction(xkb, key, s);
        if act.SetMods? {
          var mask := if act.useModMap then xkb.modmap[key] else act.mask;
          if mask * {Shift} == {Shift} {
            return key;
          }
        }
        key := key + 1;
      }
      return 0;
    }

    /** The loop both release functions share: the keys that are down and set a bit of `mask`. */
    method ReleaseKeys(mask: Mods) returns (keys: seq<KeyCode>)
      requires Valid()
      ensures keys == KeysToRelease(xkb, server, mask)
    {
      var s := StateOf(server);
      keys := [];
      if s.mods * mask == {} {
        return;
      }
      ghost var all := DownKeys(xkb, s, server.held.Keys, mask, xkb.minKey);
      var key := xkb.minKey;
      while key <= xkb.maxKey
        invariant xkb.minKey <= key <= xkb.maxKey + 1
        invariant |keys| <= MAX_RELEASED
        invariant keys + DownKeys(xkb, s, server.held.Keys, mask, key) == all
      {
        ghost var rest := DownKeys(xkb, s, server.held.Keys, mask, key);
        ghost var next := DownKeys(xkb, s, server.held.Keys, mask, key + 1);
        assert rest == if key in server.held && SetBy(xkb, key, s) * mask != {} then [key] + next else next;
        if key in server.held {
          var act := KeyAction(xkb, key, s);
          if act.SetMods? {
            var keyMask := if act.useModMap then xkb.modmap[key] else act.mask;
            if keyMask * mask != {} {
              assert keys + ([key] + next) == keys + [key] + next == all;
              if |keys| >= MAX_RELEASED {
                return [];
              }
              keys := keys + [key];
            }
          }
        }
        key := key + 1;
      }
    }

    method PressLevelThree() returns (k: KeyCode)
      requires Valid()
      ensures k == LevelThreeToPress(xkb, StateOf(server))
    {
      var s := StateOf(server);
      var mask := GetLevelThreeMask(xkb, s);
      if mask == {} || s.mods * mask != {} {
        return 0;
      }
      var ignored;
      k, ignored := KeysymToKeycode(xkb, s, XK_ISO_LEVEL3_SHIFT, s, false);
      if k == 0 {
        k, ignored := KeysymToKeycode(xkb, s, XK_MODE_SWITCH, s, false);
        if k == 0 {
          return 0;
        }
      }
      var act := KeyAction(xkb, k, s);
      if !act.SetMods? {
        return 0;
      }
    }

    // ---- Choosing the key

    /** Equivalent keysyms, tried in the order of the table. */
    method TryAlternatives(sym: KeySym, s: CoreState) returns (f: Found)
      requires Valid() && s == StateOf(server)
      ensures f == FirstAlternative(xkb, LevelThreeMask(xkb, s.group), s, alts, sym, 0)
    {
      ghost var l3 := LevelThreeMask(xkb, s.group);
      var i := 0;
      while i < |alts|
        invariant i <= |alts|
        invariant FirstAlternative(xkb, l3, s, alts, sym, i) == FirstAlternative(xkb, l3, s, alts, sym, 0)
      {
        if Pairs(alts[i], sym) {
          var k, t := KeysymToKeycode(xkb, s, OtherOf(alts[i], sym), s, true);
          if k != 0 {
            return Found(k, t);
          }
        }
        i := i + 1;
      }
      return Found(0, s);
    }

    /** The press would fake Shift on a key that NumLock governs. */
    method WouldFakeNumLock(s: CoreState, f: Found) returns (b: bool)
      requires Valid() && s == StateOf(server)
      ensures b == FakesNumLock(xkb, s, f)
    {
      if f.key == 0 || !HasGroups(xkb, f.key) || !ShiftDiffers(s, f.state) {
        return false;
      }
      b := IsAffectedByNumLock(xkb, s, f.key);
    }

    method FindUnaffected(sym: KeySym, s: CoreState) returns (f: Found)
      requires Valid() && s == StateOf(server)
      ensures f == FirstUnaffected(xkb, LevelThreeMask(xkb, s.group), s, alts, sym, 0)
    {
      ghost var l3 := LevelThreeMask(xkb, s.group);
      var i := 0;
      while i < |alts|
        invariant i <= |alts|
        invariant FirstUnaffected(xkb, l3, s, alts, sym, i) == FirstUnaffected(xkb, l3, s, alts, sym, 0)
      {
        if Pairs(alts[i], sym) {
          var k, t := KeysymToKeycode(xkb, s, OtherOf(alts[i], sym), s, true);
          if k != 0 {
            var fakes := WouldFakeNumLock(s, Found(k, t));
            if !fakes {
              return Found(k, t);
            }
          }
        }
        i := i + 1;
      }
      return Found(0, s);
    }

    /** An alternative that does not fake Shift on a key NumLock governs, if there is one. */
    method TryWithoutNumLock(sym: KeySym, s: CoreState, f: Found) returns (g: Found)
      requires Valid() && s == StateOf(server)
      ensures g == AvoidNumLock(xkb, LevelThreeMask(xkb, s.group), s, alts, sym, f)
    {
      g := f;
      var fakes := WouldFakeNumLock(s, f);
      if fakes {
        var other := FindUnaffected(sym, s);
        if other.key != 0 {
          g := other;
        }
      }
    }

    /** From the keysym to the key and the state to press it in, adding the keysym if need be. */
    method ChooseKey(sym: KeySym) returns (key: KeyCode, target: CoreState)
      requires Valid()
      modifies this`added, this`xkb
      ensures Valid()
      ensures var d := Decide(old(Model()), alts, sym); Model() == d.st && key == d.key && target == d.target
    {
      var s := StateOf(server);
      var f: Found;
      var k, t := KeysymToKeycode(xkb, s, sym, s, true);
      f := Found(k, t);
      if k == 0 {
        f := TryAlternatives(sym, s);
      }
      if f.key == 0 {
        k := AddNewKeysym(sym);
        if k == 0 {
          f := Found(0, s);
        } else {
          k, t := KeysymToKeycode(xkb, s, sym, s, true);
          f := Found(k, t);
        }
      }
      assert (Model(), f) == FindOrAdd(old(Model()), alts, sym);
      f := TryWithoutNumLock(sym, s, f);
      key, target := f.key, f.state;
      if sym == XK_TAB && Shift in s.mods {
        target := target.(mods := target.mods + {Shift});
      }
    }

    // ---- The event

    method QueueReleases(keys: seq<KeyCode>)
      requires Valid()
      modifies this`queue
      ensures Valid() && queue == old(queue) + Releases(keys)
    {
      var i := 0;
      while i < |keys|
        invariant 0 <= i <= |keys| && Valid()
        invariant queue == old(queue) + Releases(keys[..i])
      {
        assert Releases(keys[..i + 1]) == Releases(keys[..i]) + [KeyRelease(keys[i])];
        QueueKeyboardEvents(KeyRelease(keys[i]));
        i := i + 1;
      }
      assert keys[..i] == keys;
    }

    method QueuePresses(keys: seq<KeyCode>)
      requires Valid()
      modifies this`queue
      ensures Valid() && queue == old(queue) + Presses(keys)
    {
      var i := 0;
      while i < |keys|
        invariant 0 <= i <= |keys| && Valid()
        invariant queue == old(queue) + Presses(keys[..i])
      {
        assert Presses(keys[..i + 1]) == Presses(keys[..i]) + [KeyPress(keys[i])];
        QueueKeyboardEvents(KeyPress(keys[i]));
        i := i + 1;
      }
      assert keys[..i] == keys;
    }

    method StartShift(target: CoreState) returns (ok: bool, f: Fake)
      requires Valid() && queue == []
      modifies this`queue
      ensures Valid()
      ensures (ok, f) == FakeShift(xkb, server, target)
      ensures queue == Start(f)
    {
      var s := StateOf(server);
      if Shift !in s.mods && Shift in target.mods {
        var k := PressShift();
        if k == 0 {
          return false, NO_FAKE;
        }
        QueueKeyboardEvents(KeyPress(k));
        return true, Fake(k, []);
      } else if Shift in s.mods && Shift !in target.mods {
        var keys := ReleaseKeys({Shift});
        if keys == [] {
          return false, NO_FAKE;
        }
        QueueReleases(keys);
        return true, Fake(0, keys);
      }
      return true, NO_FAKE;
    }

    method StartLevelThree(target: CoreState) returns (ok: bool, f: Fake)
      requires Valid()
      modifies this`queue
      ensures Valid()
      ensures (ok, f) == FakeLevelThree(xkb, server, target)
      ensures queue == old(queue) + Start(f)
    {
      var s := StateOf(server);
      if target.mods - {Shift} == s.mods - {Shift} {
        return true, NO_FAKE;
      }
      var l3 := GetLevelThreeMask(xkb, s);
      if s.mods * l3 == {} && target.mods * l3 != {} {
        var k := PressLevelThree();
        if k == 0 {
          return false, NO_FAKE;
        }
        QueueKeyboardEvents(KeyPress(k));
        return true, Fake(k, []);
      } else if s.mods * l3 != {} && target.mods * l3 == {} {
        var keys := ReleaseKeys(l3);
        if keys == [] {
          return false, NO_FAKE;
        }
        QueueReleases(keys);
        return true, Fake(0, keys);
      }
      return true, NO_FAKE;
    }

    /** Queues the fake modifier events that lead from the current state to `target`. */
    method FakeModifiers(target: CoreState) returns (ok: bool, fakes: Fakes)
      requires Valid() && queue == []
      modifies this`queue
      ensures Valid()
      ensures FakePlan(ok, fakes) == PlanFakes(xkb, old(server), target)
      ensures queue == Before(fakes)
    {
      var shift, l3;
      ok, shift := StartShift(target);
      if !ok {
        return false, Fakes(shift, NO_FAKE);
      }
      ok, l3 := StartLevelThree(target);
      return ok, Fakes(shift, l3);
    }

    method UndoFake(f: Fake)
      requires Valid()
      modifies this`queue
      ensures Valid() && queue == old(queue) + Undo(f)
    {
      if f.press != 0 {
        QueueKeyboardEvents(KeyRelease(f.press));
      } else if |f.released| != 0 {
        QueuePresses(f.released);
      }
    }

    /** Remembers which key was pressed for `sym`; any other key recorded for it is forgotten. */
    method RecordPressed(key: KeyCode, sym: KeySym)
      requires Valid()
      modifies pressed
      ensures Valid() && pressed[..] == RecordPress(old(pressed[..]), key, sym)
    {
      var i := 0;
      while i < 256
        invariant 0 <= i <= 256
        invariant forall j :: 0 <= j < 256 ==>
          pressed[j] == (if j < i && j != key && old(pressed[j]) == sym then NO_SYMBOL else old(pressed[j]))
      {
        if i != key && pressed[i] == sym {
          pressed[i] := NO_SYMBOL;
        }
        i := i + 1;
      }
      pressed[key] := sym;
      assert pressed[..] == RecordPress(old(pressed[..]), key, sym);
    }

    /** The release branch: the key that was pressed for `sym` goes up. */
    method KeysymUp(sym: KeySym)
      requires Valid()
      modifies this, pressed
      ensures Valid() && Model() == Release(old(Model()), sym)
    {
      var i := 0;
      while i < 256
        invariant 0 <= i <= 256 && Valid() && Model() == old(Model())
        invariant FirstIndex(pressed[..], sym, i) == FirstIndex(pressed[..], sym, 0)
      {
        if pressed[i] == sym {
          pressed[i] := NO_SYMBOL;
          assert pressed[..] == old(pressed[..])[i := NO_SYMBOL];
          QueueKeyboardEvents(KeyRelease(i));
          ProcessInputEvents();
          return;
        }
        i := i + 1;
      }
    }

    /** The key itself, between the fakes and their undoing. */
    method PressAndUndo(sym: KeySym, key: KeyCode, fakes: Fakes)
      requires Valid() && queue == Before(fakes)
      modifies this`queue, this`added, pressed
      ensures Valid() && queue == PressEvents(fakes, key)
      ensures added == MoveToFront(old(added), key)
      ensures pressed[..] == RecordPress(old(pressed[..]), key, sym)
    {
      QueueKeyboardEvents(KeyPress(key));
      OnKeyUsed(key);
      RecordPressed(key, sym);
      UndoFake(fakes.l3);
      UndoFake(fakes.shift);
    }

    /** Fakes the modifiers, presses the key and undoes the fakes. */
    method PressKey(sym: KeySym, key: KeyCode, target: CoreState)
      requires Valid() && queue == []
      modifies this, pressed
      ensures Valid() && Model() == Deliver(old(Model()), sym, key, target)
    {
      var ok, fakes := FakeModifiers(target);
      if ok {
        PressAndUndo(sym, key, fakes);
        ProcessInputEvents();
      }
    }

    /** The press branch. */
    method KeysymDown(sym: KeySym)
      requires Valid()
      modifies this, pressed
      ensures Valid() && Model() == Press(old(Model()), alts, sym)
    {
      ProcessInputEvents();
      var key, target := ChooseKey(sym);
      if key != 0 {
        PressKey(sym, key, target);
      }
    }

    method KeysymKeyboardEvent(sym: KeySym, down: bool)
      requires Valid()
      modifies this, pressed
      ensures Valid()
      ensures Model() == if down then Press(old(Model()), alts, sym) else Release(old(Model()), sym)
    {
      if down {
        KeysymDown(sym);
      } else {
        KeysymUp(sym);
      }
    }
  }
}
