/** What the X server does with key events: which keys are down and which modifiers each of them sets
    while it is down (the SetMods action it had when it was pressed). */
module KeyboardServer {
  import opened Xkb

  datatype Event = KeyPress(key: KeyCode) | KeyRelease(key: KeyCode)

  /** `locked` are the modifiers that are on without any key being held. */
  datatype Server = Server(held: map<KeyCode, Mods>, locked: Mods, group: Group)

  function HeldMods(held: map<KeyCode, Mods>): Mods {
    set k, m | k in held && m in held[k] :: m
  }

  /** The core state clients and the source see. */
  function StateOf(srv: Server): CoreState {
    CoreState(srv.locked + HeldMods(srv.held), srv.group)
  }

  /** A key that is already down only repeats. */
  function Step(xkb: Keymap, srv: Server, e: Event): Server
    requires WellFormed(xkb)
  {
    match e
    case KeyPress(k) => if k in srv.held then srv else srv.(held := srv.held[k := SetBy(xkb, k, StateOf(srv))])
    case KeyRelease(k) => srv.(held := srv.held - {k})
  }

  function RunEvents(xkb: Keymap, srv: Server, events: seq<Event>): Server
    requires WellFormed(xkb)
    decreases |events|
  {
    if events == [] then srv else RunEvents(xkb, Step(xkb, srv, events[0]), events[1..])
  }

  function Presses(keys: seq<KeyCode>): seq<Event> {
    seq(|keys|, i requires 0 <= i < |keys| => KeyPress(keys[i]))
  }

  function Releases(keys: seq<KeyCode>): seq<Event> {
    seq(|keys|, i requires 0 <= i < |keys| => KeyRelease(keys[i]))
  }

  function Keys(keys: seq<KeyCode>): set<KeyCode> {
    set k | k in keys
  }

  lemma {:induction false} RunConcat(xkb: Keymap, srv: Server, a: seq<Event>, b: seq<Event>)
    requires WellFormed(xkb)
    ensures RunEvents(xkb, srv, a + b) == RunEvents(xkb, RunEvents(xkb, srv, a), b)
    decreases |a|
  {
    if a == [] {
      assert a + b == b;
    } else {
      assert (a + b)[0] == a[0] && (a + b)[1..] == a[1..] + b;
      RunConcat(xkb, Step(xkb, srv, a[0]), a[1..], b);
    }
  }

  lemma {:induction false} RunReleases(xkb: Keymap, srv: Server, keys: seq<KeyCode>)
    requires WellFormed(xkb)
    ensures RunEvents(xkb, srv, Releases(keys)) == srv.(held := srv.held - Keys(keys))
    decreases |keys|
  {
    if keys == [] {
      assert srv.held - Keys(keys) == srv.held;
    } else {
      var next := Step(xkb, srv, KeyRelease(keys[0]));
      assert Releases(keys)[1..] == Releases(keys[1..]);
      RunReleases(xkb, next, keys[1..]);
      assert Keys(keys) == {keys[0]} + Keys(keys[1..]);
      assert next.held - Keys(keys[1..]) == srv.held - Keys(keys);
    }
  }

  // ---- Modifier keys

  /** In group `g`, a key that can ever set a bit of `mask` sets exactly `mask`, whatever other
      modifiers are on. */
  ghost predicate KeysSetExactly(xkb: Keymap, g: Group, mask: Mods)
    requires WellFormed(xkb)
  {
    forall k: KeyCode, a: Mods, b: Mods ::
      SetBy(xkb, k, CoreState(a, g)) * mask != {} ==> SetBy(xkb, k, CoreState(b, g)) == mask
  }

  predicate IsModifierKey(xkb: Keymap, g: Group, mask: Mods, k: KeyCode)
    requires WellFormed(xkb)
  {
    SetBy(xkb, k, CoreState({}, g)) * mask != {}
  }

  /** The bits of `mask` come from held keys only: none is locked, and a held key sets some of them
      exactly when it is a key for `mask`, and then it sets them all and nothing else. */
  predicate FromHeldKeys(xkb: Keymap, srv: Server, mask: Mods)
    requires WellFormed(xkb)
  {
    && srv.locked * mask == {}
    && forall k :: k in srv.held ==>
         if IsModifierKey(xkb, srv.group, mask, k) then srv.held[k] == mask else srv.held[k] * mask == {}
  }

  lemma ModifierKeyInAnyState(xkb: Keymap, g: Group, mask: Mods, k: KeyCode, mods: Mods)
    requires WellFormed(xkb) && KeysSetExactly(xkb, g, mask) && mask != {}
    ensures IsModifierKey(xkb, g, mask, k) <==> SetBy(xkb, k, CoreState(mods, g)) * mask != {}
    ensures IsModifierKey(xkb, g, mask, k) <==> SetBy(xkb, k, CoreState(mods, g)) == mask
  {
    assert mask * mask == mask;
  }

  lemma HeldBit(held: map<KeyCode, Mods>, k: KeyCode, m: Modifier)
    requires k in held && m in held[k]
    ensures m in HeldMods(held)
  {
  }

  /** Pressing a key for `mask` turns on exactly that mask. */
  lemma PressSets(xkb: Keymap, srv: Server, mask: Mods, k: KeyCode)
    requires WellFormed(xkb) && mask != {} && KeysSetExactly(xkb, srv.group, mask) && FromHeldKeys(xkb, srv, mask)
    requires IsModifierKey(xkb, srv.group, mask, k) && StateOf(srv).mods * mask == {}
    ensures k !in srv.held
    ensures var next := Step(xkb, srv, KeyPress(k));
            next == srv.(held := srv.held[k := mask]) && StateOf(next).mods == StateOf(srv).mods + mask
  {
    var m :| m in mask;
    assert forall b :: b in mask && b in StateOf(srv).mods ==> b in StateOf(srv).mods * mask;
    if k in srv.held {
      HeldBit(srv.held, k, m);
    }
    ModifierKeyInAnyState(xkb, srv.group, mask, k, StateOf(srv).mods);
    var next := srv.(held := srv.held[k := mask]);
    forall b | b in StateOf(srv).mods + mask
      ensures b in StateOf(next).mods
    {
      if b in mask {
        HeldBit(next.held, k, b);
      } else if b !in srv.locked {
        var j :| j in srv.held && b in srv.held[j];
        HeldBit(next.held, j, b);
      }
    }
  }

  /** Releasing every held key for `mask` turns off exactly that mask. */
  lemma ReleaseClears(xkb: Keymap, srv: Server, mask: Mods, keys: set<KeyCode>)
    requires WellFormed(xkb) && FromHeldKeys(xkb, srv, mask)
    requires forall k :: k in keys <==> k in srv.held && IsModifierKey(xkb, srv.group, mask, k)
    ensures StateOf(srv.(held := srv.held - keys)).mods == StateOf(srv).mods - mask
  {
    var next := srv.(held := srv.held - keys);
    forall b | b in StateOf(next).mods
      ensures b in StateOf(srv).mods - mask
    {
      if b in srv.locked {
        assert b !in srv.locked * mask;
      } else {
        var j :| j in next.held && b in next.held[j];
        HeldBit(srv.held, j, b);
        assert b !in srv.held[j] * mask;
      }
    }
    forall b | b in StateOf(srv).mods - mask
      ensures b in StateOf(next).mods
    {
      if b !in srv.locked {
        var j :| j in srv.held && b in srv.held[j];
        HeldBit(next.held, j, b);
      }
    }
  }

  /** Holding or releasing keys for one mask does not disturb another, disjoint one. */
  lemma OtherMaskUndisturbed(xkb: Keymap, srv: Server, mask: Mods, other: Mods, k: KeyCode)
    requires WellFormed(xkb) && FromHeldKeys(xkb, srv, other) && mask * other == {}
    requires KeysSetExactly(xkb, srv.group, mask) && IsModifierKey(xkb, srv.group, mask, k)
    ensures FromHeldKeys(xkb, srv.(held := srv.held[k := mask]), other)
  {
    assert SetBy(xkb, k, CoreState({}, srv.group)) == mask;
  }

  lemma ReleaseKeepsMask(xkb: Keymap, srv: Server, mask: Mods, keys: set<KeyCode>)
    requires WellFormed(xkb) && FromHeldKeys(xkb, srv, mask)
    ensures FromHeldKeys(xkb, srv.(held := srv.held - keys), mask)
  {
  }

  function Holding(keys: set<KeyCode>, mask: Mods): map<KeyCode, Mods> {
    map k | k in keys :: mask
  }

  lemma HoldingAnother(held: map<KeyCode, Mods>, keys: seq<KeyCode>, mask: Mods)
    requires keys != []
    ensures held[keys[0] := mask] + Holding(Keys(keys[1..]), mask) == held + Holding(Keys(keys), mask)
  {
    assert keys == [keys[0]] + keys[1..];
  }

  /** Pressing keys for `mask` again holds them as before. */
  lemma {:induction false} RunPresses(xkb: Keymap, srv: Server, mask: Mods, keys: seq<KeyCode>)
    requires WellFormed(xkb) && mask != {} && KeysSetExactly(xkb, srv.group, mask)
    requires forall k :: k in keys ==> IsModifierKey(xkb, srv.group, mask, k)
    requires forall k :: k in keys && k in srv.held ==> srv.held[k] == mask
    ensures RunEvents(xkb, srv, Presses(keys)) == srv.(held := srv.held + Holding(Keys(keys), mask))
    decreases |keys|
  {
    if keys == [] {
      assert srv.held + Holding({}, mask) == srv.held;
    } else {
      ModifierKeyInAnyState(xkb, srv.group, mask, keys[0], StateOf(srv).mods);
      var next := srv.(held := srv.held[keys[0] := mask]);
      assert Step(xkb, srv, KeyPress(keys[0])) == next by {
        if keys[0] in srv.held {
          assert next.held == srv.held;
        }
      }
      assert Presses(keys)[1..] == Presses(keys[1..]);
      RunPresses(xkb, next, mask, keys[1..]);
      HoldingAnother(srv.held, keys, mask);
    }
  }
}
