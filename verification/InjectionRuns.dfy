/** What holds over whole runs of key events: releases match presses, typed characters leave nothing
    behind, the original layout is never damaged, and recycling takes the least recently used key. */
module InjectionRuns {
  import opened Common
  import opened Xkb
  import opened AddedKeysyms
  import opened KeyboardServer
  import opened Injection
  import opened InjectionProofs
  import opened PressTheorems
  import opened SaneLayouts

  /** What can happen to the injector: keysym events, events of the hardware keyboard, the server working off its
      queue, and other clients editing the keymap. */
  datatype Input =
    | KeysymDown(sym: KeySym) | KeysymUp(sym: KeySym) | Hardware(event: Event) | Process | Edit(xkb: Keymap)

  predicate ValidInput(i: Input) {
    i.Edit? ==> WellFormed(i.xkb) && HasCanonicalTypes(i.xkb)
  }

  function AfterInput(st: Injector, alts: AltTable, i: Input): (r: Injector)
    requires Injection.Valid(st) && ValidInput(i)
    ensures Injection.Valid(r)
  {
    match i
    case KeysymDown(sym) => Press(st, alts, sym)
    case KeysymUp(sym) => Release(st, sym)
    case Hardware(e) => st.(queue := st.queue + [e])
    case Process => Processed(st)
    case Edit(xkb) => st.(xkb := xkb)
  }

  function AfterAll(st: Injector, alts: AltTable, inputs: seq<Input>): (r: Injector)
    requires Injection.Valid(st) && forall i :: i in inputs ==> ValidInput(i)
    ensures Injection.Valid(r)
    decreases |inputs|
  {
    if inputs == [] then st else AfterAll(AfterInput(st, alts, inputs[0]), alts, inputs[1..])
  }

  /** An event of the hardware keyboard goes behind those that are queued, and the server works them off from the
      first on; nothing else changes. */
  lemma HardwareGoesLast(st: Injector, alts: AltTable, e: Event)
    requires Injection.Valid(st)
    ensures AfterInput(st, alts, Hardware(e)) == st.(queue := st.queue + [e])
    ensures AfterInput(AfterInput(st, alts, Hardware(e)), alts, Process) ==
            st.(server := Step(st.xkb, RunEvents(st.xkb, st.server, st.queue), e), queue := [])
  {
    RunConcat(st.xkb, st.server, st.queue, [e]);
    assert [e][1..] == [];
  }

  // ---- Releases match presses

  /** No keysym but NoSymbol is recorded for two keys. */
  predicate OneKeyEach(pressed: seq<KeySym>) {
    forall i, j :: 0 <= i < j < |pressed| && pressed[i] == pressed[j] ==> pressed[i] == NO_SYMBOL
  }

  /** What a press does to the record, in every case. */
  lemma PressRecords(st: Injector, alts: AltTable, sym: KeySym)
    requires Injection.Valid(st)
    ensures var d := Decide(Processed(st), alts, sym);
            Press(st, alts, sym).pressed == if ReachesTheKey(d) then RecordPress(st.pressed, d.key, sym) else st.pressed
  {
    DecisionIsRight(Processed(st), alts, sym);
  }

  lemma {:induction false} OneKeyEachAlways(st: Injector, alts: AltTable, inputs: seq<Input>)
    requires Injection.Valid(st) && forall i :: i in inputs ==> ValidInput(i)
    requires OneKeyEach(st.pressed)
    ensures OneKeyEach(AfterAll(st, alts, inputs).pressed)
    decreases |inputs|
  {
    if inputs != [] {
      if inputs[0].KeysymDown? {
        PressRecords(st, alts, inputs[0].sym);
      }
      OneKeyEachAlways(AfterInput(st, alts, inputs[0]), alts, inputs[1..]);
    }
  }

  /** The key that an input presses for a keysym, if it gets that far. */
  ghost function KeyPressed(st: Injector, alts: AltTable, i: Input): Option<KeyCode>
    requires Injection.Valid(st)
  {
    if !i.KeysymDown? then None
    else
      var d := Decide(Processed(st), alts, i.sym);
      if ReachesTheKey(d) then Some(d.key) else None
  }

  /** Where `sym` is recorded after an input, if it was recorded for `key` before: the last key pressed for it
      that was not released since, nor pressed for another keysym. */
  ghost function Recorded(st: Injector, alts: AltTable, i: Input, sym: KeySym, key: Option<KeyCode>): Option<KeyCode>
    requires Injection.Valid(st)
  {
    var pressed := KeyPressed(st, alts, i);
    if i == KeysymUp(sym) then None
    else if pressed.None? then key
    else if i.sym == sym then pressed
    else if key == pressed then None
    else key
  }

  ghost function RecordedAfter(st: Injector, alts: AltTable, inputs: seq<Input>, sym: KeySym, key: Option<KeyCode>)
    : Option<KeyCode>
    requires Injection.Valid(st) && forall i :: i in inputs ==> ValidInput(i)
    decreases |inputs|
  {
    if inputs == [] then key
    else
      var next := Recorded(st, alts, inputs[0], sym, key);
      RecordedAfter(AfterInput(st, alts, inputs[0]), alts, inputs[1..], sym, next)
  }

  /** `sym` is recorded for that key alone, or for none. */
  predicate RecordedFor(pressed: seq<KeySym>, sym: KeySym, key: Option<KeyCode>) {
    |pressed| == 256 &&
    forall k :: 0 <= k < 256 ==> (pressed[k] == sym <==> key == Some(k))
  }

  lemma PressingRecords(pressed: seq<KeySym>, k: KeyCode, other: KeySym, sym: KeySym, key: Option<KeyCode>)
    requires sym != NO_SYMBOL && RecordedFor(pressed, sym, key)
    ensures RecordedFor(RecordPress(pressed, k, other), sym,
                        if other == sym then Some(k) else if key == Some(k) then None else key)
  {
  }

  lemma ForgettingRecords(pressed: seq<KeySym>, k: KeyCode, sym: KeySym, key: Option<KeyCode>)
    requires sym != NO_SYMBOL && RecordedFor(pressed, sym, key)
    ensures RecordedFor(pressed[k := NO_SYMBOL], sym, if pressed[k] == sym then None else key)
  {
  }

  lemma InputRecords(st: Injector, alts: AltTable, i: Input, sym: KeySym, key: Option<KeyCode>)
    requires Injection.Valid(st) && ValidInput(i)
    requires sym != NO_SYMBOL && RecordedFor(st.pressed, sym, key)
    ensures RecordedFor(AfterInput(st, alts, i).pressed, sym, Recorded(st, alts, i, sym, key))
  {
    match i
    case KeysymDown(other) =>
      PressRecords(st, alts, other);
      var d := Decide(Processed(st), alts, other);
      PressingRecords(st.pressed, d.key, other, sym, key);
    case KeysymUp(other) =>
      var k := FirstIndex(st.pressed, other, 0);
      assert AfterInput(st, alts, i).pressed == if k == 256 then st.pressed else st.pressed[k := NO_SYMBOL];
      if k < 256 {
        ForgettingRecords(st.pressed, k, sym, key);
      }
    case Hardware(_) =>
    case Process =>
    case Edit(_) =>
  }

  /** Over any run, a keysym is recorded for the last key pressed for it, unless it was released since or the
      key was pressed for another keysym; other clients' edits and hardware keys do not matter. */
  lemma {:induction false} RecordIsFollowed(st: Injector, alts: AltTable, inputs: seq<Input>, sym: KeySym, key: Option<KeyCode>)
    requires Injection.Valid(st) && forall i :: i in inputs ==> ValidInput(i)
    requires sym != NO_SYMBOL && RecordedFor(st.pressed, sym, key)
    ensures RecordedFor(AfterAll(st, alts, inputs).pressed, sym, RecordedAfter(st, alts, inputs, sym, key))
    decreases |inputs|
  {
    if inputs != [] {
      InputRecords(st, alts, inputs[0], sym, key);
      RecordIsFollowed(AfterInput(st, alts, inputs[0]), alts, inputs[1..], sym, Recorded(st, alts, inputs[0], sym, key));
    }
  }

  /** What a release does, by the record. */
  lemma ReleaseByRecord(st: Injector, sym: KeySym, key: Option<KeyCode>)
    requires Injection.Valid(st) && RecordedFor(st.pressed, sym, key)
    ensures Release(st, sym) ==
            if key.None? then st
            else Processed(st.(queue := st.queue + [KeyRelease(key.value)], pressed := st.pressed[key.value := NO_SYMBOL]))
  {
    var k := FirstIndex(st.pressed, sym, 0);
    assert key.Some? ==> st.pressed[key.value] == sym;
    assert k < 256 ==> key == Some(k);
  }

  /** The inputs neither press nor release `sym`. */
  predicate AboutOthers(inputs: seq<Input>, sym: KeySym) {
    forall i :: i in inputs ==> i != KeysymDown(sym) && i != KeysymUp(sym)
  }

  /** Some press in the run reaches `key`. */
  ghost predicate KeyIsTaken(st: Injector, alts: AltTable, inputs: seq<Input>, key: KeyCode)
    requires Injection.Valid(st) && forall i :: i in inputs ==> ValidInput(i)
    decreases |inputs|
  {
    inputs != [] &&
    (|| KeyPressed(st, alts, inputs[0]) == Some(key)
     || KeyIsTaken(AfterInput(st, alts, inputs[0]), alts, inputs[1..], key))
  }

  lemma OtherInput(st: Injector, alts: AltTable, i: Input, sym: KeySym, key: Option<KeyCode>)
    requires Injection.Valid(st) && i != KeysymDown(sym) && i != KeysymUp(sym)
    ensures Recorded(st, alts, i, sym, key) == if key.Some? && KeyPressed(st, alts, i) == key then None else key
  {
  }

  lemma OtherInputs(inputs: seq<Input>, sym: KeySym)
    requires inputs != [] && AboutOthers(inputs, sym) && forall i :: i in inputs ==> ValidInput(i)
    ensures inputs[0] != KeysymDown(sym) && inputs[0] != KeysymUp(sym) && ValidInput(inputs[0])
    ensures AboutOthers(inputs[1..], sym) && forall i :: i in inputs[1..] ==> ValidInput(i)
  {
    assert inputs[0] in inputs && forall i :: i in inputs[1..] ==> i in inputs;
  }

  lemma {:induction false} OnceGone(st: Injector, alts: AltTable, inputs: seq<Input>, sym: KeySym)
    requires Injection.Valid(st) && (forall i :: i in inputs ==> ValidInput(i)) && AboutOthers(inputs, sym)
    ensures RecordedAfter(st, alts, inputs, sym, None) == None
    decreases |inputs|
  {
    if inputs != [] {
      OtherInputs(inputs, sym);
      OtherInput(st, alts, inputs[0], sym, None);
      OnceGone(AfterInput(st, alts, inputs[0]), alts, inputs[1..], sym);
    }
  }

  lemma {:induction false} UntilTaken(st: Injector, alts: AltTable, inputs: seq<Input>, key: KeyCode, sym: KeySym)
    requires Injection.Valid(st) && (forall i :: i in inputs ==> ValidInput(i)) && AboutOthers(inputs, sym)
    ensures RecordedAfter(st, alts, inputs, sym, Some(key)) == if KeyIsTaken(st, alts, inputs, key) then None else Some(key)
    decreases |inputs|
  {
    if inputs != [] {
      OtherInputs(inputs, sym);
      OtherInput(st, alts, inputs[0], sym, Some(key));
      var next := AfterInput(st, alts, inputs[0]);
      if KeyPressed(st, alts, inputs[0]) == Some(key) {
        OnceGone(next, alts, inputs[1..], sym);
      } else {
        UntilTaken(next, alts, inputs[1..], key, sym);
      }
    }
  }

  /** The release of a keysym lets go of the key recorded at its press exactly when no press in between reached
      that key for another keysym; if one did, the release does nothing. Hardware keys, changes of the keymap and
      what happens to other keys do not matter. */
  lemma ReleaseMatchesPress(st: Injector, alts: AltTable, inputs: seq<Input>, key: KeyCode, sym: KeySym)
    requires Injection.Valid(st) && (forall i :: i in inputs ==> ValidInput(i)) && AboutOthers(inputs, sym)
    requires OneKeyEach(st.pressed) && sym != NO_SYMBOL && st.pressed[key] == sym
    ensures var last := AfterAll(st, alts, inputs);
            && (last.pressed[key] == sym <==> !KeyIsTaken(st, alts, inputs, key))
            && Release(last, sym) ==
               if KeyIsTaken(st, alts, inputs, key) then last
               else Processed(last.(queue := last.queue + [KeyRelease(key)], pressed := last.pressed[key := NO_SYMBOL]))
  {
    RecordIsFollowed(st, alts, inputs, sym, Some(key));
    UntilTaken(st, alts, inputs, key, sym);
    ReleaseByRecord(AfterAll(st, alts, inputs), sym, RecordedAfter(st, alts, inputs, sym, Some(key)));
  }

  // ---- Typed characters

  /** EVENT_UNICODE: the keysym is pressed and released at once. */
  function TypeKeysym(st: Injector, alts: AltTable, sym: KeySym): (r: Injector)
    requires Injection.Valid(st)
    ensures Injection.Valid(r)
  {
    Release(Press(st, alts, sym), sym)
  }

  function TypeAll(st: Injector, alts: AltTable, syms: seq<KeySym>): (r: Injector)
    requires Injection.Valid(st)
    ensures Injection.Valid(r)
    decreases |syms|
  {
    if syms == [] then st else TypeAll(TypeKeysym(st, alts, syms[0]), alts, syms[1..])
  }

  predicate NothingPressed(pressed: seq<KeySym>) {
    forall i :: 0 <= i < |pressed| ==> pressed[i] == NO_SYMBOL
  }

  lemma RecordAndForget(pressed: seq<KeySym>, key: KeyCode, sym: KeySym)
    requires |pressed| == 256 && NothingPressed(pressed)
    ensures var r := RecordPress(pressed, key, sym);
            var k := FirstIndex(r, sym, 0);
            k < 256 && NothingPressed(r[k := NO_SYMBOL])
  {
    var r := RecordPress(pressed, key, sym);
    var k := FirstIndex(r, sym, 0);
    assert r[key] == sym;
    assert sym != NO_SYMBOL ==> k == key;
  }

  lemma TypingOneLeavesNoRecord(st: Injector, alts: AltTable, sym: KeySym)
    requires Injection.Valid(st) && NothingPressed(st.pressed)
    ensures NothingPressed(TypeKeysym(st, alts, sym).pressed)
  {
    PressRecords(st, alts, sym);
    var d := Decide(Processed(st), alts, sym);
    if ReachesTheKey(d) {
      RecordAndForget(st.pressed, d.key, sym);
    }
    var mid := Press(st, alts, sym);
    var k := FirstIndex(mid.pressed, sym, 0);
    assert TypeKeysym(st, alts, sym).pressed == if k == 256 then mid.pressed else mid.pressed[k := NO_SYMBOL];
  }

  /** After any typing nothing is recorded as pressed. */
  lemma {:induction false} TypingLeavesNoRecord(st: Injector, alts: AltTable, syms: seq<KeySym>)
    requires Injection.Valid(st) && NothingPressed(st.pressed)
    ensures NothingPressed(TypeAll(st, alts, syms).pressed)
    decreases |syms|
  {
    if syms != [] {
      TypingOneLeavesNoRecord(st, alts, syms[0]);
      TypingLeavesNoRecord(TypeKeysym(st, alts, syms[0]), alts, syms[1..]);
    }
  }

  lemma ReleaseAlone(st: Injector, sym: KeySym, key: KeyCode)
    requires Injection.Valid(st) && st.queue == [] && FirstIndex(st.pressed, sym, 0) == key
    ensures Release(st, sym).server == st.server.(held := st.server.held - {key})
  {
    var events := st.queue + [KeyRelease(key)];
    assert events[1..] == [];
    assert RunEvents(st.xkb, st.server, events) == Step(st.xkb, st.server, KeyRelease(key));
  }

  lemma HeldWithout(held: map<KeyCode, Mods>, key: KeyCode, mods: Mods)
    ensures WithKey(held, key, mods) - {key} == held - {key}
    ensures held - {key} == held <==> key !in held
  {
    if key in held {
      assert key !in held - {key};
    } else {
      assert held - {key} == held;
    }
  }

  lemma ReleaseUndoes(r: Injector, pressed: seq<KeySym>, srv: Server, sym: KeySym, key: KeyCode, mods: Mods)
    requires Injection.Valid(r) && r.queue == [] && |pressed| == 256 && sym != NO_SYMBOL
    requires r.pressed == RecordPress(pressed, key, sym)
    requires r.server in {srv, srv.(held := WithKey(srv.held, key, mods))}
    ensures Release(r, sym).server == srv.(held := srv.held - {key})
    ensures srv.(held := srv.held - {key}) == srv <==> key !in srv.held
  {
    var j := FirstIndex(r.pressed, sym, 0);
    assert RecordPress(pressed, key, sym)[key] == sym;
    assert RecordPress(pressed, key, sym)[j] == sym ==> j == key;
    ReleaseAlone(r, sym, key);
    HeldWithout(srv.held, key, mods);
  }

  /** Typing one keysym whose press reaches its key leaves the keyboard as it was, except that the key used for
      it ends up released: nothing at all changes if and only if that key was not down before. */
  lemma TypingLeavesKeyboard(st: Injector, alts: AltTable, sym: KeySym, l3: Mods)
    requires Injection.Valid(st) && sym != NO_SYMBOL
    ensures var d := Decide(Processed(st), alts, sym);
            var srv := Processed(st).server;
            var r := TypeKeysym(st, alts, sym);
            Sane(st, l3) && ReachesTheKey(d) ==>
              && r.queue == [] && r.server == srv.(held := srv.held - {d.key})
              && (r.server == srv <==> d.key !in srv.held)
  {
    var d := Decide(Processed(st), alts, sym);
    if Sane(st, l3) && ReachesTheKey(d) {
      PressEffect(st, alts, sym, l3);
      var r, srv := Press(st, alts, sym), Processed(st).server;
      ReleaseUndoes(r, st.pressed, srv, sym, d.key, SetBy(d.st.xkb, d.key, d.target));
    }
  }

  /** The keyboard that a press leaves which does not reach its key, once its events are processed. */
  function LeftByFailure(d: Decision): Server
    requires Injection.Valid(d.st)
  {
    var srv := d.st.server;
    if d.key == 0 then srv
    else srv.(held := HeldAfter(srv.held, {Shift}, FakeShift(d.st.xkb, srv, d.target).1))
  }

  /** The queue of a press that fails holds what leads there. */
  lemma FailureLeaves(st: Injector, alts: AltTable, sym: KeySym, l3: Mods)
    requires Injection.Valid(st)
    ensures var d := Decide(Processed(st), alts, sym);
            var r := Press(st, alts, sym);
            Sane(st, l3) && !ReachesTheKey(d) ==>
              && r.pressed == st.pressed && r.xkb == d.st.xkb
              && RunEvents(r.xkb, r.server, r.queue) == LeftByFailure(d)
              && (LeftByFailure(d) == d.st.server <==>
                  d.key == 0 || !ShiftDiffers(StateOf(d.st.server), d.target)
                  || !FakeShift(d.st.xkb, d.st.server, d.target).0)
  {
    var d := Decide(Processed(st), alts, sym);
    if Sane(st, l3) && !ReachesTheKey(d) {
      SaneDecision(st, alts, sym, l3);
      PressRecords(st, alts, sym);
      if d.key == 0 {
        assert Press(st, alts, sym) == d.st;
      } else {
        FailedPressLeavesShift(st, alts, sym, l3);
      }
    }
  }

  /** Typing one keysym whose press does not reach its key: a fake Shift that was started stays, and the release
      lets go of the key that was recorded for the keysym before, if there was one. With nothing recorded,
      the keyboard is as before exactly if no key was found, or Shift did not have to change or could not. */
  lemma FailedTypingLeavesKeyboard(st: Injector, alts: AltTable, sym: KeySym, l3: Mods, key: Option<KeyCode>)
    requires Injection.Valid(st) && RecordedFor(st.pressed, sym, key)
    ensures var d := Decide(Processed(st), alts, sym);
            var srv, left := Processed(st).server, LeftByFailure(d);
            var end := Processed(TypeKeysym(st, alts, sym)).server;
            Sane(st, l3) && !ReachesTheKey(d) ==>
              && end == (if key.None? then left else left.(held := left.held - {key.value}))
              && (key.None? ==>
                   (end == srv <==>
                    d.key == 0 || !ShiftDiffers(StateOf(srv), d.target) || !FakeShift(d.st.xkb, srv, d.target).0))
  {
    var d := Decide(Processed(st), alts, sym);
    if Sane(st, l3) && !ReachesTheKey(d) {
      FailureLeaves(st, alts, sym, l3);
      SaneDecision(st, alts, sym, l3);
      var r := Press(st, alts, sym);
      ReleaseByRecord(r, sym, key);
      if key.Some? {
        var up := [KeyRelease(key.value)];
        RunConcat(r.xkb, r.server, r.queue, up);
        assert up[1..] == [];
      }
    }
  }

  // ---- A sane keyboard stays sane

  predicate NoEdits(inputs: seq<Input>) {
    forall i :: i in inputs ==> !i.Edit?
  }

  lemma InputStaysSane(st: Injector, alts: AltTable, i: Input, l3: Mods)
    requires Injection.Valid(st) && ValidInput(i) && !i.Edit? && Sane(st, l3)
    ensures Sane(AfterInput(st, alts, i), l3)
  {
    match i
    case KeysymDown(sym) => PressStaysSane(st, alts, sym, l3);
    case KeysymUp(sym) => ReleaseStaysSane(st, sym, l3);
    case Hardware(_) =>
    case Process => ProcessingStaysSane(st, l3);
  }

  lemma {:induction false} SaneAlways(st: Injector, alts: AltTable, inputs: seq<Input>, l3: Mods)
    requires Injection.Valid(st) && (forall i :: i in inputs ==> ValidInput(i)) && NoEdits(inputs)
    requires Sane(st, l3)
    ensures Sane(AfterAll(st, alts, inputs), l3)
    decreases |inputs|
  {
    if inputs != [] {
      assert inputs[0] in inputs && forall i :: i in inputs[1..] ==> i in inputs;
      InputStaysSane(st, alts, inputs[0], l3);
      SaneAlways(AfterInput(st, alts, inputs[0]), alts, inputs[1..], l3);
    }
  }

  /** From a sane start, after any keysym events and hardware keys, whatever was added, recycled, failed or left
      held by them: every press that reaches its key gives the keysym or an equivalent and leaves on the
      keyboard nothing but that key, and a press that does not records nothing. */
  lemma EveryPressIsRight(st: Injector, alts: AltTable, inputs: seq<Input>, l3: Mods, sym: KeySym)
    requires Injection.Valid(st) && (forall i :: i in inputs ==> ValidInput(i)) && NoEdits(inputs)
    requires Sane(st, l3)
    ensures var last := AfterAll(st, alts, inputs);
            var d := Decide(Processed(last), alts, sym);
            var srv, r := Processed(last).server, Press(last, alts, sym);
            && Sane(r, l3)
            && (ReachesTheKey(d) ==>
                  && GivesKeysym(d, alts, sym, StateAtKey(d))
                  && r.queue == []
                  && r.server == srv.(held := if d.key in FakedKeys(d) then srv.held
                                              else WithKey(srv.held, d.key, SetBy(d.st.xkb, d.key, d.target))))
            && (!ReachesTheKey(d) ==> r.pressed == last.pressed && r.server == srv)
  {
    SaneAlways(st, alts, inputs, l3);
    var last := AfterAll(st, alts, inputs);
    PressStaysSane(last, alts, sym, l3);
    PressGivesKeysym(last, alts, sym, l3);
    PressEffect(last, alts, sym, l3);
    PressRecords(last, alts, sym);
    SaneDecision(last, alts, sym, l3);
  }
}
