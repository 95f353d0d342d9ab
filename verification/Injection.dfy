/** What a press and a release of a keysym do, as functions of the state of the injector. */
module Injection {
  import opened Common
  import opened Xkb
  import opened KeysymLookup
  import opened AddedKeysyms
  import opened KeyboardServer

  const XK_TAB: KeySym := 0xff09

  /** The most modifier keys one press can release for a while. */
  const MAX_RELEASED: nat := 8

  /** Keysyms that mean the same, such as the two Shift keys or a digit and its keypad twin. */
  type AltTable = seq<(KeySym, KeySym)>

  /** `pressed` says for each keycode which keysym it was pressed for; `queue` are the events that
      the server has not processed yet. */
  datatype Injector = Injector(
    xkb: Keymap, added: seq<AddedKeysym>, pressed: seq<KeySym>, server: Server, queue: seq<Event>)

  predicate Valid(st: Injector) {
    WellFormed(st.xkb) && HasCanonicalTypes(st.xkb) && |st.pressed| == 256
  }

  // ---- Choosing the key

  predicate Pairs(pair: (KeySym, KeySym), sym: KeySym) {
    pair.0 == sym || pair.1 == sym
  }

  function OtherOf(pair: (KeySym, KeySym), sym: KeySym): KeySym {
    if pair.0 == sym then pair.1 else pair.0
  }

  /** The lookup of the first alternative from index `i` on that some key gives. */
  function FirstAlternative(xkb: Keymap, l3: Mods, s: CoreState, alts: AltTable, sym: KeySym, i: nat): Found
    requires WellFormed(xkb) && i <= |alts|
    decreases |alts| - i
  {
    if i == |alts| then Found(0, s)
    else
      var f := Lookup(xkb, l3, s, OtherOf(alts[i], sym));
      if Pairs(alts[i], sym) && f.key != 0 then f else FirstAlternative(xkb, l3, s, alts, sym, i + 1)
  }

  predicate ShiftDiffers(s: CoreState, t: CoreState) {
    (Shift in s.mods) != (Shift in t.mods)
  }

  /** The press would fake Shift on a key that NumLock governs. */
  predicate FakesNumLock(xkb: Keymap, s: CoreState, f: Found)
    requires WellFormed(xkb)
  {
    f.key != 0 && HasGroups(xkb, f.key) && ShiftDiffers(s, f.state) && AffectedByNumLock(xkb, s.group, f.key)
  }

  /** The first alternative from index `i` on that some key gives without faking NumLock. */
  function FirstUnaffected(xkb: Keymap, l3: Mods, s: CoreState, alts: AltTable, sym: KeySym, i: nat): Found
    requires WellFormed(xkb) && i <= |alts|
    decreases |alts| - i
  {
    if i == |alts| then Found(0, s)
    else
      var f := Lookup(xkb, l3, s, OtherOf(alts[i], sym));
      if Pairs(alts[i], sym) && f.key != 0 && !FakesNumLock(xkb, s, f) then f
      else FirstUnaffected(xkb, l3, s, alts, sym, i + 1)
  }

  function AvoidNumLock(xkb: Keymap, l3: Mods, s: CoreState, alts: AltTable, sym: KeySym, f: Found): Found
    requires WellFormed(xkb)
  {
    if FakesNumLock(xkb, s, f) then
      var g := FirstUnaffected(xkb, l3, s, alts, sym, 0);
      if g.key == 0 then f else g
    else f
  }

  /** The keysym's own key or that of the first alternative that has one. */
  function FindExisting(st: Injector, alts: AltTable, sym: KeySym): Found
    requires Valid(st)
  {
    var s := StateOf(st.server);
    var l3 := LevelThreeMask(st.xkb, s.group);
    var f := Lookup(st.xkb, l3, s, sym);
    if f.key != 0 then f else FirstAlternative(st.xkb, l3, s, alts, sym, 0)
  }

  /** The existing key, or a key added for the keysym; 0 when that fails too. */
  function FindOrAdd(st: Injector, alts: AltTable, sym: KeySym): (r: (Injector, Found))
    requires Valid(st)
    ensures Valid(r.0)
  {
    var s := StateOf(st.server);
    var f := FindExisting(st, alts, sym);
    if f.key != 0 then (st, f)
    else
      var a := AddKeysym(st.xkb, st.added, sym);
      (st.(xkb := a.xkb, added := a.added),
       if a.key == 0 then Found(0, s) else Lookup(a.xkb, LevelThreeMask(a.xkb, s.group), s, sym))
  }

  /** A requested Tab never loses Shift. */
  function KeepShiftForTab(sym: KeySym, s: CoreState, t: CoreState): CoreState {
    if sym == XK_TAB && Shift in s.mods then t.(mods := t.mods + {Shift}) else t
  }

  // ---- Faking modifiers

  /** A modifier key held, or modifier keys let go of, around the real key. */
  datatype Fake = Fake(press: KeyCode, released: seq<KeyCode>)

  const NO_FAKE := Fake(0, [])

  datatype Fakes = Fakes(shift: Fake, l3: Fake)

  /** `ok` is false when a modifier key that is needed cannot be found. */
  datatype FakePlan = FakePlan(ok: bool, fakes: Fakes)

  function Start(f: Fake): seq<Event> {
    if f.press != 0 then [KeyPress(f.press)] else Releases(f.released)
  }

  function Undo(f: Fake): seq<Event> {
    if f.press != 0 then [KeyRelease(f.press)] else Presses(f.released)
  }

  function Before(f: Fakes): seq<Event> {
    Start(f.shift) + Start(f.l3)
  }

  /** The undoing, level three first. */
  function After(f: Fakes): seq<Event> {
    Undo(f.l3) + Undo(f.shift)
  }

  /** The lowest key from `from` on that sets Shift in state `s`; 0 if none does. */
  function FirstShiftKey(xkb: Keymap, s: CoreState, from: nat): (k: KeyCode)
    requires WellFormed(xkb) && xkb.minKey <= from <= xkb.maxKey + 1
    ensures k != 0 ==> from <= k && xkb.InRange(k) && Shift in SetBy(xkb, k, s)
    ensures k != 0 ==> forall j: KeyCode :: from <= j < k ==> Shift !in SetBy(xkb, j, s)
    ensures k == 0 ==> forall j: KeyCode :: from <= j <= xkb.maxKey ==> Shift !in SetBy(xkb, j, s)
    decreases xkb.maxKey + 1 - from
  {
    if from > xkb.maxKey then 0
    else if Shift in SetBy(xkb, from, s) then from
    else FirstShiftKey(xkb, s, from + 1)
  }

  function ShiftToPress(xkb: Keymap, s: CoreState): KeyCode
    requires WellFormed(xkb)
  {
    if Shift in s.mods then 0 else FirstShiftKey(xkb, s, xkb.minKey)
  }

  /** The keys from `from` on that are down and set a bit of `mask` in state `s`, in order. */
  function DownKeys(xkb: Keymap, s: CoreState, held: set<KeyCode>, mask: Mods, from: nat): (keys: seq<KeyCode>)
    requires WellFormed(xkb) && xkb.minKey <= from <= xkb.maxKey + 1
    ensures forall k: KeyCode :: k in keys <==> from <= k <= xkb.maxKey && k in held && SetBy(xkb, k, s) * mask != {}
    ensures forall i :: 0 <= i < |keys| ==> keys[i] != 0
    decreases xkb.maxKey + 1 - from
  {
    if from > xkb.maxKey then []
    else
      var rest := DownKeys(xkb, s, held, mask, from + 1);
      if from in held && SetBy(xkb, from, s) * mask != {} then
        var k: KeyCode := from;
        [k] + rest
      else rest
  }

  /** The keys to release for `mask`: none when it is off already, or when there are too many. */
  function KeysToRelease(xkb: Keymap, srv: Server, mask: Mods): seq<KeyCode>
    requires WellFormed(xkb)
  {
    var s := StateOf(srv);
    if s.mods * mask == {} then []
    else
      var keys := DownKeys(xkb, s, srv.held.Keys, mask, xkb.minKey);
      if |keys| > MAX_RELEASED then [] else keys
  }

  function LevelThreeToPress(xkb: Keymap, s: CoreState): KeyCode
    requires WellFormed(xkb)
  {
    var mask := LevelThreeMask(xkb, s.group);
    if mask == {} || s.mods * mask != {} then 0
    else
      var k := LevelThreeKey(xkb, s);
      if k != 0 && ActionAt(xkb, k, s).SetMods? then k else 0
  }

  /** The fake press or release of Shift that `target` needs; false when it cannot be had. */
  function FakeShift(xkb: Keymap, srv: Server, target: CoreState): (bool, Fake)
    requires WellFormed(xkb)
  {
    var s := StateOf(srv);
    if Shift !in s.mods && Shift in target.mods then
      var k := ShiftToPress(xkb, s);
      (k != 0, Fake(k, []))
    else if Shift in s.mods && Shift !in target.mods then
      var keys := KeysToRelease(xkb, srv, {Shift});
      (keys != [], Fake(0, keys))
    else (true, NO_FAKE)
  }

  /** The same for the level-three modifier; it matters only if more than Shift has to change. */
  function FakeLevelThree(xkb: Keymap, srv: Server, target: CoreState): (bool, Fake)
    requires WellFormed(xkb)
  {
    var s := StateOf(srv);
    var l3 := LevelThreeMask(xkb, s.group);
    if target.mods - {Shift} == s.mods - {Shift} then (true, NO_FAKE)
    else if s.mods * l3 == {} && target.mods * l3 != {} then
      var k := LevelThreeToPress(xkb, s);
      (k != 0, Fake(k, []))
    else if s.mods * l3 != {} && target.mods * l3 == {} then
      var keys := KeysToRelease(xkb, srv, l3);
      (keys != [], Fake(0, keys))
    else (true, NO_FAKE)
  }

  /** The fake presses and releases that take the keyboard from its state to `target`. */
  function PlanFakes(xkb: Keymap, srv: Server, target: CoreState): FakePlan
    requires WellFormed(xkb)
  {
    var (shiftOk, shift) := FakeShift(xkb, srv, target);
    var (l3Ok, l3) := FakeLevelThree(xkb, srv, target);
    FakePlan(shiftOk && l3Ok, Fakes(shift, if shiftOk && l3Ok then l3 else NO_FAKE))
  }

  // ---- Press and release

  /** `sym` is now pressed on `key` and on no other key. */
  function RecordPress(pressed: seq<KeySym>, key: KeyCode, sym: KeySym): (r: seq<KeySym>)
    requires |pressed| == 256
    ensures |r| == 256
    ensures forall i :: 0 <= i < 256 ==> r[i] == if i == key then sym else if pressed[i] == sym then NO_SYMBOL else pressed[i]
  {
    seq(256, i requires 0 <= i < 256 => if i == key then sym else if pressed[i] == sym then NO_SYMBOL else pressed[i])
  }

  /** The server works off the queue. */
  function Processed(st: Injector): Injector
    requires Valid(st)
  {
    st.(server := RunEvents(st.xkb, st.server, st.queue), queue := [])
  }

  /** The key, the state to press it in and the injector before anything is queued. */
  datatype Decision = Decision(st: Injector, key: KeyCode, target: CoreState)

  function Decide(st: Injector, alts: AltTable, sym: KeySym): (d: Decision)
    requires Valid(st)
    ensures Valid(d.st)
  {
    var (st', f) := FindOrAdd(st, alts, sym);
    var s := StateOf(st.server);
    var g := AvoidNumLock(st'.xkb, LevelThreeMask(st'.xkb, s.group), s, alts, sym, f);
    Decision(st', g.key, KeepShiftForTab(sym, s, g.state))
  }

  /** The events of a press: modifiers faked, the key pressed, the fakes undone. */
  function PressEvents(f: Fakes, key: KeyCode): seq<Event> {
    Before(f) + [KeyPress(key)] + After(f)
  }

  /** Queues the events of a press of `key` in state `target` and has them processed.  When a
      modifier key is missing, what was queued before that is left in the queue. */
  function Deliver(st: Injector, sym: KeySym, key: KeyCode, target: CoreState): (r: Injector)
    requires Valid(st)
    ensures Valid(r)
  {
    var plan := PlanFakes(st.xkb, st.server, target);
    if !plan.ok then st.(queue := Before(plan.fakes))
    else Processed(st.(queue := PressEvents(plan.fakes, key),
                       added := MoveToFront(st.added, key),
                       pressed := RecordPress(st.pressed, key, sym)))
  }

  function Press(st: Injector, alts: AltTable, sym: KeySym): (r: Injector)
    requires Valid(st)
    ensures Valid(r)
  {
    var d := Decide(Processed(st), alts, sym);
    if d.key == 0 then d.st else Deliver(d.st, sym, d.key, d.target)
  }

  function Release(st: Injector, sym: KeySym): (r: Injector)
    requires Valid(st)
    ensures Valid(r)
  {
    var k := FirstIndex(st.pressed, sym, 0);
    if k == 256 then st
    else Processed(st.(queue := st.queue + [KeyRelease(k)], pressed := st.pressed[k := NO_SYMBOL]))
  }
}
