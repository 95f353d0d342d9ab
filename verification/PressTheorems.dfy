/** Theorems about whole presses and releases, and about runs of them. */
module PressTheorems {
  import opened Common
  import opened Xkb
  import opened KeysymLookup
  import opened AddedKeysyms
  import opened KeyboardServer
  import opened Injection
  import opened InjectionProofs
  import opened SaneLayouts

  /** `wanted` is the requested keysym or one that the table lists as meaning the same. */
  ghost predicate MeansTheSame(alts: AltTable, sym: KeySym, wanted: KeySym) {
    wanted == sym || Equivalent(alts, sym, wanted)
  }

  /** The pair of the two keysyms, in either order. */
  predicate IsPair(pair: (KeySym, KeySym), a: KeySym, b: KeySym) {
    pair == (a, b) || pair == (b, a)
  }

  /** The table lists the two as a pair. */
  predicate Equivalent(alts: AltTable, a: KeySym, b: KeySym) {
    exists i :: 0 <= i < |alts| && IsPair(alts[i], a, b)
  }

  lemma OtherIsPaired(pair: (KeySym, KeySym), sym: KeySym)
    ensures Pairs(pair, sym) ==> IsPair(pair, sym, OtherOf(pair, sym))
    ensures forall w :: IsPair(pair, sym, w) ==> Pairs(pair, sym) && w == OtherOf(pair, sym)
  {
  }

  /** A key found for `wanted` in a state the lookup may ask for. */
  ghost predicate FoundFor(xkb: Keymap, s: CoreState, f: Found, wanted: KeySym)
    requires WellFormed(xkb)
  {
    && Produces(xkb, f.key, f.state, wanted)
    && (var l3 := LevelThreeMask(xkb, s.group); Shift !in l3 ==> MayAskFor(s, l3, f.state))
  }

  lemma CandidatesMayBeAskedFor(s: CoreState, l3: Mods, i: nat)
    requires i < |Candidates(s, l3)| && Shift !in l3
    ensures MayAskFor(s, l3, Candidates(s, l3)[i])
  {
    var t := Candidates(s, l3)[i];
    DisjointMasks(s.mods, {Shift}, l3);
    assert t.mods - ({Shift} + l3) == s.mods - ({Shift} + l3);
    if i >= 2 {
      assert t.mods * l3 == if s.mods * l3 == {} then l3 else {};
    }
  }

  lemma LookupFoundFor(xkb: Keymap, s: CoreState, wanted: KeySym)
    requires WellFormed(xkb)
    ensures var f := Lookup(xkb, LevelThreeMask(xkb, s.group), s, wanted);
            f.key != 0 ==> FoundFor(xkb, s, f, wanted)
  {
    var l3 := LevelThreeMask(xkb, s.group);
    var f := Lookup(xkb, l3, s, wanted);
    LookupIsBest(xkb, l3, s, wanted);
    if f.key != 0 && Shift !in l3 {
      var i :| 0 <= i < |Candidates(s, l3)| && f.state == Candidates(s, l3)[i];
      CandidatesMayBeAskedFor(s, l3, i);
    }
  }

  lemma {:induction false} AlternativeFound(xkb: Keymap, s: CoreState, alts: AltTable, sym: KeySym, i: nat)
    requires WellFormed(xkb) && i <= |alts|
    ensures var f := FirstAlternative(xkb, LevelThreeMask(xkb, s.group), s, alts, sym, i);
            f.key != 0 ==> exists w :: MeansTheSame(alts, sym, w) && FoundFor(xkb, s, f, w)
    decreases |alts| - i
  {
    if i < |alts| {
      OtherIsPaired(alts[i], sym);
      LookupFoundFor(xkb, s, OtherOf(alts[i], sym));
      AlternativeFound(xkb, s, alts, sym, i + 1);
    }
  }

  lemma {:induction false} UnaffectedFound(xkb: Keymap, s: CoreState, alts: AltTable, sym: KeySym, i: nat)
    requires WellFormed(xkb) && i <= |alts|
    ensures var f := FirstUnaffected(xkb, LevelThreeMask(xkb, s.group), s, alts, sym, i);
            f.key != 0 ==> exists w :: MeansTheSame(alts, sym, w) && FoundFor(xkb, s, f, w)
    decreases |alts| - i
  {
    if i < |alts| {
      OtherIsPaired(alts[i], sym);
      LookupFoundFor(xkb, s, OtherOf(alts[i], sym));
      UnaffectedFound(xkb, s, alts, sym, i + 1);
    }
  }

  lemma FoundOrAdded(st: Injector, alts: AltTable, sym: KeySym)
    requires Injection.Valid(st)
    ensures var (next, f) := FindOrAdd(st, alts, sym);
            && next == st.(xkb := next.xkb, added := next.added)
            && (f.key != 0 ==> exists w :: MeansTheSame(alts, sym, w) && FoundFor(next.xkb, StateOf(st.server), f, w))
  {
    var s := StateOf(st.server);
    LookupFoundFor(st.xkb, s, sym);
    AlternativeFound(st.xkb, s, alts, sym, 0);
    LookupFoundFor(AddKeysym(st.xkb, st.added, sym).xkb, s, sym);
    assert MeansTheSame(alts, sym, sym);
  }

  /** The table offers entry `j` for `sym`, and some key gives what it offers. */
  predicate Offers(xkb: Keymap, l3: Mods, s: CoreState, alts: AltTable, sym: KeySym, j: nat)
    requires WellFormed(xkb) && j < |alts|
  {
    Pairs(alts[j], sym) && Lookup(xkb, l3, s, OtherOf(alts[j], sym)).key != 0
  }

  lemma {:induction false} NoAlternative(xkb: Keymap, l3: Mods, s: CoreState, alts: AltTable, sym: KeySym, i: nat)
    requires WellFormed(xkb) && i <= |alts|
    ensures FirstAlternative(xkb, l3, s, alts, sym, i).key == 0 <==>
            forall j :: i <= j < |alts| ==> !Offers(xkb, l3, s, alts, sym, j)
    decreases |alts| - i
  {
    if i < |alts| {
      assert FirstAlternative(xkb, l3, s, alts, sym, i).key == 0 <==>
             !Offers(xkb, l3, s, alts, sym, i) && FirstAlternative(xkb, l3, s, alts, sym, i + 1).key == 0;
      NoAlternative(xkb, l3, s, alts, sym, i + 1);
    }
  }

  lemma NothingExists(st: Injector, alts: AltTable, sym: KeySym)
    requires Injection.Valid(st)
    ensures var s := StateOf(st.server);
            var l3 := LevelThreeMask(st.xkb, s.group);
            FindExisting(st, alts, sym).key == 0 <==>
            forall w :: MeansTheSame(alts, sym, w) ==> Lookup(st.xkb, l3, s, w).key == 0
  {
    var s := StateOf(st.server);
    var l3 := LevelThreeMask(st.xkb, s.group);
    NoAlternative(st.xkb, l3, s, alts, sym, 0);
    assert MeansTheSame(alts, sym, sym);
    if FindExisting(st, alts, sym).key == 0 {
      forall w | MeansTheSame(alts, sym, w)
        ensures Lookup(st.xkb, l3, s, w).key == 0
      {
        if w != sym {
          var j :| 0 <= j < |alts| && IsPair(alts[j], sym, w);
          OtherIsPaired(alts[j], sym);
          assert !Offers(st.xkb, l3, s, alts, sym, j);
        }
      }
    } else {
      forall j | 0 <= j < |alts| && Offers(st.xkb, l3, s, alts, sym, j)
        ensures MeansTheSame(alts, sym, OtherOf(alts[j], sym))
      {
        OtherIsPaired(alts[j], sym);
      }
    }
  }

  /** Some key gives `w` in a state that a press can reach by toggling Shift or the level-three modifier. */
  ghost predicate Typable(xkb: Keymap, s: CoreState, w: KeySym)
    requires WellFormed(xkb)
  {
    var c := Candidates(s, LevelThreeMask(xkb, s.group));
    exists i, k: KeyCode :: 0 <= i < |c| && xkb.InRange(k) && Produces(xkb, k, c[i], w)
  }

  /** A keysym is added exactly when neither it nor any equivalent one can be typed. */
  lemma AddsOnlyWhatIsMissing(st: Injector, alts: AltTable, sym: KeySym)
    requires Injection.Valid(st)
    ensures FindExisting(st, alts, sym).key == 0 <==>
            forall w :: MeansTheSame(alts, sym, w) ==> !Typable(st.xkb, StateOf(st.server), w)
  {
    var s := StateOf(st.server);
    NothingExists(st, alts, sym);
    forall w
      ensures Lookup(st.xkb, LevelThreeMask(st.xkb, s.group), s, w).key == 0 <==> !Typable(st.xkb, s, w)
    {
      LookupIsBest(st.xkb, LevelThreeMask(st.xkb, s.group), s, w);
    }
  }

  lemma {:induction false} NoUnaffected(xkb: Keymap, l3: Mods, s: CoreState, alts: AltTable, sym: KeySym, i: nat)
    requires WellFormed(xkb) && i <= |alts|
    ensures var f := FirstUnaffected(xkb, l3, s, alts, sym, i);
            && !FakesNumLock(xkb, s, f)
            && (f.key == 0 <==> forall j :: i <= j < |alts| && Offers(xkb, l3, s, alts, sym, j) ==>
                                  FakesNumLock(xkb, s, Lookup(xkb, l3, s, OtherOf(alts[j], sym))))
    decreases |alts| - i
  {
    if i < |alts| {
      NoUnaffected(xkb, l3, s, alts, sym, i + 1);
    }
  }

  /** What the table offers, entry by entry and keysym by keysym. */
  lemma OffersEquivalent(xkb: Keymap, l3: Mods, s: CoreState, alts: AltTable, sym: KeySym)
    requires WellFormed(xkb)
    ensures (forall j :: 0 <= j < |alts| && Offers(xkb, l3, s, alts, sym, j) ==>
               FakesNumLock(xkb, s, Lookup(xkb, l3, s, OtherOf(alts[j], sym)))) <==>
            (forall w :: Equivalent(alts, sym, w) && Lookup(xkb, l3, s, w).key != 0 ==>
               FakesNumLock(xkb, s, Lookup(xkb, l3, s, w)))
  {
    forall j | 0 <= j < |alts|
      ensures Offers(xkb, l3, s, alts, sym, j) ==> Equivalent(alts, sym, OtherOf(alts[j], sym))
      ensures forall w :: IsPair(alts[j], sym, w) && Lookup(xkb, l3, s, w).key != 0 ==>
                Offers(xkb, l3, s, alts, sym, j) && w == OtherOf(alts[j], sym)
    {
      OtherIsPaired(alts[j], sym);
    }
  }

  /** Shift is faked on a key that the code's test takes to be affected by NumLock only if that is so for the
      keysym itself and for every equivalent one that has a key; otherwise the choice is unchanged, or an
      equivalent without that defect. */
  lemma AvoidsNumLock(xkb: Keymap, l3: Mods, s: CoreState, alts: AltTable, sym: KeySym, f: Found)
    requires WellFormed(xkb)
    ensures var g := AvoidNumLock(xkb, l3, s, alts, sym, f);
            && (FakesNumLock(xkb, s, g) <==>
                 && FakesNumLock(xkb, s, f)
                 && forall w :: Equivalent(alts, sym, w) && Lookup(xkb, l3, s, w).key != 0 ==>
                      FakesNumLock(xkb, s, Lookup(xkb, l3, s, w)))
            && (FakesNumLock(xkb, s, g) || !FakesNumLock(xkb, s, f) ==> g == f)
  {
    NoUnaffected(xkb, l3, s, alts, sym, 0);
    OffersEquivalent(xkb, l3, s, alts, sym);
  }

  /** Entries before `j` offer nothing that has a key, and entry `j` offers `w`, which has one. */
  predicate FirstOffer(xkb: Keymap, l3: Mods, s: CoreState, alts: AltTable, sym: KeySym, j: nat, w: KeySym)
    requires WellFormed(xkb)
  {
    && j < |alts| && IsPair(alts[j], sym, w) && Lookup(xkb, l3, s, w).key != 0
    && forall i :: 0 <= i < j ==> !Offers(xkb, l3, s, alts, sym, i)
  }

  lemma {:induction false} TakesFirstOffer(xkb: Keymap, l3: Mods, s: CoreState, alts: AltTable, sym: KeySym, j: nat,
                                           w: KeySym, i: nat)
    requires WellFormed(xkb) && FirstOffer(xkb, l3, s, alts, sym, j, w) && i <= j
    ensures FirstAlternative(xkb, l3, s, alts, sym, i) == Lookup(xkb, l3, s, w)
    decreases j - i
  {
    OtherIsPaired(alts[j], sym);
    if i < j {
      assert !Offers(xkb, l3, s, alts, sym, i);
      TakesFirstOffer(xkb, l3, s, alts, sym, j, w, i + 1);
    }
  }

  /** A key for the keysym itself comes first, and then the first entry of the table whose other side has one. */
  lemma PrefersItself(st: Injector, alts: AltTable, sym: KeySym, j: nat, w: KeySym)
    requires Injection.Valid(st)
    ensures var s := StateOf(st.server);
            var l3 := LevelThreeMask(st.xkb, s.group);
            && (Lookup(st.xkb, l3, s, sym).key != 0 ==> FindExisting(st, alts, sym) == Lookup(st.xkb, l3, s, sym))
            && (Lookup(st.xkb, l3, s, sym).key == 0 && FirstOffer(st.xkb, l3, s, alts, sym, j, w) ==>
                  FindExisting(st, alts, sym) == Lookup(st.xkb, l3, s, w))
  {
    var s := StateOf(st.server);
    var l3 := LevelThreeMask(st.xkb, s.group);
    if FirstOffer(st.xkb, l3, s, alts, sym, j, w) {
      TakesFirstOffer(st.xkb, l3, s, alts, sym, j, w, 0);
    }
  }

  /** So comes, to avoid NumLock, the first entry whose other side has a key without that defect. */
  lemma {:induction false} TakesFirstUnaffected(xkb: Keymap, l3: Mods, s: CoreState, alts: AltTable, sym: KeySym, j: nat,
                                                w: KeySym, i: nat)
    requires WellFormed(xkb) && i <= j < |alts| && IsPair(alts[j], sym, w)
    requires Lookup(xkb, l3, s, w).key != 0 && !FakesNumLock(xkb, s, Lookup(xkb, l3, s, w))
    requires forall n :: i <= n < j && Offers(xkb, l3, s, alts, sym, n) ==>
               FakesNumLock(xkb, s, Lookup(xkb, l3, s, OtherOf(alts[n], sym)))
    ensures FirstUnaffected(xkb, l3, s, alts, sym, i) == Lookup(xkb, l3, s, w)
    decreases j - i
  {
    OtherIsPaired(alts[j], sym);
    if i < j {
      TakesFirstUnaffected(xkb, l3, s, alts, sym, j, w, i + 1);
    }
  }

  /** The press would fake Shift on a key that NumLock really governs. */
  predicate FakesRealNumLock(xkb: Keymap, s: CoreState, f: Found)
    requires WellFormed(xkb)
  {
    f.key != 0 && HasGroups(xkb, f.key) && ShiftDiffers(s, f.state) && GovernedByNumLock(xkb, s.group, f.key)
  }

  /** Where the code's test is right about every key, the same holds of the keys that NumLock really governs. */
  lemma AvoidsRealNumLock(xkb: Keymap, l3: Mods, s: CoreState, alts: AltTable, sym: KeySym, f: Found)
    requires WellFormed(xkb)
    requires forall k: KeyCode :: HasGroups(xkb, k) ==>
               (AffectedByNumLock(xkb, s.group, k) <==> GovernedByNumLock(xkb, s.group, k))
    ensures FakesRealNumLock(xkb, s, AvoidNumLock(xkb, l3, s, alts, sym, f)) <==>
            && FakesRealNumLock(xkb, s, f)
            && forall w :: Equivalent(alts, sym, w) && Lookup(xkb, l3, s, w).key != 0 ==>
                 FakesRealNumLock(xkb, s, Lookup(xkb, l3, s, w))
  {
    AvoidsNumLock(xkb, l3, s, alts, sym, f);
    assert forall g: Found :: FakesNumLock(xkb, s, g) <==> FakesRealNumLock(xkb, s, g);
  }

  /** Toggling no level-three modifier tries the first two of the states. */
  lemma LookupWithoutLevelThree(xkb: Keymap, l3: Mods, s: CoreState, sym: KeySym)
    requires WellFormed(xkb) && Lookup(xkb, l3, s, sym).key == 0
    ensures Lookup(xkb, {}, s, sym).key == 0
  {
    var c, few := Candidates(s, l3), Candidates(s, {});
    assert few[0] == c[0] && few[1] == c[1];
    LookupIsBest(xkb, l3, s, sym);
    LookupIsBest(xkb, {}, s, sym);
  }

  /** After a keysym was added the lookup that follows succeeds whenever the key always gives it. While the
      level-three mask in force stays or vanishes, and is not Lock, it succeeds exactly when the key gives the
      keysym with Lock as it is, and then with exactly that key. */
  lemma AddedIsPressed(st: Injector, alts: AltTable, sym: KeySym)
    requires Injection.Valid(st) && FindExisting(st, alts, sym).key == 0
    requires var a := AddKeysym(st.xkb, st.added, sym); a.key != 0 && st.xkb.InRange(a.key)
    ensures var a := AddKeysym(st.xkb, st.added, sym);
            var f := FindOrAdd(st, alts, sym).1;
            var before := LevelThreeMask(st.xkb, st.server.group);
            && (AlwaysGiven(st.xkb, sym) ==> f.key != 0)
            && (LevelThreeMask(a.xkb, st.server.group) in {before, {}} && Lock !in before ==>
                 f.key == if GivesUnderLock(st.xkb, sym, Lock in StateOf(st.server).mods) then a.key else 0)
  {
    var a := AddKeysym(st.xkb, st.added, sym);
    var s := StateOf(st.server);
    var before, after := LevelThreeMask(st.xkb, s.group), LevelThreeMask(a.xkb, s.group);
    assert a.xkb == Assigned(st.xkb, a.key, sym);
    AddedIsReachable(st.xkb, a.key, sym);
    LookupWithoutLevelThree(st.xkb, before, s, sym);
    if after in {before, {}} {
      AddedIsFound(st.xkb, a.key, sym, after, s);
    }
  }

  /** The key that is decided on gives the keysym, or an equivalent, in the state found for it. */
  lemma DecisionIsRight(st: Injector, alts: AltTable, sym: KeySym)
    requires Injection.Valid(st)
    ensures var d := Decide(st, alts, sym);
            && d.st == st.(xkb := d.st.xkb, added := d.st.added)
            && (d.key != 0 ==> exists w, t ::
                 && MeansTheSame(alts, sym, w)
                 && FoundFor(d.st.xkb, StateOf(st.server), Found(d.key, t), w)
                 && d.target == KeepShiftForTab(sym, StateOf(st.server), t))
  {
    var s := StateOf(st.server);
    var (next, f) := FindOrAdd(st, alts, sym);
    FoundOrAdded(st, alts, sym);
    UnaffectedFound(next.xkb, s, alts, sym, 0);
    var g := AvoidNumLock(next.xkb, LevelThreeMask(next.xkb, s.group), s, alts, sym, f);
    if g.key != 0 {
      var w :| MeansTheSame(alts, sym, w) && FoundFor(next.xkb, s, g, w);
      assert g == Found(g.key, g.state);
    }
  }

  /** The state decided on is the one found, in which the key gives the keysym or an equivalent; only a Tab that is
      pressed with Shift on keeps Shift in addition. */
  lemma TabKeepsShift(st: Injector, alts: AltTable, sym: KeySym)
    requires Injection.Valid(st) && Decide(st, alts, sym).key != 0
    ensures var d, s := Decide(st, alts, sym), StateOf(st.server);
            if sym == 0xff09 && Shift in s.mods
            then exists t, w :: MeansTheSame(alts, sym, w) && Produces(d.st.xkb, d.key, t, w)
                                && d.target == t.(mods := t.mods + {Shift})
            else exists w :: MeansTheSame(alts, sym, w) && Produces(d.st.xkb, d.key, d.target, w)
  {
    DecisionIsRight(st, alts, sym);
  }

  /** A key was decided on and no modifier key is missing. */
  ghost predicate ReachesTheKey(d: Decision)
    requires Injection.Valid(d.st)
  {
    d.key != 0 && PlanFakes(d.st.xkb, d.st.server, d.target).ok
  }

  lemma DecisionMayBeAskedFor(st: Injector, alts: AltTable, sym: KeySym)
    requires Injection.Valid(st)
    ensures var d := Decide(st, alts, sym);
            d.key != 0 && SaneModifiers(d.st.xkb, d.st.server) ==>
            MayAskFor(StateOf(st.server), LevelThreeMask(d.st.xkb, st.server.group), d.target)
  {
    DecisionIsRight(st, alts, sym);
    var d := Decide(st, alts, sym);
    if d.key != 0 && SaneModifiers(d.st.xkb, d.st.server) {
      var s, l3 := StateOf(st.server), LevelThreeMask(d.st.xkb, st.server.group);
      var w, t :| && MeansTheSame(alts, sym, w)
                  && FoundFor(d.st.xkb, s, Found(d.key, t), w)
                  && d.target == KeepShiftForTab(sym, s, t);
      assert t.mods + {Shift} - ({Shift} + l3) == t.mods - ({Shift} + l3);
      DisjointMasks(t.mods, {Shift}, l3);
    }
  }

  /** From a sane keyboard the decision is made on one, its target may be asked for, and only the keymap and
      the list of added keysyms may have changed. */
  lemma SaneDecision(st: Injector, alts: AltTable, sym: KeySym, l3: Mods)
    requires Injection.Valid(st) && Sane(st, l3)
    ensures var p := Processed(st);
            var d := Decide(p, alts, sym);
            && Sane(d.st, l3) && SaneModifiers(d.st.xkb, d.st.server)
            && d.st == p.(xkb := d.st.xkb, added := d.st.added)
            && (d.key != 0 ==> MayAskFor(StateOf(d.st.server), LevelThreeMask(d.st.xkb, d.st.server.group), d.target))
  {
    var p := Processed(st);
    var d := Decide(p, alts, sym);
    ProcessingStaysSane(st, l3);
    DecidingStaysSane(p, alts, sym, l3);
    SaneNow(d.st.xkb, d.st.server, l3);
    DecisionIsRight(p, alts, sym);
    DecisionMayBeAskedFor(p, alts, sym);
  }

  /** The keyboard when the real key goes down. */
  function StateAtKey(d: Decision): CoreState
    requires Injection.Valid(d.st)
  {
    StateOf(RunEvents(d.st.xkb, d.st.server, Before(PlanFakes(d.st.xkb, d.st.server, d.target).fakes)))
  }

  /** The key of `d` pressed in state `now` gives the keysym or an equivalent one. Only a Tab requested while
      Shift is on is pressed with Shift added to the state that gives it. */
  ghost predicate GivesKeysym(d: Decision, alts: AltTable, sym: KeySym, now: CoreState)
    requires Injection.Valid(d.st)
  {
    exists w :: MeansTheSame(alts, sym, w) &&
      if sym == XK_TAB && Shift in StateOf(d.st.server).mods
      then exists t: CoreState :: now == t.(mods := t.mods + {Shift}) && Produces(d.st.xkb, d.key, t, w)
      else Produces(d.st.xkb, d.key, now, w)
  }

  /** End to end: whenever a press on a sane keyboard reaches the real key, with a keysym added for it or
      without, the key goes down in a state in which it gives the requested keysym or an equivalent one. */
  lemma PressGivesKeysym(st: Injector, alts: AltTable, sym: KeySym, l3: Mods)
    requires Injection.Valid(st)
    ensures var d := Decide(Processed(st), alts, sym);
            Sane(st, l3) && ReachesTheKey(d) ==> GivesKeysym(d, alts, sym, StateAtKey(d))
  {
    var p := Processed(st);
    var d := Decide(p, alts, sym);
    if Sane(st, l3) && ReachesTheKey(d) {
      SaneDecision(st, alts, sym, l3);
      DecisionIsRight(p, alts, sym);
      FakesReachTarget(d.st.xkb, d.st.server, d.target);
      var w, t :| && MeansTheSame(alts, sym, w)
                  && FoundFor(d.st.xkb, StateOf(p.server), Found(d.key, t), w)
                  && d.target == KeepShiftForTab(sym, StateOf(p.server), t);
      if sym == XK_TAB && Shift in StateOf(p.server).mods {
        assert d.target == t.(mods := t.mods + {Shift});
      }
    }
  }

  /** The modifier keys that a decision fakes. */
  function FakedKeys(d: Decision): set<KeyCode>
    requires Injection.Valid(d.st)
  {
    var f := PlanFakes(d.st.xkb, d.st.server, d.target).fakes;
    {f.shift.press, f.l3.press}
  }

  /** A press that reaches the key, apart from what its events do to the keyboard. */
  lemma PressDelivers(st: Injector, alts: AltTable, sym: KeySym)
    requires Injection.Valid(st)
    ensures var d := Decide(Processed(st), alts, sym);
            var f := PlanFakes(d.st.xkb, d.st.server, d.target).fakes;
            var r := Press(st, alts, sym);
            ReachesTheKey(d) ==>
              && r.queue == [] && r.xkb == d.st.xkb
              && r.added == MoveToFront(d.st.added, d.key)
              && r.pressed == RecordPress(d.st.pressed, d.key, sym)
              && r.server == RunEvents(d.st.xkb, d.st.server, PressEvents(f, d.key))
  {
    var d := Decide(Processed(st), alts, sym);
    assert d.key != 0 ==> Press(st, alts, sym) == Deliver(d.st, sym, d.key, d.target);
  }

  /** What the events of a press do to the keyboard it was decided on. */
  lemma DeliveredServer(d: Decision)
    requires Injection.Valid(d.st) && ReachesTheKey(d) && SaneModifiers(d.st.xkb, d.st.server)
    requires MayAskFor(StateOf(d.st.server), LevelThreeMask(d.st.xkb, d.st.server.group), d.target)
    ensures var srv := d.st.server;
            RunEvents(d.st.xkb, srv, PressEvents(PlanFakes(d.st.xkb, srv, d.target).fakes, d.key)) ==
            srv.(held := if d.key in FakedKeys(d) then srv.held
                         else WithKey(srv.held, d.key, SetBy(d.st.xkb, d.key, d.target)))
  {
    FakesLeaveNoTrace(d.st.xkb, d.st.server, d.target, d.key);
  }

  /** The whole effect of a press that reaches the key: `key` is held, unless it is the modifier key
      that was faked; nothing else changes on the keyboard and the queue is empty. */
  lemma PressEffect(st: Injector, alts: AltTable, sym: KeySym, l3: Mods)
    requires Injection.Valid(st)
    ensures var d := Decide(Processed(st), alts, sym);
            var srv := Processed(st).server;
            var r := Press(st, alts, sym);
            Sane(st, l3) && ReachesTheKey(d) ==>
              && r.queue == []
              && r.server == srv.(held := if d.key in FakedKeys(d) then srv.held
                                          else WithKey(srv.held, d.key, SetBy(d.st.xkb, d.key, d.target)))
              && r.pressed == RecordPress(st.pressed, d.key, sym)
  {
    var d := Decide(Processed(st), alts, sym);
    if Sane(st, l3) && ReachesTheKey(d) {
      SaneDecision(st, alts, sym, l3);
      PressDelivers(st, alts, sym);
      DeliveredServer(d);
    }
  }

  lemma MovedEntries(added: seq<AddedKeysym>, code: KeyCode)
    ensures forall a :: a in MoveToFront(added, code) ==> a in added
  {
  }

  /** Pressing a keysym, whether it succeeds or fails and where, keeps a sane keyboard sane. */
  lemma PressStaysSane(st: Injector, alts: AltTable, sym: KeySym, l3: Mods)
    requires Injection.Valid(st) && Sane(st, l3)
    ensures Sane(Press(st, alts, sym), l3)
  {
    SaneDecision(st, alts, sym, l3);
    var d := Decide(Processed(st), alts, sym);
    if ReachesTheKey(d) {
      PressDelivers(st, alts, sym);
      var f := PlanFakes(d.st.xkb, d.st.server, d.target).fakes;
      EventsStaySane(d.st.xkb, d.st.server, PressEvents(f, d.key), l3);
      MovedEntries(d.st.added, d.key);
    } else {
      var r := Press(st, alts, sym);
      assert r.xkb == d.st.xkb && r.server == d.st.server && r.added == d.st.added;
    }
  }

  lemma ReleaseStaysSane(st: Injector, sym: KeySym, l3: Mods)
    requires Injection.Valid(st) && Sane(st, l3)
    ensures Sane(Release(st, sym), l3)
  {
    var k := FirstIndex(st.pressed, sym, 0);
    if k < 256 {
      EventsStaySane(st.xkb, st.server, st.queue + [KeyRelease(k)], l3);
    }
  }

  lemma KeysGrow(held: map<KeyCode, Mods>, key: KeyCode, mods: Mods, faked: bool)
    requires faked ==> key !in held
    ensures (if faked then held else WithKey(held, key, mods)).Keys == held.Keys + {key} <==> !faked
  {
  }

  /** A key that is faked as a modifier is up before the press. */
  lemma FakedKeyIsUp(d: Decision)
    requires Injection.Valid(d.st) && ReachesTheKey(d) && SaneModifiers(d.st.xkb, d.st.server)
    requires MayAskFor(StateOf(d.st.server), LevelThreeMask(d.st.xkb, d.st.server.group), d.target)
    ensures d.key in FakedKeys(d) ==> d.key !in d.st.server.held
  {
    FakedKeysAreUp(d.st.xkb, d.st.server, d.target);
  }

  /** In terms of the keys that are down: exactly `key` is added, if and only if it is not itself the
      modifier key that was faked. */
  lemma PressAddsOneKey(st: Injector, alts: AltTable, sym: KeySym, l3: Mods)
    requires Injection.Valid(st)
    ensures var d := Decide(Processed(st), alts, sym);
            var held := Press(st, alts, sym).server.held.Keys;
            Sane(st, l3) && ReachesTheKey(d) ==>
              (held == Processed(st).server.held.Keys + {d.key} <==> d.key !in FakedKeys(d))
  {
    var d := Decide(Processed(st), alts, sym);
    if Sane(st, l3) && ReachesTheKey(d) {
      PressEffect(st, alts, sym, l3);
      SaneDecision(st, alts, sym, l3);
      FakedKeyIsUp(d);
      KeysGrow(d.st.server.held, d.key, SetBy(d.st.xkb, d.key, d.target), d.key in FakedKeys(d));
    }
  }

  lemma FakedKeysAreUp(xkb: Keymap, srv: Server, target: CoreState)
    requires WellFormed(xkb) && SaneModifiers(xkb, srv) && PlanFakes(xkb, srv, target).ok
    requires MayAskFor(StateOf(srv), LevelThreeMask(xkb, srv.group), target)
    ensures var f := PlanFakes(xkb, srv, target).fakes;
            && (f.shift.press != 0 ==> f.shift.press !in srv.held)
            && (f.l3.press != 0 ==> f.l3.press !in srv.held)
  {
    PlannedFakes(xkb, srv, target);
    var f := PlanFakes(xkb, srv, target).fakes;
    var l3 := LevelThreeMask(xkb, srv.group);
    if f.l3.press != 0 && f.l3.press in srv.held {
      assert f.shift.press == 0 && f.l3.press in f.shift.released;
      NotAKeyForBoth(xkb, srv.group, l3, {Shift}, f.l3.press);
    }
  }

  lemma StartEffectHeld(xkb: Keymap, srv: Server, mask: Mods, f: Fake)
    requires WellFormed(xkb) && mask != {} && KeysSetExactly(xkb, srv.group, mask) && FromHeldKeys(xkb, srv, mask)
    requires FakesMask(xkb, srv, mask, f)
    ensures var next := RunEvents(xkb, srv, Start(f));
            && next == srv.(held := HeldAfter(srv.held, mask, f))
            && (next == srv <==> f == NO_FAKE)
  {
    StartEffect(xkb, srv, mask, f);
    var held := HeldAfter(srv.held, mask, f);
    if f.press == 0 {
      if f.released == [] {
        assert held == srv.held;
      } else {
        assert f.released[0] in srv.held && f.released[0] !in held;
      }
    }
  }

  lemma FailedPlan(xkb: Keymap, srv: Server, target: CoreState)
    requires WellFormed(xkb) && SaneModifiers(xkb, srv) && !PlanFakes(xkb, srv, target).ok
    ensures var f := FakeShift(xkb, srv, target).1;
            var next := RunEvents(xkb, srv, Before(PlanFakes(xkb, srv, target).fakes));
            && next == srv.(held := HeldAfter(srv.held, {Shift}, f))
            && (next == srv <==> !ShiftDiffers(StateOf(srv), target) || !FakeShift(xkb, srv, target).0)
  {
    var (shiftOk, f) := FakeShift(xkb, srv, target);
    assert PlanFakes(xkb, srv, target).fakes == Fakes(f, NO_FAKE);
    assert Before(Fakes(f, NO_FAKE)) == Start(f);
    if shiftOk {
      ShiftPlanned(xkb, srv, target);
    } else {
      assert f == NO_FAKE;
    }
    StartEffectHeld(xkb, srv, {Shift}, f);
  }

  /** A press that fails for want of a modifier key presses nothing and records nothing, but a fake Shift that
      was started before the failure stays: the keyboard is as before exactly if Shift did not have to change,
      or could not be faked either. */
  lemma FailedPressLeavesShift(st: Injector, alts: AltTable, sym: KeySym, l3: Mods)
    requires Injection.Valid(st)
    ensures var d := Decide(Processed(st), alts, sym);
            var srv := Processed(st).server;
            var (shiftOk, f) := FakeShift(d.st.xkb, srv, d.target);
            var r := Press(st, alts, sym);
            Sane(st, l3) && d.key != 0 && !ReachesTheKey(d) ==>
              && r.pressed == st.pressed
              && RunEvents(r.xkb, r.server, r.queue) == srv.(held := HeldAfter(srv.held, {Shift}, f))
              && (RunEvents(r.xkb, r.server, r.queue) == srv <==> !ShiftDiffers(StateOf(srv), d.target) || !shiftOk)
  {
    var d := Decide(Processed(st), alts, sym);
    if Sane(st, l3) && d.key != 0 && !ReachesTheKey(d) {
      SaneDecision(st, alts, sym, l3);
      FailedPlan(d.st.xkb, d.st.server, d.target);
      assert Press(st, alts, sym) == d.st.(queue := Before(PlanFakes(d.st.xkb, d.st.server, d.target).fakes));
    }
  }
}
