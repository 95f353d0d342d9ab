# Verified model of the X server core of Termux:X11

This project models the native core of Termux:X11 in Dafny and proves how it behaves over whole runs and over
all interleavings of its threads. `dafny verify dfyconfig.toml` checks everything.

| file | what it models |
|---|---|
| `Xkb.dfy` | the keyboard map: groups, shift levels, key types, actions (section 7.2 of the X Keyboard Extension Protocol Specification) |
| `KeysymLookup.dfy` | the search for a key that gives a keysym, in up to four modifier states |
| `AddedKeysyms.dfy` | keysyms given a keycode of their own, kept in least-recently-used order |
| `KeyboardServer.dfy` | what key events do to the keys held and the modifiers they set |
| `Injection.dfy`, `KeysymInjector.dfy` | a press and a release of a keysym: as functions of the state, and as methods that change it in place |
| `InjectionProofs.dfy`, `PressTheorems.dfy`, `InjectionRuns.dfy`, `LayoutRuns.dfy` | what a press achieves and what holds over runs of events |
| `SaneLayouts.dfy` | what is assumed of a layout, and that key events and additions keep it |
| `LayoutExamples.dfy` | small layouts on which a press succeeds, one fails, a release is lost, keysyms cannot be typed and NumLock is misjudged |
| `FakeConditions.dfy` | when the modifiers of a press can be had, in terms of the layout and of the keys held |
| `FrameProtocol.dfy`, `ServerChanges.dfy`, `WakeUps.dfy` | X server thread, cursor changes, render thread and the thread that passes signals on, over the shared flags and locks, in steps; what a drawing or a move leaves, and which signals are heard |
| `BufferLists.dfy`, `BufferRegistry.dfy` | the three buffer lists of the renderer, and the server's registry, used by two threads and replicated over the socket |
| `RenderLoop.dfy` | the loop of the render thread and when it sleeps |
| `Vblanks.dfy` | the queue of events that wait for a vertical blank |
| `Utf8.dfy`, `ClipboardText.dfy` | RFC 3629, and the text conversions of the clipboard on C strings |
| `Common.dfy` | what several modules need: searching a list, repeating a step |
| `Selection.dfy`, `SelectionRuns.dfy` | the owned clipboard selection and its queue (section 2.2 of the Inter-Client Communication Conventions Manual) |

Where the code changes state, a class has its state and its methods, and each method is proved equal to a function
of the old state. The theorems are about those functions, and about runs: lists of inputs, or of steps of
concurrent threads in any order.

Assumptions that the code makes of the X server are predicates: `Xkb.WellFormed` (what the server guarantees of a
keymap), `AddedKeysyms.HasCanonicalTypes` (the alphabetic key type, in either form) and `SaneLayouts.Sane` (Shift
keys set exactly Shift, level-three keys exactly one mask without Shift, both come from held keys, and added keysyms
sit on keys without modifiers; asked of the start only). Of the conversion of cases nothing is assumed. Results of
calls into the X server, such as looking up a window, changing a property or finding the connection alive, are
parameters of the step that makes the call.

## Where the code does less than its comments say

- A press that fails to find a level-three key returns with its fake Shift already queued, so Shift stays as faked
  (`PressTheorems.FailedPressLeavesShift` says exactly when, `LayoutExamples.ShiftStaysDown` shows it).
- The record of a keysym is overwritten when its key is pressed for another keysym, and its release then does
  nothing (`InjectionRuns.ReleaseMatchesPress` says exactly when, `LayoutExamples.SmallReleaseIsLost` shows it).
- A signal to the renderer can fall between its look at the flags and its sleep, although a comment says that it
  looks right before going to sleep (`WakeUps.SignalCanBeLost`); `WakeUps.SignalIsHeard` says exactly which are
  heard, and `WakeUps.NextSignalHeals` and `WakeUps.NextTickShowsEverything` that the next tick repairs it.
- An added keysym is not always given by its new key, and then the second lookup fails. It always is if and only if
  it is its own lower case, or its own upper case and either Lock selects the second level or its lower case leads
  back to it (`AddedKeysyms.AddedIsReachable`). NoSymbol never is. With the simple case mappings of Unicode, which
  the examples assume, title-case letters never are (`LayoutExamples.TitleCaseIsNotTyped`), and U+0130 is not while
  Lock is on and left to the client (`LayoutExamples.DottedIIsNotTypedUnderLock`).
- When Num_Lock uses the modifier map, the code reads the map at the other key; the model does the same
  (`KeysymLookup.NumLockTestIsRight` says exactly when that is right, `LayoutExamples.KeypadIsMisjudged` shows it wrong).
- The UTF-8 check always reads one to four bytes behind a text without NUL that it accepts
  (`ClipboardText.ReadsOnlyItsData` says exactly when it does not, `ClipboardText.ReadsBehindOneByte` shows it), and
  it accepts overlong forms, surrogates and stray later bytes (`ClipboardText.AcceptsWellFormed`).
- Converting a text to Latin-1 walks past its terminator when its last character is cut short
  (`ClipboardText.LeavesIfCutShort` says exactly when, `ClipboardText.LoneLeadLeaves` shows it); a well-formed
  text, which is all that Android sends, is not walked so.
- A buffer registered while the input thread handles an error can stay listed without a connection, and the next
  session never announces it (`BufferRegistry.LateRegistrationIsNeverAnnounced`;
  `BufferRegistry.CleanErrorStaysClean` and `BufferRegistry.OtherwiseSomethingIsLeft` say exactly when).
- The activity reads one byte more than the clipboard text it was sent, which belongs to the next message if one
  follows (`ClipboardText.TextArrives`).
- A requestor that leaves the property to the owner is told None even when its data was written
  (`SelectionRuns.SuccessIsTold`).

## Model

| member | source | states |
|---|---|---|
| Xkb.EffectiveGroup | app/src/main/cpp/lorie/InputXKB.c:153-171 | the group used is always one of the key's own groups, and is the keyboard's group whenever the key has it |
| Xkb.FirstEntry | app/src/main/cpp/lorie/InputXKB.c:175-187 | the map entry taken is active and matches the masked modifiers, and no earlier entry does |
| Xkb.Column | app/src/main/cpp/lorie/InputXKB.c:151-190 | group times width plus level stays inside the rows of keysyms and of actions, for every well-formed map, key and state |
| Xkb.GivesFromItsRow | app/src/main/cpp/lorie/InputXKB.c:151-194 | for keysyms laid out in one row per group: the key gives the keysym of the row it uses, at the level of the first active entry that matches exactly (the base level without one), and consumes the modifiers of that row's key type that the entry does not preserve; the row is that of the keyboard's group if the key has it, else the one reached by wrapping, the last, or the one redirected to |
| Xkb.ActsFromItsRow | app/src/main/cpp/lorie/InputXKB.c:197-246 | the same for the actions of the key, in one row per group |
| Xkb.RowIsUnique | app/src/main/cpp/lorie/InputXKB.c:153-171 | exactly one row is used in each case |
| Xkb.LevelIsUnique | app/src/main/cpp/lorie/InputXKB.c:175-194 | exactly one level is selected in each case, and the modifiers it consumes |
| Xkb.NothingWithoutGroups | app/src/main/cpp/lorie/InputXKB.c:143-148 | a key out of range or without groups gives nothing, does nothing and consumes nothing |
| Xkb.FindEntry | app/src/main/cpp/lorie/InputXKB.c:175-187 | the search loop stops at exactly that first entry |
| Xkb.TranslateKeyCode | app/src/main/cpp/lorie/InputXKB.c:131-195 | the keysym in the selected column (NoSymbol for a key out of range or without groups) and the modifiers the type may consume |
| Xkb.KeyAction | app/src/main/cpp/lorie/InputXKB.c:197-246 | the action in the selected column, none for a key without actions or groups |
| KeysymLookup.FindFake | app/src/main/cpp/lorie/InputXKB.c:53-55 | a keycode is fake exactly when it is in the table |
| KeysymLookup.SearchState | app/src/main/cpp/lorie/InputXKB.c:492-541 | the loop over the keycodes with its fallback gives the lowest real key that yields the keysym, else the lowest fake one, else 0 |
| KeysymLookup.KeysymToKeycode | app/src/main/cpp/lorie/InputXKB.c:482-566 | without new_state the one state is searched; with it the first of the (two or four) toggled states that has a key is returned with that state; the recursion through the level-three mask ends |
| KeysymLookup.GetLevelThreeMask | app/src/main/cpp/lorie/InputXKB.c:284-313 | the modifiers that the level-three key sets when no modifier is on, empty if there is no such key or it does not set modifiers |
| KeysymLookup.IsAffectedByNumLock | app/src/main/cpp/lorie/InputXKB.c:568-610 | the level of the key depends on the modifier Num_Lock locks, with the modifier map read at the key asked about, as the code does |
| KeysymLookup.KeyForIsBest | app/src/main/cpp/lorie/InputXKB.c:492-541 | sound, complete and minimal in one state: 0 exactly when no key in range gives the keysym; a real key beats every fake one and the lowest of its kind wins |
| KeysymLookup.LookupIsBest | app/src/main/cpp/lorie/InputXKB.c:482-566 | sound, complete and minimal over the states: the key gives the keysym in the state returned; 0 exactly when no key does in any of the states; no state tried earlier has a key |
| KeysymLookup.CandidatesToggle | app/src/main/cpp/lorie/InputXKB.c:543-565 | the states tried, modifier by modifier: as it is, Shift toggled, the whole level-three mask on if none of it is and off otherwise, and both |
| KeysymLookup.LevelThreeKeyIsBest | app/src/main/cpp/lorie/InputXKB.c:284-300 | the best key for ISO_Level3_Shift, for Mode_switch only if no key gives that, none exactly if no key gives either |
| KeysymLookup.NumLockKeyIsBest | app/src/main/cpp/lorie/InputXKB.c:575-597 | the Num_Lock key is the best one for Num_Lock while no modifier is on, and only if it locks modifiers |
| KeysymLookup.LevelThreeMaskIs | app/src/main/cpp/lorie/InputXKB.c:302-313 | the mask is what that key sets while no modifier is on, nothing for another action |
| AddedKeysyms.TakesLastUsable | app/src/main/cpp/lorie/InputXKB.c:648-672 | the keycode recycled is that of the last entry whose key still has a group, starts with its keysym and has its name; it and all behind it are dropped, and all are if there is none |
| AddedKeysyms.AdditionTakesHighestFree | app/src/main/cpp/lorie/InputXKB.c:686-696 | an addition takes the highest keycode in range without groups, if there is one, heads the list with it and drops no entry |
| AddedKeysyms.AdditionRecycles | app/src/main/cpp/lorie/InputXKB.c:686-699 | otherwise it recycles the keycode of the last usable entry, which goes with all behind it; without one nothing is added |
| AddedKeysyms.AssignedIs | app/src/main/cpp/lorie/InputXKB.c:701-733 | the new key has one group of the alphabetic type with both cases and no actions, and its name; every other key, the modifier map and the types are untouched |
| AddedKeysyms.KeyNameIsItsNumber | app/src/main/cpp/lorie/InputXKB.c:709-712 | the name of an assigned key is its keycode in three decimal digits behind a T |
| AddedKeysyms.MovedToFront | app/src/main/cpp/lorie/InputXKB.c:628-646 | moving an entry to the front keeps the order of all others, in a list with distinct keycodes |
| AddedKeysyms.LruOrder | app/src/main/cpp/lorie/InputXKB.c:612-672 | after any run of additions, uses and evictions the list is ordered by decreasing last use, so its last entry is the least recently used |
| AddedKeysyms.AlphabeticGives | app/src/main/cpp/lorie/InputXKB.c:722-727 | exactly what a two-case key gives, for every combination of Shift and Lock and both usual forms of its key type |
| AddedKeysyms.AddedIsReachable | app/src/main/cpp/lorie/InputXKB.c:674-737 | with Lock on or off, the new key gives its keysym, at most by toggling Shift, exactly when the two cases and the form of the alphabetic type say so; it does in every state, and no lookup fails, if and only if the keysym is its own lower case, or its own upper case that Lock selects or that its lower case leads back to |
| AddedKeysyms.AddedIsFound | app/src/main/cpp/lorie/InputXKB.c:747-829 | a lookup that failed before the addition now finds exactly the new key, or still fails: it finds it if and only if the key gives the keysym in a state it tries, which unless the level-three mask has Lock depends on Lock alone |
| AddedKeysyms.OtherKeysUnchanged | app/src/main/cpp/lorie/InputXKB.c:722-733 | what any other key gives and does is the same before and after an addition |
| KeyboardServer.PressSets | app/src/main/cpp/lorie/InputXKB.c:904-911 | pressing a key of a mask that is off turns on exactly that mask and holds only that key more |
| KeyboardServer.ReleaseClears | app/src/main/cpp/lorie/InputXKB.c:912-921 | releasing every held key of a mask turns off exactly that mask |
| KeyboardServer.RunPresses | app/src/main/cpp/lorie/InputXKB.c:966-979 | pressing released modifier keys again holds them exactly as before, for any number of keys |
| KeysymInjection.KeysymInjector.ProcessInputEvents | app/src/main/cpp/lorie/InputXKB.c:785 | the queue is worked off event by event, in order |
| KeysymInjection.KeysymInjector.OnKeyUsed | app/src/main/cpp/lorie/InputXKB.c:628-646 | the list with the first entry of the keycode moved to the front; the shortcut for the first entry is equal to the full scan |
| KeysymInjection.KeysymInjector.GetReusableKeycode | app/src/main/cpp/lorie/InputXKB.c:653-672 | the last entry that is still ours, with it and everything behind it removed; 0 and the empty list if there is none; the loop ends |
| KeysymInjection.KeysymInjector.AddNewKeysym | app/src/main/cpp/lorie/InputXKB.c:674-737 | the highest keycode without groups, else the recycled one, carries both cases under the alphabetic type and heads the list; 0 changes no key |
| KeysymInjection.KeysymInjector.PressShift | app/src/main/cpp/lorie/InputXKB.c:315-347 | the lowest key that sets Shift now; 0 if Shift is on already or no key sets it |
| KeysymInjection.KeysymInjector.ReleaseKeys | app/src/main/cpp/lorie/InputXKB.c:349-395 | the keys that are down and set a bit of the mask, in order; none if the mask is off or they are more than eight |
| KeysymInjection.KeysymInjector.PressLevelThree | app/src/main/cpp/lorie/InputXKB.c:397-428 | the level-three key, if its action sets modifiers and the mask is off |
| KeysymInjection.KeysymInjector.TryAlternatives | app/src/main/cpp/lorie/InputXKB.c:792-808 | the lookup of the first table entry for the keysym whose other side has a key |
| KeysymInjection.KeysymInjector.TryWithoutNumLock | app/src/main/cpp/lorie/InputXKB.c:832-876 | the choice, replaced by an alternative that does not fake Shift on a key NumLock governs, if there is one |
| KeysymInjection.KeysymInjector.ChooseKey | app/src/main/cpp/lorie/InputXKB.c:787-892 | key and state for the keysym: itself, an alternative, or a key added for it; Tab keeps Shift |
| KeysymInjection.KeysymInjector.FakeModifiers | app/src/main/cpp/lorie/InputXKB.c:903-946 | the events queued are the planned fakes of Shift and of level three; on failure exactly those queued before it |
| KeysymInjection.KeysymInjector.RecordPressed | app/src/main/cpp/lorie/InputXKB.c:953-963 | afterwards the key is recorded for the keysym and no other key is |
| KeysymInjection.KeysymInjector.PressKey | app/src/main/cpp/lorie/InputXKB.c:903-988 | fakes, key press, undoing of the fakes in reverse, list and record updated, queue worked off; on a missing modifier key only the queue changes |
| KeysymInjection.KeysymInjector.KeysymUp | app/src/main/cpp/lorie/InputXKB.c:761-777 | the first key recorded for the keysym is forgotten and released; nothing happens if there is none |
| KeysymInjection.KeysymInjector.KeysymKeyboardEvent | app/src/main/cpp/lorie/InputXKB.c:747-989 | the whole new state of the injector after a press or release event |
| InjectionProofs.FakesReachTarget | app/src/main/cpp/lorie/InputXKB.c:895-946 | on a sane layout the fakes take the keyboard from its state to exactly the state asked for |
| InjectionProofs.FakesLeaveNoTrace | app/src/main/cpp/lorie/InputXKB.c:903-979 | all events of a press together change the held keys only by the key pressed, for any number of keys let go (none if it is itself a faked modifier key) |
| InjectionProofs.PressNests | app/src/main/cpp/lorie/InputXKB.c:903-979 | the events of a press: Shift, level three, the key, the undoing of level three and that of Shift, each undoing pressing what was released and releasing what was pressed |
| PressTheorems.PrefersItself | app/src/main/cpp/lorie/InputXKB.c:787-808 | a key for the keysym itself comes first, then the first entry of the table whose other side has a key |
| PressTheorems.TabKeepsShift | app/src/main/cpp/lorie/InputXKB.c:878-892 | the key goes with the state it was found in, in which it gives the keysym or an equivalent; a Tab requested with Shift on keeps Shift in addition, and nothing else does |
| PressTheorems.AddsOnlyWhatIsMissing | app/src/main/cpp/lorie/InputXKB.c:787-813 | a keysym is added exactly when no key gives it or an equivalent in any state a press can reach |
| KeysymLookup.NumLockTestIsRight | app/src/main/cpp/lorie/InputXKB.c:568-610 | the test judges a key rightly exactly when Num_Lock does not use the modifier map, or the map at that key and at the Num_Lock key agree on whether they meet the modifiers of the key type |
| PressTheorems.AvoidsNumLock | app/src/main/cpp/lorie/InputXKB.c:832-876 | Shift is faked on a key that the test of the code takes to be affected by NumLock exactly when that is so for the choice and for every equivalent that has a key; otherwise the choice is kept or replaced by one without that defect |
| PressTheorems.AvoidsRealNumLock | app/src/main/cpp/lorie/InputXKB.c:832-876 | where that test is right about every key, the same holds of the keys that NumLock really governs |
| PressTheorems.AddedIsPressed | app/src/main/cpp/lorie/InputXKB.c:810-831 | after an addition the second lookup finds a key whenever the new key always gives its keysym; while the level-three mask in force stays or vanishes it finds exactly the new key, and fails if and only if the key does not give the keysym with Lock as it is |
| PressTheorems.DecisionIsRight | app/src/main/cpp/lorie/InputXKB.c:787-892 | the key decided on gives the keysym or an equivalent in the state decided on, which differs from the current one at most in Shift and the whole level-three mask |
| SaneLayouts.SaneNow | app/src/main/cpp/lorie/InputXKB.c:284-313 | on a sane layout the level-three mask in force is that of the layout or none, and every level-three key found in any state that sets modifiers sets it |
| SaneLayouts.EventsStaySane | app/src/main/cpp/lorie/InputXKB.c:785 | any key events keep a sane keyboard sane |
| SaneLayouts.AddingStaysSane | app/src/main/cpp/lorie/InputXKB.c:674-737 | adding any keysym, on a free or on a recycled keycode, also a level-three keysym, keeps a sane keyboard sane |
| PressTheorems.PressGivesKeysym | app/src/main/cpp/lorie/InputXKB.c:785-949 | end to end: when a press on a sane keyboard reaches the real key, with a keysym added for it or without, the key goes down in a state in which it gives the keysym or an equivalent (for Tab with Shift on, in that state with Shift kept) |
| PressTheorems.PressEffect | app/src/main/cpp/lorie/InputXKB.c:747-989 | the whole keyboard after such a press: the key held with the modifiers it sets, all else as before, queue empty, record updated |
| PressTheorems.PressAddsOneKey | app/src/main/cpp/lorie/InputXKB.c:903-979 | the keys down grow by exactly the key if and only if it is not the modifier key that was faked |
| PressTheorems.PressStaysSane | app/src/main/cpp/lorie/InputXKB.c:747-989 | a press keeps a sane keyboard sane, whether it succeeds or fails and wherever it returns |
| PressTheorems.FailedPressLeavesShift | app/src/main/cpp/lorie/InputXKB.c:903-946 | a press that fails for want of a modifier key records nothing and leaves its fake Shift standing: the keyboard is as before if and only if Shift did not have to change or could not be faked either |
| FakeConditions.PlanSucceeds | app/src/main/cpp/lorie/InputXKB.c:315-428 | on a sane keyboard the fakes can be had if and only if both modifiers are as asked for, or some key of the layout sets Shift, the lowest key found for level three sets modifiers in the present state, and at most eight keys are held for a modifier to turn off |
| FakeConditions.ShiftAloneLeavesLevelThree | app/src/main/cpp/lorie/InputXKB.c:895-900 | when nothing but Shift has to change, nothing is faked for level three |
| FakeConditions.DownKeysAscend | app/src/main/cpp/lorie/InputXKB.c:363-392 | the keys let go of are found from the lowest to the highest |
| FakeConditions.PressSucceeds | app/src/main/cpp/lorie/InputXKB.c:903-946 | on a sane keyboard a press reaches its key if and only if a key was found and both modifiers are available in that sense; one that does not leaves the keyboard as it was if and only if no key was found, or Shift is as asked for or not available either |
| LayoutExamples.ShiftedLetter | app/src/main/cpp/lorie/InputXKB.c:903-988 | on a four-key layout an upper-case letter is typed with Shift faked: the premises of the theorems on presses hold there, and its key alone stays down |
| LayoutExamples.ShiftStaysDown | app/src/main/cpp/lorie/InputXKB.c:928-942 | on that layout with Control on, a letter of level four fails and the Shift key that was faked for it ends up down |
| LayoutExamples.TitleCaseIsNotTyped | app/src/main/cpp/lorie/InputXKB.c:825-829 | with the case mappings of Unicode a title-case letter is given the free key of that layout, the second lookup fails and nothing is typed |
| LayoutExamples.DottedIIsNotTypedUnderLock | app/src/main/cpp/lorie/InputXKB.c:825-829 | with those mappings, Lock on and left to the client, the same happens to the dotted capital I, which is its own upper case and which the key does give while Lock is off |
| LayoutExamples.KeypadIsMisjudged | app/src/main/cpp/lorie/InputXKB.c:600-607 | on a keypad layout whose Num_Lock uses the modifier map, NumLock governs a key that the test takes not to be affected |
| InjectionRuns.HardwareGoesLast | app/src/main/cpp/lorie/InputXKB.c:785 | an event of the hardware keyboard goes behind those queued already and is worked off after them; nothing else changes |
| InjectionRuns.OneKeyEachAlways | app/src/main/cpp/lorie/InputXKB.c:953-963 | over any run, with keymap edits by others, no keysym but NoSymbol is recorded for two keys |
| InjectionRuns.RecordIsFollowed | app/src/main/cpp/lorie/InputXKB.c:747-777 | over any run of keysym events, hardware keys, processing and keymap edits, a keysym is recorded for the last key pressed for it, and for none if it was released since or that key was then pressed for another keysym |
| InjectionRuns.ReleaseMatchesPress | app/src/main/cpp/lorie/InputXKB.c:761-777 | the release of a keysym lets go of the key recorded at its press if and only if no press of another keysym reached that key in between; if one did, the release does nothing at all; hardware keys, keymap edits and presses on other keys do not matter |
| LayoutExamples.SmallReleaseIsLost | app/src/main/cpp/lorie/InputXKB.c:953-963 | on a four-key layout the small and then the capital letter are pressed on one key: the release of the small letter then changes nothing, and the key stays down |
| InjectionRuns.TypingLeavesNoRecord | app/src/main/cpp/lorie/cmdentrypoint.c:383-389 | after any run of typed characters nothing is recorded as pressed |
| InjectionRuns.TypingLeavesKeyboard | app/src/main/cpp/lorie/cmdentrypoint.c:383-389 | typing a character on a sane keyboard, when the press reaches the key, leaves that key up and all else as it was: nothing changes if and only if the key was up before |
| InjectionRuns.FailedTypingLeavesKeyboard | app/src/main/cpp/lorie/cmdentrypoint.c:383-389 | when the press does not reach its key, in all its outcomes and with the queue worked off: a fake Shift that was started stays, and the release lets go of the key recorded for the keysym before, if there was one; with none, the keyboard is as before if and only if no key was found, or Shift did not have to change or could not be faked |
| InjectionRuns.EveryPressIsRight | app/src/main/cpp/lorie/InputXKB.c:747-989 | from a sane start, after any run of keysym events and hardware keys, whatever was added, recycled or failed: every press that reaches its key gives the keysym or an equivalent and leaves nothing on the keyboard but that key, and one that does not records nothing |
| LayoutRuns.TakesFreeOrOldest | app/src/main/cpp/lorie/InputXKB.c:686-696 | while the layout is intact an addition takes a key that was free in the original layout: one not in the list, or that of the oldest entry |
| LayoutRuns.LayoutAlwaysIntact | app/src/main/cpp/lorie/InputXKB.c:612-737 | over any run without edits by others: original keys keep symbols, names and groups, entries have distinct keycodes outside the original layout and still carry their keysym, and the list is what its additions, uses and evictions make it |
| LayoutRuns.RecyclesLeastRecentlyUsed | app/src/main/cpp/lorie/InputXKB.c:648-672 | from the start, over any such run, the keycode that would be recycled is the one whose last use lies furthest back, and only its entry goes |
| FrameProtocol.InvNext | app/src/main/cpp/lorie/renderer.c:514-578 | every single step of the X server thread, of a cursor change, of the render thread and of the thread that passes signals on keeps the invariant, and never adds to the frames rendered ahead of the ticks |
| FrameProtocol.NothingIsLost | app/src/main/cpp/lorie/InitOutput.c:323-447 | in every interleaving, a root window, cursor position, cursor shape or pixels that the screen does not show are flagged, damaged, or held by a thread at a named point of announcing or rendering them |
| FrameProtocol.SettledScreenIsCurrent | app/src/main/cpp/lorie/InitOutput.c:399-447 | when the server is idle, the renderer looks, dozes or sleeps, and nothing is flagged, the screen shows exactly what the server has |
| FrameProtocol.NoTearing | app/src/main/cpp/lorie/InitOutput.c:884-913 | in every interleaving, nobody writes the root window, or the cursor's pixels, while the renderer holds them |
| FrameProtocol.OneFramePerVsync | app/src/main/cpp/lorie/lorie.h:193-207 | between any two points of any interleaving the frames rendered exceed the ticks by at most one, also when a tick falls into a frame |
| ServerChanges.MoveArrives | app/src/main/cpp/lorie/InitOutput.c:323-330 | a move of the cursor that no later one overtakes ends with exactly the position asked for, in any interleaving, and with a new shape and new pixels exactly if a new cursor was set |
| ServerChanges.DrawingIsDamage | app/src/main/cpp/lorie/InitOutput.c:884-913 | a drawing ends with a new root window and with damage, in any interleaving |
| FrameProtocol.FrameShowsEverything | app/src/main/cpp/lorie/renderer.c:534-578 | a frame rendered without interference shows everything the server has, takes back every flag and counts one frame |
| WakeUps.SignalIsHeard | app/src/main/cpp/lorie/renderer.c:772-787 | while a frame is due, a signal of the server is heard if and only if the renderer is awake, or asleep with the passing thread not on its way back to listen |
| WakeUps.SignalCanBeLost | app/src/main/cpp/lorie/renderer.c:608-613 | a cursor that moves between the look of the renderer at the flags and its sleep: the signal is lost and the renderer sleeps on |
| WakeUps.LostStaysLost | app/src/main/cpp/lorie/renderer.c:608-613 | without another signal nothing the renderer and the passing thread do begins that frame |
| WakeUps.HeardIsRendered | app/src/main/cpp/lorie/renderer.c:580-613 | in every interleaving on the same surface, once a signal is heard a frame has begun as soon as the passing thread and then the renderer have taken a step |
| WakeUps.NextSignalHeals | app/src/main/cpp/lorie/InitOutput.c:436-444 | in every interleaving on the same surface, whatever was lost, the next signal that finds the renderer asleep and the passing thread listening gets the frame begun, because flags are kept until then |
| WakeUps.NextTickShowsEverything | app/src/main/cpp/lorie/InitOutput.c:399-447 | after any run, lost signals included: from a quiet state with a surface, one undisturbed tick with a live connection leaves everything the server has on the screen and nothing flagged, with one frame more if and only if something was flagged or damaged |
| WakeUps.IdleTick | app/src/main/cpp/lorie/InitOutput.c:407-410 | a tick without a live connection or without a surface counts and ends the wait, and leaves damage and flags |
| WakeUps.NoFrameWithoutSurface | app/src/main/cpp/lorie/renderer.c:594-662 | from the start, in every interleaving, a frame is begun, rendered and shown only while there is a surface |
| WakeUps.NoFrameWithoutBuffer | app/src/main/cpp/lorie/renderer.c:518-530 | a frame whose buffer is not there takes no flag, touches nothing and ends in sleep |
| WakeUps.NewSurfaceIsFlagged | app/src/main/cpp/lorie/renderer.c:500-505 | a new surface shows nothing, is available, and is flagged for a whole frame and for the cursor |
| WakeUps.LostSurfaceIsGone | app/src/main/cpp/lorie/renderer.c:484-489 | a surface that is taken away is gone, and the renderer goes to sleep whatever is flagged |
| WakeUps.MoveIsShown | app/src/main/cpp/lorie/InitOutput.c:323-330 | after any run, a cursor move that is not overtaken is on the screen at exactly its position after the next undisturbed tick from a quiet state |
| BufferLists.AddSafe | app/src/main/cpp/lorie/renderer.c:383-388 | receiving a buffer keeps the ownership invariant: the new buffer, too, is live and in exactly one list, and all others stay where they were |
| BufferLists.RendererBuffers.Remove | app/src/main/cpp/lorie/renderer.c:390-405 | a buffer not yet attached is freed at once; an attached one moves to the list the render thread frees |
| BufferLists.RendererBuffers.RemoveAll | app/src/main/cpp/lorie/renderer.c:407-421 | the loops free everything not yet attached and move everything attached |
| BufferLists.RendererBuffers.Attach | app/src/main/cpp/lorie/renderer.c:642-649 | the loop attaches every new buffer and moves it |
| BufferLists.RendererBuffers.ReleaseAll | app/src/main/cpp/lorie/renderer.c:657-661 | the loop frees every removed buffer |
| BufferLists.FreeAllIsSafe | app/src/main/cpp/lorie/buffer.c:254-281 | freeing a list of live buffers frees each once, by the right thread, and leaves live plus freed the same in number |
| BufferLists.RemoveDoes | app/src/main/cpp/lorie/renderer.c:390-405 | the first new buffer of the id is freed at once by the other thread, or else the first attached one is put in front of those the render thread frees, or else nothing happens |
| BufferLists.MoveAllReverses | app/src/main/cpp/lorie/renderer.c:407-421 | buffers moved between lists come in front of those there, the last moved first |
| BufferLists.FreeAllDoes | app/src/main/cpp/lorie/buffer.c:254-281 | freeing a list frees its buffers one after the other, each by the thread at work |
| BufferLists.DrawsTheFirst | app/src/main/cpp/lorie/renderer.c:518-530 | of the buffers of the id asked for the first attached one is drawn, or the first removed one if none is attached, and none exactly if there is neither |
| BufferLists.BuffersAreSafe | app/src/main/cpp/lorie/renderer.c:514-664 | in every interleaving of both threads: the buffer being drawn has the id asked for, and if none is drawn no attached or removed buffer has it; each buffer ever received is live or freed; a live one is in exactly one list, once; GL-attached ones are freed only by the render thread, the others only by the other thread; none is freed twice; the buffer being drawn is live |
| BufferRegistry.Registry.RegisterBuffer | app/src/main/cpp/lorie/cmdentrypoint.c:452-465 | a buffer not listed yet is listed, and announced if the socket is open, while there is a connection; else nothing changes |
| BufferRegistry.Registry.UnregisterBuffer | app/src/main/cpp/lorie/cmdentrypoint.c:467-477 | a listed buffer is unlisted, and withdrawn if the socket is open, while there is a connection; else nothing changes |
| BufferRegistry.Registry.DestroyBuffer | app/src/main/cpp/lorie/InitOutput.c:866-875 | the buffer is unregistered and freed, and freeing takes it out of the list also without a connection |
| BufferRegistry.Registry.HandleError | app/src/main/cpp/lorie/cmdentrypoint.c:271-280 | the loop empties the list |
| BufferRegistry.CallsDo | app/src/main/cpp/lorie/cmdentrypoint.c:452-477 | registering lists and announces exactly a buffer that is not listed while there is a connection; destroying withdraws it if it is listed and there is one, and leaves it neither live nor listed; a message gets through if the socket is open |
| BufferRegistry.RegisterAlone | app/src/main/cpp/lorie/cmdentrypoint.c:452-465 | the steps of the main thread that nothing interrupts are that call |
| BufferRegistry.DestroyAlone | app/src/main/cpp/lorie/InitOutput.c:866-875 | the same for destroying a pixmap |
| BufferRegistry.AddIsRead | app/src/main/cpp/lorie/renderer.c:383-388 | an announcement read at the activity adds exactly one buffer of that id to those it can draw |
| BufferRegistry.RemoveIsRead | app/src/main/cpp/lorie/renderer.c:390-405 | a withdrawal read at the activity takes exactly one buffer of that id from those it can draw |
| BufferRegistry.RegistryIsReplicated | app/src/main/cpp/lorie/cmdentrypoint.c:437-477 | in every interleaving of the main thread, the input thread and the activity, access by access: no freed buffer is registered and none twice; while the socket is open, replaying the messages under way over the buffers of the activity gives exactly the ids this session announced; when settled, exactly the registered ids that were not listed when the connection was opened |
| BufferRegistry.AgreesUnlessStale | app/src/main/cpp/lorie/activity.c:195-207 | when settled both ends agree if and only if no listed buffer was listed before the connection was opened |
| BufferRegistry.AllocationTakesANumber | app/src/main/cpp/lorie/buffer.c:103-135 | every allocation takes a number that no live buffer has, also one that fails |
| BufferRegistry.ErrorBranchCleans | app/src/main/cpp/lorie/cmdentrypoint.c:271-280 | the error branch, uninterrupted, leaves no connection, nothing watched and nothing listed, and all else as it was |
| BufferRegistry.CleanErrorStaysClean | app/src/main/cpp/lorie/cmdentrypoint.c:271-280 | if the main thread was not past its test for a connection when the error branch ended, the list stays empty until the next connection, which starts with nothing stale |
| BufferRegistry.OtherwiseSomethingIsLeft | app/src/main/cpp/lorie/cmdentrypoint.c:437-465 | if it was past that test, its next steps leave a buffer listed without a connection, or a connection set whose socket is closed |
| BufferRegistry.SessionBegins | app/src/main/cpp/lorie/cmdentrypoint.c:437-442 | connecting with nothing listed and the error of the last session handled, as in the first session of a server (`FirstSessionBegins`), begins a session in the sense of the next row |
| BufferRegistry.LateRegistrationIsNeverAnnounced | app/src/main/cpp/lorie/cmdentrypoint.c:452-465 | in every session that begins, registering a buffer while the error branch runs leaves it listed; the next session never tells the activity of it, and registering it again sends nothing |
| RenderLoop.RenderThread.RendererShouldWait | app/src/main/cpp/lorie/renderer.c:580-606 | sleep or not, with the remembered buffer id and the waiting flag updated |
| RenderLoop.RenderThread.RendererTurn | app/src/main/cpp/lorie/renderer.c:615-662 | one turn with its branches: afterwards no state, window, new or removed buffer is pending and one frame was rendered at most |
| RenderLoop.RenderThread.RunUntilSleep | app/src/main/cpp/lorie/renderer.c:608-664 | with no other thread at work the loop sleeps after at most two turns, from any state, in exactly the state given by the row `WorksThenSleeps` |
| RenderLoop.Looks | app/src/main/cpp/lorie/renderer.c:580-606 | the look decides to sleep exactly if nothing was handed over and there is no connection, no surface, a vsync to wait for or no flag, or the very buffer asked for is being waited for; and what it remembers |
| RenderLoop.WorksThenSleeps | app/src/main/cpp/lorie/renderer.c:464-662 | the state in which the loop sleeps, from any state and by its fields alone: everything handed over is taken, new buffers are attached and removed ones freed; exactly one frame is rendered and every flag taken back if there is then a connection, a surface, no wait for the vsync, a flag and the buffer, unless the thread was waiting for that very buffer and nothing was handed over; otherwise no frame is, and all flags stay; and it waits for buffers if only the buffer was missing |
| RenderLoop.FlagsBringAFrame | app/src/main/cpp/lorie/renderer.c:594-606 | with nothing handed over and no waiting, a flag and a surface bring exactly one frame, and no flag brings none |
| RenderLoop.NewWindowBringsAFrame | app/src/main/cpp/lorie/renderer.c:502-505 | a new window brings exactly one frame, flagged or not, also to a thread that was waiting for buffers |
| RenderLoop.TurnDoes | app/src/main/cpp/lorie/renderer.c:615-662 | one turn renders a frame exactly if one is wanted and its buffer is there, and waits for buffers if one is wanted and it is not |
| RenderLoop.AfterOneTurn | app/src/main/cpp/lorie/renderer.c:580-664 | after a turn nothing is pending; it does not sleep only if the requested buffer is missing and is not the id last looked for |
| RenderLoop.SleepsWithinTwoTurns | app/src/main/cpp/lorie/renderer.c:580-664 | from any state two turns are enough, and the second is needed only for a missing buffer with an out-of-date id |
| Vblanks.QueueAccounts | app/src/main/cpp/lorie/InitOutput.c:743-755 | queueing an event makes it pending once more and changes the account of no other event |
| Vblanks.VblankQueue.AbortVblank | app/src/main/cpp/lorie/InitOutput.c:757-767 | the first event of that id, and no other, leaves the queue |
| Vblanks.VblankQueue.PerformVblanks | app/src/main/cpp/lorie/InitOutput.c:769-778 | the loop over the list it edits notifies exactly the due events in order and keeps the others in order |
| Vblanks.PerformIsExact | app/src/main/cpp/lorie/InitOutput.c:769-778 | notifying loses and invents no event, notifies none early and leaves none that is due |
| Vblanks.TickLeavesNothingDue | app/src/main/cpp/lorie/InitOutput.c:399-405 | after a vsync nothing pending is due |
| Vblanks.TickDoes | app/src/main/cpp/lorie/InitOutput.c:399-405 | a vsync advances the counter by one and notifies, in queue order and with the new count, exactly the pending events whose time has come; the others stay in order |
| Vblanks.NothingIsLate | app/src/main/cpp/lorie/InitOutput.c:769-778 | over any run, once there was a vsync no event whose time has come is pending, unless it was queued since |
| Vblanks.NewestFirst | app/src/main/cpp/lorie/InitOutput.c:743-755 | over any run the pending events are in the order opposite to that of their queueing |
| Vblanks.AbortDoes | app/src/main/cpp/lorie/InitOutput.c:757-767 | aborting takes the first event of that id out, lists it as aborted and changes nothing else; without one it changes nothing |
| Vblanks.AbortedNeverFires | app/src/main/cpp/lorie/InitOutput.c:757-778 | over any run with distinct ids, an event aborted while pending leaves the queue alone, and whatever follows it is never notified and never pending again |
| Vblanks.FiresExactlyOnce | app/src/main/cpp/lorie/InitOutput.c:743-778 | over any run with distinct ids each queued event is pending, or notified exactly once and not before its time, or aborted exactly once; no other event ever is |
| Utf8.EncodeDecode | app/src/main/cpp/lorie/clipboard.c:80-135 | RFC 3629: a well-formed character decodes to a scalar value whose encoding it is |
| Utf8.CodePointsOfEncoding | app/src/main/cpp/lorie/clipboard.c:80-135 | RFC 3629: encoding any scalar values gives text that is well formed by the grammar of section 4 and decodes to them |
| Utf8.EncodingOfCodePoints | app/src/main/cpp/lorie/clipboard.c:80-135 | RFC 3629: well-formed text is the encoding of its code points |
| ClipboardText.ConvertLF | app/src/main/cpp/lorie/clipboard.c:36-41 | the start of the buffer is the input without its carriage returns, the rest of the buffer is untouched |
| ClipboardText.WithoutKeeps | app/src/main/cpp/lorie/clipboard.c:36-41 | every byte that is not taken out stays, moved up by exactly the number taken out before it |
| ClipboardText.ConvertLFOnCodePoints | app/src/main/cpp/lorie/clipboard.c:36-41 | on UTF-8 text exactly the code points U+000D disappear and the rest stays well formed |
| ClipboardText.Latin1ToUTF8 | app/src/main/cpp/lorie/clipboard.c:43-49 | the start of the buffer is the RFC 3629 encoding of the bytes taken as code points, the rest is untouched |
| ClipboardText.Utf8OfLatin1Fits | app/src/main/cpp/lorie/clipboard.c:252 | the encoding of n Latin-1 bytes has n to 2n bytes and no NUL, so it fits the buffer with its terminator |
| ClipboardText.CheckUTF8 | app/src/main/cpp/lorie/clipboard.c:51-78 | the loop answers what the character-by-character definition answers, in a memory of any length from the size on, or reports the read behind it |
| ClipboardText.ChecksItsMemory | app/src/main/cpp/lorie/clipboard.c:55-66 | in a memory of any length it reads behind it exactly when with more bytes behind it it would read that far, and answers the same otherwise |
| ClipboardText.ReadsOnlyItsData | app/src/main/cpp/lorie/clipboard.c:55-66 | it reads nothing behind the data exactly when the walk meets a NUL between characters below the size, or is refused by bytes below it; it reads one to four bytes behind every text without NUL that it accepts |
| ClipboardText.ReadsBehindOneByte | app/src/main/cpp/lorie/clipboard.c:55 | the one-letter text in one byte: the check reads behind it |
| ClipboardText.CheckedCharacter | app/src/main/cpp/lorie/clipboard.c:56-75 | the length the check gives a well-formed character is its length, and what else it lets through is a stray later byte, an overlong form, a surrogate or above U+10FFFF |
| ClipboardText.AcceptsWellFormed | app/src/main/cpp/lorie/clipboard.c:51-78 | a text without NUL that has a byte behind it is well formed if and only if the check accepts it and meets no such lenient character: every well-formed text is accepted |
| ClipboardText.AcceptsOverlong | app/src/main/cpp/lorie/clipboard.c:51-78 | the check does accept a malformed text, the two-byte form of U+0000 |
| ClipboardText.Utf8ToUCS4 | app/src/main/cpp/lorie/clipboard.c:80-135 | the bytes taken and the code point, also for broken characters, for which one byte too many is counted |
| ClipboardText.StepOnCharacter | app/src/main/cpp/lorie/clipboard.c:80-135 | on a well-formed character it takes exactly its bytes and gives its code point |
| ClipboardText.StepTakes | app/src/main/cpp/lorie/clipboard.c:80-135 | on any bytes: all the later bytes that a first byte announces, one byte more than there are if there are too few, and all of them after a byte that announces nothing |
| ClipboardText.StepOnBroken | app/src/main/cpp/lorie/clipboard.c:102-135 | on a broken character it gives U+FFFD, or the number of an overlong form or of one above U+10FFFF |
| ClipboardText.Utf8ToLatin1 | app/src/main/cpp/lorie/clipboard.c:137-180 | for any text and memory: one byte per code point met, '?' above U+00FF, then the terminator; the passes agree on the length; reported if the walk leaves the memory |
| ClipboardText.WalkOnText | app/src/main/cpp/lorie/clipboard.c:137-180 | the code points met in a well-formed text are its code points, whatever is behind its terminator |
| ClipboardText.LeavesIfCutShort | app/src/main/cpp/lorie/clipboard.c:80-157 | a text at the end of its memory is walked without leaving it if and only if the walk does not come to a last character that the end cuts short |
| ClipboardText.LoneLeadLeaves | app/src/main/cpp/lorie/clipboard.c:105-122 | the first byte of a two-byte character alone: the walk passes the terminator |
| ClipboardText.Latin1RoundTrip | app/src/main/cpp/lorie/clipboard.c:137-180 | Latin-1 bytes turned into UTF-8 are well formed and come back unchanged |
| ClipboardText.StringSelection | app/src/main/cpp/lorie/clipboard.c:248-259 | a STRING selection is sent as the UTF-8 form of its bytes without carriage returns up to the first NUL, within the buffer of twice the size |
| ClipboardText.Utf8Selection | app/src/main/cpp/lorie/clipboard.c:260-273 | a UTF8_STRING selection, in a memory of any length from its size on, is sent without carriage returns up to the first NUL exactly when the check accepts it |
| ClipboardText.WellFormedSelectionIsSent | app/src/main/cpp/lorie/clipboard.c:260-273 | a well-formed text without NUL is accepted exactly when there is a byte behind it in memory, whatever that is, and sent as its code points without U+000D |
| ClipboardText.TextArrives | app/src/main/cpp/lorie/activity.c:155-161 | both ends receive the text that was sent; the activity leaves what follows it on the connection if and only if the text is empty or nothing follows |
| Selection.SelectionOwner.ConvertSelection | app/src/main/cpp/lorie/clipboard.c:299-411 | answered with the property written, put at the head of the queue with a request to Android, or refused with the first error met |
| Selection.SelectionOwner.ProcConvertSelection | app/src/main/cpp/lorie/clipboard.c:413-459 | a bad window or atom is an error, a selection of others is passed on, and an owned one is converted with the cached text, a refusal answered with None |
| SelectionRuns.OnlyOursAreTaken | app/src/main/cpp/lorie/clipboard.c:413-459 | one more request is answered or waits exactly if its window is there, its atoms are valid and the selection is this server's, and nothing changes otherwise; a missing window is reported before an invalid atom, the rest is passed on |
| SelectionRuns.ConversionOutcome | app/src/main/cpp/lorie/clipboard.c:299-411 | exactly when a request is answered, waits or is refused, and the first reason given for a refusal |
| SelectionRuns.AnswerIsAsAsked | app/src/main/cpp/lorie/clipboard.c:325-411 | an answer goes to the window of the requestor, under the property it named or else the target, and holds the five targets, the time of the last change, the text, or one Latin-1 byte per code point |
| SelectionRuns.AnnouncedTextIsNotServed | app/src/main/cpp/lorie/clipboard.c:512-524 | from an announcement on until a text arrives, over any inputs, no text is written for anybody, neither the one before it nor another; everybody who waited goes on waiting, in the same order, and so does who asks for text |
| Selection.SelectionOwner.HandleClipboardData | app/src/main/cpp/lorie/clipboard.c:526-559 | the new text is cached and the loop answers every queued request from the head on and ends with an empty queue |
| SelectionRuns.RequestsAreConserved | app/src/main/cpp/lorie/clipboard.c:299-459 | over any run, requests for the owned selection are exactly those answered and those queued; every answered one has one event with its own property or None, and every success one property written |
| SelectionRuns.ArrivalAnswersEverybody | app/src/main/cpp/lorie/clipboard.c:526-559 | after a text arrives the queue is empty and every request so far has been answered once |
| SelectionRuns.CacheIsLatest | app/src/main/cpp/lorie/clipboard.c:512-533 | over any run the cache is the last text received, unless an announcement came after it |
| SelectionRuns.ServedIsLatest | app/src/main/cpp/lorie/clipboard.c:436-441 | over any run everything served comes from the latest text since the last announcement |
| SelectionRuns.OnlyTextIsWaitedFor | app/src/main/cpp/lorie/clipboard.c:351-376 | over any run only requests for STRING, TEXT and UTF8_STRING wait, nobody waits while there is a text, and those who wait are, one for one and in order, the last for whom Android was asked |
| SelectionRuns.WaitingGetsTheText | app/src/main/cpp/lorie/clipboard.c:377-411 | a waiting request that can still be served gets the text: as it is, or one Latin-1 byte per code point, the very bytes if the text was made from Latin-1 |
| SelectionRuns.SuccessIsTold | app/src/main/cpp/lorie/clipboard.c:403-409 | the event of a success differs from that of a refusal if and only if the request named a property |

## Left out

- Of what key actions do in the X server only setting modifiers is modelled: locked modifiers and the group are given, and latches, locks and group switches by keys are not.
- Changing the types of a key is modelled as one alphabetic group of two columns without actions; the libX11 and X server sources, which do it, are not part of this model.
- ClipboardText.Utf8ToLatin1: for memory of up to 4294967295 bytes, where the second pass stops looking; the texts of Android come in a Java array and are shorter.
- ClipboardText.CheckUTF8: its index is unbounded here and a C int in the code, which differs for properties of two gigabytes.
- BufferRegistry.RegistryIsReplicated: messages are whole, so the byte that reading a clipboard text takes from the next message is not seen there; a connection is opened only after the error of the one before was handled; each access to the list is atomic, the error branch up to its loop is one step, opening the socket and resetting the activity is another, and locks inside the X server are not part of this model.
- FrameProtocol.NothingIsLost: one session from the moment the activity connects, cursors below 512x512, and one root window; the tests of several flags before a frame and before a signal, the test in a tick and the reading of the cursor's shape are one step each; resizing, flips of the root pixmap and a change of the shared state are not modelled.
- WakeUps.NextSignalHeals: a frame whose buffer has not arrived begins and goes to sleep again; the wake-up by the arrival of a buffer, by the GUI thread or without a cause is a step that may come at any time.
- Uploading textures, fences and swapping buffers are steps that succeed.
- BufferLists.BuffersAreSafe: every buffer has one reference, as in the renderer; the critical sections are atomic.
- RenderLoop.RenderThread.RendererTurn: a surface that EGL refuses to create is not modelled.
- Vblanks.FiresExactlyOnce: the counter does not wrap at 64 bits, allocation succeeds, and notifying an event is taken not to queue or abort events from inside the loop.
- SelectionRuns.RequestsAreConserved: clients stay connected while they wait.
- The mutex that is reinitialised when its owner died, its timeouts and the recursion of locks.
- Allocation failures of the list of added keysyms, where a key would be assigned but not listed.
- The cursor's conversion from two colours, the stylus, touch, mouse and gamepad events, and window focus.
- How the server takes and gives up the ownership of a selection, and asking other owners for theirs.
- The shared-memory replacement library, EGL and JNI set-up, the activities and preferences: foreign calls, data tables and user interface.
