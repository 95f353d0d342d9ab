/** Lost wake-ups. Neither the X server nor the thread that passes its signals on holds the lock of the renderer,
    so a signal can fall between its look at the flags and its sleep. Flags stay set, though, and every tick
    signals again while one is: exactly which signals are heard, and what the next heard one achieves. */
module WakeUps {
  import opened FrameProtocol
  import opened ServerChanges

  /** There is something to draw, it may be drawn now, and the renderer has not begun to. */
  predicate Pending(s: State) {
    Rests(s.rpc) && s.surfaceAvailable && !s.waitForNextFrame && Flagged(s)
  }

  /** The renderer is going to look at the flags: it is awake, or asleep and about to be woken. */
  predicate Heard(s: State) {
    Pending(s) && (s.rpc == RIdle || (s.rpc == RAsleep && s.proxy == Passing))
  }

  /** The renderer sleeps, or is about to, and no signal is on its way to it. */
  predicate Lost(s: State) {
    Pending(s) && s.rpc != RIdle && s.proxy != Passing
  }

  predicate OnSurface(step: Step) {
    step != SurfaceLost && step != SurfaceNew
  }

  /** The surface stays the same during the run. */
  predicate SameSurface(steps: seq<Step>) {
    forall i :: 0 <= i < |steps| ==> OnSurface(steps[i])
  }

  /** At some point of the run the renderer begins a frame. */
  predicate Begins(s: State, steps: seq<Step>)
    decreases |steps|
  {
    s.rpc == RFind || (steps != [] && Begins(Next(s, steps[0]), steps[1..]))
  }

  /** The steps that signal: the end of a tick and of moving the cursor. */
  predicate Signals(s: State, step: Step) {
    (step.XStep? && s.xpc == TickSignal) || (step.CursorStep? && s.cpc == CSignal)
  }

  // ---- What a step does to a pending frame

  /** What the server and the cursor do leaves the renderer and the surface, takes no flag back and forbids no
      frame; nor does it stop the proxy. */
  predicate OnlyAnnounces(s: State, t: State) {
    && t.rpc == s.rpc && t.surfaceAvailable == s.surfaceAvailable
    && (t.waitForNextFrame ==> s.waitForNextFrame)
    && (Flagged(s) ==> Flagged(t))
    && (s.proxy == Passing ==> t.proxy == Passing)
  }

  lemma ServerAnnounces(s: State, draw: bool, alive: bool)
    ensures OnlyAnnounces(s, XNext(s, draw, alive))
  {
    match s.xpc
    case XIdle =>
    case XLocked =>
    case XWriting =>
    case XWritten =>
    case XUnlocked =>
    case TickCheck =>
    case TickDamage =>
    case TickRequest =>
    case TickSignal =>
  }

  lemma CursorAnnounces(s: State, setCursor: bool, x: int, y: int)
    ensures OnlyAnnounces(s, CursorNext(s, setCursor, x, y))
  {
    match s.cpc
    case CIdle =>
    case CLocked(_, _) =>
    case CShaped(_, _) =>
    case CPainted(_, _) =>
    case CUpdated(_, _) =>
    case CMoveTo(_, _) =>
    case CWroteX(_) =>
    case CWroteY =>
    case CSignal =>
  }

  lemma PendingNext(s: State, step: Step)
    requires Pending(s) && OnSurface(step)
    ensures Pending(Next(s, step)) || Next(s, step).rpc == RFind
  {
    match step
    case XStep(draw, alive) => ServerAnnounces(s, draw, alive);
    case CursorStep(setCursor, x, y) => CursorAnnounces(s, setCursor, x, y);
    case RenderStep(_) =>
    case ProxyStep =>
    case Wake =>
  }

  /** A signal is heard exactly when the renderer is awake, or asleep and the proxy is not on its way back. */
  lemma SignalIsHeard(s: State, step: Step)
    requires Pending(s) && Signals(s, step)
    ensures Heard(Next(s, step)) <==> s.rpc == RIdle || (s.rpc == RAsleep && s.proxy != Returning)
  {
  }

  lemma HeardNext(s: State, step: Step)
    requires Heard(s) && OnSurface(step)
    ensures var t := Next(s, step);
            t.rpc == RFind || (Heard(t) && (s.rpc == RIdle || step == ProxyStep ==> t.rpc == RIdle))
    ensures s.rpc == RIdle && step.RenderStep? ==> Next(s, step).rpc == RFind
  {
    match step
    case XStep(draw, alive) => ServerAnnounces(s, draw, alive);
    case CursorStep(setCursor, x, y) => CursorAnnounces(s, setCursor, x, y);
    case RenderStep(_) =>
    case ProxyStep =>
    case Wake =>
  }

  lemma LostNext(s: State, step: Step)
    requires Lost(s) && (step.RenderStep? || step == ProxyStep)
    ensures Lost(Next(s, step))
  {
  }

  // ---- Over runs

  lemma {:induction false} RunBegins(s: State, a: seq<Step>, b: seq<Step>)
    ensures Run(s, a + b) == Run(Run(s, a), b)
    ensures Begins(s, a) || Begins(Run(s, a), b) ==> Begins(s, a + b)
    decreases |a|
  {
    if a == [] {
      assert a + b == b;
    } else {
      RunBegins(Next(s, a[0]), a[1..], b);
      assert (a + b)[1..] == a[1..] + b;
    }
  }

  lemma {:induction false} StaysPending(s: State, steps: seq<Step>)
    requires Pending(s) && SameSurface(steps)
    ensures Begins(s, steps) || Pending(Run(s, steps))
    decreases |steps|
  {
    if steps != [] {
      PendingNext(s, steps[0]);
      if Next(s, steps[0]).rpc != RFind {
        StaysPending(Next(s, steps[0]), steps[1..]);
      }
    }
  }

  lemma {:induction false} StaysHeard(s: State, steps: seq<Step>)
    requires Heard(s) && SameSurface(steps)
    ensures Begins(s, steps) || (Heard(Run(s, steps)) && (s.rpc == RIdle ==> Run(s, steps).rpc == RIdle))
    decreases |steps|
  {
    if steps != [] {
      HeardNext(s, steps[0]);
      if Next(s, steps[0]).rpc != RFind {
        StaysHeard(Next(s, steps[0]), steps[1..]);
      }
    }
  }

  /** Once a signal is heard, nothing that any thread does on the same surface loses it: as soon as the proxy and
      then the renderer have taken a step, a frame has begun. */
  lemma HeardIsRendered(s: State, a: seq<Step>, b: seq<Step>, found: bool)
    requires Heard(s) && SameSurface(a) && SameSurface(b)
    ensures Begins(s, a + ([ProxyStep] + (b + [RenderStep(found)])))
  {
    var last := [RenderStep(found)];
    RunBegins(s, a, [ProxyStep] + (b + last));
    StaysHeard(s, a);
    if !Begins(s, a) {
      var t := Run(s, a);
      var u := Next(t, ProxyStep);
      HeardNext(t, ProxyStep);
      AfterFirst(t, ProxyStep, b + last);
      if u.rpc != RFind {
        RunBegins(u, b, last);
        StaysHeard(u, b);
        if !Begins(u, b) {
          HeardNext(Run(u, b), last[0]);
          AfterFirst(Run(u, b), last[0], []);
        }
      }
    }
  }

  lemma AfterFirst(s: State, step: Step, rest: seq<Step>)
    ensures Run(s, [step] + rest) == Run(Next(s, step), rest)
    ensures Begins(Next(s, step), rest) ==> Begins(s, [step] + rest)
    ensures [step] + [] == [step]
  {
    assert ([step] + rest)[1..] == rest;
  }

  /** Whatever was lost before, the next signal that finds the renderer asleep and the proxy listening gets the
      frame rendered, in any interleaving. */
  lemma NextSignalHeals(s: State, before: seq<Step>, signal: Step, a: seq<Step>, b: seq<Step>, found: bool)
    requires Pending(s) && SameSurface(before) && SameSurface(a) && SameSurface(b)
    requires Signals(Run(s, before), signal)
    requires Run(s, before).rpc == RAsleep && Run(s, before).proxy == Listening
    ensures Begins(s, before + ([signal] + (a + ([ProxyStep] + (b + [RenderStep(found)])))))
  {
    var rest := a + ([ProxyStep] + (b + [RenderStep(found)]));
    var t := Run(s, before);
    RunBegins(s, before, [signal] + rest);
    StaysPending(s, before);
    if Pending(t) {
      SignalIsHeard(t, signal);
      HeardIsRendered(Next(t, signal), a, b, found);
      AfterFirst(t, signal, rest);
    }
  }

  /** Without another signal a lost one stays lost: the renderer and the proxy do nothing about it. */
  lemma {:induction false} LostStaysLost(s: State, steps: seq<Step>)
    requires Lost(s) && forall i :: 0 <= i < |steps| ==> steps[i].RenderStep? || steps[i] == ProxyStep
    ensures Lost(Run(s, steps)) && !Begins(s, steps)
    decreases |steps|
  {
    if steps != [] {
      LostNext(s, steps[0]);
      LostStaysLost(Next(s, steps[0]), steps[1..]);
    }
  }

  lemma TwoSteps(s: State, a: Step, b: Step, rest: seq<Step>)
    ensures Run(s, [a, b] + rest) == Run(Next(Next(s, a), b), rest)
  {
    AfterFirst(s, a, [b] + rest);
    assert [a, b] + rest == [a] + ([b] + rest);
    AfterFirst(Next(s, a), b, rest);
  }

  lemma ThreeInARow(s: State, s1: State, s2: State, s3: State, a: Step, b: Step, c: Step)
    requires Next(s, a) == s1 && Next(s1, b) == s2 && Next(s2, c) == s3
    ensures Run(s, [a, b] + ([c] + [])) == s3
  {
    TwoSteps(s, a, b, [c] + []);
    AfterFirst(s2, c, []);
  }

  lemma DozesOff(s: State, render: Step)
    requires render.RenderStep? && s.rpc == RIdle && !Flagged(s)
    ensures Next(s, render) == s.(rpc := RDozing)
  {
  }

  lemma FallsAsleep(s: State, render: Step)
    requires render.RenderStep? && s.rpc == RDozing
    ensures Next(s, render) == s.(rpc := RAsleep)
  {
  }

  /** The renderer dozes off, and the cursor is moved and signals. */
  lemma MovesWhileDozing(s: State, render: Step, cursor: Step)
    requires render.RenderStep? && cursor.CursorStep?
    requires s.rpc == RIdle && s.cpc == CWroteY && s.proxy == Listening && !Flagged(s)
    ensures Run(s, [render, cursor] + ([cursor] + [])) == s.(rpc := RDozing, cpc := CIdle, moved := true, proxy := Passing)
  {
    var dozing := s.(rpc := RDozing);
    DozesOff(s, render);
    var moved := dozing.(cpc := CSignal, moved := true);
    ThreeInARow(s, dozing, moved, moved.(cpc := CIdle, proxy := Passing), render, cursor, cursor);
  }

  /** The signal is passed on while the renderer dozes. */
  lemma PassedOnInVain(s: State, render: Step)
    requires render.RenderStep? && s.rpc == RDozing && s.proxy == Passing
    ensures Run(s, [ProxyStep, ProxyStep] + ([render] + [])) == s.(rpc := RAsleep, proxy := Listening)
  {
    var back, heard := s.(proxy := Returning), s.(proxy := Listening);
    FallsAsleep(heard, render);
    ThreeInARow(s, back, heard, heard.(rpc := RAsleep), ProxyStep, ProxyStep, render);
  }

  /** A signal can be lost: the cursor moves between the look at the flags and the sleep. */
  lemma SignalCanBeLost(s: State, render: Step, cursor: Step)
    requires render.RenderStep? && cursor.CursorStep?
    requires s.rpc == RIdle && s.cpc == CWroteY && s.proxy == Listening
    requires s.surfaceAvailable && !s.waitForNextFrame && !Flagged(s)
    ensures var t := Run(s, ([render, cursor] + ([cursor] + [])) + ([ProxyStep, ProxyStep] + ([render] + [])));
            Lost(t) && t == s.(rpc := RAsleep, cpc := CIdle, moved := true)
  {
    MovesWhileDozing(s, render, cursor);
    PassedOnInVain(s.(rpc := RDozing, cpc := CIdle, moved := true, proxy := Passing), render);
    RunBegins(s, [render, cursor] + ([cursor] + []), [ProxyStep, ProxyStep] + ([render] + []));
  }

  lemma NewSurfaceUpdates(s: State, render: Step)
    requires render.RenderStep? && s.rpc == RNewUpdated
    ensures Next(s, render) == s.(rpc := RNewDraw, updated := true)
  {
  }

  lemma NewSurfaceDraws(s: State, render: Step)
    requires render.RenderStep? && s.rpc == RNewDraw
    ensures Next(s, render) == s.(rpc := RNewSurface, drawRequested := true)
  {
  }

  lemma NewSurfaceIsThere(s: State, render: Step)
    requires render.RenderStep? && s.rpc == RNewSurface
    ensures Next(s, render) == s.(rpc := RIdle, surfaceAvailable := true)
  {
  }

  lemma FourInARow(s: State, s1: State, s2: State, s3: State, s4: State, a: Step, b: Step)
    requires Next(s, a) == s1 && Next(s1, b) == s2 && Next(s2, b) == s3 && Next(s3, b) == s4
    ensures Run(s, [a, b] + ([b, b] + [])) == s4
  {
    TwoSteps(s, a, b, [b, b] + []);
    TwoSteps(s2, b, b, []);
  }

  /** A new surface shows nothing, is there, and is flagged for a whole frame and for the cursor. */
  lemma NewSurfaceIsFlagged(s: State, render: Step)
    requires render.RenderStep? && s.rpc == RIdle
    ensures Run(s, [SurfaceNew, render] + ([render, render] + [])) ==
            s.(shown := Frame(-1, -1, -1, -1, -1), surfaceAvailable := true, drawRequested := true, updated := true)
  {
    var s1 := s.(rpc := RNewUpdated, shown := NOTHING);
    NewSurfaceUpdates(s1, render);
    var s2 := s1.(rpc := RNewDraw, updated := true);
    NewSurfaceDraws(s2, render);
    var s3 := s2.(rpc := RNewSurface, drawRequested := true);
    NewSurfaceIsThere(s3, render);
    FourInARow(s, s1, s2, s3, s3.(rpc := RIdle, surfaceAvailable := true), SurfaceNew, render);
  }

  /** A surface that is taken away is gone, and the renderer goes to sleep whatever is flagged. */
  lemma LostSurfaceIsGone(s: State, found: bool)
    requires s.rpc == RIdle
    ensures Next(s, SurfaceLost) == s.(surfaceAvailable := false)
    ensures Next(Next(s, SurfaceLost), RenderStep(found)) == s.(surfaceAvailable := false, rpc := RDozing)
  {
  }

  // ---- A tick that nothing disturbs

  /** Everybody rests: the server and the cursor are idle, the renderer sleeps and the proxy listens. */
  predicate Quiet(s: State) {
    s.xpc == XIdle && s.cpc == CIdle && s.rpc == RAsleep && s.proxy == Listening
  }

  /** The steps of a tick with a live connection. */
  function TickSteps(damage: bool): seq<Step> {
    var x := XStep(false, true);
    [x, x] + ([x, x] + (if damage then [x] else []))
  }

  /** The tick takes the damage over, and signals if anything is flagged then. */
  lemma TickAlone(s: State)
    requires Quiet(s) && s.surfaceAvailable
    ensures var flagged := s.damage || Flagged(s);
            Run(s, TickSteps(s.damage)) ==
            s.(ticks := s.ticks + 1, waitForNextFrame := false, damage := false,
               drawRequested := s.drawRequested || s.damage, proxy := if flagged then Passing else Listening)
  {
    var x, last := XStep(false, true), if s.damage then [XStep(false, true)] else [];
    TwoSteps(s, x, x, [x, x] + last);
    var s2 := s.(xpc := TickDamage, ticks := s.ticks + 1, waitForNextFrame := false);
    TwoSteps(s2, x, x, last);
    if s.damage {
      AfterFirst(s2.(xpc := TickSignal, damage := false, drawRequested := true), x, []);
    }
  }

  /** Without a connection or a surface a tick counts and ends the wait, and touches nothing else: damage and flags
      stay, and nobody is signalled. */
  lemma IdleTick(s: State, alive: bool)
    requires s.xpc == XIdle && !(alive && s.surfaceAvailable)
    ensures var x := XStep(false, alive);
            Run(s, [x, x] + []) == s.(ticks := s.ticks + 1, waitForNextFrame := false)
  {
    var x := XStep(false, alive);
    TwoSteps(s, x, x, []);
  }

  lemma {:induction false} RenderSteps(s: State, n: nat)
    ensures Run(s, seq(n, _ => RenderStep(true))) == RenderAlone(s, n)
  {
    if n > 0 {
      var before, last := seq(n - 1, _ => RenderStep(true)), [RenderStep(true)];
      RenderSteps(s, n - 1);
      assert seq(n, _ => RenderStep(true)) == before + last;
      RunBegins(s, before, last);
      AfterFirst(Run(s, before), last[0], []);
    }
  }

  /** The tick, the proxy passing its signal on, and `n` steps of the renderer. */
  function TickAndFrame(damage: bool, n: nat): seq<Step> {
    TickSteps(damage) + ([ProxyStep] + seq(n, _ => RenderStep(true)))
  }

  /** After one such tick the screen shows everything the server has, whatever was lost before. */
  lemma NextTickShowsEverything(init: State, before: seq<Step>) returns (n: nat)
    requires Init(init)
    requires Quiet(Run(init, before)) && Run(init, before).surfaceAvailable
    ensures var s := Run(init, before);
            var t := Run(s, TickAndFrame(s.damage, n));
            && t.shown == Frame(t.root, t.bits, t.shape, t.x, t.y)
            && t.root == s.root && t.bits == s.bits && t.shape == s.shape && t.x == s.x && t.y == s.y
            && !t.damage && !Flagged(t) && t.ticks == s.ticks + 1
            && t.frames == s.frames + (if s.damage || Flagged(s) then 1 else 0)
  {
    var s := Run(init, before);
    InvInit(init);
    InvRun(init, before);
    n := QuietTick(s);
  }

  lemma QuietTick(s: State) returns (n: nat)
    requires Inv(s) && Quiet(s) && s.surfaceAvailable
    ensures var t := Run(s, TickAndFrame(s.damage, n));
            && t.shown == Frame(s.root, s.bits, s.shape, s.x, s.y)
            && t.root == s.root && t.bits == s.bits && t.shape == s.shape && t.x == s.x && t.y == s.y
            && !t.damage && !Flagged(t) && t.ticks == s.ticks + 1
            && t.frames == s.frames + (if s.damage || Flagged(s) then 1 else 0)
  {
    TickAlone(s);
    var tick := TickSteps(s.damage);
    var a := Run(s, tick);
    InvRun(s, tick);
    var b := Next(a, ProxyStep);
    InvNext(a, ProxyStep);
    if s.damage || Flagged(s) {
      n := FrameShowsEverything(b);
    } else {
      n := 0;
    }
    RenderSteps(b, n);
    AfterFirst(a, ProxyStep, seq(n, _ => RenderStep(true)));
    RunBegins(s, tick, [ProxyStep] + seq(n, _ => RenderStep(true)));
  }

  /** A move of the cursor that nobody overtakes is on the screen, exactly where it was asked for, after the next
      undisturbed tick from a quiet state. */
  lemma MoveIsShown(init: State, before: seq<Step>, move: Step, after: seq<Step>) returns (n: nat)
    requires Init(init) && move.CursorStep? && StartsMove(Run(init, before), move)
    requires var t := Next(Run(init, before), move);
             !Overtaken(t, after) && Quiet(Run(t, after)) && Run(t, after).surfaceAvailable
    ensures var s := Run(Next(Run(init, before), move), after);
            var shown := Run(s, TickAndFrame(s.damage, n)).shown;
            shown.x == move.x && shown.y == move.y
  {
    var s0 := Run(init, before);
    MoveArrives(s0, move.setCursor, move.x, move.y, after);
    RunBegins(init, before, [move] + after);
    AfterFirst(s0, move, after);
    n := NextTickShowsEverything(init, before + ([move] + after));
  }

  // ---- Frames that cannot be

  /** The renderer works on a frame only while there is a surface. */
  predicate SurfaceHeld(s: State) {
    Rests(s.rpc) || NewSurface(s.rpc) || s.rpc == RNewSurface || s.surfaceAvailable
  }

  lemma RenderHoldsSurface(s: State, found: bool)
    requires SurfaceHeld(s)
    ensures SurfaceHeld(RenderNext(s, found))
  {
    if Finishing(s.rpc) {
      FinishingHoldsSurface(s, found);
    } else if HoldsRoot(s.rpc) {
      StartingHoldsSurface(s, found);
    } else {
      match s.rpc
      case RIdle =>
      case RDozing =>
      case RAsleep =>
      case RFind =>
      case RLock =>
      case RNewUpdated =>
      case RNewDraw =>
      case RNewSurface =>
    }
  }

  lemma StartingHoldsSurface(s: State, found: bool)
    requires HoldsRoot(s.rpc) && !Finishing(s.rpc) && s.surfaceAvailable
    ensures SurfaceHeld(RenderNext(s, found))
  {
    match s.rpc
    case RClearDraw =>
    case RReadRoot =>
    case RCheckUpdated =>
    case RLockCursor =>
    case RClearUpdated =>
    case RUpload =>
    case RUnlockCursor =>
  }

  lemma FinishingHoldsSurface(s: State, found: bool)
    requires Finishing(s.rpc) && s.surfaceAvailable
    ensures SurfaceHeld(RenderNext(s, found))
  {
    match s.rpc
    case RClearMoved =>
    case RReadX =>
    case RReadY =>
    case RReadShape =>
    case RSetWait =>
    case RUnlock =>
    case RSwap =>
  }

  lemma StillHolds(s: State, t: State)
    requires SurfaceHeld(s) && OnlyAnnounces(s, t)
    ensures SurfaceHeld(t)
  {
  }

  lemma StepHoldsSurface(s: State, step: Step)
    requires SurfaceHeld(s)
    ensures SurfaceHeld(Next(s, step))
  {
    match step
    case XStep(draw, alive) =>
      ServerAnnounces(s, draw, alive);
      StillHolds(s, XNext(s, draw, alive));
    case CursorStep(setCursor, x, y) =>
      CursorAnnounces(s, setCursor, x, y);
      StillHolds(s, CursorNext(s, setCursor, x, y));
    case RenderStep(found) => RenderHoldsSurface(s, found);
    case ProxyStep =>
    case Wake =>
    case SurfaceLost =>
    case SurfaceNew =>
  }

  /** In every interleaving a frame is begun, rendered and shown only while there is a surface. */
  lemma {:induction false} NoFrameWithoutSurface(s: State, steps: seq<Step>)
    requires SurfaceHeld(s)
    ensures SurfaceHeld(Run(s, steps))
    ensures Run(s, steps).rpc == RFind || HoldsRoot(Run(s, steps).rpc) || Run(s, steps).rpc == RSwap ==>
              Run(s, steps).surfaceAvailable
    decreases |steps|
  {
    if steps != [] {
      StepHoldsSurface(s, steps[0]);
      NoFrameWithoutSurface(Next(s, steps[0]), steps[1..]);
    }
  }

  /** A frame whose buffer is not there takes no flag, touches nothing and ends in sleep. */
  lemma NoFrameWithoutBuffer(s: State, found: bool)
    requires s.rpc == RFind
    ensures Next(Next(s, RenderStep(false)), RenderStep(found)) == s.(rpc := RAsleep)
  {
  }
}
