/** What a cursor change and a drawing leave behind, in any interleaving with the other threads. */
module ServerChanges {
  import opened FrameProtocol

  // ---- Where the cursor goes

  /** The cursor is at (x, y), or whoever moves it is on the way to put it there. */
  predicate GoesTo(s: State, x: int, y: int) {
    match s.cpc
    case CLocked(a, b) => a == x && b == y
    case CShaped(a, b) => a == x && b == y
    case CPainted(a, b) => a == x && b == y
    case CUpdated(a, b) => a == x && b == y
    case CMoveTo(a, b) => a == x && b == y
    case CWroteX(b) => s.x == x && b == y
    case _ => s.x == x && s.y == y
  }

  /** The step starts another move. */
  predicate StartsMove(s: State, step: Step) {
    step.CursorStep? && s.cpc == CIdle && Next(s, step).cpc != CIdle
  }

  predicate Overtaken(s: State, steps: seq<Step>)
    decreases |steps|
  {
    steps != [] && (StartsMove(s, steps[0]) || Overtaken(Next(s, steps[0]), steps[1..]))
  }

  predicate SameCursor(s: State, t: State) {
    t.cpc == s.cpc && t.x == s.x && t.y == s.y && t.shape == s.shape && t.bits == s.bits
  }

  predicate SameDrawing(s: State, t: State) {
    t.xpc == s.xpc && t.root == s.root && t.damage == s.damage
  }

  lemma XLeavesCursor(s: State, draw: bool, alive: bool)
    ensures SameCursor(s, XNext(s, draw, alive))
  {
    match s.xpc
    case XIdle =>
    case XLocked =>
    case XWriting =>
    case XWritten =>
    case XUnlocked =>
    case TickCheck =>
    case TickDamage =>
    case TickRequest =>
    case TickSignal =>
  }

  predicate Finishing(r: RPc) {
    r.RClearMoved? || r.RReadX? || r.RReadY? || r.RReadShape? || r.RSetWait? || r.RUnlock? || r.RSwap?
  }

  lemma StartingLeavesServer(s: State, found: bool)
    requires HoldsRoot(s.rpc) && !Finishing(s.rpc)
    ensures SameCursor(s, RenderNext(s, found)) && SameDrawing(s, RenderNext(s, found))
  {
    match s.rpc
    case RClearDraw =>
    case RReadRoot =>
    case RCheckUpdated =>
    case RLockCursor =>
    case RClearUpdated =>
    case RUpload =>
    case RUnlockCursor =>
  }

  lemma FinishingLeavesServer(s: State, found: bool)
    requires Finishing(s.rpc)
    ensures SameCursor(s, RenderNext(s, found)) && SameDrawing(s, RenderNext(s, found))
  {
    match s.rpc
    case RClearMoved =>
    case RReadX =>
    case RReadY =>
    case RReadShape =>
    case RSetWait =>
    case RUnlock =>
    case RSwap =>
  }

  lemma RenderLeavesServer(s: State, found: bool)
    ensures SameCursor(s, RenderNext(s, found)) && SameDrawing(s, RenderNext(s, found))
  {
    if Finishing(s.rpc) {
      FinishingLeavesServer(s, found);
    } else if HoldsRoot(s.rpc) {
      StartingLeavesServer(s, found);
    } else {
      match s.rpc
      case RIdle =>
      case RDozing =>
      case RAsleep =>
      case RFind =>
      case RLock =>
      case RNewUpdated =>
      case RNewDraw =>
      case RNewSurface =>
    }
  }

  lemma CursorGoesOn(s: State, setCursor: bool, a: int, b: int, x: int, y: int)
    requires GoesTo(s, x, y) && (s.cpc == CIdle ==> CursorNext(s, setCursor, a, b).cpc == CIdle)
    ensures GoesTo(CursorNext(s, setCursor, a, b), x, y)
  {
    match s.cpc
    case CIdle =>
    case CLocked(_, _) =>
    case CShaped(_, _) =>
    case CPainted(_, _) =>
    case CUpdated(_, _) =>
    case CMoveTo(_, _) =>
    case CWroteX(_) =>
    case CWroteY =>
    case CSignal =>
  }

  lemma OthersLeaveCursor(s: State, step: Step)
    requires !step.CursorStep?
    ensures SameCursor(s, Next(s, step))
  {
    match step
    case XStep(draw, alive) => XLeavesCursor(s, draw, alive);
    case RenderStep(found) => RenderLeavesServer(s, found);
    case ProxyStep =>
    case Wake =>
    case SurfaceLost =>
    case SurfaceNew =>
  }

  lemma SameWay(s: State, t: State, x: int, y: int)
    requires SameCursor(s, t) && GoesTo(s, x, y)
    ensures GoesTo(t, x, y)
  {
  }

  lemma GoesOn(s: State, step: Step, x: int, y: int)
    requires GoesTo(s, x, y) && !StartsMove(s, step)
    ensures GoesTo(Next(s, step), x, y)
  {
    if step.CursorStep? {
      CursorGoesOn(s, step.setCursor, step.x, step.y, x, y);
    } else {
      OthersLeaveCursor(s, step);
      SameWay(s, Next(s, step), x, y);
    }
  }

  lemma {:induction false} StaysOnItsWay(s: State, steps: seq<Step>, x: int, y: int)
    requires GoesTo(s, x, y) && !Overtaken(s, steps)
    ensures GoesTo(Run(s, steps), x, y)
    decreases |steps|
  {
    if steps != [] {
      GoesOn(s, steps[0], x, y);
      StaysOnItsWay(Next(s, steps[0]), steps[1..], x, y);
    }
  }

  /** The versions of shape and pixels that the cursor has when it is done, one more than `shape` and `bits`. */
  predicate GetsCursor(s: State, shape: int, bits: int) {
    match s.cpc
    case CLocked(_, _) => s.shape == shape && s.bits == bits
    case CShaped(_, _) => s.shape == shape + 1 && s.bits == bits
    case _ => s.shape == shape + 1 && s.bits == bits + 1
  }

  lemma GetsOn(s: State, step: Step, shape: int, bits: int)
    requires GetsCursor(s, shape, bits) && !StartsMove(s, step)
    ensures GetsCursor(Next(s, step), shape, bits)
  {
    if step.CursorStep? {
      CursorGetsOn(s, step.setCursor, step.x, step.y, shape, bits);
    } else {
      OthersLeaveCursor(s, step);
      SameGetting(s, Next(s, step), shape, bits);
    }
  }

  lemma SameGetting(s: State, t: State, shape: int, bits: int)
    requires SameCursor(s, t) && GetsCursor(s, shape, bits)
    ensures GetsCursor(t, shape, bits)
  {
  }

  lemma CursorGetsOn(s: State, setCursor: bool, a: int, b: int, shape: int, bits: int)
    requires GetsCursor(s, shape, bits) && (s.cpc == CIdle ==> CursorNext(s, setCursor, a, b).cpc == CIdle)
    ensures GetsCursor(CursorNext(s, setCursor, a, b), shape, bits)
  {
    match s.cpc
    case CIdle =>
    case CLocked(_, _) =>
    case CShaped(_, _) =>
    case CPainted(_, _) =>
    case CUpdated(_, _) =>
    case CMoveTo(_, _) =>
    case CWroteX(_) =>
    case CWroteY =>
    case CSignal =>
  }

  lemma {:induction false} StaysGetting(s: State, steps: seq<Step>, shape: int, bits: int)
    requires GetsCursor(s, shape, bits) && !Overtaken(s, steps)
    ensures GetsCursor(Run(s, steps), shape, bits)
    decreases |steps|
  {
    if steps != [] {
      GetsOn(s, steps[0], shape, bits);
      StaysGetting(Next(s, steps[0]), steps[1..], shape, bits);
    }
  }

  /** A move that nobody overtakes, with a new cursor or not, ends where it was asked to, in any interleaving. */
  lemma MoveArrives(s: State, setCursor: bool, x: int, y: int, steps: seq<Step>)
    requires StartsMove(s, CursorStep(setCursor, x, y))
    ensures var t := Next(s, CursorStep(setCursor, x, y));
            var end, more := Run(t, steps), if setCursor then 1 else 0;
            !Overtaken(t, steps) && end.cpc == CIdle ==>
              end.x == x && end.y == y && end.shape == s.shape + more && end.bits == s.bits + more
  {
    var t := Next(s, CursorStep(setCursor, x, y));
    var less := if setCursor then 0 else 1;
    if !Overtaken(t, steps) {
      StaysOnItsWay(t, steps, x, y);
      StaysGetting(t, steps, s.shape - less, s.bits - less);
    }
  }

  // ---- What a drawing leaves

  /** The server is drawing and has a version after `root`, which is damaged, when it is done. */
  predicate Draws(s: State, root: int) {
    match s.xpc
    case XLocked => s.root == root
    case XWriting => s.root == root
    case XWritten => s.root == root + 1
    case XUnlocked => s.root == root + 1
    case XIdle => s.root == root + 1 && s.damage
    case _ => false
  }

  /** The server does something new before it is asked what the last drawing left. */
  predicate ServerGoesOn(s: State, steps: seq<Step>)
    decreases |steps|
  {
    steps != [] && ((steps[0].XStep? && s.xpc == XIdle) || ServerGoesOn(Next(s, steps[0]), steps[1..]))
  }

  lemma CursorLeavesDrawing(s: State, setCursor: bool, x: int, y: int)
    ensures SameDrawing(s, CursorNext(s, setCursor, x, y))
  {
    match s.cpc
    case CIdle =>
    case CLocked(_, _) =>
    case CShaped(_, _) =>
    case CPainted(_, _) =>
    case CUpdated(_, _) =>
    case CMoveTo(_, _) =>
    case CWroteX(_) =>
    case CWroteY =>
    case CSignal =>
  }

  lemma OthersLeaveDrawing(s: State, step: Step)
    requires !step.XStep?
    ensures SameDrawing(s, Next(s, step))
  {
    match step
    case CursorStep(setCursor, x, y) => CursorLeavesDrawing(s, setCursor, x, y);
    case RenderStep(found) => RenderLeavesServer(s, found);
    case ProxyStep =>
    case Wake =>
    case SurfaceLost =>
    case SurfaceNew =>
  }

  lemma DrawsOn(s: State, step: Step, root: int)
    requires Draws(s, root) && !(step.XStep? && s.xpc == XIdle)
    ensures Draws(Next(s, step), root)
  {
    if step.XStep? {
      match s.xpc
      case XLocked =>
      case XWriting =>
      case XWritten =>
      case XUnlocked =>
    } else {
      OthersLeaveDrawing(s, step);
      SameDraws(s, Next(s, step), root);
    }
  }

  lemma SameDraws(s: State, t: State, root: int)
    requires SameDrawing(s, t) && Draws(s, root)
    ensures Draws(t, root)
  {
  }

  lemma {:induction false} StaysDrawing(s: State, steps: seq<Step>, root: int)
    requires Draws(s, root) && !ServerGoesOn(s, steps)
    ensures Draws(Run(s, steps), root)
    decreases |steps|
  {
    if steps != [] {
      DrawsOn(s, steps[0], root);
      StaysDrawing(Next(s, steps[0]), steps[1..], root);
    }
  }

  /** A drawing leaves a new root window, and damage, in any interleaving. */
  lemma DrawingIsDamage(s: State, alive: bool, steps: seq<Step>)
    requires s.xpc == XIdle && s.lock == RootFree
    ensures var t := Next(s, XStep(true, alive));
            !ServerGoesOn(t, steps) && Run(t, steps).xpc == XIdle ==> Run(t, steps).root == s.root + 1 && Run(t, steps).damage
  {
    var t := Next(s, XStep(true, alive));
    if !ServerGoesOn(t, steps) {
      StaysDrawing(t, steps, s.root);
    }
  }
}
