/** The protocol between the X server process and the renderer thread over the shared server state: every
    interleaving of drawing, vsync ticks, cursor changes, rendering, and the thread that passes the signals of
    the server on. A step is one access to shared memory, but for four that are taken as a whole: the test of
    the flags before a frame and before a signal, the test of the connection and the surface in a tick, and the
    reading of the cursor's shape. */
module FrameProtocol {
  import opened Common

  /** The X server thread: drawing into the root window, or the vsync callback. */
  datatype XPc = XIdle | XLocked | XWriting | XWritten | XUnlocked | TickCheck | TickDamage | TickRequest | TickSignal

  /** Whoever moves or changes the cursor (one at a time, under the server's input lock). */
  datatype CPc = CIdle | CLocked(x: int, y: int) | CShaped(x: int, y: int) | CPainted(x: int, y: int)
               | CUpdated(x: int, y: int) | CMoveTo(x: int, y: int) | CWroteX(y: int) | CWroteY | CSignal

  /** The render thread: the check of its flags, the way to sleep if there is nothing to do (a thread that dozes
      has decided to sleep and does not hear signals yet), or a frame up to the swap of the buffers. */
  datatype RPc = RIdle | RDozing | RAsleep | RFind | RLock | RClearDraw | RReadRoot | RCheckUpdated
               | RLockCursor | RClearUpdated | RUpload | RUnlockCursor | RClearMoved | RReadX | RReadY | RReadShape
               | RSetWait | RUnlock | RSwap | RNewUpdated | RNewDraw | RNewSurface

  /** The thread that waits for signals of the X server and wakes the renderer; it hears none meanwhile. */
  datatype ProxyPc = Listening | Passing | Returning

  datatype RootOwner = RootFree | RootX | RootRenderer

  datatype CursorOwner = CursorFree | CursorX | CursorRenderer

  /** What a frame shows: versions of the root window, of the cursor's pixels and shape, its position.
      A frame nobody has rendered yet shows version -1 of everything. */
  datatype Frame = Frame(root: int, bits: int, shape: int, x: int, y: int)

  datatype State = State(
    // shared memory
    lock: RootOwner, cursorLock: CursorOwner,
    drawRequested: bool, moved: bool, updated: bool, waitForNextFrame: bool, surfaceAvailable: bool,
    root: int, bits: int, shape: int, x: int, y: int,
    // X server
    xpc: XPc, cpc: CPc, damage: bool,
    proxy: ProxyPc,
    // renderer: the frame in the making, the cursor texture and the frame on the screen
    rpc: RPc, drawing: Frame, texture: int, shown: Frame,
    // counters
    ticks: nat, frames: nat)

  datatype Step =
    | XStep(draw: bool, alive: bool)       // `draw`: draw rather than tick; `alive`: the activity is connected
    | CursorStep(setCursor: bool, x: int, y: int)
    | RenderStep(found: bool)              // `found`: the requested buffer is in a list
    | ProxyStep
    | Wake                                 // a spurious wake-up of the renderer, or one by the GUI thread
    | SurfaceLost
    | SurfaceNew

  const NOTHING := Frame(-1, -1, -1, -1, -1)

  /** The activity has just connected: both flags are set before the state is sent to it. */
  predicate Init(s: State) {
    && s.lock == RootFree && s.cursorLock == CursorFree
    && s.drawRequested && s.updated
    && s.xpc == XIdle && s.cpc == CIdle && s.rpc == RIdle
    && s.root >= 0 && s.bits >= 0 && s.shape >= 0
    && s.shown == NOTHING && s.texture == -1
    && s.ticks == 0 && s.frames == 0
  }

  // ---- The steps

  predicate Flagged(s: State) {
    s.drawRequested || s.moved || s.updated
  }

  /** A signal of the server wakes the proxy, and is lost if that is not waiting. */
  function Signal(proxy: ProxyPc): ProxyPc {
    if proxy == Listening then Passing else proxy
  }

  function XNext(s: State, draw: bool, alive: bool): State {
    match s.xpc
    case XIdle =>
      if draw then (if s.lock == RootFree then s.(xpc := XLocked, lock := RootX) else s)
      else s.(xpc := TickCheck, waitForNextFrame := false, ticks := s.ticks + 1)
    case XLocked => s.(xpc := XWriting)
    case XWriting => s.(xpc := XWritten, root := s.root + 1)
    case XWritten => s.(xpc := XUnlocked, lock := RootFree)
    case XUnlocked => s.(xpc := XIdle, damage := true)
    case TickCheck => s.(xpc := if alive && s.surfaceAvailable then TickDamage else XIdle)
    case TickDamage => if s.damage then s.(xpc := TickRequest, damage := false) else s.(xpc := TickSignal)
    case TickRequest => s.(xpc := TickSignal, drawRequested := true)
    case TickSignal => s.(xpc := XIdle, proxy := if Flagged(s) then Signal(s.proxy) else s.proxy)
  }

  function CursorNext(s: State, setCursor: bool, x: int, y: int): State {
    match s.cpc
    case CIdle =>
      if !setCursor then s.(cpc := CMoveTo(x, y))
      else if s.cursorLock == CursorFree then s.(cpc := CLocked(x, y), cursorLock := CursorX)
      else s
    case CLocked(a, b) => s.(cpc := CShaped(a, b), shape := s.shape + 1)
    case CShaped(a, b) => s.(cpc := CPainted(a, b), bits := s.bits + 1)
    case CPainted(a, b) => s.(cpc := CUpdated(a, b), updated := true)
    case CUpdated(a, b) => s.(cpc := CMoveTo(a, b), cursorLock := CursorFree)
    case CMoveTo(a, b) => s.(cpc := CWroteX(b), x := a)
    case CWroteX(b) => s.(cpc := CWroteY, y := b)
    case CWroteY => s.(cpc := CSignal, moved := true)
    case CSignal => s.(cpc := CIdle, proxy := Signal(s.proxy))
  }

  function RenderNext(s: State, found: bool): State {
    match s.rpc
    case RIdle =>
      if s.surfaceAvailable && !s.waitForNextFrame && Flagged(s) then s.(rpc := RFind) else s.(rpc := RDozing)
    case RDozing => s.(rpc := RAsleep)
    case RAsleep => s
    case RFind => s.(rpc := if found then RLock else RDozing)
    case RLock => if s.lock == RootFree then s.(rpc := RClearDraw, lock := RootRenderer) else s
    case RClearDraw => s.(rpc := RReadRoot, drawRequested := false)
    case RReadRoot => s.(rpc := RCheckUpdated, drawing := s.drawing.(root := s.root))
    case RCheckUpdated => s.(rpc := if s.updated then RLockCursor else RClearMoved)
    case RLockCursor => if s.cursorLock == CursorFree then s.(rpc := RClearUpdated, cursorLock := CursorRenderer) else s
    case RClearUpdated => s.(rpc := RUpload, updated := false)
    case RUpload => s.(rpc := RUnlockCursor, texture := s.bits)
    case RUnlockCursor => s.(rpc := RClearMoved, cursorLock := CursorFree)
    case RClearMoved => s.(rpc := RReadX, moved := false)
    case RReadX => s.(rpc := RReadY, drawing := s.drawing.(x := s.x))
    case RReadY => s.(rpc := RReadShape, drawing := s.drawing.(y := s.y))
    case RReadShape => s.(rpc := RSetWait, drawing := s.drawing.(shape := s.shape, bits := s.texture))
    case RSetWait => s.(rpc := RUnlock, waitForNextFrame := true, frames := s.frames + 1)
    case RUnlock => s.(rpc := RSwap, lock := RootFree)
    case RSwap => s.(rpc := RIdle, shown := s.drawing)
    case RNewUpdated => s.(rpc := RNewDraw, updated := true)
    case RNewDraw => s.(rpc := RNewSurface, drawRequested := true)
    case RNewSurface => s.(rpc := RIdle, surfaceAvailable := true)
  }

  function Woken(s: State): State {
    if s.rpc == RAsleep then s.(rpc := RIdle) else s
  }

  function ProxyNext(s: State): State {
    match s.proxy
    case Listening => s
    case Passing => Woken(s).(proxy := Returning)
    case Returning => s.(proxy := Listening)
  }

  /** A new output surface shows nothing yet; the flags are set in the order of the assignment chain. */
  function Next(s: State, step: Step): State {
    match step
    case XStep(draw, alive) => XNext(s, draw, alive)
    case CursorStep(setCursor, x, y) => CursorNext(s, setCursor, x, y)
    case RenderStep(found) => RenderNext(s, found)
    case ProxyStep => ProxyNext(s)
    case Wake => Woken(s)
    case SurfaceLost => if s.rpc == RIdle then s.(surfaceAvailable := false) else s
    case SurfaceNew => if s.rpc == RIdle then s.(rpc := RNewUpdated, shown := NOTHING) else s
  }

  function Run(s: State, steps: seq<Step>): State
    decreases |steps|
  {
    if steps == [] then s else Run(Next(s, steps[0]), steps[1..])
  }

  // ---- Where the program counters are

  predicate Rests(r: RPc) {
    r.RIdle? || r.RDozing? || r.RAsleep?
  }

  /** A frame was passed to the GPU in part but is not on the screen yet. */
  predicate RootRead(r: RPc) {
    || r.RCheckUpdated? || r.RLockCursor? || r.RClearUpdated? || r.RUpload? || r.RUnlockCursor?
    || r.RClearMoved? || r.RReadX? || r.RReadY? || r.RReadShape? || r.RSetWait?
    || r.RUnlock? || r.RSwap?
  }

  predicate XRead(r: RPc) {
    r.RReadY? || r.RReadShape? || r.RSetWait? || r.RUnlock? || r.RSwap?
  }

  predicate YRead(r: RPc) {
    r.RReadShape? || r.RSetWait? || r.RUnlock? || r.RSwap?
  }

  predicate ShapeRead(r: RPc) {
    r.RSetWait? || r.RUnlock? || r.RSwap?
  }

  /** The renderer installs a new surface and has not announced the redraw yet. */
  predicate NewSurface(r: RPc) {
    r.RNewUpdated? || r.RNewDraw?
  }

  predicate HoldsRoot(r: RPc) {
    || r.RClearDraw? || r.RReadRoot? || r.RCheckUpdated? || r.RLockCursor? || r.RClearUpdated?
    || r.RUpload? || r.RUnlockCursor? || r.RClearMoved? || r.RReadX? || r.RReadY?
    || r.RReadShape? || r.RSetWait? || r.RUnlock?
  }

  predicate HoldsCursor(r: RPc) {
    r.RClearUpdated? || r.RUpload? || r.RUnlockCursor?
  }

  /** The update of the cursor has been taken over but is not in the frame yet. */
  predicate TakingCursor(r: RPc) {
    r.RUpload? || r.RUnlockCursor? || r.RClearMoved? || r.RReadX? || r.RReadY? || r.RReadShape?
  }

  predicate Moving(c: CPc) {
    c.CWroteX? || c.CWroteY?
  }

  predicate Changing(c: CPc) {
    c.CShaped? || c.CPainted?
  }

  // ---- Invariants

  /** The locks are held exactly where the program counters say, so the renderer never reads the root
      window while the X server is writing it. */
  predicate LocksHeld(s: State) {
    && (s.lock == RootX <==> (s.xpc.XLocked? || s.xpc.XWriting? || s.xpc.XWritten?))
    && (s.lock == RootRenderer <==> HoldsRoot(s.rpc))
    && (s.cursorLock == CursorX <==> s.cpc.CLocked? || s.cpc.CShaped? || s.cpc.CPainted? || s.cpc.CUpdated?)
    && (s.cursorLock == CursorRenderer <==> HoldsCursor(s.rpc))
  }

  /** Drawing that is neither in the frame in the making nor on the screen is announced somewhere. */
  predicate RootAnnounced(s: State) {
    || (if RootRead(s.rpc) then s.drawing.root else s.shown.root) == s.root
    || s.damage || s.drawRequested
    || (s.xpc.XWritten? || s.xpc.XUnlocked? || s.xpc.TickRequest?)
    || s.rpc.RReadRoot? || NewSurface(s.rpc)
  }

  /** As long as nothing is on the screen, a whole frame is requested or in the making. */
  predicate Redraws(s: State) {
    s.shown == NOTHING && (s.drawRequested || NewSurface(s.rpc) || s.rpc.RReadRoot? || RootRead(s.rpc))
  }

  predicate WholeFrames(s: State) {
    && s.root >= 0 && (RootRead(s.rpc) ==> s.drawing.root >= 0)
    && (s.shown == NOTHING ==> Redraws(s))
  }

  predicate XAnnounced(s: State) {
    || s.moved || Moving(s.cpc)
    || (if XRead(s.rpc) then s.drawing.x == s.x else s.shown.x == s.x || s.rpc.RReadX? || Redraws(s))
  }

  predicate YAnnounced(s: State) {
    || s.moved || s.cpc.CWroteY?
    || (if YRead(s.rpc) then s.drawing.y == s.y else s.shown.y == s.y || (s.rpc.RReadX? || s.rpc.RReadY?) || Redraws(s))
  }

  predicate ShapeAnnounced(s: State) {
    || s.updated || Changing(s.cpc)
    || (if ShapeRead(s.rpc) then s.drawing.shape == s.shape else s.shown.shape == s.shape || TakingCursor(s.rpc) || Redraws(s))
  }

  /** The cursor texture has the newest pixels or they are announced; the frame has the texture. */
  predicate PixelsAnnounced(s: State) {
    && (s.texture == s.bits || s.updated || s.cpc.CPainted? || s.rpc == RUpload)
    && (if ShapeRead(s.rpc) then s.drawing.bits == s.texture
        else s.shown.bits == s.texture || TakingCursor(s.rpc) || Redraws(s))
  }

  predicate FramesCounted(s: State) {
    && s.frames <= s.ticks + (if s.waitForNextFrame then 1 else 0)
    && ((s.rpc.RFind? || s.rpc.RLock?) || (HoldsRoot(s.rpc) && s.rpc != RUnlock) ==> !s.waitForNextFrame)
  }

  predicate Inv(s: State) {
    && LocksHeld(s)
    && RootAnnounced(s) && WholeFrames(s)
    && XAnnounced(s) && YAnnounced(s)
    && ShapeAnnounced(s) && PixelsAnnounced(s)
    && FramesCounted(s)
  }

  /** How far rendering is ahead of the display. */
  function Debt(s: State): int {
    s.frames - s.ticks - (if s.waitForNextFrame then 1 else 0)
  }

  lemma InvInit(s: State)
    requires Init(s)
    ensures Inv(s)
  {
  }

  // The invariant step by step: each lemma covers the steps of one phase of one thread.

  lemma InvDraw(s: State, draw: bool, alive: bool)
    requires Inv(s) && (s.xpc.XIdle? || s.xpc.XLocked? || s.xpc.XWriting? || s.xpc.XWritten? || s.xpc.XUnlocked?)
    ensures Inv(XNext(s, draw, alive)) && Debt(XNext(s, draw, alive)) <= Debt(s)
  {
  }

  lemma InvTick(s: State, draw: bool, alive: bool)
    requires Inv(s) && (s.xpc.TickCheck? || s.xpc.TickDamage? || s.xpc.TickRequest? || s.xpc.TickSignal?)
    ensures Inv(XNext(s, draw, alive)) && Debt(XNext(s, draw, alive)) <= Debt(s)
  {
  }

  lemma InvSetCursor(s: State, setCursor: bool, x: int, y: int)
    requires Inv(s) && (s.cpc.CIdle? || s.cpc.CLocked? || s.cpc.CShaped? || s.cpc.CPainted?)
    ensures Inv(CursorNext(s, setCursor, x, y)) && Debt(CursorNext(s, setCursor, x, y)) <= Debt(s)
  {
  }

  lemma InvMoveCursor(s: State, setCursor: bool, x: int, y: int)
    requires Inv(s) && (s.cpc.CUpdated? || s.cpc.CMoveTo? || s.cpc.CWroteX? || s.cpc.CWroteY? || s.cpc.CSignal?)
    ensures Inv(CursorNext(s, setCursor, x, y)) && Debt(CursorNext(s, setCursor, x, y)) <= Debt(s)
  {
  }

  /** What the renderer does while it rests, and what the proxy does, does not matter. */
  lemma InvRests(s: State, rpc: RPc)
    requires Inv(s) && Rests(s.rpc) && Rests(rpc)
    ensures Inv(s.(rpc := rpc))
  {
  }

  lemma InvProxy(s: State, proxy: ProxyPc)
    requires Inv(s)
    ensures Inv(s.(proxy := proxy))
  {
  }

  lemma InvStart(s: State)
    requires Inv(s) && s.rpc == RIdle && !s.waitForNextFrame
    ensures Inv(s.(rpc := RFind))
  {
  }

  lemma LookChangesPc(s: State, found: bool)
    requires Rests(s.rpc)
    ensures RenderNext(s, found) == s.(rpc := RenderNext(s, found).rpc)
    ensures RenderNext(s, found).rpc != RFind ==> Rests(RenderNext(s, found).rpc)
    ensures RenderNext(s, found).rpc == RFind ==> s.rpc == RIdle && !s.waitForNextFrame
  {
  }

  lemma InvLook(s: State, found: bool)
    requires Inv(s) && Rests(s.rpc)
    ensures Inv(RenderNext(s, found)) && Debt(RenderNext(s, found)) <= Debt(s)
  {
    LookChangesPc(s, found);
    var t := RenderNext(s, found);
    if t.rpc == RFind {
      InvStart(s);
    } else {
      InvRests(s, t.rpc);
    }
  }

  lemma InvWoken(s: State)
    requires Inv(s)
    ensures Inv(Woken(s))
  {
    if s.rpc == RAsleep {
      InvRests(s, RIdle);
    }
  }

  lemma InvWake(s: State)
    requires Inv(s)
    ensures Inv(ProxyNext(s)) && Debt(ProxyNext(s)) <= Debt(s)
  {
    InvWoken(s);
    InvProxy(s, Listening);
    InvProxy(Woken(s), Returning);
  }

  lemma InvRenderRoot(s: State, found: bool)
    requires Inv(s) && (s.rpc.RFind? || s.rpc.RLock? || s.rpc.RClearDraw? || s.rpc.RReadRoot?)
    ensures Inv(RenderNext(s, found)) && Debt(RenderNext(s, found)) <= Debt(s)
  {
  }

  lemma InvRenderCursor(s: State, found: bool)
    requires Inv(s) && (s.rpc.RCheckUpdated? || s.rpc.RLockCursor? || s.rpc.RClearUpdated? || s.rpc.RUpload? || s.rpc.RUnlockCursor?)
    ensures Inv(RenderNext(s, found)) && Debt(RenderNext(s, found)) <= Debt(s)
  {
  }

  lemma InvRenderPlace(s: State, found: bool)
    requires Inv(s) && (s.rpc.RClearMoved? || s.rpc.RReadX? || s.rpc.RReadY? || s.rpc.RReadShape?)
    ensures Inv(RenderNext(s, found)) && Debt(RenderNext(s, found)) <= Debt(s)
  {
  }

  lemma InvRenderFinish(s: State, found: bool)
    requires Inv(s) && (s.rpc.RSetWait? || s.rpc.RUnlock? || s.rpc.RSwap?)
    ensures Inv(RenderNext(s, found)) && Debt(RenderNext(s, found)) <= Debt(s)
  {
  }

  lemma InvNewSurface(s: State, found: bool)
    requires Inv(s) && (s.rpc.RNewUpdated? || s.rpc.RNewDraw? || s.rpc.RNewSurface?)
    ensures Inv(RenderNext(s, found)) && Debt(RenderNext(s, found)) <= Debt(s)
  {
  }

  lemma InvRender(s: State, found: bool)
    requires Inv(s)
    ensures Inv(RenderNext(s, found)) && Debt(RenderNext(s, found)) <= Debt(s)
  {
    match s.rpc
    case RIdle | RDozing | RAsleep => InvLook(s, found);
    case RFind | RLock | RClearDraw | RReadRoot => InvRenderRoot(s, found);
    case RCheckUpdated | RLockCursor | RClearUpdated | RUpload | RUnlockCursor => InvRenderCursor(s, found);
    case RClearMoved | RReadX | RReadY | RReadShape => InvRenderPlace(s, found);
    case RSetWait | RUnlock | RSwap => InvRenderFinish(s, found);
    case RNewUpdated | RNewDraw | RNewSurface => InvNewSurface(s, found);
  }

  lemma InvX(s: State, draw: bool, alive: bool)
    requires Inv(s)
    ensures Inv(XNext(s, draw, alive)) && Debt(XNext(s, draw, alive)) <= Debt(s)
  {
    match s.xpc
    case TickCheck | TickDamage | TickRequest | TickSignal => InvTick(s, draw, alive);
    case XIdle | XLocked | XWriting | XWritten | XUnlocked => InvDraw(s, draw, alive);
  }

  lemma InvCursor(s: State, setCursor: bool, x: int, y: int)
    requires Inv(s)
    ensures Inv(CursorNext(s, setCursor, x, y)) && Debt(CursorNext(s, setCursor, x, y)) <= Debt(s)
  {
    match s.cpc
    case CIdle | CLocked(_, _) | CShaped(_, _) | CPainted(_, _) => InvSetCursor(s, setCursor, x, y);
    case CUpdated(_, _) | CMoveTo(_, _) | CWroteX(_) | CWroteY | CSignal => InvMoveCursor(s, setCursor, x, y);
  }

  lemma InvSurface(s: State)
    requires Inv(s) && s.rpc == RIdle
    ensures Inv(s.(surfaceAvailable := false))
    ensures Inv(s.(rpc := RNewUpdated, shown := NOTHING))
  {
  }

  lemma InvNext(s: State, step: Step)
    requires Inv(s)
    ensures Inv(Next(s, step)) && Debt(Next(s, step)) <= Debt(s)
  {
    match step
    case XStep(draw, alive) => InvX(s, draw, alive);
    case CursorStep(setCursor, x, y) => InvCursor(s, setCursor, x, y);
    case RenderStep(found) => InvRender(s, found);
    case ProxyStep => InvWake(s);
    case Wake => InvWoken(s);
    case SurfaceLost => if s.rpc == RIdle { InvSurface(s); }
    case SurfaceNew => if s.rpc == RIdle { InvSurface(s); }
  }

  lemma {:induction false} InvRun(s: State, steps: seq<Step>)
    requires Inv(s)
    ensures Inv(Run(s, steps)) && Debt(Run(s, steps)) <= Debt(s)
    decreases |steps|
  {
    if steps != [] {
      InvNext(s, steps[0]);
      InvRun(Next(s, steps[0]), steps[1..]);
    }
  }

  /** No change is lost, in any interleaving: what is not on the screen is flagged, damaged, or just
      being announced or rendered by the thread that is in the middle of it. */
  lemma NothingIsLost(init: State, steps: seq<Step>)
    requires Init(init)
    ensures var s := Run(init, steps);
            && (s.shown.root != s.root ==>
                 || s.damage || s.drawRequested || (s.xpc.XWritten? || s.xpc.XUnlocked? || s.xpc.TickRequest?)
                 || s.rpc.RReadRoot? || RootRead(s.rpc) || NewSurface(s.rpc))
            && (s.shown.x != s.x || s.shown.y != s.y ==>
                 s.moved || Moving(s.cpc) || s.rpc.RReadX? || XRead(s.rpc) || Redraws(s))
            && (s.shown.bits != s.bits || s.shown.shape != s.shape ==>
                 s.updated || Changing(s.cpc) || TakingCursor(s.rpc) || ShapeRead(s.rpc) || Redraws(s))
  {
    InvInit(init);
    InvRun(init, steps);
  }

  /** When everybody is idle and nothing is flagged, the screen shows exactly what the server has. */
  lemma SettledScreenIsCurrent(init: State, steps: seq<Step>)
    requires Init(init)
    ensures var s := Run(init, steps);
            s.xpc == XIdle && s.cpc == CIdle && Rests(s.rpc) &&
            !s.damage && !s.drawRequested && !s.moved && !s.updated ==>
            s.shown == Frame(s.root, s.bits, s.shape, s.x, s.y)
  {
    InvInit(init);
    InvRun(init, steps);
  }

  /** While the renderer reads the root window nobody writes it, and the same for the cursor's pixels. */
  lemma NoTearing(init: State, steps: seq<Step>)
    requires Init(init)
    ensures var s := Run(init, steps);
            && !(HoldsRoot(s.rpc) && (s.xpc.XLocked? || s.xpc.XWriting? || s.xpc.XWritten?))
            && !(HoldsCursor(s.rpc) && (s.cpc.CLocked? || Changing(s.cpc)))
  {
    InvInit(init);
    InvRun(init, steps);
  }

  /** At most one frame per vsync: between any two points of any run the frames rendered exceed the
      ticks by at most one, also when a tick comes in the middle of a frame. */
  lemma OneFramePerVsync(init: State, before: seq<Step>, between: seq<Step>)
    requires Init(init)
    ensures var s := Run(init, before);
            var t := Run(s, between);
            t.frames - s.frames <= t.ticks - s.ticks + 1
    ensures Run(init, before).frames <= Run(init, before).ticks + 1
  {
    InvInit(init);
    InvRun(init, before);
    InvRun(Run(init, before), between);
  }

  // ---- Progress

  function AloneStep(s: State): State {
    RenderNext(s, true)
  }

  /** `n` steps of the renderer, with the buffer present and no other thread running. */
  function RenderAlone(s: State, n: nat): State {
    Iterate(AloneStep, s, n)
  }

  /** The renderer finds something to do and nobody holds the locks. */
  predicate CanRender(s: State) {
    && s.rpc == RIdle && s.surfaceAvailable && !s.waitForNextFrame
    && Flagged(s)
    && s.lock == RootFree && s.cursorLock == CursorFree
  }

  lemma AloneConcat(s: State, m: nat, n: nat)
    ensures RenderAlone(s, m + n) == RenderAlone(RenderAlone(s, m), n)
  {
    IterateConcat(AloneStep, s, m, n);
  }

  /** Four states in a row. */
  lemma FourSteps(s: State, s1: State, s2: State, s3: State, s4: State) returns (n: nat)
    requires RenderNext(s, true) == s1 && RenderNext(s1, true) == s2
    requires RenderNext(s2, true) == s3 && RenderNext(s3, true) == s4
    ensures n == 4 && RenderAlone(s, n - 1) == s3 && RenderAlone(s, n) == s4
  {
    n := 4;
    assert RenderAlone(s, 1) == s1;
    assert RenderAlone(s, 2) == s2;
  }

  lemma StartOfFrame(s: State) returns (n: nat)
    requires CanRender(s)
    ensures n == 4 && RenderAlone(s, n) == s.(rpc := RReadRoot, lock := RootRenderer, drawRequested := false)
  {
    var s3 := s.(rpc := RClearDraw, lock := RootRenderer);
    n := FourSteps(s, s.(rpc := RFind), s.(rpc := RLock), s3, s3.(rpc := RReadRoot, drawRequested := false));
  }

  lemma CheckCursor(s: State) returns (n: nat)
    requires s.rpc == RReadRoot
    ensures n == 2 && RenderAlone(s, n) ==
            s.(rpc := if s.updated then RLockCursor else RClearMoved, drawing := s.drawing.(root := s.root))
  {
    n := 2;
    assert RenderAlone(s, 1) == s.(rpc := RCheckUpdated, drawing := s.drawing.(root := s.root));
  }

  lemma TakePixels(s: State) returns (n: nat)
    requires s.rpc == RLockCursor && s.cursorLock == CursorFree
    ensures n == 4 && RenderAlone(s, n) == s.(rpc := RClearMoved, updated := false, texture := s.bits)
  {
    var s1 := s.(rpc := RClearUpdated, cursorLock := CursorRenderer);
    var s3 := s1.(rpc := RUnlockCursor, updated := false, texture := s.bits);
    var s4 := s3.(rpc := RClearMoved, cursorLock := CursorFree);
    n := FourSteps(s, s1, s1.(rpc := RUpload, updated := false), s3, s4);
  }

  /** The first half of a frame: the root window and the cursor's pixels are taken over. */
  lemma FrameTakesOver(s: State) returns (n: nat)
    requires CanRender(s) && (!s.updated ==> s.texture == s.bits)
    ensures n == (if s.updated then 10 else 6) && RenderAlone(s, n) ==
            s.(rpc := RClearMoved, lock := RootRenderer, drawRequested := false, updated := false,
               drawing := s.drawing.(root := s.root), texture := s.bits)
  {
    var a := StartOfFrame(s);
    var s4 := s.(rpc := RReadRoot, lock := RootRenderer, drawRequested := false);
    var b := CheckCursor(s4);
    AloneConcat(s, a, b);
    n := a + b;
    if s.updated {
      var c := TakePixels(s4.(rpc := RLockCursor, drawing := s.drawing.(root := s.root)));
      AloneConcat(s, n, c);
      n := n + c;
    }
  }

  lemma ReadPlace(s: State) returns (n: nat)
    requires s.rpc == RClearMoved
    ensures n == 4 && RenderAlone(s, n) ==
            s.(rpc := RSetWait, moved := false, drawing := Frame(s.drawing.root, s.texture, s.shape, s.x, s.y))
  {
    var s1 := s.(rpc := RReadX, moved := false);
    var s2 := s1.(rpc := RReadY, drawing := s.drawing.(x := s.x));
    var s3 := s2.(rpc := RReadShape, drawing := s.drawing.(x := s.x, y := s.y));
    var f := Frame(s.drawing.root, s.texture, s.shape, s.x, s.y);
    n := FourSteps(s, s1, s2, s3, s3.(rpc := RSetWait, drawing := f));
  }

  lemma SwapFrame(s: State) returns (n: nat)
    requires s.rpc == RSetWait
    ensures n == 3 && RenderAlone(s, n) ==
            s.(rpc := RIdle, lock := RootFree, waitForNextFrame := true, frames := s.frames + 1, shown := s.drawing)
  {
    var s1 := s.(rpc := RUnlock, waitForNextFrame := true, frames := s.frames + 1);
    var s2 := s1.(rpc := RSwap, lock := RootFree);
    var s3 := s2.(rpc := RIdle, shown := s.drawing);
    n := FourSteps(s, s1, s2, s3, RenderNext(s3, true));
    n := n - 1;
  }

  /** The second half: position and shape are read and the frame goes to the screen. */
  lemma FrameFinishes(s: State) returns (n: nat)
    requires s.rpc == RClearMoved
    ensures var f := Frame(s.drawing.root, s.texture, s.shape, s.x, s.y);
            n == 7 && RenderAlone(s, n) ==
            s.(rpc := RIdle, lock := RootFree, moved := false, waitForNextFrame := true, frames := s.frames + 1,
               drawing := f, shown := f)
  {
    var a := ReadPlace(s);
    var b := SwapFrame(s.(rpc := RSetWait, moved := false, drawing := Frame(s.drawing.root, s.texture, s.shape, s.x, s.y)));
    AloneConcat(s, a, b);
    n := a + b;
  }

  /** A frame rendered without interference shows everything the server has and takes back every
      flag: nothing remains to be rendered until something changes. */
  lemma FrameShowsEverything(s: State) returns (n: nat)
    requires Inv(s) && CanRender(s)
    ensures n == (if s.updated then 17 else 13)
    ensures var t := RenderAlone(s, n);
            && t.rpc == RIdle && t.shown == Frame(s.root, s.bits, s.shape, s.x, s.y)
            && !t.drawRequested && !t.moved && !t.updated && t.waitForNextFrame
            && t.frames == s.frames + 1
            && t.root == s.root && t.bits == s.bits && t.shape == s.shape && t.x == s.x && t.y == s.y
            && t.damage == s.damage && t.ticks == s.ticks
  {
    var a := FrameTakesOver(s);
    var b := FrameFinishes(s.(rpc := RClearMoved, lock := RootRenderer, drawRequested := false, updated := false,
                              drawing := s.drawing.(root := s.root), texture := s.bits));
    AloneConcat(s, a, b);
    n := a + b;
  }
}
