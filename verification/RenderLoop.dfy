/** The loop of the render thread: when it goes to sleep and what one turn of it does. */
module RenderLoop {
  import opened Common
  import opened BufferLists

  /** The flags of the shared server state that the loop looks at. */
  datatype Shared = Shared(
    drawRequested: bool, moved: bool, updated: bool,
    waitForNextFrame: bool, surfaceAvailable: bool, rootId: nat)

  /** `state` is None without a connection; `pending`, `pendingWindow` are what the GUI thread hands
      over; `window` is true when there is an output surface; `lastRequested` is the buffer id seen at
      the last look, which may be out of date. */
  datatype Loop = Loop(
    state: Option<Shared>, pending: Option<Shared>, stateChanged: bool,
    window: bool, pendingWindow: bool, windowChanged: bool,
    waitingForBuffers: bool, lastRequested: nat, heap: Heap, frames: nat)

  predicate Wants(sh: Shared) {
    sh.drawRequested || sh.moved || sh.updated
  }

  /** The decision to sleep, and the state after it: a new buffer id ends the waiting for buffers. */
  function ShouldWait(s: Loop): (bool, Loop) {
    if s.stateChanged || s.windowChanged || s.heap.lists.added != [] || s.heap.lists.removed != [] then (false, s)
    else match s.state
      case None => (true, s)
      case Some(sh) =>
        var t := s.(waitingForBuffers := s.waitingForBuffers && s.lastRequested == sh.rootId, lastRequested := sh.rootId);
        (!sh.surfaceAvailable || sh.waitForNextFrame || t.waitingForBuffers || !Wants(sh), t)
  }

  function TakeState(s: Loop): Loop {
    if !s.stateChanged then s
    else s.(state := if s.pending.Some? then Some(s.pending.value.(surfaceAvailable := s.window)) else None,
            pending := None, stateChanged := false, waitingForBuffers := false)
  }

  /** A new surface has to be drawn at least once; without one there is nothing to draw to. */
  function TakeWindow(s: Loop): Loop {
    if !s.windowChanged then s
    else
      var state := match s.state
        case None => None
        case Some(sh) =>
          if s.pendingWindow then Some(sh.(surfaceAvailable := true, drawRequested := true, updated := true))
          else Some(sh.(surfaceAvailable := false));
      s.(window := s.pendingWindow, pendingWindow := false, windowChanged := false, state := state)
  }

  function TakeBuffers(s: Loop): Loop {
    s.(heap := AttachAll(s.heap), waitingForBuffers := s.waitingForBuffers && s.heap.lists.added == [])
  }

  /** Renders a frame if there is something to draw and its buffer is there. */
  function Redraw(s: Loop): Loop {
    if s.state.Some? && s.state.value.surfaceAvailable && !s.state.value.waitForNextFrame && Wants(s.state.value) then
      if BufferToDraw(s.heap.lists, s.state.value.rootId).None? then s.(waitingForBuffers := true)
      else s.(state := Some(s.state.value.(drawRequested := false, moved := false, updated := false, waitForNextFrame := true)),
              frames := s.frames + 1)
    else s
  }

  /** One turn of the loop. */
  function Turn(s: Loop): Loop {
    var t := Redraw(TakeBuffers(TakeWindow(TakeState(s))));
    t.(heap := ReleaseRemoved(t.heap))
  }

  class RenderThread {
    var s: Loop
    const buffers: RendererBuffers

    constructor (state: Loop, buffers: RendererBuffers)
      requires buffers.heap == state.heap
      ensures s == state && this.buffers == buffers
    {
      s := state;
      this.buffers := buffers;
    }

    ghost predicate Valid()
      reads this, buffers
    {
      buffers.heap == s.heap
    }

    method RendererShouldWait() returns (wait: bool)
      requires Valid()
      modifies this`s
      ensures Valid() && (wait, s) == ShouldWait(old(s))
    {
      var buffersChanged := s.heap.lists.added != [] || s.heap.lists.removed != [];
      if s.stateChanged || s.windowChanged || buffersChanged {
        return false;
      }
      if s.state.Some? {
        var sh := s.state.value;
        if s.lastRequested != sh.rootId {
          s := s.(waitingForBuffers := false);
        }
        s := s.(lastRequested := sh.rootId);
      }
      if s.state.None? || !s.state.value.surfaceAvailable || s.state.value.waitForNextFrame || s.waitingForBuffers {
        return true;
      }
      if Wants(s.state.value) {
        return false;
      }
      return true;
    }

    method TakeSharedState()
      requires Valid()
      modifies this`s
      ensures Valid() && s == TakeState(old(s))
    {
      if s.stateChanged {
        s := s.(state := s.pending, pending := None, stateChanged := false, waitingForBuffers := false);
        if s.state.Some? {
          s := s.(state := Some(s.state.value.(surfaceAvailable := s.window)));
        }
      }
    }

    method AttachPending()
      requires Valid()
      modifies this`s, buffers
      ensures Valid() && s == TakeBuffers(old(s))
    {
      if s.heap.lists.added != [] {
        s := s.(waitingForBuffers := false);
      }
      buffers.Attach();
      s := s.(heap := buffers.heap);
    }

    /** One turn: afterwards nothing is pending, and a frame was rendered at most. */
    method RendererTurn()
      requires Valid()
      modifies this`s, buffers
      ensures Valid() && s == Turn(old(s))
      ensures !s.stateChanged && !s.windowChanged && s.heap.lists.added == [] && s.heap.lists.removed == []
      ensures old(s.frames) <= s.frames <= old(s.frames) + 1
    {
      AfterOneTurn(s);
      TurnFrames(s);
      TakeSharedState();
      if s.windowChanged {
        RendererRefreshContext();
      }
      AttachPending();
      if s.state.Some? && s.state.value.surfaceAvailable && !s.state.value.waitForNextFrame && Wants(s.state.value) {
        RendererRedrawLocked();
      }
      buffers.ReleaseAll();
      s := s.(heap := buffers.heap);
    }

    method RendererRefreshContext()
      requires Valid() && s.windowChanged
      modifies this`s
      ensures Valid() && s == TakeWindow(old(s))
    {
      s := s.(window := s.pendingWindow, pendingWindow := false, windowChanged := false);
      if s.state.Some? {
        var sh := s.state.value.(surfaceAvailable := s.window);
        if s.window {
          sh := sh.(updated := true, drawRequested := true);
        }
        s := s.(state := Some(sh));
      }
    }

    method RendererRedrawLocked()
      requires Valid() && s.state.Some?
      requires s.state.value.surfaceAvailable && !s.state.value.waitForNextFrame && Wants(s.state.value)
      modifies this`s
      ensures Valid() && s == Redraw(old(s))
    {
      var l, id := s.heap.lists, s.state.value.rootId;
      var i := buffers.Find(l.attached, id);
      if i == |l.attached| {
        i := buffers.Find(l.removed, id);
        if i == |l.removed| {
          s := s.(waitingForBuffers := true);
          return;
        }
      }
      var sh := s.state.value.(drawRequested := false, updated := false, moved := false, waitForNextFrame := true);
      s := s.(state := Some(sh), frames := s.frames + 1);
    }

    method TurnAndLook() returns (wait: bool)
      requires Valid()
      modifies this`s, buffers
      ensures Valid() && (wait, s) == ShouldWait(Turn(old(s)))
    {
      RendererTurn();
      wait := RendererShouldWait();
    }

    /** The loop of the thread up to the point where it sleeps, when nobody else does anything: after two turns at
        most it has done everything there was to do. */
    method RunUntilSleep() returns (turns: nat)
      requires Valid()
      modifies this`s, buffers
      ensures Valid() && turns <= 2
      ensures s == AfterTurns(old(s), turns) && Sleeps(s) && s == Settled(old(s))
    {
      ghost var s0 := s;
      turns := 0;
      var wait := RendererShouldWait();
      LookTwice(s0);
      while !wait
        invariant Valid() && turns <= 2
        invariant s == AfterTurns(s0, turns) && wait == Sleeps(s)
        invariant forall n :: 0 <= n < turns ==> !Sleeps(AfterTurns(s0, n))
        decreases 3 - turns
      {
        ghost var most := SleepsWithinTwoTurns(s0);
        OneMoreTurn(s0, turns);
        wait := TurnAndLook();
        turns := turns + 1;
      }
      WorksThenSleeps(s0);
    }
  }

  predicate Sleeps(s: Loop) {
    ShouldWait(s).0
  }

  /** `n` turns, each after a look that decided not to sleep, and the look after the last. */
  function AfterTurns(s: Loop, n: nat): Loop
    decreases n
  {
    if n == 0 then ShouldWait(s).1 else ShouldWait(Turn(AfterTurns(s, n - 1))).1
  }

  /** The state in which the thread sleeps, if nobody else does anything. */
  function UntilSleep(s: Loop): Loop {
    if Sleeps(AfterTurns(s, 0)) then AfterTurns(s, 0)
    else if Sleeps(AfterTurns(s, 1)) then AfterTurns(s, 1)
    else AfterTurns(s, 2)
  }

  lemma LookTwice(s: Loop)
    ensures ShouldWait(ShouldWait(s).1) == ShouldWait(s)
  {
  }

  /** After a turn nothing is pending, and if the thread still does not sleep, the requested buffer is
      missing and is not the one the loop last looked for. */
  lemma AfterOneTurn(s: Loop)
    ensures var t := Turn(s);
            && !t.stateChanged && !t.windowChanged && t.heap.lists.added == [] && t.heap.lists.removed == []
            && (!ShouldWait(t).0 ==>
                 && t.state.Some? && t.waitingForBuffers && t.lastRequested != t.state.value.rootId
                 && BufferToDraw(t.heap.lists, t.state.value.rootId).None?)
  {
    var a := TakeBuffers(TakeWindow(TakeState(s)));
    var b := Redraw(a);
    FreeKeepsLists(b.heap.(lists := b.heap.lists.(removed := [])), b.heap.lists.removed, Render);
    var t := Turn(s);
    assert t == b.(heap := t.heap) && t.heap.lists == b.heap.lists.(removed := []);
  }

  lemma TurnFrames(s: Loop)
    ensures s.frames <= Turn(s).frames <= s.frames + 1
  {
  }

  lemma OneMoreTurn(s: Loop, n: nat)
    ensures var t := Turn(AfterTurns(s, n));
            AfterTurns(s, n + 1) == ShouldWait(t).1 && Sleeps(AfterTurns(s, n + 1)) == ShouldWait(t).0
  {
    LookTwice(Turn(AfterTurns(s, n)));
  }

  /** A turn after a turn always finds the missing buffer to be the one it looked for last. */
  lemma SecondTurn(s: Loop)
    ensures var s1 := ShouldWait(Turn(s)).1; ShouldWait(Turn(s1)).0
  {
    AfterOneTurn(s);
    var s1 := ShouldWait(Turn(s)).1;
    AfterOneTurn(s1);
    assert Turn(s1).state.Some? ==> Turn(s1).lastRequested == Turn(s1).state.value.rootId;
  }

  /** From any state, with no other thread at work, the thread sleeps after two turns; it needs the second one
      only when the requested buffer is missing and differs from the one it last looked for. */
  lemma SleepsWithinTwoTurns(s: Loop) returns (two: nat)
    ensures two == 2 && Sleeps(AfterTurns(s, two))
    ensures var t := Turn(ShouldWait(s).1);
            !ShouldWait(t).0 ==>
              && t.state.Some? && t.lastRequested != t.state.value.rootId
              && BufferToDraw(t.heap.lists, t.state.value.rootId).None?
  {
    two := 2;
    var s0 := AfterTurns(s, 0);
    assert s0 == ShouldWait(s).1;
    OneMoreTurn(s, 0);
    OneMoreTurn(s, 1);
    SecondTurn(s0);
    AfterOneTurn(s0);
  }

  // ---- What gets done before it sleeps

  /** Something was handed over and is not taken yet. */
  predicate Changed(s: Loop) {
    s.stateChanged || s.windowChanged || s.heap.lists.added != [] || s.heap.lists.removed != []
  }

  /** The shared state once everything handed over is taken: the new one if there is one, with a surface exactly if
      there is a window then, and flagged if the window is new. */
  function Taken(s: Loop): Option<Shared> {
    var newWindow := s.windowChanged && s.pendingWindow;
    match if s.stateChanged then s.pending else s.state
    case None => None
    case Some(sh) =>
      Some(Shared(sh.drawRequested || newWindow, sh.moved, sh.updated || newWindow, sh.waitForNextFrame,
                  if s.windowChanged then s.pendingWindow else if s.stateChanged then s.window else sh.surfaceAvailable,
                  sh.rootId))
  }

  /** Some buffer of that id is there, or was handed over, or is removed but not freed. */
  ghost predicate Present(l: Lists, id: nat) {
    exists b :: (b in l.added || b in l.attached || b in l.removed) && b.id == id
  }

  /** There is a surface, no frame before on this vsync, and a flag is set. */
  predicate WantsFrame(taken: Option<Shared>) {
    taken.Some? &&
    var sh := taken.value;
    sh.surfaceAvailable && !sh.waitForNextFrame && (sh.drawRequested || sh.moved || sh.updated)
  }

  /** Its buffer is there. */
  ghost predicate CanDraw(s: Loop) {
    WantsFrame(Taken(s)) && Present(s.heap.lists, Taken(s).value.rootId)
  }

  /** A frame is due: unless the thread is waiting for exactly this buffer and nothing was handed over. */
  ghost predicate FrameIsDue(s: Loop) {
    CanDraw(s) && (Changed(s) || !s.waitingForBuffers || s.lastRequested != Taken(s).value.rootId)
  }

  /** The shared state after a frame: every flag is taken back, and the next vsync is waited for. */
  function Rendered(sh: Shared): Shared {
    Shared(false, false, false, true, sh.surfaceAvailable, sh.rootId)
  }

  lemma TakesOver(s: Loop)
    ensures TakeWindow(TakeState(s)) ==
            s.(state := Taken(s), pending := if s.stateChanged then None else s.pending, stateChanged := false,
               window := if s.windowChanged then s.pendingWindow else s.window,
               pendingWindow := s.pendingWindow && !s.windowChanged, windowChanged := false,
               waitingForBuffers := s.waitingForBuffers && !s.stateChanged)
  {
  }

  lemma PresentAfterTaking(s: Loop, id: nat)
    ensures BufferToDraw(TakeBuffers(s).heap.lists, id).Some? <==> Present(s.heap.lists, id)
  {
    var l := s.heap.lists;
    var t := TakeBuffers(s).heap.lists;
    DrawsTheFirst(t, id);
    MoveAllKeeps(l.added, l.attached);
    forall b
      ensures b in t.attached <==> b in l.added || b in l.attached
    {
      assert b in t.attached <==> b in multiset(t.attached);
    }
  }

  /** Everything handed over is taken, new buffers are attached and removed ones freed, and `frame` says whether
      a frame is rendered, with every flag taken back. */
  function Work(s: Loop, frame: bool): Loop
    requires frame ==> Taken(s).Some?
  {
    s.(state := if frame then Some(Rendered(Taken(s).value)) else Taken(s),
       pending := if s.stateChanged then None else s.pending, stateChanged := false,
       window := if s.windowChanged then s.pendingWindow else s.window,
       pendingWindow := s.pendingWindow && !s.windowChanged, windowChanged := false,
       heap := ReleaseRemoved(AttachAll(s.heap)),
       frames := s.frames + if frame then 1 else 0)
  }

  /** One turn, whether the thread was waiting for buffers or not: the frame is rendered if it is wanted and its
      buffer is there, and if it is wanted and the buffer is not, the thread waits for buffers. */
  lemma TurnDoes(s: Loop)
    ensures Turn(s) == Work(s, CanDraw(s)).(
              waitingForBuffers := || (WantsFrame(Taken(s)) && !CanDraw(s))
                                   || (s.waitingForBuffers && !s.stateChanged && s.heap.lists.added == []))
  {
    TakesOver(s);
    var a := TakeWindow(TakeState(s));
    if a.state.Some? {
      PresentAfterTaking(a, a.state.value.rootId);
    }
    var b := Redraw(TakeBuffers(a));
    assert b.heap == AttachAll(s.heap);
  }

  /** Another turn has nothing more to attach or free. */
  lemma NothingMoreToTake(h: Heap)
    ensures var r := ReleaseRemoved(AttachAll(h));
            && r.lists == Lists([], MoveAll(h.lists.added, h.lists.attached), [])
            && ReleaseRemoved(AttachAll(r)) == r
    ensures h.lists.added == [] && h.lists.removed == [] ==> ReleaseRemoved(AttachAll(h)) == h
  {
    var mid := AttachAll(h);
    FreeKeepsLists(mid.(lists := mid.lists.(removed := [])), mid.lists.removed, Render);
    var r := ReleaseRemoved(mid);
    assert AttachAll(r) == r;
    assert h.lists.added == [] ==> AttachAll(h) == h;
  }

  /** What is there before a turn is there after it, but for what was removed. */
  lemma MissingStaysMissing(s: Loop, id: nat)
    requires !Present(s.heap.lists, id)
    ensures !Present(Turn(s).heap.lists, id)
  {
    TurnDoes(s);
    NothingMoreToTake(s.heap);
    var l := s.heap.lists;
    MoveAllKeeps(l.added, l.attached);
    forall b | b in Turn(s).heap.lists.attached
      ensures b in l.added || b in l.attached
    {
      assert b in multiset(MoveAll(l.added, l.attached));
    }
  }

  /** When it decides to sleep, and what the look remembers. */
  lemma Looks(s: Loop)
    ensures var id := if s.state.Some? then s.state.value.rootId else s.lastRequested;
            && (Sleeps(s) <==> !Changed(s) && (!WantsFrame(s.state) || (s.waitingForBuffers && s.lastRequested == id)))
            && ShouldWait(s).1 == if Changed(s) then s
                                  else s.(waitingForBuffers := s.waitingForBuffers && s.lastRequested == id,
                                          lastRequested := id)
  {
  }

  /** The state in which the thread sleeps, by what was there before. */
  ghost function Settled(s: Loop): Loop {
    Work(s, FrameIsDue(s)).(
      waitingForBuffers := || (WantsFrame(Taken(s)) && !CanDraw(s))
                           || (&& s.waitingForBuffers && !s.stateChanged && s.heap.lists.added == []
                               && (Taken(s).Some? ==> s.lastRequested == Taken(s).value.rootId)),
      lastRequested := if Taken(s).Some? then Taken(s).value.rootId else s.lastRequested)
  }

  /** What a look remembers does not change the work. */
  lemma SameWork(s: Loop, t: Loop)
    requires t == s.(waitingForBuffers := t.waitingForBuffers, lastRequested := t.lastRequested)
    ensures Taken(t) == Taken(s) && (CanDraw(t) <==> CanDraw(s)) && (Changed(t) <==> Changed(s))
    ensures forall frame :: (frame ==> Taken(s).Some?) ==>
              Work(t, frame) == Work(s, frame).(waitingForBuffers := t.waitingForBuffers, lastRequested := t.lastRequested)
  {
  }

  /** The turn of a thread that was woken does all of it, but for what the look after it remembers. */
  lemma WokenTurn(s: Loop)
    requires !Sleeps(s)
    ensures var s0 := AfterTurns(s, 0);
            && s0 == s.(waitingForBuffers := s0.waitingForBuffers, lastRequested := s0.lastRequested)
            && Turn(s0) == Work(s, FrameIsDue(s)).(
                 waitingForBuffers := || (WantsFrame(Taken(s)) && !CanDraw(s))
                                      || (s0.waitingForBuffers && !s.stateChanged && s.heap.lists.added == []),
                 lastRequested := s0.lastRequested)
  {
    var s0 := AfterTurns(s, 0);
    Looks(s);
    assert FrameIsDue(s) <==> CanDraw(s);
    SameWork(s, s0);
    TurnDoes(s0);
  }

  /** A second look may be needed to wait. */
  lemma FirstTurn(s: Loop)
    requires !Sleeps(s)
    ensures var u := AfterTurns(s, 1);
            && u == Settled(s).(waitingForBuffers := u.waitingForBuffers) && !Changed(u)
            && (u.waitingForBuffers != Settled(s).waitingForBuffers ==>
                  WantsFrame(u.state) && !Present(u.heap.lists, u.state.value.rootId) && Settled(s).waitingForBuffers)
  {
    var s0 := AfterTurns(s, 0);
    Looks(s);
    WokenTurn(s);
    NothingMoreToTake(s.heap);
    Looks(Turn(s0));
    if WantsFrame(Taken(s)) && !CanDraw(s) {
      MissingStaysMissing(s0, Taken(s).value.rootId);
    }
  }

  /** From any state the thread goes to sleep having taken everything handed over, attached new buffers and freed
      removed ones, and rendered exactly one frame, with every flag taken back, if one is due; otherwise it renders
      none and all flags stay. */
  lemma WorksThenSleeps(s: Loop)
    ensures UntilSleep(s) == Settled(s)
  {
    LookTwice(s);
    Looks(s);
    NothingMoreToTake(s.heap);
    if !Sleeps(s) {
      FirstTurn(s);
      var u := AfterTurns(s, 1);
      Looks(u);
      if !Sleeps(u) {
        LookTwice(Turn(s));
        TurnDoes(u);
        Looks(Turn(u));
      }
    }
  }

  /** With nothing handed over and no waiting, a flag and a surface bring exactly one frame, and no flag none. */
  lemma FlagsBringAFrame(s: Loop, sh: Shared)
    requires s.state == Some(sh) && !Changed(s)
    ensures var t := UntilSleep(s);
            && (&& sh.surfaceAvailable && !sh.waitForNextFrame && !s.waitingForBuffers
                && (sh.drawRequested || sh.moved || sh.updated)
                && (exists b :: b in s.heap.lists.attached && b.id == sh.rootId) ==>
                  && t.frames == s.frames + 1 && t.state.Some?
                  && !t.state.value.drawRequested && !t.state.value.moved && !t.state.value.updated)
            && (!sh.drawRequested && !sh.moved && !sh.updated ==> t.frames == s.frames && t.state == Some(sh))
  {
    WorksThenSleeps(s);
  }

  /** A new window brings a frame, flagged or not, also to a thread that was waiting for buffers. */
  lemma NewWindowBringsAFrame(s: Loop, sh: Shared)
    requires s.state == Some(sh) && !s.stateChanged && s.windowChanged && s.pendingWindow && !sh.waitForNextFrame
    requires Present(s.heap.lists, sh.rootId)
    ensures UntilSleep(s).frames == s.frames + 1 && UntilSleep(s).window
  {
    WorksThenSleeps(s);
  }
}
