/** The X server's registry of the buffers it has shared, and the activity's copy of it at the other end of the
    socket. The main thread of the server registers and destroys buffers and opens connections; its input thread
    runs the error branch. Neither takes a lock, so every access to the connection and to the list is a step of its
    own, but for two places: the error branch stops watching the socket, closes it and gives the connection up in
    one step, and opening the socket and resetting the activity is one step. */
module BufferRegistry {
  import opened Common
  import opened BufferLists

  datatype Message = AddMessage(id: nat) | RemoveMessage(id: nat)

  /** Where the main thread of the X server is: between two of its accesses to the connection or to the list
      while it registers a buffer, destroys one, or opens a connection. */
  datatype Main =
    | Idle
    | Registering(id: nat)      // the buffer is not listed and there was a connection
    | Announcing(id: nat)       // there still was one
    | Adding(id: nat)           // the message is written
    | Unregistering(id: nat)    // the buffer is listed
    | Withdrawing(id: nat)      // there was a connection
    | Removing(id: nat)         // the message is written
    | Freeing(id: nat)
    | Connecting                // the socket is watched, the connection not set yet

  /** `nextId` is the static counter of the allocator, `live` the ids of the server's allocated buffers and
      `registered` the list of shared ones. `connected` says that conn_fd is set, `open` that its socket is,
      `watched` that the input thread waits for errors on it and `emptying` that the input thread is in the
      loop of the error branch. `channel` are the messages sent and not yet read, `activity` the renderer's
      buffers in the other process. `stale` are the ids that were listed when the connection was opened. */
  datatype Link = Link(
    nextId: nat, live: set<nat>, registered: seq<nat>, main: Main,
    connected: bool, open: bool, watched: bool, emptying: bool,
    channel: seq<Message>, activity: Heap, stale: set<nat>)

  function Remove(list: seq<nat>, id: nat): seq<nat> {
    var i := FirstIndex(list, id, 0);
    if i < |list| then list[..i] + list[i + 1..] else list
  }

  // ---- The X server's side, without interruption

  /** Every allocation takes a number, also one that fails. */
  function Allocate(s: Link, succeeds: bool): Link {
    s.(nextId := s.nextId + 1, live := if succeeds then s.live + {s.nextId} else s.live)
  }

  /** A message written to a closed socket, or to none, is lost. */
  function Send(s: Link, m: Message): Link {
    if s.connected && s.open then s.(channel := s.channel + [m]) else s
  }

  function Register(s: Link, id: nat): Link {
    if !s.connected || FirstIndex(s.registered, id, 0) < |s.registered| then s
    else Send(s, AddMessage(id)).(registered := [id] + s.registered)
  }

  function Unlist(s: Link, id: nat): Link {
    s.(registered := Remove(s.registered, id), stale := s.stale - {id})
  }

  function Unregister(s: Link, id: nat): Link {
    if FirstIndex(s.registered, id, 0) == |s.registered| || !s.connected then s
    else Unlist(Send(s, RemoveMessage(id)), id)
  }

  /** The pixmap is destroyed: its buffer is unregistered and freed, and freeing unlinks it from
      whatever list it is still in. */
  function Destroy(s: Link, id: nat): Link {
    var u := Unlist(Unregister(s, id), id);
    u.(live := u.live - {id})
  }

  class Registry {
    var s: Link

    constructor (s: Link)
      ensures this.s == s
    {
      this.s := s;
    }

    method FindById(id: nat) returns (i: nat)
      ensures i == FirstIndex(s.registered, id, 0)
    {
      i := 0;
      while i < |s.registered|
        invariant i <= |s.registered|
        invariant FirstIndex(s.registered, id, i) == FirstIndex(s.registered, id, 0)
      {
        if s.registered[i] == id {
          return;
        }
        i := i + 1;
      }
    }

    method Write(m: Message)
      modifies this
      ensures s == Send(old(s), m)
    {
      if s.connected && s.open {
        s := s.(channel := s.channel + [m]);
      }
    }

    method RemoveFromList(id: nat)
      modifies this
      ensures s == Unlist(old(s), id)
    {
      var i := FindById(id);
      if i < |s.registered| {
        s := s.(registered := s.registered[..i] + s.registered[i + 1..]);
      }
      s := s.(stale := s.stale - {id});
    }

    method RegisterBuffer(id: nat)
      modifies this
      ensures s == Register(old(s), id)
    {
      var i := FindById(id);
      if !s.connected || i < |s.registered| {
        return;
      }
      Write(AddMessage(id));
      s := s.(registered := [id] + s.registered);
    }

    method UnregisterBuffer(id: nat)
      modifies this
      ensures s == Unregister(old(s), id)
    {
      var i := FindById(id);
      if i == |s.registered| {
        return;
      }
      if s.connected {
        Write(RemoveMessage(id));
        RemoveFromList(id);
      }
    }

    method DestroyBuffer(id: nat)
      modifies this
      ensures s == Destroy(old(s), id)
    {
      UnregisterBuffer(id);
      RemoveFromList(id);
      s := s.(live := s.live - {id});
    }

    /** The error branch of the event handler: the connection is gone and the list is emptied. */
    method HandleError()
      modifies this
      ensures s == LoseConnection(old(s)).(registered := [], emptying := false)
    {
      s := s.(watched := false, open := false, connected := false, emptying := true);
      while s.registered != []
        invariant s == LoseConnection(old(s)).(registered := s.registered)
        decreases |s.registered|
      {
        s := s.(registered := s.registered[1..]);
      }
      s := s.(emptying := false);
    }
  }

  function LoseConnection(s: Link): Link {
    s.(watched := false, open := false, connected := false, emptying := true)
  }

  // ---- Every interleaving

  datatype Op = Rest | AllocateOp(succeeds: bool) | RegisterOp(id: nat) | DestroyOp(id: nat) | ConnectOp

  /** The next access of the main thread; `op` is what it starts when it is idle. It acts only on buffers it
      has, and takes a connection only when the error of the last one was handled at both ends. */
  function MainNext(s: Link, op: Op): Link {
    match s.main
    case Idle => Begin(s, op)
    case Registering(id) => s.(main := if s.connected then Announcing(id) else Idle)
    case Announcing(id) => Send(s, AddMessage(id)).(main := Adding(id))
    case Adding(id) => s.(main := Idle, registered := [id] + s.registered)
    case Unregistering(id) => s.(main := if s.connected then Withdrawing(id) else Freeing(id))
    case Withdrawing(id) => Send(s, RemoveMessage(id)).(main := Removing(id))
    case Removing(id) => Unlist(s, id).(main := Freeing(id))
    case Freeing(id) => Unlist(s, id).(main := Idle, live := s.live - {id})
    case Connecting => s.(main := Idle, connected := true)
  }

  function Begin(s: Link, op: Op): Link {
    match op
    case Rest => s
    case AllocateOp(succeeds) => Allocate(s, succeeds)
    case RegisterOp(id) =>
      if id in s.live && s.connected && FirstIndex(s.registered, id, 0) == |s.registered|
      then s.(main := Registering(id)) else s
    case DestroyOp(id) =>
      if id !in s.live then s
      else if FirstIndex(s.registered, id, 0) < |s.registered| then s.(main := Unregistering(id))
      else s.(main := Freeing(id))
    case ConnectOp =>
      if s.watched || s.emptying then s
      else s.(main := Connecting, watched := true, open := true, channel := [],
              activity := RemoveAllBuffers(s.activity), stale := set id | id in s.registered)
  }

  /** The input thread: the error branch starts, then takes one entry off the list at a time. */
  function InputNext(s: Link): Link {
    if s.emptying then
      if s.registered == [] then s.(emptying := false) else s.(registered := s.registered[1..])
    else if s.watched then LoseConnection(s)
    else s
  }

  datatype Step = MainStep(op: Op) | InputStep | Deliver | Attach | Release

  function Next(s: Link, step: Step): Link {
    match step
    case MainStep(op) => MainNext(s, op)
    case InputStep => InputNext(s)
    case Deliver =>
      if s.channel == [] then s
      else s.(channel := s.channel[1..], activity := match s.channel[0]
        case AddMessage(id) => AddBuffer(s.activity, id)
        case RemoveMessage(id) => RemoveBuffer(s.activity, id))
    case Attach => s.(activity := AttachAll(s.activity))
    case Release => s.(activity := ReleaseRemoved(s.activity))
  }

  function Run(s: Link, steps: seq<Step>): Link
    decreases |steps|
  {
    if steps == [] then s else Run(Next(s, steps[0]), steps[1..])
  }

  const START := Link(0, {}, [], Idle, false, false, false, false, [], Heap(Lists([], [], []), {}, {}, [], 0), {})

  // ---- The two ends in step

  /** How often `id` occurs in a list. */
  function Count(list: seq<Buffer>, id: nat): nat {
    if list == [] then 0 else (if list[0].id == id then 1 else 0) + Count(list[1..], id)
  }

  /** How many buffers of that id the activity can draw: its added and attached ones. */
  function Active(h: Heap, id: nat): nat {
    Count(h.lists.added, id) + Count(h.lists.attached, id)
  }

  /** What reading one message does to that number, and what reading all that are under way will. */
  function Read(m: Message, id: nat, n: nat): nat {
    match m
    case AddMessage(a) => if a == id then n + 1 else n
    case RemoveMessage(r) => if r == id && n > 0 then n - 1 else n
  }

  function Replay(channel: seq<Message>, id: nat, n: nat): nat {
    if channel == [] then n else Replay(channel[1..], id, Read(channel[0], id, n))
  }

  predicate Distinct(list: seq<nat>) {
    forall i, j :: 0 <= i < j < |list| ==> list[i] != list[j]
  }

  /** This session has announced `id` and not withdrawn it. */
  predicate Announced(s: Link, id: nat) {
    match s.main
    case Adding(a) => a == id || (id in s.registered && id !in s.stale)
    case Removing(r) => r != id && id in s.registered && id !in s.stale
    case _ => id in s.registered && id !in s.stale
  }

  /** The messages under way lead from what the activity has of `id` to whether it is announced. */
  predicate InStep(s: Link, id: nat) {
    Replay(s.channel, id, Active(s.activity, id)) == if Announced(s, id) then 1 else 0
  }

  predicate MainIsSane(s: Link) {
    match s.main
    case Registering(id) => id in s.live && id !in s.registered
    case Announcing(id) => id in s.live && id !in s.registered
    case Adding(id) => id in s.live && id !in s.registered
    case Unregistering(id) => id in s.live
    case Withdrawing(id) => id in s.live
    case Removing(id) => id in s.live
    case Freeing(id) => id in s.live && (s.open ==> id !in s.registered)
    case Connecting => true
    case Idle => true
  }

  /** The registry holds only live buffers, each once; a socket is open only while it is watched. */
  predicate Sound(s: Link) {
    && (forall id :: id in s.live ==> id < s.nextId)
    && Distinct(s.registered)
    && (forall id :: id in s.registered ==> id in s.live)
    && MainIsSane(s)
    && (s.open ==> s.watched && !s.emptying && (s.connected || s.main.Connecting?))
    && (s.open ==> forall id :: id in s.stale ==> id in s.registered)
  }

  ghost predicate Inv(s: Link) {
    Sound(s) && (s.open ==> forall id :: InStep(s, id))
  }

  lemma {:induction false} CountConcat(a: seq<Buffer>, b: seq<Buffer>, id: nat)
    ensures Count(a + b, id) == Count(a, id) + Count(b, id)
    decreases |a|
  {
    if a == [] {
      assert a + b == b;
    } else {
      assert (a + b)[1..] == a[1..] + b;
      CountConcat(a[1..], b, id);
    }
  }

  lemma CountWithout(list: seq<Buffer>, i: nat, id: nat)
    requires i < |list|
    ensures Count(list, id) == Count(Without(list, i), id) + if list[i].id == id then 1 else 0
  {
    var a, one, b := list[..i], [list[i]], list[i + 1..];
    assert list == a + (one + b) && one[1..] == [];
    CountConcat(a, one + b, id);
    CountConcat(one, b, id);
    CountConcat(a, b, id);
  }

  lemma {:induction false} Absent(list: seq<Buffer>, id: nat)
    requires forall i :: 0 <= i < |list| ==> list[i].id != id
    ensures Count(list, id) == 0
  {
    if list != [] {
      Absent(list[1..], id);
    }
  }

  lemma {:induction false} CountMoved(from: seq<Buffer>, onto: seq<Buffer>, id: nat)
    ensures Count(MoveAll(from, onto), id) == Count(from, id) + Count(onto, id)
    decreases |from|
  {
    if from != [] {
      CountMoved(from[1..], [from[0]] + onto, id);
      assert ([from[0]] + onto)[1..] == onto;
    }
  }

  /** Reading a message changes the activity's buffers as it should. */
  lemma AddIsRead(h: Heap, a: nat, id: nat)
    ensures Active(AddBuffer(h, a), id) == Read(AddMessage(a), id, Active(h, id))
  {
    assert AddBuffer(h, a).lists.added[1..] == h.lists.added;
  }

  lemma RemoveIsRead(h: Heap, r: nat, id: nat)
    ensures Active(RemoveBuffer(h, r), id) == Read(RemoveMessage(r), id, Active(h, id))
  {
    var l, after := h.lists, RemoveBuffer(h, r).lists;
    var i, j := BufferLists.FindById(l.added, r, 0), BufferLists.FindById(l.attached, r, 0);
    if i < |l.added| {
      CountWithout(l.added, i, id);
      assert after.added == Without(l.added, i) && after.attached == l.attached;
    } else {
      Absent(l.added, r);
      if j < |l.attached| {
        CountWithout(l.attached, j, id);
        assert after.added == l.added && after.attached == Without(l.attached, j);
      } else {
        Absent(l.attached, r);
      }
    }
  }

  /** Attaching, releasing and starting a session, in terms of the buffers that can be drawn. */
  lemma RenderKeepsActive(h: Heap, id: nat)
    ensures Active(AttachAll(h), id) == Active(h, id)
    ensures Active(ReleaseRemoved(h), id) == Active(h, id)
    ensures Active(RemoveAllBuffers(h), id) == 0
  {
    var l := h.lists;
    CountMoved(l.added, l.attached, id);
    FreeKeepsLists(h.(lists := l.(removed := [])), l.removed, Render);
    FreeKeepsLists(h.(lists := Lists([], [], MoveAll(l.attached, l.removed))), l.added, Gui);
  }

  lemma {:induction false} ReplaySent(channel: seq<Message>, m: Message, id: nat, n: nat)
    ensures Replay(channel + [m], id, n) == Read(m, id, Replay(channel, id, n))
    decreases |channel|
  {
    if channel == [] {
      assert [] + [m] == [m] && [m][1..] == [];
    } else {
      assert (channel + [m])[1..] == channel[1..] + [m];
      ReplaySent(channel[1..], m, id, Read(channel[0], id, n));
    }
  }

  lemma RemoveFromList(list: seq<nat>, id: nat)
    requires Distinct(list)
    ensures var r := Remove(list, id);
            Distinct(r) && id !in r && forall o :: o in r <==> o in list && o != id
  {
    var i := FirstIndex(list, id, 0);
    if i < |list| {
      assert list == list[..i] + [id] + list[i + 1..];
    }
  }

  /** An allocation takes a number that no live buffer has, also one that fails, and no later one gets it again. */
  lemma AllocationTakesANumber(s: Link, succeeds: bool)
    requires Sound(s)
    ensures var t := Allocate(s, succeeds);
            && t.nextId == s.nextId + 1 && s.nextId !in s.live
            && forall id :: id in t.live <==> id in s.live || (succeeds && id == s.nextId)
  {
  }

  /** What registering a buffer and destroying one do, without interruption: a buffer that is not listed is put in
      front and announced, if there is a connection; a destroyed one is withdrawn if it was listed and there is a
      connection, and in any case neither live nor listed any more. A message gets through if the socket is open. */
  lemma CallsDo(s: Link, id: nat)
    requires Sound(s)
    ensures var t := Register(s, id);
            t == if s.connected && id !in s.registered
                 then s.(registered := [id] + s.registered, channel := s.channel + if s.open then [AddMessage(id)] else [])
                 else s
    ensures var t := Destroy(s, id);
            && t == s.(registered := t.registered, live := t.live, channel := t.channel, stale := t.stale)
            && (forall o :: o in t.live <==> o in s.live && o != id)
            && (forall o :: o in t.registered <==> o in s.registered && o != id)
            && (forall o :: o in t.stale <==> o in s.stale && o != id)
            && t.channel == s.channel + if id in s.registered && s.connected && s.open then [RemoveMessage(id)] else []
  {
    RemoveFromList(s.registered, id);
    RemoveFromList(Remove(s.registered, id), id);
    assert s.channel + [] == s.channel;
  }

  // The steps of the main thread: registering, destroying and the rest.

  predicate InRegister(m: Main) {
    m.Registering? || m.Announcing? || m.Adding?
  }

  predicate InDestroy(m: Main) {
    m.Unregistering? || m.Withdrawing? || m.Removing? || m.Freeing?
  }

  lemma RegisterStaysSound(s: Link, op: Op)
    requires Sound(s) && InRegister(s.main)
    ensures Sound(MainNext(s, op))
  {
  }

  lemma DestroyStaysSound(s: Link, op: Op)
    requires Sound(s) && InDestroy(s.main)
    ensures Sound(MainNext(s, op))
  {
    RemoveFromList(s.registered, s.main.id);
  }

  lemma MainStaysSound(s: Link, op: Op)
    requires Sound(s)
    ensures Sound(MainNext(s, op))
  {
    if InRegister(s.main) {
      RegisterStaysSound(s, op);
    } else if InDestroy(s.main) {
      DestroyStaysSound(s, op);
    }
  }

  lemma RegisterStaysInStep(s: Link, op: Op, id: nat)
    requires Sound(s) && s.open && InStep(s, id) && InRegister(s.main)
    ensures InStep(MainNext(s, op), id)
  {
    if s.main.Announcing? {
      ReplaySent(s.channel, AddMessage(s.main.id), id, Active(s.activity, id));
    }
  }

  lemma DestroyStaysInStep(s: Link, op: Op, id: nat)
    requires Sound(s) && s.open && InStep(s, id) && InDestroy(s.main)
    ensures InStep(MainNext(s, op), id)
  {
    RemoveFromList(s.registered, s.main.id);
    if s.main.Withdrawing? {
      ReplaySent(s.channel, RemoveMessage(s.main.id), id, Active(s.activity, id));
    }
  }

  lemma BeginStaysInStep(s: Link, op: Op, id: nat)
    requires Sound(s) && s.main.Idle? && (s.open ==> InStep(s, id)) && Begin(s, op).open
    ensures InStep(Begin(s, op), id)
  {
    RenderKeepsActive(s.activity, id);
  }

  lemma ReadStaysInStep(s: Link, id: nat)
    requires s.channel != [] && InStep(s, id)
    ensures InStep(Next(s, Deliver), id)
  {
    match s.channel[0]
    case AddMessage(a) => AddIsRead(s.activity, a, id);
    case RemoveMessage(r) => RemoveIsRead(s.activity, r, id);
  }

  lemma StaysSound(s: Link, step: Step)
    requires Sound(s)
    ensures Sound(Next(s, step))
  {
    if step.MainStep? {
      MainStaysSound(s, step.op);
    }
  }

  lemma StaysInStep(s: Link, step: Step, id: nat)
    requires Sound(s) && (s.open ==> InStep(s, id)) && Next(s, step).open
    ensures InStep(Next(s, step), id)
  {
    match step
    case MainStep(op) =>
      if s.main.Idle? {
        BeginStaysInStep(s, op, id);
      } else if InRegister(s.main) {
        RegisterStaysInStep(s, op, id);
      } else if InDestroy(s.main) {
        DestroyStaysInStep(s, op, id);
      }
    case InputStep =>
    case Deliver => if s.channel != [] { ReadStaysInStep(s, id); }
    case Attach => RenderKeepsActive(s.activity, id);
    case Release => RenderKeepsActive(s.activity, id);
  }

  lemma {:induction false} InvRun(s: Link, steps: seq<Step>)
    requires Inv(s)
    ensures Inv(Run(s, steps))
    decreases |steps|
  {
    if steps != [] {
      var next := Next(s, steps[0]);
      StaysSound(s, steps[0]);
      forall id | next.open
        ensures InStep(next, id)
      {
        StaysInStep(s, steps[0], id);
      }
      InvRun(next, steps[1..]);
    }
  }

  /** The main thread is between two calls and no message is under way. */
  predicate Settled(s: Link) {
    s.open && s.main.Idle? && s.channel == []
  }

  /** In every interleaving of both threads of the server and of the activity: no freed buffer is registered
      and no id is registered twice; while the socket is open, the messages under way lead from what the
      activity has to exactly what this session announced; and when all is settled the activity has exactly
      the registered buffers that were not listed when the connection was opened. */
  lemma RegistryIsReplicated(steps: seq<Step>)
    ensures var s := Run(START, steps);
            && (forall id :: id in s.registered ==> id in s.live)
            && Distinct(s.registered)
            && (s.open ==> forall id :: InStep(s, id))
            && (Settled(s) ==>
                 forall id :: Active(s.activity, id) == if id in s.registered && id !in s.stale then 1 else 0)
  {
    InvRun(START, steps);
    var s := Run(START, steps);
    forall id | Settled(s)
      ensures Active(s.activity, id) == if id in s.registered && id !in s.stale then 1 else 0
    {
      assert InStep(s, id);
    }
  }

  /** The two ends agree exactly when nothing was listed when the connection was opened and still is. */
  lemma AgreesUnlessStale(steps: seq<Step>)
    ensures var s := Run(START, steps);
            Settled(s) ==>
              (s.stale == {} <==> forall id :: Active(s.activity, id) == if id in s.registered then 1 else 0)
  {
    InvRun(START, steps);
    RegistryIsReplicated(steps);
    var s := Run(START, steps);
    if Settled(s) && s.stale != {} {
      var id :| id in s.stale;
      assert id in s.registered && Active(s.activity, id) == 0;
    }
  }

  // ---- How something can be listed when a connection is opened

  /** The error branch has run and emptied the list. */
  predicate AfterError(s: Link) {
    !s.open && !s.watched && !s.emptying && s.registered == []
  }

  /** The main thread will not put anything on the list before the next connection: none is set, and it is not
      past the test for one. */
  predicate Clean(s: Link) {
    AfterError(s) && !s.connected && !s.main.Announcing? && !s.main.Adding? && !s.main.Connecting?
  }

  function Inputs(n: nat): seq<Step> {
    seq(n, i => InputStep)
  }

  lemma {:induction false} Empties(s: Link)
    requires s.emptying
    ensures Run(s, Inputs(|s.registered| + 1)) == s.(registered := [], emptying := false)
    decreases |s.registered|
  {
    var n := |s.registered|;
    assert Inputs(n + 1)[1..] == Inputs(n);
    if n > 0 {
      Empties(s.(registered := s.registered[1..]));
    } else {
      assert Run(s.(emptying := false), []) == s.(emptying := false);
    }
  }

  /** The error branch, when nothing comes between its steps: there is no connection, nothing is watched and nothing
      is listed afterwards, and the messages under way, the activity and the main thread are as they were. */
  lemma ErrorBranchCleans(s: Link)
    requires s.watched && !s.emptying
    ensures var t := Run(s, Inputs(|s.registered| + 2));
            && t == s.(watched := false, open := false, connected := false, registered := [])
            && (Clean(t) <==> !s.main.Announcing? && !s.main.Adding? && !s.main.Connecting?)
  {
    var t := LoseConnection(s);
    assert Inputs(|s.registered| + 2)[1..] == Inputs(|s.registered| + 1);
    Empties(t);
  }

  predicate NoConnection(steps: seq<Step>) {
    forall step :: step in steps ==> step != MainStep(ConnectOp)
  }

  /** When the main thread was not past its test for a connection as the error branch ended, the list stays
      empty until the next connection, so that one starts with nothing stale. */
  lemma {:induction false} CleanErrorStaysClean(s: Link, steps: seq<Step>)
    requires Clean(s) && NoConnection(steps)
    ensures Clean(Run(s, steps))
    ensures var r := Run(s, steps); r.main.Idle? ==> MainNext(r, ConnectOp).stale == {}
    decreases |steps|
  {
    if steps != [] {
      assert steps[0] in steps && forall step :: step in steps[1..] ==> step in steps;
      CleanErrorStaysClean(Next(s, steps[0]), steps[1..]);
    }
  }

  /** When it was past that test, its next steps alone leave a buffer listed, or a connection set whose socket
      is closed, and with such a connection whatever is registered is listed and not announced. */
  lemma OtherwiseSomethingIsLeft(s: Link)
    requires AfterError(s) && !Clean(s)
    ensures var once := MainNext(s, Rest);
            var twice := MainNext(once, Rest);
            && (s.main.Announcing? ==> twice.main.Idle? && s.main.id in twice.registered)
            && (s.main.Adding? ==> once.main.Idle? && s.main.id in once.registered)
            && (s.main.Connecting? ==> once.connected && !once.open)
            && (s.connected || s.main.Announcing? || s.main.Adding? || s.main.Connecting?)
    ensures s.connected ==> forall id: nat :: Register(s, id).registered == [id] && Register(s, id).channel == s.channel
  {
  }

  /** A buffer is registered while the error branch runs, and the next connection is opened. */
  function LateRegistration(id: nat): seq<Step> {
    [MainStep(RegisterOp(id)), MainStep(Rest), MainStep(Rest),
     InputStep, InputStep,
     MainStep(Rest), MainStep(ConnectOp), MainStep(Rest)]
  }

  /** A session that has just begun, with a buffer that can be registered. */
  predicate Begun(s: Link, id: nat) {
    && s.main.Idle? && s.connected && s.open && s.watched && !s.emptying
    && id in s.live && s.registered == [] && s.channel == [] && s.stale == {}
  }

  lemma {:induction false} RunThrough(states: seq<Link>, steps: seq<Step>)
    requires |states| == |steps| + 1
    requires forall i :: 0 <= i < |steps| ==> Next(states[i], steps[i]) == states[i + 1]
    ensures Run(states[0], steps) == states[|steps|]
    decreases |steps|
  {
    if steps != [] {
      assert forall i :: 0 <= i < |steps[1..]| ==> states[1..][i] == states[i + 1] && steps[1..][i] == steps[i + 1];
      RunThrough(states[1..], steps[1..]);
    }
  }

  /** The states it goes through: the message is written, the error branch runs, the buffer is listed, and the
      next connection is opened. */
  function LateStates(s: Link, id: nat): seq<Link> {
    var sent := s.(main := Adding(id), channel := [AddMessage(id)]);
    var lost := LoseConnection(sent);
    var late := lost.(emptying := false, main := Idle, registered := [id]);
    var next := late.(main := Connecting, watched := true, open := true, channel := [],
                      activity := RemoveAllBuffers(s.activity), stale := {id});
    [s, s.(main := Registering(id)), s.(main := Announcing(id)), sent, lost, lost.(emptying := false), late,
     next, next.(main := Idle, connected := true)]
  }

  lemma LateSteps(s: Link, id: nat, i: nat)
    requires Begun(s, id) && i < 8
    ensures Next(LateStates(s, id)[i], LateRegistration(id)[i]) == LateStates(s, id)[i + 1]
  {
    if i == 2 {
      assert s.channel + [AddMessage(id)] == [AddMessage(id)];
    } else if i == 5 {
      assert [id] + s.registered == [id];
    } else if i == 6 {
      assert (set o | o in [id]) == {id};
    }
  }

  /** In every session that begins, this interleaving leaves the buffer listed and the activity of the next
      session without it, and registering it again sends nothing. */
  lemma LateRegistrationIsNeverAnnounced(s: Link, id: nat)
    requires Begun(s, id)
    ensures var t := Run(s, LateRegistration(id));
            && Settled(t) && t.registered == [id] && (forall o :: Active(t.activity, o) == 0)
            && MainNext(t, RegisterOp(id)) == t
  {
    var states, steps := LateStates(s, id), LateRegistration(id);
    forall i | 0 <= i < 8
      ensures Next(states[i], steps[i]) == states[i + 1]
    {
      LateSteps(s, id, i);
    }
    RunThrough(states, steps);
    forall o
      ensures Active(RemoveAllBuffers(s.activity), o) == 0
    {
      RenderKeepsActive(s.activity, o);
    }
    assert FirstIndex([id], id, 0) == 0;
  }

  /** A session begins so whenever nothing is listed and the error of the last one is handled. */
  lemma SessionBegins(s: Link) returns (steps: seq<Step>)
    requires s.main.Idle? && !s.watched && !s.emptying && s.registered == []
    ensures steps == [MainStep(AllocateOp(true)), MainStep(ConnectOp), MainStep(Rest)]
    ensures Begun(Run(s, steps), s.nextId)
  {
    steps := [MainStep(AllocateOp(true)), MainStep(ConnectOp), MainStep(Rest)];
    var a := Allocate(s, true);
    var b := MainNext(a, ConnectOp);
    RunThrough([s, a, b, MainNext(b, Rest)], steps);
  }

  /** The first session of a server is one. */
  lemma FirstSessionBegins() returns (steps: seq<Step>)
    ensures Begun(Run(START, steps), START.nextId)
  {
    steps := SessionBegins(START);
  }

  // ---- Without interruption the steps are the calls

  function Alone(s: Link, n: nat): Link
    decreases n
  {
    if n == 0 then s else Alone(MainNext(s, Rest), n - 1)
  }

  lemma AloneOnce(s: Link, n: nat)
    requires n > 0
    ensures Alone(s, n) == Alone(MainNext(s, Rest), n - 1)
  {
  }

  lemma RegisterAlone(s: Link, id: nat) returns (n: nat)
    requires s.main.Idle? && id in s.live
    ensures Alone(Begin(s, RegisterOp(id)), n) == Register(s, id)
  {
    if Begin(s, RegisterOp(id)) == s {
      n := 0;
    } else {
      n := 3;
      var a := s.(main := Announcing(id));
      var b := Send(s, AddMessage(id)).(main := Adding(id));
      assert Alone(Begin(s, RegisterOp(id)), n) == Alone(a, n - 1) == Alone(b, n - 2) == Alone(Register(s, id), n - 3);
    }
  }

  lemma DestroyAlone(s: Link, id: nat) returns (n: nat)
    requires s.main.Idle? && id in s.live
    ensures Alone(Begin(s, DestroyOp(id)), n) == Destroy(s, id)
  {
    var b := Begin(s, DestroyOp(id));
    if b.main.Freeing? {
      n := 1;
      assert Alone(b, n) == Alone(Destroy(s, id), n - 1);
    } else if !s.connected {
      n := 2;
      assert Alone(b, n) == Alone(s.(main := Freeing(id)), n - 1) == Alone(Destroy(s, id), n - 2);
    } else {
      n := WithdrawAlone(s, id);
    }
  }

  lemma WithdrawAlone(s: Link, id: nat) returns (n: nat)
    requires s.main.Idle? && s.connected && FirstIndex(s.registered, id, 0) < |s.registered|
    ensures Alone(s.(main := Unregistering(id)), n) == Destroy(s, id)
  {
    n := 4;
    var sent := Send(s, RemoveMessage(id));
    AloneOnce(s.(main := Unregistering(id)), n);
    AloneOnce(s.(main := Withdrawing(id)), n - 1);
    AloneOnce(sent.(main := Removing(id)), n - 2);
    AloneOnce(Unlist(sent, id).(main := Freeing(id)), n - 3);
    assert Unlist(sent.(main := Removing(id)), id) == Unlist(sent, id).(main := Removing(id));
  }
}
