/** The clipboard selection while this server owns it: requests for it are answered from the cached text, or
    wait until the text arrives (section 2.2 of the Inter-Client Communication Conventions Manual). */
module Selection {
  import opened Common
  import opened Utf8
  import opened ClipboardText

  type Atom = nat

  const NONE: Atom := 0

  const XA_ATOM: Atom := 4

  const XA_INTEGER: Atom := 19

  const XA_STRING: Atom := 31

  /** The atoms made at start. "STRING" is the predefined one. */
  datatype Names = Names(targets: Atom, timestamp: Atom, text: Atom, utf8String: Atom)

  predicate Distinct(names: Names) {
    && names.targets !in {NONE, names.timestamp, XA_STRING, names.text, names.utf8String}
    && names.timestamp !in {NONE, XA_STRING, names.text, names.utf8String}
    && names.text !in {NONE, XA_STRING, names.utf8String}
    && names.utf8String !in {NONE, XA_STRING}
  }

  /** What Android sends: UTF-8, up to its first NUL, in an array of Java bytes. */
  type Text = s: seq<Byte> | WellFormed(s) && 0 !in s && |s| <= 0x7FFF_FFFF witness []

  datatype Request = Request(client: nat, selection: Atom, target: Atom, property: Atom, requestor: nat, time: nat)

  datatype Code = Success | BadWindow | BadAtom | BadMatch | BadAccess | BadAlloc

  /** What the rest of the server answers while one request is converted. */
  datatype World = World(selection: Code, window: Code, change: Code, memory: bool, lastChange: nat)

  datatype Contents = Atoms(atoms: seq<Atom>) | Time(milliseconds: nat) | Bytes(bytes: seq<Byte>)

  datatype Property = Property(window: nat, name: Atom, kind: Atom, contents: Contents)

  datatype Notify =
    Notify(client: nat, time: nat, requestor: nat, selection: Atom, target: Atom, property: Atom)

  datatype Conversion = Answered(write: Property) | Queued | Refused(code: Code)

  /** The globals of the clipboard, and what went out: events to clients, properties, and the requests for which
      Android was asked, oldest first. The queue is newest first. */
  datatype Board = Board(cached: Option<Text>, queue: seq<Request>,
                         sent: seq<Notify>, written: seq<Property>, asked: seq<Request>)

  function RealProperty(r: Request): Atom {
    if r.property != NONE then r.property else r.target
  }

  predicate DataTarget(r: Request, names: Names) {
    r.target == XA_STRING || r.target == names.text || r.target == names.utf8String
  }

  /** What a request asks for, by its target; None for a target without a form. */
  function Offer(r: Request, text: Text, names: Names, lastChange: nat): Option<Property> {
    var put := (kind: Atom, contents: Contents) =>
                 Some(Property(r.requestor, RealProperty(r), kind, contents));
    if r.target == names.targets then
      put(XA_ATOM, Atoms([names.targets, names.timestamp, XA_STRING, names.text, names.utf8String]))
    else if r.target == names.timestamp then put(XA_INTEGER, Time(lastChange))
    else if r.target == XA_STRING || r.target == names.text then put(XA_STRING, Bytes(Latin1Of(CodePoints(text))))
    else if r.target == names.utf8String then put(names.utf8String, Bytes(text))
    else None
  }

  predicate Reachable(world: World) {
    world.selection == Success && world.window == Success
  }

  function Convert(r: Request, data: Option<Text>, names: Names, world: World): Conversion {
    if !world.selection.Success? then Refused(world.selection)
    else if !world.window.Success? then Refused(world.window)
    else if data.None? && r.target != names.targets && r.target != names.timestamp then
      if !DataTarget(r, names) then Refused(BadMatch)
      else if !world.memory then Refused(BadAlloc)
      else Queued
    else
      var offer := Offer(r, if data.Some? then data.value else [], names, world.lastChange);
      if offer.None? then Refused(BadMatch)
      else if (r.target == XA_STRING || r.target == names.text) && !world.memory then Refused(BadAlloc)
      else if !world.change.Success? then Refused(world.change)
      else Answered(offer.value)
  }

  function Reply(r: Request, property: Atom): Notify {
    Notify(r.client, r.time, r.requestor, r.selection, r.target, property)
  }

  /** The board after a request, converted with `data`: answered, put in the queue, or refused with None. */
  function Converted(b: Board, r: Request, c: Conversion): Board {
    match c
    case Answered(write) => b.(sent := b.sent + [Reply(r, r.property)], written := b.written + [write])
    case Queued => b.(queue := [r] + b.queue, asked := b.asked + [r])
    case Refused(_) => b.(sent := b.sent + [Reply(r, NONE)])
  }

  /** What the dispatcher finds before it knows whose selection it is. */
  datatype Arrival = Arrival(window: Code, validAtoms: bool, ours: bool, world: World)

  datatype Handling = Handled | Failed(code: Code) | PassedOn

  function Handle(a: Arrival): Handling {
    if !a.window.Success? then Failed(a.window)
    else if !a.validAtoms then Failed(BadAtom)
    else if a.ours then Handled
    else PassedOn
  }

  function Requested(b: Board, r: Request, a: Arrival, names: Names): Board {
    if Handle(a) == Handled then Converted(b, r, Convert(r, b.cached, names, a.world)) else b
  }

  function Announced(b: Board): Board {
    b.(cached := None)
  }

  /** The queue answered with `text` from its head on. */
  function Drained(b: Board, text: Text, names: Names, worlds: seq<World>): Board
    requires |b.queue| <= |worlds|
    decreases |b.queue|
  {
    if b.queue == [] then b
    else
      var r := b.queue[0];
      var next := Converted(b.(queue := []), r, Convert(r, Some(text), names, worlds[0]));
      Drained(next.(queue := b.queue[1..]), text, names, worlds[1..])
  }

  function Received(b: Board, text: Text, names: Names, worlds: seq<World>): Board
    requires |b.queue| <= |worlds|
  {
    Drained(b.(cached := Some(text)), text, names, worlds)
  }

  /** With a text at hand a request is never put in the queue. */
  lemma TextNeverQueues(r: Request, text: Text, names: Names, world: World)
    ensures !Convert(r, Some(text), names, world).Queued?
  {
  }

  class SelectionOwner {
    const names: Names
    var cachedData: Option<Text>
    var queue: seq<Request>
    var sent: seq<Notify>
    var written: seq<Property>
    var asked: seq<Request>

    constructor (names: Names)
      ensures this.names == names && Model() == Board(None, [], [], [], [])
    {
      this.names := names;
      cachedData, queue, sent, written, asked := None, [], [], [], [];
    }

    ghost function Model(): Board
      reads this
    {
      Board(cachedData, queue, sent, written, asked)
    }

    method WriteEvent(r: Request, property: Atom)
      modifies this`sent
      ensures sent == old(sent) + [Reply(r, property)]
    {
      sent := sent + [Notify(r.client, r.time, r.requestor, r.selection, r.target, property)];
    }

    method ChangeProperty(p: Property, world: World) returns (rc: Code)
      modifies this`written
      ensures rc == world.change && written == old(written) + if rc.Success? then [p] else []
    {
      rc := world.change;
      if rc.Success? {
        written := written + [p];
      }
    }

    /** A refusal is left to the caller to answer. */
    method ConvertSelection(r: Request, data: Option<Text>, world: World) returns (rc: Code)
      requires Distinct(names)
      modifies this
      ensures var c := Convert(r, data, names, world);
              && rc == (if c.Refused? then c.code else Success)
              && Model() == if c.Refused? then old(Model()) else Converted(old(Model()), r, c)
    {
      if !world.selection.Success? {
        return world.selection;
      }
      if !world.window.Success? {
        return world.window;
      }
      var realProperty := if r.property != NONE then r.property else r.target;
      if r.target == names.targets {
        var list := [names.targets, names.timestamp, XA_STRING, names.text, names.utf8String];
        rc := ChangeProperty(Property(r.requestor, realProperty, XA_ATOM, Atoms(list)), world);
        if !rc.Success? {
          return rc;
        }
      } else if r.target == names.timestamp {
        rc := ChangeProperty(Property(r.requestor, realProperty, XA_INTEGER, Time(world.lastChange)), world);
        if !rc.Success? {
          return rc;
        }
      } else if data.None? {
        if r.target != XA_STRING && r.target != names.text && r.target != names.utf8String {
          return BadMatch;
        }
        if !world.memory {
          return BadAlloc;
        }
        queue := [r] + queue;
        asked := asked + [r];
        return Success;
      } else if r.target == XA_STRING || r.target == names.text {
        var latin1 := Latin1String(data.value);
        if !world.memory {
          return BadAlloc;
        }
        rc := ChangeProperty(Property(r.requestor, realProperty, XA_STRING, Bytes(latin1)), world);
        if !rc.Success? {
          return rc;
        }
      } else if r.target == names.utf8String {
        rc := ChangeProperty(Property(r.requestor, realProperty, names.utf8String, Bytes(data.value)), world);
        if !rc.Success? {
          return rc;
        }
      } else {
        return BadMatch;
      }
      WriteEvent(r, r.property);
      return Success;
    }

    /** The text in Latin-1, up to the terminator. */
    method Latin1String(text: Text) returns (s: seq<Byte>)
      ensures s == Latin1Of(CodePoints(text))
    {
      TextIsMet(text);
      Latin1IsWhole(text);
      var latin1 := Utf8ToLatin1(text + [0]);
      s := CString(latin1.value[..]);
    }

    method ProcConvertSelection(r: Request, a: Arrival) returns (h: Handling)
      requires Distinct(names)
      modifies this
      ensures h == Handle(a) && Model() == Requested(old(Model()), r, a, names)
    {
      if !a.window.Success? {
        return Failed(a.window);
      }
      if !a.validAtoms {
        return Failed(BadAtom);
      }
      if a.ours {
        var rc := ConvertSelection(r, cachedData, a.world);
        if !rc.Success? {
          WriteEvent(r, NONE);
        }
        return Handled;
      }
      return PassedOn;
    }

    method HandleClipboardAnnounce()
      modifies this
      ensures Model() == Announced(old(Model()))
    {
      cachedData := None;
    }

    /** `worlds` is what the server answers for the entries of the queue, the head first. */
    method HandleClipboardData(data: Text, worlds: seq<World>)
      requires Distinct(names) && |queue| <= |worlds|
      modifies this
      ensures Model() == Received(old(Model()), data, names, worlds)
    {
      cachedData := Some(data);
      var served := 0;
      while queue != []
        invariant cachedData == Some(data) && served + |queue| <= |worlds|
        invariant Drained(Model(), data, names, worlds[served..]) == Received(old(Model()), data, names, worlds)
        decreases |queue|
      {
        var r := queue[0];
        ghost var before := Model();
        TextNeverQueues(r, data, names, worlds[served]);
        var rc := ConvertSelection(r, cachedData, worlds[served]);
        if !rc.Success? {
          WriteEvent(r, NONE);
        }
        queue := queue[1..];
        assert worlds[served..][0] == worlds[served] && worlds[served..][1..] == worlds[served + 1..];
        served := served + 1;
      }
    }
  }
}
