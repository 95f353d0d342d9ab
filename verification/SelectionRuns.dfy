/** What holds of the clipboard selection over whole runs of requests, announcements and texts. */
module SelectionRuns {
  import opened Common
  import opened Utf8
  import opened ClipboardText
  import opened Selection

  datatype Input =
    | Ask(request: Request, arrival: Arrival)
    | Announce
    | Arrive(text: Text, worlds: seq<World>)

  predicate Possible(b: Board, e: Input) {
    e.Arrive? ==> |b.queue| <= |e.worlds|
  }

  function Next(b: Board, e: Input, names: Names): Board
    requires Possible(b, e)
  {
    match e
    case Ask(r, a) => Requested(b, r, a, names)
    case Announce => Announced(b)
    case Arrive(text, worlds) => Received(b, text, names, worlds)
  }

  predicate ValidRun(run: seq<Input>, names: Names)
    decreases |run|, 0
  {
    run == [] ||
    (var n := |run| - 1; ValidRun(run[..n], names) && Possible(After(run[..n], names), run[n]))
  }

  /** The board after a run that starts with nothing cached and nobody waiting. */
  function After(run: seq<Input>, names: Names): Board
    requires ValidRun(run, names)
    decreases |run|, 1
  {
    if run == [] then Board(None, [], [], [], [])
    else
      var n := |run| - 1;
      Next(After(run[..n], names), run[n], names)
  }

  /** The request comes from a window that is there, names valid atoms, and is for the selection of this server. */
  predicate IsOurs(a: Arrival) {
    a.window == Success && a.validAtoms && a.ours
  }

  /** The requests of a run for the selection this server owns. */
  function Accepted(run: seq<Input>): seq<Request> {
    if run == [] then []
    else
      var n := |run| - 1;
      Accepted(run[..n]) + if run[n].Ask? && IsOurs(run[n].arrival) then [run[n].request] else []
  }

  /** Which requests are taken: one more is answered or waits exactly if the request is ours, and nothing at all
      changes otherwise; a missing window is an error before an invalid atom is, and the rest is passed on. */
  lemma OnlyOursAreTaken(b: Board, r: Request, a: Arrival, names: Names)
    ensures var t := Requested(b, r, a, names);
            && |t.sent| + |t.queue| == |b.sent| + |b.queue| + (if IsOurs(a) then 1 else 0)
            && (!IsOurs(a) ==> t == b)
    ensures match Handle(a)
            case Handled => IsOurs(a)
            case Failed(code) => if a.window == Success then !a.validAtoms && code == BadAtom else code == a.window
            case PassedOn => a.window == Success && a.validAtoms && !a.ours
  {
  }

  /** When a request is answered, waits or is refused, and the first reason that is given for a refusal. */
  lemma ConversionOutcome(r: Request, data: Option<Text>, names: Names, world: World)
    requires Distinct(names)
    ensures var c := Convert(r, data, names, world);
            var text := r.target in {XA_STRING, names.text, names.utf8String};
            var other := r.target in {names.targets, names.timestamp};
            var copies := data.Some? && r.target in {XA_STRING, names.text};
            && (c.Queued? <==> Reachable(world) && text && data.None? && world.memory)
            && (c.Answered? <==> && Reachable(world) && world.change == Success
                                 && (other || (text && data.Some? && (copies ==> world.memory))))
            && (c.Refused? ==> c.code == if world.selection != Success then world.selection
                                         else if world.window != Success then world.window
                                         else if !text && !other then BadMatch
                                         else if !other && (copies || data.None?) && !world.memory then BadAlloc
                                         else world.change)
  {
  }

  /** What an answer writes: on the window of the requestor, under the property it named or else under the target,
      the list of targets, the time of the last change, or the text in the form asked for. */
  lemma AnswerIsAsAsked(r: Request, data: Option<Text>, names: Names, world: World)
    requires Distinct(names) && Convert(r, data, names, world).Answered?
    ensures var w := Convert(r, data, names, world).write;
            && w.window == r.requestor && (w.name == r.property || (r.property == NONE && w.name == r.target))
            && (r.target == names.targets ==>
                  && w.kind == 4
                  && w.contents == Atoms([names.targets, names.timestamp, 31, names.text, names.utf8String]))
            && (r.target == names.timestamp ==> w.kind == 19 && w.contents == Time(world.lastChange))
            && (r.target == names.utf8String ==>
                  data.Some? && w.kind == names.utf8String && w.contents == Bytes(data.value))
            && (r.target in {31, names.text} ==>
                  && data.Some? && w.kind == 31 && w.contents.Bytes?
                  && var bytes, cps := w.contents.bytes, CodePoints(data.value);
                     && |bytes| == |cps|
                     && forall i :: 0 <= i < |cps| ==> bytes[i] == if cps[i] > 0xFF then 0x3F else cps[i])
  {
  }

  /** The last text of a run, unless a newer one was announced. */
  function Latest(run: seq<Input>): Option<Text> {
    if run == [] then None
    else
      var n := |run| - 1;
      match run[n]
      case Ask(_, _) => Latest(run[..n])
      case Announce => None
      case Arrive(text, _) => Some(text)
  }

  /** An answer given to a request: what it was converted from, and in which circumstances. */
  datatype Given = Given(request: Request, data: Option<Text>, world: World)

  function Result(g: Given, names: Names): Conversion {
    Convert(g.request, g.data, names, g.world)
  }

  /** The event that tells the requestor: its own property for success, None for failure. */
  function Told(g: Given, names: Names): Notify {
    var r := g.request;
    Notify(r.client, r.time, r.requestor, r.selection, r.target,
           if Result(g, names).Answered? then r.property else NONE)
  }

  function AllTold(log: seq<Given>, names: Names): seq<Notify> {
    if log == [] then [] else [Told(log[0], names)] + AllTold(log[1..], names)
  }

  function Wrote(g: Given, names: Names): seq<Property> {
    if Result(g, names).Answered? then [Result(g, names).write] else []
  }

  function AllWritten(log: seq<Given>, names: Names): seq<Property> {
    if log == [] then []
    else Wrote(log[0], names) + AllWritten(log[1..], names)
  }

  function Requests(log: seq<Given>): seq<Request> {
    if log == [] then [] else [log[0].request] + Requests(log[1..])
  }

  /** Every answer of a log is final and was made from `data`. */
  predicate MadeFrom(log: seq<Given>, data: Option<Text>, names: Names) {
    forall i :: 0 <= i < |log| ==> !Result(log[i], names).Queued? && log[i].data == data
  }

  lemma {:induction false} LogConcat(a: seq<Given>, b: seq<Given>, names: Names)
    ensures AllTold(a + b, names) == AllTold(a, names) + AllTold(b, names)
    ensures AllWritten(a + b, names) == AllWritten(a, names) + AllWritten(b, names)
    ensures Requests(a + b) == Requests(a) + Requests(b)
  {
    if a == [] {
      assert a + b == b;
    } else {
      var rest := a[1..];
      LogConcat(rest, b, names);
      var all := a + b;
      assert all[0] == a[0] && all[1..] == rest + b;
      Regroup(Wrote(a[0], names), AllWritten(rest, names), AllWritten(b, names));
      Regroup([Told(a[0], names)], AllTold(rest, names), AllTold(b, names));
      Regroup([a[0].request], Requests(rest), Requests(b));
    }
  }

  lemma {:induction false} LogSizes(log: seq<Given>, names: Names)
    ensures |AllTold(log, names)| == |Requests(log)| == |log|
  {
    if log != [] {
      LogSizes(log[1..], names);
    }
  }

  /** Draining answers the whole queue, each entry once, from its head on. */
  lemma {:induction false} DrainLog(b: Board, text: Text, names: Names, worlds: seq<World>) returns (log: seq<Given>)
    requires |b.queue| <= |worlds|
    ensures MadeFrom(log, Some(text), names) && Requests(log) == b.queue
    ensures var d := Drained(b, text, names, worlds);
            && d.queue == [] && d.cached == b.cached
            && d.sent == b.sent + AllTold(log, names) && d.written == b.written + AllWritten(log, names)
    decreases |b.queue|
  {
    if b.queue == [] {
      log := [];
    } else {
      var g := Given(b.queue[0], Some(text), worlds[0]);
      TextNeverQueues(g.request, text, names, g.world);
      var next := Converted(b.(queue := []), g.request, Result(g, names)).(queue := b.queue[1..]);
      var rest := DrainLog(next, text, names, worlds[1..]);
      log := [g] + rest;
      assert log[1..] == rest;
      var d := Drained(b, text, names, worlds);
      assert d == Drained(next, text, names, worlds[1..]);
      Regroup(b.sent, [Told(g, names)], AllTold(rest, names));
      Regroup(b.written, Wrote(g, names), AllWritten(rest, names));
    }
  }

  lemma AcceptedOne(e: Input)
    ensures Accepted([e]) == if e.Ask? && IsOurs(e.arrival) then [e.request] else []
  {
    var one := [e];
    assert one[..0] == [] && one[0] == e;
    assert Accepted([]) == [];
  }

  lemma AskLog(b: Board, r: Request, a: Arrival, names: Names) returns (log: seq<Given>)
    requires IsOurs(a)
    ensures var next := Requested(b, r, a, names);
            && MadeFrom(log, next.cached, names)
            && next.sent == b.sent + AllTold(log, names) && next.written == b.written + AllWritten(log, names)
            && multiset(b.queue) + multiset([r]) == multiset(Requests(log)) + multiset(next.queue)
  {
    var g := Given(r, b.cached, a.world);
    if Result(g, names).Queued? {
      log := [];
      assert multiset([r] + b.queue) == multiset([r]) + multiset(b.queue);
    } else {
      log := [g];
      assert log[1..] == [] && AllTold(log[1..], names) == [] && AllWritten(log[1..], names) == [];
      assert [Told(g, names)] + [] == [Told(g, names)] && Wrote(g, names) + [] == Wrote(g, names);
      assert AllTold(log, names) == [Told(g, names)] && AllWritten(log, names) == Wrote(g, names);
      assert Requests(log) == [r];
    }
  }

  /** One input answers some requests, all of them from the text in the cache after it; the others wait. */
  lemma StepLog(b: Board, e: Input, names: Names) returns (log: seq<Given>)
    requires Possible(b, e)
    ensures var next := Next(b, e, names);
            && MadeFrom(log, next.cached, names)
            && next.sent == b.sent + AllTold(log, names) && next.written == b.written + AllWritten(log, names)
            && multiset(b.queue) + multiset(Accepted([e])) == multiset(Requests(log)) + multiset(next.queue)
            && (e.Arrive? ==> next.queue == [])
  {
    AcceptedOne(e);
    if e.Arrive? {
      log := DrainLog(b.(cached := Some(e.text)), e.text, names, e.worlds);
    } else if e.Ask? && IsOurs(e.arrival) {
      log := AskLog(b, e.request, e.arrival, names);
    } else {
      log := [];
    }
  }

  lemma AcceptedLast(run: seq<Input>)
    requires run != []
    ensures Accepted(run) == Accepted(run[..|run| - 1]) + Accepted([run[|run| - 1]])
  {
    var one := [run[|run| - 1]];
    assert one[..0] == [];
  }

  lemma Balance(accepted: seq<Request>, one: seq<Request>, done: seq<Request>, now: seq<Request>,
                before: seq<Request>, after: seq<Request>)
    requires multiset(accepted) == multiset(done) + multiset(before)
    requires multiset(before) + multiset(one) == multiset(now) + multiset(after)
    ensures multiset(accepted + one) == multiset(done + now) + multiset(after)
  {
    assert multiset(accepted + one) == multiset(accepted) + multiset(one);
    assert multiset(done + now) == multiset(done) + multiset(now);
    assert multiset(done) + multiset(before) + multiset(one) == multiset(done) + (multiset(before) + multiset(one));
    assert multiset(done) + (multiset(now) + multiset(after)) == multiset(done) + multiset(now) + multiset(after);
  }

  lemma {:induction false} RequestsAreAnswered(run: seq<Input>, names: Names) returns (log: seq<Given>)
    requires ValidRun(run, names)
    ensures var b := After(run, names);
            && b.sent == AllTold(log, names) && b.written == AllWritten(log, names)
            && multiset(Accepted(run)) == multiset(Requests(log)) + multiset(b.queue)
    decreases |run|
  {
    if run == [] {
      log := [];
    } else {
      var n := |run| - 1;
      var b, e := After(run[..n], names), run[n];
      var earlier := RequestsAreAnswered(run[..n], names);
      var now := StepLog(b, e, names);
      log := earlier + now;
      LogConcat(earlier, now, names);
      AcceptedLast(run);
      Balance(Accepted(run[..n]), Accepted([e]), Requests(earlier), Requests(now), b.queue, Next(b, e, names).queue);
    }
  }

  /** Over any run the requests for the owned selection are those answered and those waiting. There is one
      event for every answered request, with its own property or None, and one property for every success. */
  lemma RequestsAreConserved(run: seq<Input>, names: Names) returns (log: seq<Given>)
    requires ValidRun(run, names)
    ensures var b := After(run, names);
            && b.sent == AllTold(log, names) && b.written == AllWritten(log, names)
            && multiset(Accepted(run)) == multiset(Requests(log)) + multiset(b.queue)
            && |Accepted(run)| == |b.sent| + |b.queue|
  {
    log := RequestsAreAnswered(run, names);
    LogSizes(log, names);
    var accepted, answered, waiting := Accepted(run), Requests(log), After(run, names).queue;
    assert |multiset(accepted)| == |multiset(answered)| + |multiset(waiting)|;
  }

  /** When a text has arrived nobody is left waiting. */
  lemma ArrivalAnswersEverybody(run: seq<Input>, names: Names) returns (log: seq<Given>)
    requires ValidRun(run, names) && run != [] && run[|run| - 1].Arrive?
    ensures var b := After(run, names);
            b.queue == [] && b.sent == AllTold(log, names) && multiset(Accepted(run)) == multiset(Requests(log))
  {
    var n := |run| - 1;
    log := RequestsAreConserved(run, names);
    var ignored := StepLog(After(run[..n], names), run[n], names);
  }

  lemma {:induction false} CacheIsLatest(run: seq<Input>, names: Names)
    requires ValidRun(run, names)
    ensures After(run, names).cached == Latest(run)
    decreases |run|
  {
    if run != [] {
      var n := |run| - 1;
      CacheIsLatest(run[..n], names);
      var ignored := StepLog(After(run[..n], names), run[n], names);
      if run[n].Arrive? {
        var b := After(run[..n], names).(cached := Some(run[n].text));
        var drained := DrainLog(b, run[n].text, names, run[n].worlds);
      }
    }
  }

  /** What the last input of a run served comes from the latest text, never from one that a newer announcement
      or a newer text replaced. */
  lemma ServedIsLatest(run: seq<Input>, names: Names) returns (log: seq<Given>)
    requires ValidRun(run, names) && run != []
    ensures var n := |run| - 1;
            && MadeFrom(log, Latest(run), names)
            && After(run, names).sent == After(run[..n], names).sent + AllTold(log, names)
            && After(run, names).written == After(run[..n], names).written + AllWritten(log, names)
  {
    var n := |run| - 1;
    log := StepLog(After(run[..n], names), run[n], names);
    CacheIsLatest(run, names);
  }

  /** With nothing cached, a request for text waits, or is refused when its window or selection is gone or
      memory is, and no text is written for anybody. */
  lemma AskedWithoutText(b: Board, r: Request, a: Arrival, names: Names) returns (w: seq<Property>)
    requires b.cached == None
    ensures var n := Requested(b, r, a, names);
            && n.cached == None && n.queue in {b.queue, [r] + b.queue}
            && n.written == b.written + w && forall p :: p in w ==> !p.contents.Bytes?
    ensures Distinct(names) && IsOurs(a) && DataTarget(r, names) ==>
              var n := Requested(b, r, a, names);
              && n.written == b.written
              && if Reachable(a.world) && a.world.memory
                 then n.queue == [r] + b.queue && n.asked == b.asked + [r] && n.sent == b.sent
                 else n.queue == b.queue && n.asked == b.asked && n.sent == b.sent + [Reply(r, NONE)]
  {
    var c := Convert(r, None, names, a.world);
    w := if IsOurs(a) && c.Answered? then [c.write] else [];
  }

  /** The request of an input that asks for text and can be put in the queue. */
  predicate AsksForText(e: Input, names: Names) {
    && e.Ask? && IsOurs(e.arrival) && DataTarget(e.request, names)
    && Reachable(e.arrival.world) && e.arrival.world.memory
  }

  predicate NoText(more: seq<Input>) {
    forall i :: 0 <= i < |more| ==> !more[i].Arrive?
  }

  /** The board after further inputs, none of them a text. */
  function Continued(b: Board, more: seq<Input>, names: Names): Board
    requires NoText(more)
    decreases |more|
  {
    if more == [] then b
    else
      var n := |more| - 1;
      Next(Continued(b, more[..n], names), more[n], names)
  }

  lemma {:induction false} NoTextIsWritten(b: Board, more: seq<Input>, names: Names) returns (w: seq<Property>)
    requires b.cached == None && NoText(more)
    ensures var t := Continued(b, more, names);
            t.cached == None && t.written == b.written + w && forall p :: p in w ==> !p.contents.Bytes?
    decreases |more|
  {
    w := [];
    if more != [] {
      var n := |more| - 1;
      var s, e := Continued(b, more[..n], names), more[n];
      w := NoTextIsWritten(b, more[..n], names);
      if e.Ask? {
        var last := AskedWithoutText(s, e.request, e.arrival, names);
        Regroup(b.written, w, last);
        w := w + last;
      }
    }
  }

  /** The queue grows at its head. */
  predicate WaitOn(before: seq<Request>, queue: seq<Request>) {
    |before| <= |queue| && queue[|queue| - |before|..] == before
  }

  lemma OneMoreWaits(b: Board, s: Board, e: Input, names: Names)
    requires Distinct(names) && s.cached == None && !e.Arrive? && WaitOn(b.queue, s.queue)
    ensures var q := Next(s, e, names).queue;
            && WaitOn(b.queue, q) && (forall x :: x in s.queue ==> x in q)
            && (AsksForText(e, names) ==> e.request in q)
  {
    if e.Ask? {
      var ignored := AskedWithoutText(s, e.request, e.arrival, names);
      var q := [e.request] + s.queue;
      assert q[|q| - |b.queue|..] == s.queue[|s.queue| - |b.queue|..];
    }
  }

  lemma {:induction false} EverybodyWaits(b: Board, more: seq<Input>, names: Names)
    requires Distinct(names) && b.cached == None && NoText(more)
    ensures var t := Continued(b, more, names);
            && WaitOn(b.queue, t.queue)
            && forall i :: 0 <= i < |more| && AsksForText(more[i], names) ==> more[i].request in t.queue
    decreases |more|
  {
    if more != [] {
      var n := |more| - 1;
      var before := more[..n];
      EverybodyWaits(b, before, names);
      var ignored := NoTextIsWritten(b, before, names);
      OneMoreWaits(b, Continued(b, before, names), more[n], names);
      assert forall i :: 0 <= i < n ==> before[i] == more[i];
    }
  }

  /** From an announcement on until a text arrives, whatever else happens, no text is written for anybody, neither
      the one before it nor another: who waited goes on waiting, and who asks for text waits as well. */
  lemma AnnouncedTextIsNotServed(b: Board, more: seq<Input>, names: Names) returns (w: seq<Property>)
    requires Distinct(names) && NoText(more)
    ensures var t := Continued(Announced(b), more, names);
            && t.cached == None
            && t.written == b.written + w && (forall p :: p in w ==> !p.contents.Bytes?)
            && WaitOn(b.queue, t.queue)
            && forall i :: 0 <= i < |more| && AsksForText(more[i], names) ==> more[i].request in t.queue
  {
    w := NoTextIsWritten(Announced(b), more, names);
    EverybodyWaits(Announced(b), more, names);
  }

  /** Those who wait are the last for whom Android was asked, in the same order. */
  predicate AskedFor(b: Board) {
    && |b.queue| <= |b.asked|
    && forall i :: 0 <= i < |b.queue| ==> b.queue[i] == b.asked[|b.asked| - 1 - i]
  }

  /** Only requests for text wait, each with a request to Android of its own, and none while there is a text. */
  predicate WaitForText(b: Board, names: Names) {
    && (forall i :: 0 <= i < |b.queue| ==> DataTarget(b.queue[i], names))
    && AskedFor(b)
    && (b.cached.Some? ==> b.queue == [])
  }

  lemma OneMoreAsked(b: Board, r: Request)
    requires AskedFor(b)
    ensures AskedFor(b.(queue := [r] + b.queue, asked := b.asked + [r]))
  {
  }

  lemma AskingWaitsForText(b: Board, r: Request, a: Arrival, names: Names)
    requires WaitForText(b, names)
    ensures WaitForText(Requested(b, r, a, names), names)
  {
    if IsOurs(a) {
      var c := Convert(r, b.cached, names, a.world);
      if b.cached.Some? {
        TextNeverQueues(r, b.cached.value, names, a.world);
      } else if c.Queued? {
        OneMoreAsked(b, r);
        assert Requested(b, r, a, names) == b.(queue := [r] + b.queue, asked := b.asked + [r]);
      }
    }
  }

  /** Over any run, nobody waits for anything but text, everybody who waits has a request to Android of their own,
      and nobody waits while there is a text. */
  lemma {:induction false} OnlyTextIsWaitedFor(run: seq<Input>, names: Names)
    requires ValidRun(run, names)
    ensures WaitForText(After(run, names), names)
    decreases |run|
  {
    if run != [] {
      var n := |run| - 1;
      var b := After(run[..n], names);
      OnlyTextIsWaitedFor(run[..n], names);
      match run[n]
      case Ask(r, a) => AskingWaitsForText(b, r, a, names);
      case Announce =>
      case Arrive(_, _) => var ignored := StepLog(b, run[n], names);
    }
  }

  /** A waiting request whose window and selection are still there, and whose property can be changed, gets the
      text: as it is for UTF8_STRING, and in Latin-1 for STRING and TEXT. */
  lemma WaitingGetsTheText(r: Request, text: Text, names: Names, world: World)
    requires Distinct(names) && DataTarget(r, names)
    requires Reachable(world) && world.change.Success? && world.memory
    ensures var c := Convert(r, Some(text), names, world);
            && c.Answered? && c.write.window == r.requestor && c.write.name == RealProperty(r)
            && (r.target == names.utf8String ==> c.write.contents == Bytes(text))
            && (r.target != names.utf8String ==>
                  c.write.contents.Bytes? && |c.write.contents.bytes| == |CodePoints(text)|)
            && forall s: seq<Byte> :: r.target != names.utf8String && text == Utf8OfLatin1(s) ==>
                 c.write.contents == Bytes(s)
  {
    forall s: seq<Byte> | text == Utf8OfLatin1(s) ensures Latin1Of(CodePoints(text)) == s {
      Latin1RoundTrip(s);
    }
  }

  /** The event tells success from failure exactly when the request names a property: a requestor that leaves
      the property to the owner is told None even where its data was written. */
  lemma SuccessIsTold(g: Given, names: Names)
    requires Result(g, names).Answered?
    ensures Told(g, names) != Reply(g.request, NONE) <==> g.request.property != NONE
    ensures Result(g, names).write.name == RealProperty(g.request)
  {
  }
}
