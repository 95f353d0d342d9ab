/** The queue of Present events that wait for a vertical blank. */
module Vblanks {
  import opened Common

  datatype Vblank = Vblank(id: nat, msc: nat)

  /** An event that was notified when the counter stood at `at`. */
  datatype Notice = Notice(event: Vblank, at: nat)

  /** The newest entry is at the front of the queue. */
  datatype Screen = Screen(queue: seq<Vblank>, msc: nat, notified: seq<Notice>, aborted: seq<Vblank>)

  function Due(queue: seq<Vblank>, msc: nat): seq<Vblank> {
    if queue == [] then [] else (if queue[0].msc <= msc then [queue[0]] else []) + Due(queue[1..], msc)
  }

  function Later(queue: seq<Vblank>, msc: nat): seq<Vblank> {
    if queue == [] then [] else (if queue[0].msc <= msc then [] else [queue[0]]) + Later(queue[1..], msc)
  }

  function Notices(events: seq<Vblank>, at: nat): seq<Notice> {
    if events == [] then [] else [Notice(events[0], at)] + Notices(events[1..], at)
  }

  function IndexOfId(queue: seq<Vblank>, id: nat, i: nat): (r: nat)
    requires i <= |queue|
    ensures i <= r <= |queue|
    ensures r < |queue| ==> queue[r].id == id
    ensures forall j :: i <= j < r ==> queue[j].id != id
  {
    FirstWith(queue, (v: Vblank) => v.id, id, i)
  }

  function Queue(s: Screen, id: nat, msc: nat): Screen {
    s.(queue := [Vblank(id, msc)] + s.queue)
  }

  function Abort(s: Screen, id: nat): Screen {
    var i := IndexOfId(s.queue, id, 0);
    if i < |s.queue| then s.(queue := s.queue[..i] + s.queue[i + 1..], aborted := s.aborted + [s.queue[i]]) else s
  }

  /** Notifies what is due, in the order of the queue; the rest stays in its order. */
  function Perform(s: Screen): Screen {
    s.(queue := Later(s.queue, s.msc), notified := s.notified + Notices(Due(s.queue, s.msc), s.msc))
  }

  /** A vsync: the counter advances first. */
  function Tick(s: Screen): Screen {
    Perform(s.(msc := s.msc + 1))
  }

  class VblankQueue {
    var s: Screen

    constructor ()
      ensures s == Screen([], 0, [], [])
    {
      s := Screen([], 0, [], []);
    }

    method QueueVblank(id: nat, msc: nat)
      modifies this
      ensures s == Queue(old(s), id, msc)
    {
      s := s.(queue := [Vblank(id, msc)] + s.queue);
    }

    method AbortVblank(id: nat)
      modifies this
      ensures s == Abort(old(s), id)
    {
      var i := 0;
      while i < |s.queue|
        invariant i <= |s.queue| && s == old(s)
        invariant IndexOfId(s.queue, id, i) == IndexOfId(s.queue, id, 0)
      {
        if s.queue[i].id == id {
          s := s.(queue := s.queue[..i] + s.queue[i + 1..], aborted := s.aborted + [s.queue[i]]);
          break;
        }
        i := i + 1;
      }
    }

    /** The list is edited while it is walked: `i` entries were passed over and stay. */
    method PerformVblanks()
      modifies this
      ensures s == Perform(old(s))
    {
      var i := 0;
      ghost var q, n, now := s.queue, s.notified, s.msc;
      while i < |s.queue|
        invariant i <= |s.queue| && s == old(s).(queue := s.queue, notified := s.notified)
        invariant s.queue[..i] + Later(s.queue[i..], now) == Later(q, now)
        invariant s.notified + Notices(Due(s.queue[i..], now), now) == n + Notices(Due(q, now), now)
        decreases |s.queue| - i
      {
        var v := s.queue[i];
        ghost var passed, rest := s.queue[..i], s.queue[i + 1..];
        assert s.queue[i..] == [v] + rest;
        WalkOn(passed, s.notified, v, rest, now);
        if v.msc <= s.msc {
          s := s.(notified := s.notified + [Notice(v, s.msc)]);
          s := s.(queue := s.queue[..i] + s.queue[i + 1..]);
          assert s.queue[i..] == rest && s.queue[..i] == passed;
        } else {
          i := i + 1;
          assert s.queue[..i] == passed + [v];
        }
      }
      assert s.queue[..i] == s.queue && s.queue[i..] == [];
    }

    method Redraw()
      modifies this
      ensures s == Tick(old(s))
    {
      s := s.(msc := s.msc + 1);
      PerformVblanks();
    }
  }

  lemma WalkOn(passed: seq<Vblank>, notified: seq<Notice>, v: Vblank, rest: seq<Vblank>, now: nat)
    ensures passed + Later([v] + rest, now) == (if v.msc <= now then passed else passed + [v]) + Later(rest, now)
    ensures notified + Notices(Due([v] + rest, now), now) ==
            (if v.msc <= now then notified + [Notice(v, now)] else notified) + Notices(Due(rest, now), now)
  {
    var q := [v] + rest;
    assert q[1..] == rest;
    if v.msc <= now {
      assert Due(q, now) == [v] + Due(rest, now);
      assert Due(q, now)[1..] == Due(rest, now);
    } else {
      assert Due(q, now) == Due(rest, now);
    }
  }

  // ---- Runs

  datatype Op = QueueOp(id: nat, msc: nat) | AbortOp(id: nat) | TickOp | DrainOp

  function Apply(s: Screen, op: Op): Screen {
    match op
    case QueueOp(id, msc) => Queue(s, id, msc)
    case AbortOp(id) => Abort(s, id)
    case TickOp => Tick(s)
    case DrainOp => Perform(s)      // the screen is resized
  }

  function Run(s: Screen, ops: seq<Op>): Screen
    decreases |ops|
  {
    if ops == [] then s else Run(Apply(s, ops[0]), ops[1..])
  }

  /** The events that were queued, in order. */
  function Queued(ops: seq<Op>): seq<Vblank> {
    if ops == [] then []
    else QueuedBy(ops[0]) + Queued(ops[1..])
  }

  function Events(notices: seq<Notice>): seq<Vblank> {
    if notices == [] then [] else [notices[0].event] + Events(notices[1..])
  }

  predicate NeverEarly(notices: seq<Notice>) {
    forall i :: 0 <= i < |notices| ==> notices[i].event.msc <= notices[i].at
  }

  /** How often `v` is pending, was notified or was aborted. */
  function Accounted(s: Screen, v: Vblank): nat {
    multiset(s.queue)[v] + multiset(Events(s.notified))[v] + multiset(s.aborted)[v]
  }

  lemma CountConcat(a: seq<Vblank>, b: seq<Vblank>, v: Vblank)
    ensures multiset(a + b)[v] == multiset(a)[v] + multiset(b)[v]
  {
  }

  lemma {:induction false} SplitByTime(queue: seq<Vblank>, msc: nat)
    ensures forall v :: v in Due(queue, msc) ==> v.msc <= msc
    ensures forall v :: v in Later(queue, msc) ==> v.msc > msc
    decreases |queue|
  {
    if queue != [] {
      SplitByTime(queue[1..], msc);
    }
  }

  lemma {:induction false} SplitCounts(queue: seq<Vblank>, msc: nat, v: Vblank)
    ensures multiset(Due(queue, msc))[v] + multiset(Later(queue, msc))[v] == multiset(queue)[v]
    decreases |queue|
  {
    if queue != [] {
      var first, rest := [queue[0]], queue[1..];
      SplitCounts(rest, msc, v);
      assert queue == first + rest;
      CountConcat(first, rest, v);
      CountConcat(first, Due(rest, msc), v);
      CountConcat(first, Later(rest, msc), v);
    }
  }

  lemma {:induction false} NoticesEvents(events: seq<Vblank>, at: nat)
    ensures Events(Notices(events, at)) == events
    ensures |Notices(events, at)| == |events|
    ensures forall i :: 0 <= i < |events| ==> Notices(events, at)[i] == Notice(events[i], at)
    decreases |events|
  {
    if events != [] {
      NoticesEvents(events[1..], at);
      assert Notices(events, at)[1..] == Notices(events[1..], at);
    }
  }

  lemma {:induction false} EventsConcat(a: seq<Notice>, b: seq<Notice>)
    ensures Events(a + b) == Events(a) + Events(b)
    decreases |a|
  {
    if a == [] {
      assert a + b == b;
    } else {
      assert (a + b)[1..] == a[1..] + b;
      EventsConcat(a[1..], b);
    }
  }

  lemma PerformAccounts(s: Screen, v: Vblank)
    ensures Accounted(Perform(s), v) == Accounted(s, v)
  {
    var due := Due(s.queue, s.msc);
    SplitCounts(s.queue, s.msc, v);
    NoticesEvents(due, s.msc);
    EventsConcat(s.notified, Notices(due, s.msc));
    CountConcat(Events(s.notified), due, v);
  }

  lemma PerformInTime(s: Screen)
    requires NeverEarly(s.notified)
    ensures NeverEarly(Perform(s).notified)
  {
    SplitByTime(s.queue, s.msc);
    NoticesInTime(Due(s.queue, s.msc), s.msc);
  }

  /** Notifying loses and invents nothing, notifies nothing early and leaves nothing that is due. */
  lemma PerformIsExact(s: Screen)
    requires NeverEarly(s.notified)
    ensures var r := Perform(s);
            && (forall v :: Accounted(r, v) == Accounted(s, v))
            && NeverEarly(r.notified)
            && forall v :: v in r.queue ==> v.msc > r.msc
  {
    forall v
      ensures Accounted(Perform(s), v) == Accounted(s, v)
    {
      PerformAccounts(s, v);
    }
    PerformInTime(s);
    SplitByTime(s.queue, s.msc);
  }

  lemma {:induction false} NoticesInTime(events: seq<Vblank>, at: nat)
    requires forall v :: v in events ==> v.msc <= at
    ensures NeverEarly(Notices(events, at))
    decreases |events|
  {
    if events != [] {
      NoticesInTime(events[1..], at);
    }
  }

  function QueuedBy(op: Op): seq<Vblank> {
    if op.QueueOp? then [Vblank(op.id, op.msc)] else []
  }

  lemma AbortAccounts(s: Screen, id: nat, v: Vblank)
    ensures Accounted(Abort(s, id), v) == Accounted(s, v)
  {
    var i := IndexOfId(s.queue, id, 0);
    if i < |s.queue| {
      var a, one, b := s.queue[..i], [s.queue[i]], s.queue[i + 1..];
      assert s.queue == a + one + b;
      CountConcat(a + one, b, v);
      CountConcat(a, one, v);
      CountConcat(a, b, v);
      CountConcat(s.aborted, one, v);
    }
  }

  lemma QueueAccounts(s: Screen, id: nat, msc: nat, v: Vblank)
    ensures Accounted(Queue(s, id, msc), v) == Accounted(s, v) + multiset([Vblank(id, msc)])[v]
  {
    CountConcat([Vblank(id, msc)], s.queue, v);
  }

  lemma TickAccounts(s: Screen, v: Vblank)
    requires NeverEarly(s.notified)
    ensures Accounted(Tick(s), v) == Accounted(s, v) && NeverEarly(Tick(s).notified)
  {
    var t := Screen(s.queue, s.msc + 1, s.notified, s.aborted);
    assert Tick(s) == Perform(t);
    assert Accounted(t, v) == Accounted(s, v);
    PerformAccounts(t, v);
    PerformInTime(t);
  }

  lemma ApplyAccounts(s: Screen, op: Op, v: Vblank)
    requires NeverEarly(s.notified)
    ensures Accounted(Apply(s, op), v) == Accounted(s, v) + multiset(QueuedBy(op))[v]
    ensures NeverEarly(Apply(s, op).notified)
  {
    match op
    case QueueOp(id, msc) => QueueAccounts(s, id, msc, v);
    case AbortOp(id) => AbortAccounts(s, id, v);
    case TickOp => TickAccounts(s, v);
    case DrainOp => PerformAccounts(s, v); PerformInTime(s);
  }

  lemma {:induction false} RunAccounts(s: Screen, ops: seq<Op>, v: Vblank)
    requires NeverEarly(s.notified)
    ensures Accounted(Run(s, ops), v) == Accounted(s, v) + multiset(Queued(ops))[v]
    ensures NeverEarly(Run(s, ops).notified)
    decreases |ops|
  {
    if ops != [] {
      ApplyAccounts(s, ops[0], v);
      RunAccounts(Apply(s, ops[0]), ops[1..], v);
      CountConcat(QueuedBy(ops[0]), Queued(ops[1..]), v);
    }
  }

  predicate DistinctIds(events: seq<Vblank>) {
    forall i, j :: 0 <= i < j < |events| ==> events[i].id != events[j].id
  }

  lemma {:induction false} OnceEach(events: seq<Vblank>, v: Vblank)
    requires DistinctIds(events)
    ensures multiset(events)[v] == if v in events then 1 else 0
    decreases |events|
  {
    if events != [] {
      assert events == [events[0]] + events[1..];
      OnceEach(events[1..], v);
    }
  }

  /** Right after a vsync nothing that is due is pending. */
  lemma TickLeavesNothingDue(s: Screen)
    ensures forall v :: v in Tick(s).queue ==> v.msc > Tick(s).msc
  {
    SplitByTime(s.queue, s.msc + 1);
  }

  const NO_EVENTS := Screen([], 0, [], [])

  /** Over any run with distinct ids, each queued event is either still pending, or was notified exactly
      once and not before its time, or was aborted exactly once; no other event ever is. */
  lemma FiresExactlyOnce(ops: seq<Op>, v: Vblank)
    requires DistinctIds(Queued(ops))
    ensures var r := Run(NO_EVENTS, ops);
            && Accounted(r, v) == (if v in Queued(ops) then 1 else 0)
            && NeverEarly(r.notified)
  {
    RunAccounts(NO_EVENTS, ops, v);
    OnceEach(Queued(ops), v);
  }

  // ---- What each operation does

  /** Aborting takes the first event of that id out of the queue, lists it as aborted and does nothing else; with
      no event of that id it does nothing. */
  lemma AbortDoes(s: Screen, id: nat)
    ensures forall i :: 0 <= i < |s.queue| && s.queue[i].id == id && (forall j :: 0 <= j < i ==> s.queue[j].id != id) ==>
              Abort(s, id) == Screen(s.queue[..i] + s.queue[i + 1..], s.msc, s.notified, s.aborted + [s.queue[i]])
    ensures (forall i :: 0 <= i < |s.queue| ==> s.queue[i].id != id) ==> Abort(s, id) == s
  {
    var k := IndexOfId(s.queue, id, 0);
    assert forall i :: 0 <= i < |s.queue| && s.queue[i].id == id ==> k <= i;
  }

  /** Any two of the part stand in the order in which they stand in the whole. */
  ghost predicate InOrderOf(part: seq<Vblank>, all: seq<Vblank>) {
    forall a, b :: 0 <= a < b < |part| ==> InThisOrder(part[a], part[b], all)
  }

  ghost predicate InThisOrder(v: Vblank, w: Vblank, all: seq<Vblank>) {
    exists i, j :: 0 <= i < j < |all| && v == all[i] && w == all[j]
  }

  lemma {:induction false} SplitMembers(queue: seq<Vblank>, msc: nat, v: Vblank)
    ensures v in Due(queue, msc) <==> v in queue && v.msc <= msc
    ensures v in Later(queue, msc) <==> v in queue && v.msc > msc
    decreases |queue|
  {
    if queue != [] {
      assert queue == [queue[0]] + queue[1..];
      SplitMembers(queue[1..], msc, v);
    }
  }

  /** A part of the rest, with the first before it or not, is in the order of the whole. */
  lemma OrderOfRest(part: seq<Vblank>, queue: seq<Vblank>)
    requires queue != [] && InOrderOf(part, queue[1..]) && forall v :: v in part ==> v in queue[1..]
    ensures InOrderOf(part, queue) && InOrderOf([queue[0]] + part, queue)
  {
    var rest, whole := queue[1..], [queue[0]] + part;
    forall a, b | 0 <= a < b < |whole|
      ensures InThisOrder(whole[a], whole[b], queue)
    {
      if a == 0 {
        assert whole[b] == part[b - 1] && part[b - 1] in part;
        var j :| 0 <= j < |rest| && rest[j] == whole[b];
        assert queue[0] == whole[a] && queue[j + 1] == whole[b];
      } else {
        assert InThisOrder(part[a - 1], part[b - 1], rest);
        var i, j :| 0 <= i < j < |rest| && part[a - 1] == rest[i] && part[b - 1] == rest[j];
        assert queue[i + 1] == whole[a] && queue[j + 1] == whole[b];
      }
    }
    forall a, b | 0 <= a < b < |part|
      ensures InThisOrder(part[a], part[b], queue)
    {
      assert InThisOrder(whole[a + 1], whole[b + 1], queue);
    }
  }

  lemma {:induction false} SplitKeepsOrder(queue: seq<Vblank>, msc: nat)
    ensures InOrderOf(Due(queue, msc), queue) && InOrderOf(Later(queue, msc), queue)
    decreases |queue|
  {
    if queue != [] {
      var rest := queue[1..];
      SplitKeepsOrder(rest, msc);
      forall v
        ensures v in Due(rest, msc) || v in Later(rest, msc) ==> v in rest
      {
        SplitMembers(rest, msc, v);
      }
      OrderOfRest(Due(rest, msc), queue);
      OrderOfRest(Later(rest, msc), queue);
    }
  }

  lemma TickMoves(s: Screen)
    ensures var now := s.msc + 1;
            Tick(s) == Screen(Later(s.queue, now), now, s.notified + Notices(Due(s.queue, now), now), s.aborted)
  {
  }

  /** The events whose time has come by `now`, and the others, each in the order of the queue. */
  ghost predicate Splits(queue: seq<Vblank>, now: nat, due: seq<Vblank>, later: seq<Vblank>) {
    && (forall v :: v in due <==> v in queue && v.msc <= now)
    && (forall v :: v in later <==> v in queue && v.msc > now)
    && InOrderOf(due, queue) && InOrderOf(later, queue)
  }

  lemma SplitIsRight(queue: seq<Vblank>, now: nat)
    ensures Splits(queue, now, Due(queue, now), Later(queue, now))
  {
    SplitKeepsOrder(queue, now);
    forall v
      ensures v in Due(queue, now) <==> v in queue && v.msc <= now
      ensures v in Later(queue, now) <==> v in queue && v.msc > now
    {
      SplitMembers(queue, now, v);
    }
  }

  /** A vsync advances the counter by one and notifies, in the order of the queue and with the new count, exactly
      the pending events whose time has come; the others stay pending in their order. */
  lemma TickDoes(s: Screen) returns (fired: seq<Vblank>)
    ensures var t, now, n := Tick(s), s.msc + 1, |s.notified|;
            && t.msc == now && t.aborted == s.aborted
            && |t.notified| == n + |fired| && t.notified[..n] == s.notified
            && (forall i :: 0 <= i < |fired| ==> t.notified[n + i] == Notice(fired[i], now))
            && Splits(s.queue, now, fired, t.queue)
  {
    var now := s.msc + 1;
    fired := Due(s.queue, now);
    TickMoves(s);
    NoticesEvents(fired, now);
    SplitIsRight(s.queue, now);
  }

  // ---- Aborted and late events, over runs

  lemma {:induction false} RunConcat(s: Screen, a: seq<Op>, b: seq<Op>)
    ensures Run(s, a + b) == Run(Run(s, a), b) && Queued(a + b) == Queued(a) + Queued(b)
    decreases |a|
  {
    if a == [] {
      assert a + b == b;
    } else {
      assert (a + b)[1..] == a[1..] + b;
      RunConcat(Apply(s, a[0]), a[1..], b);
    }
  }

  lemma RunLast(s: Screen, ops: seq<Op>)
    requires ops != []
    ensures var before, last := ops[..|ops| - 1], ops[|ops| - 1];
            Run(s, ops) == Apply(Run(s, before), last) && Queued(ops) == Queued(before) + QueuedBy(last)
  {
    var before, last := ops[..|ops| - 1], [ops[|ops| - 1]];
    assert ops == before + last && last[1..] == [];
    RunConcat(s, before, last);
    assert Queued(last) == QueuedBy(last[0]) + Queued(last[1..]);
  }

  lemma {:induction false} AbortedStays(s: Screen, ops: seq<Op>, v: Vblank)
    requires v in s.aborted
    ensures v in Run(s, ops).aborted
    decreases |ops|
  {
    if ops != [] {
      AbortedStays(Apply(s, ops[0]), ops[1..], v);
    }
  }

  /** Over any run with distinct ids, an event that is aborted while it is pending leaves the queue alone, and
      whatever follows it is never notified and never pending again. */
  lemma AbortedNeverFires(before: seq<Op>, v: Vblank, after: seq<Op>)
    requires DistinctIds(Queued(before + ([AbortOp(v.id)] + after))) && v in Run(NO_EVENTS, before).queue
    ensures var s := Run(NO_EVENTS, before);
            var r := Run(NO_EVENTS, before + ([AbortOp(v.id)] + after));
            && v in r.aborted && v !in r.queue && v !in Events(r.notified)
            && exists i :: 0 <= i < |s.queue| && s.queue[i] == v &&
                 Abort(s, v.id) == s.(queue := s.queue[..i] + s.queue[i + 1..], aborted := s.aborted + [v])
  {
    var s, ops := Run(NO_EVENTS, before), before + ([AbortOp(v.id)] + after);
    RunConcat(NO_EVENTS, before, [AbortOp(v.id)] + after);
    assert ([AbortOp(v.id)] + after)[1..] == after;
    var i := FirstPending(before, [AbortOp(v.id)] + after, v);
    AbortDoes(s, v.id);
    AbortedStays(Abort(s, v.id), after, v);
    FiresExactlyOnce(ops, v);
  }

  /** A pending event is the first of its id in the queue. */
  lemma FirstPending(before: seq<Op>, rest: seq<Op>, v: Vblank) returns (i: nat)
    requires DistinctIds(Queued(before + rest)) && v in Run(NO_EVENTS, before).queue
    ensures var q := Run(NO_EVENTS, before).queue;
            i < |q| && q[i] == v && forall j :: 0 <= j < i ==> q[j].id != v.id
  {
    RunConcat(NO_EVENTS, before, rest);
    var s, queued := Run(NO_EVENTS, before), Queued(before);
    assert forall k :: 0 <= k < |queued| ==> Queued(before + rest)[k] == queued[k];
    i := IndexOfId(s.queue, v.id, 0);
    FiresExactlyOnce(before, v);
    FiresExactlyOnce(before, s.queue[i]);
    assert v in queued && s.queue[i] in queued;
  }

  /** Whether the last part of a run ticks. */
  predicate Ticks(ops: seq<Op>) {
    exists i :: 0 <= i < |ops| && ops[i].TickOp?
  }

  lemma NotQueuedAgain(s: Screen, op: Op, v: Vblank)
    requires v !in s.queue && v !in QueuedBy(op)
    ensures v !in Apply(s, op).queue
  {
    SplitMembers(s.queue, s.msc, v);
    SplitMembers(s.queue, s.msc + 1, v);
  }

  /** Nobody waits past the time: once there was a tick, an event whose time has come is not pending unless it was
      queued since. */
  lemma {:induction false} NothingIsLate(s: Screen, ops: seq<Op>, v: Vblank)
    requires Ticks(ops) && v !in Queued(ops) && v.msc <= Run(s, ops).msc
    ensures v !in Run(s, ops).queue
    decreases |ops|
  {
    var n := |ops| - 1;
    var before, last := ops[..n], ops[n];
    RunLast(s, ops);
    var t := Run(s, before);
    if last.TickOp? {
      TickLeavesNothingDue(t);
    } else {
      var i :| 0 <= i < |ops| && ops[i].TickOp?;
      assert before[i].TickOp?;
      NothingIsLate(s, before, v);
      NotQueuedAgain(t, last, v);
    }
  }

  /** The pending events are in the order opposite to that in which they were queued, over any run. */
  lemma {:induction false} NewestFirst(ops: seq<Op>)
    ensures NewerFirst(Run(NO_EVENTS, ops).queue, Queued(ops))
    decreases |ops|
  {
    if ops != [] {
      var n := |ops| - 1;
      var before, last := ops[..n], ops[n];
      RunLast(NO_EVENTS, ops);
      NewestFirst(before);
      StillNewerFirst(Run(NO_EVENTS, before), last, Queued(before));
    }
  }

  /** The events are among those queued, and of any two the one in front was queued later. */
  ghost predicate NewerFirst(queue: seq<Vblank>, queued: seq<Vblank>) {
    && (forall v :: v in queue ==> v in queued)
    && forall a, b :: 0 <= a < b < |queue| ==> InThisOrder(queue[b], queue[a], queued)
  }

  lemma PartStaysNewerFirst(part: seq<Vblank>, queue: seq<Vblank>, queued: seq<Vblank>, more: seq<Vblank>)
    requires NewerFirst(queue, queued) && InOrderOf(part, queue) && forall v :: v in part ==> v in queue
    ensures NewerFirst(part, queued + more)
  {
    forall a, b | 0 <= a < b < |part|
      ensures InThisOrder(part[b], part[a], queued + more)
    {
      assert InThisOrder(part[a], part[b], queue);
      var i, j :| 0 <= i < j < |queue| && part[a] == queue[i] && part[b] == queue[j];
      assert InThisOrder(queue[j], queue[i], queued);
      var m, n :| 0 <= m < n < |queued| && queue[j] == queued[m] && queue[i] == queued[n];
      assert (queued + more)[m] == part[b] && (queued + more)[n] == part[a];
    }
  }

  lemma QueueingStaysNewerFirst(queue: seq<Vblank>, v: Vblank, queued: seq<Vblank>)
    requires NewerFirst(queue, queued)
    ensures NewerFirst([v] + queue, queued + [v])
  {
    var q, all := [v] + queue, queued + [v];
    forall a, b | 0 <= a < b < |q|
      ensures InThisOrder(q[b], q[a], all)
    {
      if a == 0 {
        assert q[b] == queue[b - 1] && queue[b - 1] in queued;
        var i :| 0 <= i < |queued| && queued[i] == q[b];
        assert all[i] == q[b] && all[|queued|] == q[0];
      } else {
        assert InThisOrder(queue[b - 1], queue[a - 1], queued);
        var m, n :| 0 <= m < n < |queued| && queue[b - 1] == queued[m] && queue[a - 1] == queued[n];
        assert all[m] == q[b] && all[n] == q[a];
      }
    }
  }

  lemma WithoutOneInOrder(queue: seq<Vblank>, k: nat)
    requires k < |queue|
    ensures InOrderOf(queue[..k] + queue[k + 1..], queue)
  {
    var q := queue[..k] + queue[k + 1..];
    forall a, b | 0 <= a < b < |q|
      ensures InThisOrder(q[a], q[b], queue)
    {
      var i, j := if a < k then a else a + 1, if b < k then b else b + 1;
      assert q[a] == queue[i] && q[b] == queue[j];
    }
  }

  lemma AbortingStaysNewerFirst(s: Screen, id: nat, queued: seq<Vblank>)
    requires NewerFirst(s.queue, queued)
    ensures NewerFirst(Abort(s, id).queue, queued + [])
  {
    var k := IndexOfId(s.queue, id, 0);
    if k < |s.queue| {
      WithoutOneInOrder(s.queue, k);
      PartStaysNewerFirst(s.queue[..k] + s.queue[k + 1..], s.queue, queued, []);
    } else {
      assert queued + [] == queued;
    }
  }

  lemma StillNewerFirst(s: Screen, op: Op, queued: seq<Vblank>)
    requires NewerFirst(s.queue, queued)
    ensures NewerFirst(Apply(s, op).queue, queued + QueuedBy(op))
  {
    match op
    case QueueOp(id, msc) =>
      QueueingStaysNewerFirst(s.queue, Vblank(id, msc), queued);
      assert Apply(s, op).queue == [Vblank(id, msc)] + s.queue;
    case AbortOp(id) => AbortingStaysNewerFirst(s, id, queued);
    case TickOp =>
      LaterStaysNewerFirst(s.queue, s.msc + 1, queued);
      assert Apply(s, op).queue == Later(s.queue, s.msc + 1);
    case DrainOp =>
      LaterStaysNewerFirst(s.queue, s.msc, queued);
      assert Apply(s, op).queue == Later(s.queue, s.msc);
  }

  lemma LaterStaysNewerFirst(queue: seq<Vblank>, msc: nat, queued: seq<Vblank>)
    requires NewerFirst(queue, queued)
    ensures NewerFirst(Later(queue, msc), queued + [])
  {
    SplitKeepsOrder(queue, msc);
    forall v
      ensures v in Later(queue, msc) ==> v in queue
    {
      SplitMembers(queue, msc, v);
    }
    PartStaysNewerFirst(Later(queue, msc), queue, queued, []);
  }
}
