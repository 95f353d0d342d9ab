/** The three buffer lists that the GUI thread and the render thread share, and who may free what. */
module BufferLists {
  import opened Common

  /** One allocated buffer; `id` is the X server's name for it and need not be unique over time. */
  datatype Buffer = Buffer(handle: nat, id: nat)

  datatype Thread = Gui | Render

  /** A buffer is new in `added` until the render thread attaches it to GL; an attached buffer that
      the GUI thread removes waits in `removed` for the render thread to free it. */
  datatype Lists = Lists(added: seq<Buffer>, attached: seq<Buffer>, removed: seq<Buffer>)

  /** `live` are the allocated buffers, `gl` those ever attached, `freed` the frees in order. */
  datatype Heap = Heap(lists: Lists, live: set<Buffer>, gl: set<Buffer>, freed: seq<(Buffer, Thread)>, next: nat)

  /** Takes the buffers off the front of `from` one by one and puts each at the front of `onto`. */
  function MoveAll(from: seq<Buffer>, onto: seq<Buffer>): seq<Buffer> {
    if from == [] then onto else MoveAll(from[1..], [from[0]] + onto)
  }

  function FindById(list: seq<Buffer>, id: nat, i: nat): (r: nat)
    requires i <= |list|
    ensures i <= r <= |list|
    ensures r < |list| ==> list[r].id == id
    ensures forall j :: i <= j < r ==> list[j].id != id
  {
    FirstWith(list, (b: Buffer) => b.id, id, i)
  }

  function Without(list: seq<Buffer>, i: nat): seq<Buffer>
    requires i < |list|
  {
    list[..i] + list[i + 1..]
  }

  /** The last reference is gone: the buffer leaves its list and its memory is given back. */
  function Free(h: Heap, b: Buffer, who: Thread): Heap {
    h.(live := h.live - {b}, freed := h.freed + [(b, who)])
  }

  function FreeAll(h: Heap, list: seq<Buffer>, who: Thread): Heap
    decreases |list|
  {
    if list == [] then h else FreeAll(Free(h, list[0], who), list[1..], who)
  }

  // ---- What each critical section does

  function AddBuffer(h: Heap, id: nat): Heap {
    var b := Buffer(h.next, id);
    h.(lists := h.lists.(added := [b] + h.lists.added), live := h.live + {b}, next := h.next + 1)
  }

  function RemoveBuffer(h: Heap, id: nat): Heap {
    var l := h.lists;
    var i := FindById(l.added, id, 0);
    var j := FindById(l.attached, id, 0);
    if i < |l.added| then Free(h.(lists := l.(added := Without(l.added, i))), l.added[i], Gui)
    else if j < |l.attached| then
      h.(lists := l.(attached := Without(l.attached, j), removed := [l.attached[j]] + l.removed))
    else h
  }

  function RemoveAllBuffers(h: Heap): Heap {
    var l := h.lists;
    FreeAll(h.(lists := Lists([], [], MoveAll(l.attached, l.removed))), l.added, Gui)
  }

  function AttachAll(h: Heap): Heap {
    var l := h.lists;
    h.(lists := l.(added := [], attached := MoveAll(l.added, l.attached)), gl := h.gl + (set b | b in l.added))
  }

  /** The buffer to draw: an attached one, or one that was removed but is not freed yet. */
  function BufferToDraw(l: Lists, id: nat): Option<Buffer> {
    var i := FindById(l.attached, id, 0);
    var j := FindById(l.removed, id, 0);
    if i < |l.attached| then Some(l.attached[i]) else if j < |l.removed| then Some(l.removed[j]) else None
  }

  function ReleaseRemoved(h: Heap): Heap {
    FreeAll(h.(lists := h.lists.(removed := [])), h.lists.removed, Render)
  }

  // ---- The lists changed in place

  class RendererBuffers {
    var heap: Heap

    constructor ()
      ensures heap == Heap(Lists([], [], []), {}, {}, [], 0)
    {
      heap := Heap(Lists([], [], []), {}, {}, [], 0);
    }

    method Add(id: nat)
      modifies this
      ensures heap == AddBuffer(old(heap), id)
    {
      var b := Buffer(heap.next, id);
      heap := heap.(next := heap.next + 1, live := heap.live + {b});
      heap := heap.(lists := heap.lists.(added := [b] + heap.lists.added));
    }

    method Find(list: seq<Buffer>, id: nat) returns (i: nat)
      ensures i == FindById(list, id, 0)
    {
      i := 0;
      while i < |list| && list[i].id != id
        invariant i <= |list| && FindById(list, id, i) == FindById(list, id, 0)
      {
        i := i + 1;
      }
    }

    method Remove(id: nat)
      modifies this
      ensures heap == RemoveBuffer(old(heap), id)
    {
      var l := heap.lists;
      var i := Find(l.added, id);
      if i < |l.added| {
        heap := heap.(lists := l.(added := Without(l.added, i)));
        heap := Free(heap, l.added[i], Gui);
      } else {
        i := Find(l.attached, id);
        if i < |l.attached| {
          heap := heap.(lists := l.(attached := Without(l.attached, i), removed := [l.attached[i]] + l.removed));
        }
      }
    }

    method RemoveAll()
      modifies this
      ensures heap == RemoveAllBuffers(old(heap))
    {
      ghost var l := heap.lists;
      ghost var after := FreeAll(heap, l.added, Gui);
      FreeKeepsLists(heap, l.added, Gui);
      while heap.lists.added != []
        invariant heap.lists == l.(added := heap.lists.added)
        invariant FreeAll(heap, heap.lists.added, Gui).(lists := l) == after
        decreases |heap.lists.added|
      {
        var b := heap.lists.added[0];
        FreeIgnoresLists(Free(heap, b, Gui), heap.lists.(added := heap.lists.added[1..]), heap.lists.added[1..], Gui);
        heap := Free(heap, b, Gui).(lists := heap.lists.(added := heap.lists.added[1..]));
      }
      ghost var mid := heap;
      while heap.lists.attached != []
        invariant heap == mid.(lists := heap.lists) && heap.lists.added == []
        invariant MoveAll(heap.lists.attached, heap.lists.removed) == MoveAll(l.attached, l.removed)
        decreases |heap.lists.attached|
      {
        var b := heap.lists.attached[0];
        heap := heap.(lists := heap.lists.(attached := heap.lists.attached[1..], removed := [b] + heap.lists.removed));
      }
      FreeIgnoresLists(old(heap), heap.lists, l.added, Gui);
    }

    method Attach()
      modifies this
      ensures heap == AttachAll(old(heap))
    {
      ghost var l, gl := heap.lists, heap.gl;
      ghost var done: seq<Buffer> := [];
      while heap.lists.added != []
        invariant heap == old(heap).(lists := heap.lists, gl := heap.gl)
        invariant heap.lists.removed == l.removed
        invariant MoveAll(heap.lists.added, heap.lists.attached) == MoveAll(l.added, l.attached)
        invariant heap.gl + (set b | b in heap.lists.added) == gl + (set b | b in l.added)
        decreases |heap.lists.added|
      {
        var b := heap.lists.added[0];
        ghost var rest := heap.lists.added[1..];
        assert heap.lists.added == [b] + rest;
        heap := heap.(gl := heap.gl + {b}, lists := heap.lists.(added := heap.lists.added[1..], attached := [b] + heap.lists.attached));
      }
    }

    method ReleaseAll()
      modifies this
      ensures heap == ReleaseRemoved(old(heap))
    {
      ghost var l := heap.lists;
      ghost var after := FreeAll(heap, l.removed, Render);
      FreeKeepsLists(heap, l.removed, Render);
      while heap.lists.removed != []
        invariant heap.lists == l.(removed := heap.lists.removed)
        invariant FreeAll(heap, heap.lists.removed, Render).(lists := l) == after
        decreases |heap.lists.removed|
      {
        var b := heap.lists.removed[0];
        FreeIgnoresLists(Free(heap, b, Render), heap.lists.(removed := heap.lists.removed[1..]), heap.lists.removed[1..], Render);
        heap := Free(heap, b, Render).(lists := heap.lists.(removed := heap.lists.removed[1..]));
      }
      FreeIgnoresLists(old(heap), heap.lists, l.removed, Render);
    }
  }

  lemma {:induction false} FreeKeepsLists(h: Heap, list: seq<Buffer>, who: Thread)
    ensures FreeAll(h, list, who).lists == h.lists
    decreases |list|
  {
    if list != [] {
      FreeKeepsLists(Free(h, list[0], who), list[1..], who);
    }
  }

  lemma {:induction false} FreeIgnoresLists(h: Heap, l: Lists, list: seq<Buffer>, who: Thread)
    ensures FreeAll(h.(lists := l), list, who) == FreeAll(h, list, who).(lists := l)
    decreases |list|
  {
    if list != [] {
      FreeIgnoresLists(Free(h, list[0], who), l, list[1..], who);
      assert Free(h.(lists := l), list[0], who) == Free(h, list[0], who).(lists := l);
    }
  }

  // ---- Every interleaving

  /** The render thread between its critical sections; `drawing` is the buffer it uses without a lock, for the
      buffer `id` that the server asked it to draw. */
  datatype Pc = Attaching | Finding | Drawing(drawing: Option<Buffer>, id: nat) | Releasing

  datatype System = System(heap: Heap, pc: Pc)

  datatype Step =
    | GuiAdd(id: nat) | GuiRemove(id: nat) | GuiRemoveAll   // the GUI thread, at any time
    | RenderStep(draws: bool, id: nat)                      // the next critical section of the render thread

  function Next(s: System, step: Step): System {
    match step
    case GuiAdd(id) => s.(heap := AddBuffer(s.heap, id))
    case GuiRemove(id) => s.(heap := RemoveBuffer(s.heap, id))
    case GuiRemoveAll => s.(heap := RemoveAllBuffers(s.heap))
    case RenderStep(draws, id) =>
      match s.pc
      case Attaching => s.(heap := AttachAll(s.heap), pc := if draws then Finding else Releasing)
      case Finding => s.(pc := Drawing(BufferToDraw(s.heap.lists, id), id))
      case Drawing(_, _) => s.(pc := Releasing)
      case Releasing => s.(heap := ReleaseRemoved(s.heap), pc := Attaching)
  }

  function Run(s: System, steps: seq<Step>): System
    decreases |steps|
  {
    if steps == [] then s else Run(Next(s, steps[0]), steps[1..])
  }

  const START := System(Heap(Lists([], [], []), {}, {}, [], 0), Attaching)

  function All(l: Lists): multiset<Buffer> {
    multiset(l.added) + multiset(l.attached) + multiset(l.removed)
  }

  /** An attached or removed buffer of that id is drawn, and none only if there is none. */
  ghost predicate DrawsWhatIsAsked(l: Lists, drawing: Option<Buffer>, id: nat) {
    match drawing
    case Some(b) => b.id == id && (b in l.attached || b in l.removed)
    case None => forall b :: b in l.attached || b in l.removed ==> b.id != id
  }

  /** Each live buffer is in exactly one of the lists, once; only GL-attached buffers are in the
      latter two, and only they are freed by the render thread; no buffer is freed twice. */
  ghost predicate Inv(s: System) {
    var h := s.heap;
    && All(h.lists) == multiset(h.live)
    && (forall b :: b in h.lists.added ==> b !in h.gl)
    && (forall b :: b in h.lists.attached || b in h.lists.removed ==> b in h.gl)
    && FreedOnce(h)
    && |h.live| + |h.freed| == h.next
    && (s.pc.Drawing? ==> DrawsWhatIsAsked(h.lists, s.pc.drawing, s.pc.id))
  }

  /** Buffers that are moved come before those that are there, the last one moved first. */
  lemma {:induction false} MoveAllReverses(from: seq<Buffer>, onto: seq<Buffer>, i: nat)
    requires i < |from| + |onto|
    ensures |MoveAll(from, onto)| == |from| + |onto|
    ensures MoveAll(from, onto)[i] == if i < |from| then from[|from| - 1 - i] else onto[i - |from|]
    decreases |from|
  {
    if from != [] {
      MoveAllReverses(from[1..], [from[0]] + onto, i);
    }
  }

  lemma {:induction false} MoveAllKeeps(from: seq<Buffer>, onto: seq<Buffer>)
    ensures multiset(MoveAll(from, onto)) == multiset(from) + multiset(onto)
    decreases |from|
  {
    if from != [] {
      assert from == [from[0]] + from[1..];
      MoveAllKeeps(from[1..], [from[0]] + onto);
    }
  }

  lemma WithoutRemoves(list: seq<Buffer>, i: nat)
    requires i < |list|
    ensures multiset(list) == multiset(Without(list, i)) + multiset{list[i]}
  {
    assert list == list[..i] + [list[i]] + list[i + 1..];
  }

  /** What freeing keeps true, with the buffers still to be freed counted apart from the lists. */
  ghost predicate FreedOnce(h: Heap) {
    && (forall b :: b in h.live || b in h.gl ==> b.handle < h.next)
    && (forall i :: 0 <= i < |h.freed| ==>
          && h.freed[i].0.handle < h.next
          && h.freed[i].0 !in h.live
          && (h.freed[i].0 in h.gl <==> h.freed[i].1 == Render))
    && (forall i, j :: 0 <= i < j < |h.freed| ==> h.freed[i].0 != h.freed[j].0)
  }

  lemma {:induction false} FreeAllIsSafe(h: Heap, list: seq<Buffer>, who: Thread)
    requires FreedOnce(h) && multiset(list) <= multiset(h.live)
    requires forall b :: b in list ==> (b in h.gl <==> who == Render)
    ensures var r := FreeAll(h, list, who);
            && FreedOnce(r)
            && r == h.(live := r.live, freed := r.freed)
            && multiset(r.live) == multiset(h.live) - multiset(list)
            && |r.live| + |r.freed| == |h.live| + |h.freed|
    decreases |list|
  {
    if list != [] {
      var b, next := list[0], Free(h, list[0], who);
      assert list == [b] + list[1..];
      assert b in multiset(list);
      assert multiset(next.live) == multiset(h.live) - multiset{b};
      FreeAllIsSafe(next, list[1..], who);
    }
  }

  lemma InListsIsLive(h: Heap, b: Buffer)
    requires All(h.lists) == multiset(h.live)
    ensures b in h.live <==> b in h.lists.added || b in h.lists.attached || b in h.lists.removed
    ensures All(h.lists)[b] <= 1
  {
    assert b in h.live <==> b in All(h.lists);
  }

  /** Buffers are freed one after the other, each by the thread at work. */
  lemma {:induction false} FreeAllDoes(h: Heap, list: seq<Buffer>, who: Thread)
    ensures var r, n := FreeAll(h, list, who), |h.freed|;
            && r == h.(live := r.live, freed := r.freed) && (forall b :: b in r.live <==> b in h.live && b !in list)
            && |r.freed| == n + |list| && r.freed[..n] == h.freed
            && forall i :: 0 <= i < |list| ==> r.freed[n + i] == (list[i], who)
    decreases |list|
  {
    if list != [] {
      FreeAllDoes(Free(h, list[0], who), list[1..], who);
      assert list == [list[0]] + list[1..];
    }
  }

  /** Removing: the first new buffer of that id is freed at once by the GUI thread; if there is none, the first
      attached one is put in front of those that the render thread frees; otherwise nothing happens. */
  lemma RemoveDoes(h: Heap, id: nat, i: nat)
    ensures var l := h.lists;
            && (i < |l.added| && l.added[i].id == id && (forall j :: 0 <= j < i ==> l.added[j].id != id) ==>
                  RemoveBuffer(h, id) == h.(lists := l.(added := l.added[..i] + l.added[i + 1..]),
                                            live := h.live - {l.added[i]}, freed := h.freed + [(l.added[i], Gui)]))
            && ((forall b :: b in l.added ==> b.id != id) ==>
                  && (i < |l.attached| && l.attached[i].id == id && (forall j :: 0 <= j < i ==> l.attached[j].id != id) ==>
                        RemoveBuffer(h, id) == h.(lists := l.(attached := l.attached[..i] + l.attached[i + 1..],
                                                              removed := [l.attached[i]] + l.removed)))
                  && ((forall b :: b in l.attached ==> b.id != id) ==> RemoveBuffer(h, id) == h))
  {
    var l := h.lists;
    var m, n := FindById(l.added, id, 0), FindById(l.attached, id, 0);
    assert i < |l.added| && l.added[i].id == id ==> m <= i;
    assert i < |l.attached| && l.attached[i].id == id ==> n <= i;
    assert m < |l.added| ==> l.added[m] in l.added;
    assert n < |l.attached| ==> l.attached[n] in l.attached;
  }

  lemma AddSafe(s: System, id: nat)
    requires Inv(s)
    ensures Inv(s.(heap := AddBuffer(s.heap, id)))
  {
    var h := s.heap;
    var b := Buffer(h.next, id);
    var r := AddBuffer(h, id);
    assert b !in h.live;
    assert multiset(r.lists.added) == multiset{b} + multiset(h.lists.added);
    assert multiset(r.live) == multiset(h.live) + multiset{b};
  }

  lemma RemoveAddedSafe(s: System, i: nat)
    requires Inv(s) && i < |s.heap.lists.added|
    ensures var l := s.heap.lists;
            Inv(s.(heap := Free(s.heap.(lists := l.(added := Without(l.added, i))), l.added[i], Gui)))
  {
    var h, l := s.heap, s.heap.lists;
    var b := l.added[i];
    WithoutRemoves(l.added, i);
    InListsIsLive(h, b);
    var mid := h.(lists := l.(added := Without(l.added, i)));
    assert FreeAll(mid, [b], Gui) == Free(mid, b, Gui);
    FreeAllIsSafe(mid, [b], Gui);
  }

  lemma RemoveAttachedSafe(s: System, j: nat)
    requires Inv(s) && j < |s.heap.lists.attached|
    ensures var l := s.heap.lists;
            Inv(s.(heap := s.heap.(lists := l.(attached := Without(l.attached, j), removed := [l.attached[j]] + l.removed))))
  {
    var l := s.heap.lists;
    var b := l.attached[j];
    WithoutRemoves(l.attached, j);
    assert multiset([b] + l.removed) == multiset{b} + multiset(l.removed);
    forall c
      ensures c in l.attached <==> c in Without(l.attached, j) || c == b
    {
      assert c in l.attached <==> c in multiset(l.attached);
    }
  }

  lemma RemoveSafe(s: System, id: nat)
    requires Inv(s)
    ensures Inv(s.(heap := RemoveBuffer(s.heap, id)))
  {
    var l := s.heap.lists;
    var i, j := FindById(l.added, id, 0), FindById(l.attached, id, 0);
    if i < |l.added| {
      RemoveAddedSafe(s, i);
    } else if j < |l.attached| {
      RemoveAttachedSafe(s, j);
    } else {
      assert s.(heap := s.heap) == s;
    }
  }

  lemma RemoveAllSafe(s: System)
    requires Inv(s)
    ensures Inv(s.(heap := RemoveAllBuffers(s.heap)))
  {
    var h, l := s.heap, s.heap.lists;
    MoveAllKeeps(l.attached, l.removed);
    var moved := MoveAll(l.attached, l.removed);
    var mid := h.(lists := Lists([], [], moved));
    FreeAllIsSafe(mid, l.added, Gui);
    forall b
      ensures b in moved <==> b in l.attached || b in l.removed
    {
      assert b in moved <==> b in multiset(moved);
    }
  }

  lemma AttachSafe(s: System)
    requires Inv(s) && s.pc.Attaching?
    ensures Inv(s.(heap := AttachAll(s.heap)))
  {
    var h, l := s.heap, s.heap.lists;
    MoveAllKeeps(l.added, l.attached);
    var moved := MoveAll(l.added, l.attached);
    forall b
      ensures b in moved <==> b in l.added || b in l.attached
    {
      assert b in moved <==> b in multiset(moved);
    }
    forall b | b in l.added
      ensures b in h.live
    {
      InListsIsLive(h, b);
    }
  }

  lemma ReleaseSafe(s: System)
    requires Inv(s) && s.pc.Releasing?
    ensures Inv(System(ReleaseRemoved(s.heap), Attaching))
  {
    var h, l := s.heap, s.heap.lists;
    var mid := h.(lists := l.(removed := []));
    FreeAllIsSafe(mid, l.removed, Render);
  }

  /** Of the buffers of that id the first attached one is drawn, or the first removed one if none is attached;
      none is drawn exactly if there is none. */
  lemma DrawsTheFirst(l: Lists, id: nat)
    ensures DrawsWhatIsAsked(l, BufferToDraw(l, id), id)
    ensures forall i :: 0 <= i < |l.attached| && l.attached[i].id == id && (forall j :: 0 <= j < i ==> l.attached[j].id != id)
              ==> BufferToDraw(l, id) == Some(l.attached[i])
    ensures forall i :: 0 <= i < |l.removed| && l.removed[i].id == id && (forall j :: 0 <= j < i ==> l.removed[j].id != id)
              && (forall j :: 0 <= j < |l.attached| ==> l.attached[j].id != id)
              ==> BufferToDraw(l, id) == Some(l.removed[i])
  {
    var i, j := FindById(l.attached, id, 0), FindById(l.removed, id, 0);
    assert forall k :: 0 <= k < |l.attached| && l.attached[k].id == id ==> i <= k;
  }

  lemma InvNext(s: System, step: Step)
    requires Inv(s)
    ensures Inv(Next(s, step))
  {
    match step
    case GuiAdd(id) => AddSafe(s, id);
    case GuiRemove(id) => RemoveSafe(s, id);
    case GuiRemoveAll => RemoveAllSafe(s);
    case RenderStep(draws, id) =>
      match s.pc
      case Attaching => AttachSafe(s);
      case Finding => DrawsTheFirst(s.heap.lists, id);
      case Drawing(_, _) =>
      case Releasing => ReleaseSafe(s);
  }

  lemma {:induction false} InvRun(s: System, steps: seq<Step>)
    requires Inv(s)
    ensures Inv(Run(s, steps))
    decreases |steps|
  {
    if steps != [] {
      InvNext(s, steps[0]);
      InvRun(Next(s, steps[0]), steps[1..]);
    }
  }

  /** In every interleaving: every buffer received is live or was freed; a live one is in exactly one
      list; a buffer that was attached to GL is
      freed by the render thread and any other by the GUI thread, each at most once and never while it
      is live; and the buffer being drawn has the id asked for and is not freed before the drawing ends, and if none
      is, no buffer of that id is attached or still to be freed. */
  lemma BuffersAreSafe(steps: seq<Step>)
    ensures var s := Run(START, steps);
            var l := s.heap.lists;
            var freed := s.heap.freed;
            && |s.heap.live| + |freed| == s.heap.next
            && (forall b :: All(l)[b] == if b in s.heap.live then 1 else 0)
            && (forall i :: 0 <= i < |freed| ==> (freed[i].0 in s.heap.gl <==> freed[i].1 == Render) && freed[i].0 !in s.heap.live)
            && (forall i, j :: 0 <= i < j < |freed| ==> freed[i].0 != freed[j].0)
            && (s.pc.Drawing? && s.pc.drawing.Some? ==> s.pc.drawing.value in s.heap.live && s.pc.drawing.value in s.heap.gl)
            && (s.pc.Drawing? ==> DrawsWhatIsAsked(l, s.pc.drawing, s.pc.id))
  {
    assert Inv(START);
    InvRun(START, steps);
    var s := Run(START, steps);
    forall b
      ensures All(s.heap.lists)[b] == if b in s.heap.live then 1 else 0
    {
      InListsIsLive(s.heap, b);
    }
    if s.pc.Drawing? && s.pc.drawing.Some? {
      InListsIsLive(s.heap, s.pc.drawing.value);
    }
  }
}
