/** Over any run without edits of the keymap by others: the original layout stays as it was, every
    added keysym keeps a key of its own, and keycodes are recycled in least-recently-used order. */
module LayoutRuns {
  import opened Common
  import opened Xkb
  import Lru = AddedKeysyms
  import opened KeyboardServer
  import opened Injection
  import opened PressTheorems
  import opened InjectionRuns

  type Added = seq<Lru.AddedKeysym>

  /** Everything about key `k`: its groups, its modifier map and its name. */
  predicate SameKey(orig: Keymap, xkb: Keymap, k: nat)
    requires WellFormed(orig) && WellFormed(xkb) && k < 256
  {
    && xkb.keys[k] == orig.keys[k]
    && xkb.names.Names? == orig.names.Names?
    && (orig.names.Names? ==> xkb.names.names[k] == orig.names.names[k])
  }

  /** The keycode of an entry was free in the original layout and still carries the entry's keysym. */
  predicate EntryIntact(orig: Keymap, xkb: Keymap, a: Lru.AddedKeysym)
    requires WellFormed(orig) && WellFormed(xkb)
  {
    && a.keycode != 0 && xkb.InRange(a.keycode)
    && |orig.keys[a.keycode].types| == 0
    && Lru.StillOurs(xkb, a)
    && xkb.keys[a.keycode].types == [Lru.ALPHABETIC]
    && !xkb.keys[a.keycode].hasActions
  }

  predicate LayoutIntact(orig: Keymap, xkb: Keymap, added: Added)
    requires WellFormed(orig) && WellFormed(xkb)
  {
    && xkb == orig.(keys := xkb.keys, names := xkb.names)
    && (forall k :: 0 <= k < 256 && |orig.keys[k].types| > 0 ==> SameKey(orig, xkb, k))
    && Lru.Distinct(added)
    && (forall a :: a in added ==> EntryIntact(orig, xkb, a))
    && (forall k: KeyCode :: xkb.InRange(k) && |xkb.keys[k].types| > 0 && |orig.keys[k].types| == 0 ==> Lru.Lists(added, k))
  }

  /** While the layout is intact the oldest entry is the one that is recycled. */
  lemma RecyclesOldest(orig: Keymap, xkb: Keymap, added: Added)
    requires WellFormed(orig) && WellFormed(xkb) && LayoutIntact(orig, xkb, added)
    ensures Lru.Reusable(xkb, added) == if added == [] then (0, []) else (added[|added| - 1].keycode, added[..|added| - 1])
  {
    if added != [] {
      assert added[|added| - 1] in added;
      assert EntryIntact(orig, xkb, added[|added| - 1]);
    }
  }

  /** The keycode an addition takes: a free one, or else that of the oldest entry. */
  lemma TakesFreeOrOldest(orig: Keymap, xkb: Keymap, added: Added, sym: KeySym)
    requires WellFormed(orig) && WellFormed(xkb) && Lru.HasCanonicalTypes(xkb) && LayoutIntact(orig, xkb, added)
    ensures var r := Lru.AddKeysym(xkb, added, sym);
            if r.key == 0 then r.xkb == xkb && r.added == added == []
            else exists rest ::
              && r.xkb == Lru.Assigned(xkb, r.key, sym)
              && r.added == [Lru.AddedKeysym(xkb.cases.Lower(sym), r.key)] + rest
              && xkb.InRange(r.key) && |orig.keys[r.key].types| == 0
              && (|| (rest == added && !Lru.Lists(added, r.key))
                  || (added != [] && added[|added| - 1].keycode == r.key && rest == added[..|added| - 1]))
  {
    RecyclesOldest(orig, xkb, added);
    var free := Lru.FreeKey(xkb, xkb.maxKey);
    var r := Lru.AddKeysym(xkb, added, sym);
    if free != 0 {
      assert |orig.keys[free].types| > 0 ==> SameKey(orig, xkb, free);
      forall i | 0 <= i < |added|
        ensures added[i].keycode != free
      {
        assert EntryIntact(orig, xkb, added[i]);
      }
      assert r.added == [Lru.AddedKeysym(xkb.cases.Lower(sym), r.key)] + added;
    } else if added != [] {
      assert EntryIntact(orig, xkb, added[|added| - 1]);
    }
  }

  lemma AssignKeepsOthers(orig: Keymap, xkb: Keymap, k: KeyCode, sym: KeySym, rest: Added)
    requires WellFormed(orig) && WellFormed(xkb) && Lru.HasCanonicalTypes(xkb)
    requires xkb == orig.(keys := xkb.keys, names := xkb.names) && |orig.keys[k].types| == 0
    requires forall j :: 0 <= j < 256 && |orig.keys[j].types| > 0 ==> SameKey(orig, xkb, j)
    requires !Lru.Lists(rest, k) && forall a :: a in rest ==> EntryIntact(orig, xkb, a)
    ensures var x := Lru.Assigned(xkb, k, sym);
            && (forall j :: 0 <= j < 256 && |orig.keys[j].types| > 0 ==> SameKey(orig, x, j))
            && (forall a :: a in rest ==> EntryIntact(orig, x, a))
  {
    var x := Lru.Assigned(xkb, k, sym);
    forall j | 0 <= j < 256 && |orig.keys[j].types| > 0
      ensures SameKey(orig, x, j)
    {
      assert SameKey(orig, xkb, j);
    }
    forall a | a in rest
      ensures EntryIntact(orig, x, a)
    {
      assert EntryIntact(orig, xkb, a);
      var i :| 0 <= i < |rest| && rest[i] == a;
      assert a.keycode != k;
    }
  }

  /** Every key that got its groups from an addition stays listed. */
  lemma NewEntryIsListed(added: Added, rest: Added, a: Lru.AddedKeysym, code: KeyCode)
    requires rest == added || (added != [] && added[|added| - 1].keycode == a.keycode && rest == added[..|added| - 1])
    requires Lru.Lists(added, code) || code == a.keycode
    ensures Lru.Lists([a] + rest, code)
  {
    var l := [a] + rest;
    assert l[0].keycode == a.keycode;
    if code != a.keycode {
      var i :| 0 <= i < |added| && added[i].keycode == code;
      assert l[i + 1].keycode == code;
    }
  }

  lemma AddKeepsLayout(orig: Keymap, xkb: Keymap, added: Added, sym: KeySym)
    requires WellFormed(orig) && WellFormed(xkb) && Lru.HasCanonicalTypes(xkb) && LayoutIntact(orig, xkb, added)
    ensures var r := Lru.AddKeysym(xkb, added, sym); LayoutIntact(orig, r.xkb, r.added)
  {
    TakesFreeOrOldest(orig, xkb, added, sym);
    var r := Lru.AddKeysym(xkb, added, sym);
    if r.key != 0 {
      var k := r.key;
      var rest :| && r.xkb == Lru.Assigned(xkb, k, sym)
                  && r.added == [Lru.AddedKeysym(xkb.cases.Lower(sym), k)] + rest
                  && xkb.InRange(k) && |orig.keys[k].types| == 0
                  && (|| (rest == added && !Lru.Lists(added, k))
                      || (added != [] && added[|added| - 1].keycode == k && rest == added[..|added| - 1]));
      AssignedIsIntact(orig, xkb, added, rest, k, sym);
    }
  }

  lemma AssignedIsIntact(orig: Keymap, xkb: Keymap, added: Added, rest: Added, k: KeyCode, sym: KeySym)
    requires WellFormed(orig) && WellFormed(xkb) && Lru.HasCanonicalTypes(xkb) && LayoutIntact(orig, xkb, added)
    requires k != 0 && xkb.InRange(k) && |orig.keys[k].types| == 0
    requires || (rest == added && !Lru.Lists(added, k))
             || (added != [] && added[|added| - 1].keycode == k && rest == added[..|added| - 1])
    ensures LayoutIntact(orig, Lru.Assigned(xkb, k, sym), [Lru.AddedKeysym(xkb.cases.Lower(sym), k)] + rest)
  {
    var x, a := Lru.Assigned(xkb, k, sym), Lru.AddedKeysym(xkb.cases.Lower(sym), k);
    assert !Lru.Lists(rest, k);
    AssignKeepsOthers(orig, xkb, k, sym, rest);
    assert EntryIntact(orig, x, a);
    forall j: KeyCode | x.InRange(j) && |x.keys[j].types| > 0 && |orig.keys[j].types| == 0
      ensures Lru.Lists([a] + rest, j)
    {
      assert j != k ==> Lru.Lists(added, j);
      NewEntryIsListed(added, rest, a, j);
    }
  }

  lemma MoveKeepsLayout(orig: Keymap, xkb: Keymap, added: Added, code: KeyCode)
    requires WellFormed(orig) && WellFormed(xkb) && LayoutIntact(orig, xkb, added)
    ensures LayoutIntact(orig, xkb, Lru.MoveToFront(added, code))
  {
    var moved := Lru.MoveToFront(added, code);
    var i := Lru.IndexOf(added, code, 0);
    if i < |added| {
      forall a, b | 0 <= a < b < |moved|
        ensures moved[a].keycode != moved[b].keycode
      {
        Lru.MovedToFront(added, code, a, b);
      }
      forall j: KeyCode | Lru.Lists(added, j)
        ensures Lru.Lists(moved, j)
      {
        var n :| 0 <= n < |added| && added[n].keycode == j;
        assert moved[if n == i then 0 else if n < i then n + 1 else n] == added[n];
      }
    }
  }

  // ---- The uses and evictions of a run

  /** What adding a keysym does to the list: it takes a free keycode, or recycles the oldest. */
  function OpsOfAdding(xkb: Keymap, added: Added, sym: KeySym): seq<Lru.Op>
    requires WellFormed(xkb)
  {
    var free := Lru.FreeKey(xkb, xkb.maxKey);
    var lower := xkb.cases.Lower(sym);
    if free != 0 then [Lru.Add(lower, free)]
    else if added == [] then []
    else [Lru.Evict, Lru.Add(lower, added[|added| - 1].keycode)]
  }

  ghost function OpsOf(st: Injector, alts: AltTable, i: Input): seq<Lru.Op>
    requires Injection.Valid(st)
  {
    if !i.KeysymDown? then []
    else
      var d := Decide(Processed(st), alts, i.sym);
      (if FindExisting(Processed(st), alts, i.sym).key == 0 then OpsOfAdding(st.xkb, st.added, i.sym) else []) +
      (if ReachesTheKey(d) then [Lru.Use(d.key)] else [])
  }

  ghost function OpsOfAll(st: Injector, alts: AltTable, inputs: seq<Input>): seq<Lru.Op>
    requires Injection.Valid(st) && forall i :: i in inputs ==> ValidInput(i)
    decreases |inputs|
  {
    if inputs == [] then [] else OpsOf(st, alts, inputs[0]) + OpsOfAll(AfterInput(st, alts, inputs[0]), alts, inputs[1..])
  }

  /** The list is what the operations so far make it. */
  predicate Follows(added: Added, ops: seq<Lru.Op>) {
    Lru.ValidRun(ops) && added == Lru.Run(ops)
  }

  predicate Intact(orig: Keymap, st: Injector, ops: seq<Lru.Op>)
    requires WellFormed(orig)
  {
    Injection.Valid(st) && LayoutIntact(orig, st.xkb, st.added) && Follows(st.added, ops)
  }

  lemma OneMore(added: Added, ops: seq<Lru.Op>, op: Lru.Op)
    requires Follows(added, ops) && (op.Add? ==> !Lru.Lists(added, op.code))
    ensures Follows(Lru.Apply(added, op), ops + [op])
  {
    assert (ops + [op])[..|ops|] == ops;
  }

  lemma AddingFollows(orig: Keymap, xkb: Keymap, added: Added, sym: KeySym, ops: seq<Lru.Op>)
    requires WellFormed(orig) && WellFormed(xkb) && Lru.HasCanonicalTypes(xkb) && LayoutIntact(orig, xkb, added)
    requires Follows(added, ops)
    ensures Follows(Lru.AddKeysym(xkb, added, sym).added, ops + OpsOfAdding(xkb, added, sym))
  {
    RecyclesOldest(orig, xkb, added);
    TakesFreeOrOldest(orig, xkb, added, sym);
    var free := Lru.FreeKey(xkb, xkb.maxKey);
    var lower := xkb.cases.Lower(sym);
    if free != 0 {
      OneMore(added, ops, Lru.Add(lower, free));
    } else if added == [] {
      assert ops + [] == ops;
    } else {
      var oldest := added[|added| - 1];
      var rest := added[..|added| - 1];
      OneMore(added, ops, Lru.Evict);
      OneMore(rest, ops + [Lru.Evict], Lru.Add(lower, oldest.keycode));
      assert EntryIntact(orig, xkb, oldest);
      assert ops + [Lru.Evict] + [Lru.Add(lower, oldest.keycode)] == ops + [Lru.Evict, Lru.Add(lower, oldest.keycode)];
    }
  }

  lemma DecisionKeepsLayout(orig: Keymap, st: Injector, alts: AltTable, sym: KeySym, ops: seq<Lru.Op>)
    requires WellFormed(orig) && Injection.Valid(st) && LayoutIntact(orig, st.xkb, st.added) && Follows(st.added, ops)
    ensures var d := Decide(st, alts, sym);
            && LayoutIntact(orig, d.st.xkb, d.st.added)
            && Follows(d.st.added, ops + if FindExisting(st, alts, sym).key == 0 then OpsOfAdding(st.xkb, st.added, sym) else [])
  {
    if FindExisting(st, alts, sym).key == 0 {
      AddKeepsLayout(orig, st.xkb, st.added, sym);
      AddingFollows(orig, st.xkb, st.added, sym, ops);
    } else {
      assert ops + [] == ops;
    }
  }

  /** What a press does to the keymap and to the list, in every case. */
  lemma PressLists(st: Injector, alts: AltTable, sym: KeySym)
    requires Injection.Valid(st)
    ensures var d := Decide(Processed(st), alts, sym);
            var r := Press(st, alts, sym);
            && r.xkb == d.st.xkb
            && r.added == if ReachesTheKey(d) then Lru.MoveToFront(d.st.added, d.key) else d.st.added
  {
  }

  lemma UseKeepsLayout(orig: Keymap, xkb: Keymap, added: Added, code: KeyCode, ops: seq<Lru.Op>)
    requires WellFormed(orig) && WellFormed(xkb) && LayoutIntact(orig, xkb, added) && Follows(added, ops)
    ensures LayoutIntact(orig, xkb, Lru.MoveToFront(added, code))
    ensures Follows(Lru.MoveToFront(added, code), ops + [Lru.Use(code)])
  {
    MoveKeepsLayout(orig, xkb, added, code);
    OneMore(added, ops, Lru.Use(code));
  }

  lemma PressKeepsLayout(orig: Keymap, st: Injector, alts: AltTable, sym: KeySym, ops: seq<Lru.Op>)
    requires WellFormed(orig) && Injection.Valid(st) && LayoutIntact(orig, st.xkb, st.added) && Follows(st.added, ops)
    ensures var r := Press(st, alts, sym);
            && LayoutIntact(orig, r.xkb, r.added)
            && Follows(r.added, ops + OpsOf(st, alts, KeysymDown(sym)))
  {
    var p := Processed(st);
    var d := Decide(p, alts, sym);
    var adds := if FindExisting(p, alts, sym).key == 0 then OpsOfAdding(st.xkb, st.added, sym) else [];
    var uses := if ReachesTheKey(d) then [Lru.Use(d.key)] else [];
    DecisionKeepsLayout(orig, p, alts, sym, ops);
    PressLists(st, alts, sym);
    assert OpsOf(st, alts, KeysymDown(sym)) == adds + uses;
    Regroup(ops, adds, uses);
    if ReachesTheKey(d) {
      UseKeepsLayout(orig, d.st.xkb, d.st.added, d.key, ops + adds);
    } else {
      assert ops + adds + uses == ops + adds;
    }
  }

  lemma InputKeepsLayout(orig: Keymap, st: Injector, alts: AltTable, i: Input, ops: seq<Lru.Op>)
    requires WellFormed(orig) && ValidInput(i) && !i.Edit? && Intact(orig, st, ops)
    ensures Intact(orig, AfterInput(st, alts, i), ops + OpsOf(st, alts, i))
  {
    if i.KeysymDown? {
      PressKeepsLayout(orig, st, alts, i.sym, ops);
    } else {
      assert ops + [] == ops;
      assert AfterInput(st, alts, i).added == st.added;
    }
  }

  /** Over any run without outside edits the layout stays intact and the list of added keysyms is the
      list that the additions, uses and evictions of the run make. */
  lemma {:induction false} LayoutAlwaysIntact(orig: Keymap, st: Injector, alts: AltTable, inputs: seq<Input>, ops: seq<Lru.Op>)
    requires forall i :: i in inputs ==> ValidInput(i)
    requires WellFormed(orig) && NoEdits(inputs) && Intact(orig, st, ops)
    ensures Intact(orig, AfterAll(st, alts, inputs), ops + OpsOfAll(st, alts, inputs))
    decreases |inputs|
  {
    if inputs == [] {
      assert ops + [] == ops;
    } else {
      var first := OpsOf(st, alts, inputs[0]);
      var next := AfterInput(st, alts, inputs[0]);
      InputKeepsLayout(orig, st, alts, inputs[0], ops);
      var rest := OpsOfAll(next, alts, inputs[1..]);
      LayoutAlwaysIntact(orig, next, alts, inputs[1..], ops + first);
      assert OpsOfAll(st, alts, inputs) == first + rest;
      Regroup(ops, first, rest);
    }
  }

  /** From the start: whenever the keycodes run out, the one recycled is the one whose last use lies
      furthest back. */
  lemma RecyclesLeastRecentlyUsed(xkb: Keymap, server: Server, alts: AltTable, inputs: seq<Input>)
    requires WellFormed(xkb) && Lru.HasCanonicalTypes(xkb) && NoEdits(inputs)
    requires forall i :: i in inputs ==> ValidInput(i)
    ensures var st := Injector(xkb, [], seq(256, i => NO_SYMBOL), server, []);
            var last := AfterAll(st, alts, inputs);
            var ops := OpsOfAll(st, alts, inputs);
            && LayoutIntact(xkb, last.xkb, last.added)
            && Lru.OrderedByUse(last.added, ops)
            && (last.added != [] ==>
                 var (code, rest) := Lru.Reusable(last.xkb, last.added);
                 && rest == last.added[..|last.added| - 1] && last.added[|last.added| - 1].keycode == code
                 && forall e :: e in rest ==> Lru.LastUse(ops, code) < Lru.LastUse(ops, e.keycode))
  {
    var st := Injector(xkb, [], seq(256, i => NO_SYMBOL), server, []);
    var last := AfterAll(st, alts, inputs);
    var ops := OpsOfAll(st, alts, inputs);
    LayoutAlwaysIntact(xkb, st, alts, inputs, []);
    assert [] + ops == ops;
    Lru.LruOrder(ops);
    RecyclesOldest(xkb, last.xkb, last.added);
  }
}
