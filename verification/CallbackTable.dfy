/** The process-wide table of Java callbacks, shared by every engine: who owns a global
    reference, and which callback a JavaScript function reaches. */
module CallbackTable {
  import opened Options
  import Ownership

  const MAX_CALLBACKS := 1024

  /** A slot names the VM it was filled for and a global reference, by the number of its creation. */
  datatype Slot = Slot(vm: int, callback: Option<nat>, used: bool)

  const EMPTY := Slot(0, None, false)

  /** The table, the Java object behind each global reference made so far, and how often each
      reference has been deleted. */
  datatype Table = Table(slots: seq<Slot>, refs: seq<int>, deleted: multiset<nat>)

  function FirstUnused(slots: seq<Slot>): (i: nat)
    ensures i <= |slots| && (i < |slots| ==> !slots[i].used)
    ensures forall j :: 0 <= j < i ==> slots[j].used
  {
    if slots == [] || !slots[0].used then 0 else 1 + FirstUnused(slots[1..])
  }

  function Refs(s: Slot): multiset<nat> {
    if s.used && s.callback.Some? then multiset{s.callback.value} else multiset{}
  }

  function Emptied(s: Slot): Slot { s.(callback := None, used := false) }

  // ---- the operations -----------------------------------------------------------------

  /** register_callback: the slot taken, if there is one. */
  function Register(slots: seq<Slot>, vm: int, callback: nat): (seq<Slot>, Option<nat>) {
    var i := FirstUnused(slots);
    if i == |slots| then (slots, None) else (slots[i := Slot(vm, Some(callback), true)], Some(i))
  }

  /** native_set_callback for an object: a new global reference, kept or deleted at once. */
  function SetCallback(t: Table, vm: int, target: int): (Table, Option<nat>) {
    var r := |t.refs|;
    var (slots, slot) := Register(t.slots, vm, r);
    (Table(slots, t.refs + [target], if slot.None? then t.deleted + multiset{r} else t.deleted), slot)
  }

  /** unregister_callback. */
  function Unregister(t: Table, i: int): Table {
    if !(0 <= i < |t.slots| && t.slots[i].used) then t
    else t.(slots := t.slots[i := Emptied(t.slots[i])], deleted := t.deleted + Refs(t.slots[i]))
  }

  /** The loop of native_close, over the first `k` slots. */
  function CloseTo(t: Table, vm: int, k: nat): (u: Table)
    requires k <= |t.slots|
    ensures |u.slots| == |t.slots| && u.refs == t.refs
  {
    if k == 0 then t
    else
      var u := CloseTo(t, vm, k - 1);
      if u.slots[k - 1].vm == vm then Unregister(u, k - 1) else u
  }

  function Close(t: Table, vm: int): Table { CloseTo(t, vm, |t.slots|) }

  /** The slot lookup of js_java_callback: the reference it calls, or "callback has been
      released". */
  function Lookup(t: Table, magic: int): Option<nat> {
    if 0 <= magic < |t.slots| && t.slots[magic].used then t.slots[magic].callback else None
  }

  // ---- who owns a reference -----------------------------------------------------------

  function Owned(slots: seq<Slot>): multiset<nat> { Ownership.Owned(slots, Refs) }

  function Upto(n: nat): multiset<nat> {
    if n == 0 then multiset{} else Upto(n - 1) + multiset{n - 1}
  }

  /** Every reference made is either deleted, once, or owned by one slot. */
  ghost predicate Accounted(t: Table) {
    && t.deleted + Owned(t.slots) == Upto(|t.refs|)
    && forall i :: 0 <= i < |t.slots| && t.slots[i].used ==> t.slots[i].callback.Some?
  }

  lemma {:induction false} UptoHolds(n: nat, r: nat)
    ensures Upto(n)[r] == if r < n then 1 else 0
  {
    if n > 0 { UptoHolds(n - 1, r); }
  }

  /** What being accounted for means for one reference: it has been deleted once and no slot
      reaches it, or it has not been deleted and exactly one slot does. */
  lemma DeletedOnceOrOwnedOnce(t: Table, r: nat)
    requires Accounted(t) && r < |t.refs|
    ensures t.deleted[r] <= 1
    ensures t.deleted[r] == 1 ==> forall i :: 0 <= i < |t.slots| ==> Lookup(t, i) != Some(r)
    ensures t.deleted[r] == 0 ==> exists i :: 0 <= i < |t.slots| && Lookup(t, i) == Some(r)
    ensures forall i, j :: 0 <= i < j < |t.slots| && Lookup(t, i) == Some(r) ==> Lookup(t, j) != Some(r)
  {
    hide Ownership.Owned, Upto;
    UptoHolds(|t.refs|, r);
    assert (t.deleted + Owned(t.slots))[r] == t.deleted[r] + Owned(t.slots)[r];
    if t.deleted[r] == 0 {
      var i := Owner(t.slots, r);
      assert Lookup(t, i) == Some(r);
    }
    forall i | 0 <= i < |t.slots| && Lookup(t, i) == Some(r) ensures t.deleted[r] == 0 {
      OwnerCounts(t.slots, i, r);
    }
    forall i, j | 0 <= i < j < |t.slots| && Lookup(t, i) == Some(r) ensures Lookup(t, j) != Some(r) {
      if Lookup(t, j) == Some(r) { TwoOwnersCount(t.slots, i, j, r); }
    }
  }

  lemma {:induction false} Owner(slots: seq<Slot>, r: nat) returns (i: nat)
    requires Owned(slots)[r] > 0
    ensures i < |slots| && Refs(slots[i])[r] > 0
  {
    hide Refs;
    var n := |slots| - 1;
    Ownership.OwnedLast(slots, Refs);
    if Refs(slots[n])[r] > 0 { i := n; } else { i := Owner(slots[..n], r); }
  }

  lemma {:induction false} OwnerCounts(slots: seq<Slot>, i: nat, r: nat)
    requires i < |slots| && Refs(slots[i])[r] > 0
    ensures Owned(slots)[r] > 0
  {
    hide Refs;
    Ownership.OwnedLast(slots, Refs);
    if i < |slots| - 1 { OwnerCounts(slots[..|slots| - 1], i, r); }
  }

  lemma {:induction false} TwoOwnersCount(slots: seq<Slot>, i: nat, j: nat, r: nat)
    requires i < j < |slots| && Refs(slots[i])[r] > 0 && Refs(slots[j])[r] > 0
    ensures Owned(slots)[r] > 1
  {
    hide Refs;
    var n := |slots| - 1;
    Ownership.OwnedLast(slots, Refs);
    if j < n { TwoOwnersCount(slots[..n], i, j, r); } else { OwnerCounts(slots[..n], i, r); }
  }

  lemma SetCallbackAccounts(t: Table, vm: int, target: int)
    requires Accounted(t)
    ensures Accounted(SetCallback(t, vm, target).0)
  {
    hide Ownership.Owned, Upto, FirstUnused, Refs;
    var (u, slot) := SetCallback(t, vm, target);
    var r := |t.refs|;
    OneMore(t.deleted, Owned(t.slots), Upto(r), r);
    if slot.Some? {
      Ownership.OwnedUpdate(t.slots, Refs, slot.value, u.slots[slot.value]);
      FilledOwns(t.slots[slot.value], u.slots[slot.value], r);
      assert Owned(u.slots) == Owned(t.slots) + multiset{r};
    }
  }

  lemma FilledOwns(free: Slot, filled: Slot, r: nat)
    requires !free.used && filled.used && filled.callback == Some(r)
    ensures Refs(free) == multiset{} && Refs(filled) == multiset{r}
  {
  }

  lemma OneMore(deleted: multiset<nat>, owned: multiset<nat>, all: multiset<nat>, r: nat)
    requires deleted + owned == all == Upto(r)
    ensures deleted + (owned + multiset{r}) == Upto(r + 1)
    ensures deleted + multiset{r} + owned == Upto(r + 1)
  {
    assert Upto(r + 1) == all + multiset{r};
  }

  lemma UnregisterAccounts(t: Table, i: int)
    requires Accounted(t)
    ensures Accounted(Unregister(t, i))
  {
    hide Ownership.Owned, Refs;
    if 0 <= i < |t.slots| && t.slots[i].used {
      var u := Unregister(t, i);
      Ownership.OwnedUpdate(t.slots, Refs, i, u.slots[i]);
      EmptiedOwnsNothing(t.slots[i]);
      assert Owned(t.slots) == Owned(u.slots) + Refs(t.slots[i]);
      Ownership.Shuffle(t.deleted, Refs(t.slots[i]), Owned(u.slots));
    }
  }

  lemma EmptiedOwnsNothing(s: Slot)
    ensures Refs(Emptied(s)) == multiset{}
  {
  }

  lemma {:induction false} CloseAccounts(t: Table, vm: int, k: nat)
    requires Accounted(t) && k <= |t.slots|
    ensures Accounted(CloseTo(t, vm, k))
    ensures t.deleted <= CloseTo(t, vm, k).deleted
    ensures forall i :: 0 <= i < |t.slots| ==>
              CloseTo(t, vm, k).slots[i] ==
                if i < k && t.slots[i].used && t.slots[i].vm == vm then Emptied(t.slots[i]) else t.slots[i]
  {
    hide Owned, Accounted, Refs;
    if k > 0 {
      CloseAccounts(t, vm, k - 1);
      UnregisterAccounts(CloseTo(t, vm, k - 1), k - 1);
    }
  }

  // ---- runs of engines ----------------------------------------------------------------

  /** The table, and the VM of every engine created, with those still open. */
  datatype System = System(table: Table, vms: seq<int>, open: set<nat>)

  datatype Action =
    | Create(vm: int)                              // new QuickJs(...)
    | SetJsCallback(engine: nat, callback: Option<int>)   // setCallback; null is refused
    | CloseEngine(engine: nat)                     // close

  /** A closed engine refuses every call, and closing it again does nothing. */
  function Act(s: System, a: Action): System {
    match a
    case Create(vm) => s.(vms := s.vms + [vm], open := s.open + {|s.vms|})
    case SetJsCallback(e, callback) =>
      if e !in s.open || e >= |s.vms| || callback.None? then s
      else s.(table := SetCallback(s.table, s.vms[e], callback.value).0)
    case CloseEngine(e) =>
      if e !in s.open || e >= |s.vms| then s
      else s.(table := Close(s.table, s.vms[e]), open := s.open - {e})
  }

  function Run(s: System, actions: seq<Action>): System
    decreases |actions|
  {
    if actions == [] then s else Run(Act(s, actions[0]), actions[1..])
  }

  /** The action closes an open engine of the VM. */
  predicate Closes(s: System, a: Action, vm: int) {
    a.CloseEngine? && a.engine in s.open && a.engine < |s.vms| && s.vms[a.engine] == vm
  }

  /** Some action of the run closes an open engine of the VM. */
  predicate ClosesDuring(s: System, actions: seq<Action>, vm: int)
    decreases |actions|
  {
    actions != [] && (Closes(s, actions[0], vm) || ClosesDuring(Act(s, actions[0]), actions[1..], vm))
  }

  const NEW := System(Table(seq(MAX_CALLBACKS, _ => EMPTY), [], multiset{}), [], {})

  lemma ActAccounts(s: System, a: Action)
    requires Accounted(s.table)
    ensures Accounted(Act(s, a).table) && s.table.deleted <= Act(s, a).table.deleted
    ensures |s.table.refs| <= |Act(s, a).table.refs| && |Act(s, a).table.slots| == |s.table.slots|
    ensures forall r :: 0 <= r < |s.table.refs| ==> Act(s, a).table.refs[r] == s.table.refs[r]
  {
    hide Accounted, CloseTo;
    match a
    case Create(_) =>
    case SetJsCallback(e, callback) =>
      if callback.Some? && e < |s.vms| { SetCallbackAccounts(s.table, s.vms[e], callback.value); }
    case CloseEngine(e) =>
      if e < |s.vms| { CloseAccounts(s.table, s.vms[e], |s.table.slots|); }
  }

  lemma {:induction false} RunAccounts(s: System, actions: seq<Action>)
    requires Accounted(s.table)
    ensures Accounted(Run(s, actions).table) && s.table.deleted <= Run(s, actions).table.deleted
    ensures |s.table.refs| <= |Run(s, actions).table.refs|
    ensures forall r :: 0 <= r < |s.table.refs| ==> Run(s, actions).table.refs[r] == s.table.refs[r]
    decreases |actions|
  {
    hide Accounted, Act;
    if actions != [] {
      ActAccounts(s, actions[0]);
      RunAccounts(Act(s, actions[0]), actions[1..]);
    }
  }

  /** Over every run of engines, a global reference made for a callback has been deleted
      exactly once or is owned by exactly one slot. */
  lemma EveryReferenceAccountedFor(actions: seq<Action>, r: nat)
    requires r < |Run(NEW, actions).table.refs|
    ensures var t := Run(NEW, actions).table;
            && t.deleted[r] <= 1
            && (t.deleted[r] == 0 <==> exists i :: 0 <= i < |t.slots| && Lookup(t, i) == Some(r))
            && forall i, j :: 0 <= i < j < |t.slots| && Lookup(t, i) == Some(r) ==> Lookup(t, j) != Some(r)
  {
    hide Run, Accounted;
    NewAccounts();
    RunAccounts(NEW, actions);
    DeletedOnceOrOwnedOnce(Run(NEW, actions).table, r);
  }

  lemma NewAccounts()
    ensures Accounted(NEW.table)
  {
    Ownership.NothingOwned(NEW.table.slots, Refs);
  }

  /** One action leaves a used slot alone unless it closes an engine of the slot's VM. */
  lemma ActKeepsSlot(s: System, a: Action, i: nat)
    requires Accounted(s.table) && i < |s.table.slots| && s.table.slots[i].used
    requires !Closes(s, a, s.table.slots[i].vm)
    ensures i < |Act(s, a).table.slots| && Act(s, a).table.slots[i] == s.table.slots[i]
  {
    hide Accounted, CloseTo;
    if a.CloseEngine? && a.engine < |s.vms| {
      CloseAccounts(s.table, s.vms[a.engine], |s.table.slots|);
    }
  }

  /** Closing an engine of the VM deletes the slot's reference. */
  lemma CloseDeletes(s: System, a: Action, i: nat)
    requires Accounted(s.table) && i < |s.table.slots| && s.table.slots[i].used
    requires Closes(s, a, s.table.slots[i].vm)
    ensures Act(s, a).table.deleted[s.table.slots[i].callback.value] == 1
  {
    hide Ownership.Owned, Upto, CloseTo;
    var t := s.table;
    var u := Act(s, a).table;
    var r := t.slots[i].callback.value;
    CloseAccounts(t, t.slots[i].vm, |t.slots|);
    RefExists(t, i);
    DeletedOnceOrOwnedOnce(t, r);
    assert Lookup(t, i) == Some(r);
    assert forall j :: 0 <= j < |t.slots| && Lookup(t, j) == Some(r) ==> j == i;
    forall j | 0 <= j < |u.slots| ensures Lookup(u, j) != Some(r) {
      assert u.slots[j] == t.slots[j] || u.slots[j] == Emptied(t.slots[j]);
      assert Lookup(u, j) == Some(r) ==> Lookup(t, j) == Some(r);
    }
    DeletedOnceOrOwnedOnce(u, r);
  }

  lemma RefExists(t: Table, i: nat)
    requires Accounted(t) && i < |t.slots| && t.slots[i].used
    ensures t.slots[i].callback.Some? && t.slots[i].callback.value < |t.refs|
  {
    hide Ownership.Owned, Upto;
    var r := t.slots[i].callback.value;
    OwnerCounts(t.slots, i, r);
    UptoHolds(|t.refs|, r);
    assert (t.deleted + Owned(t.slots))[r] == t.deleted[r] + Owned(t.slots)[r];
  }

  /** A JavaScript function reaches the reference it was made for exactly as long as no
      engine of the same VM has been closed since. */
  lemma {:induction false} ReachesItsOwn(s: System, actions: seq<Action>, i: nat)
    requires Accounted(s.table) && i < |s.table.slots| && s.table.slots[i].used
    ensures Lookup(Run(s, actions).table, i) == s.table.slots[i].callback
            <==> !ClosesDuring(s, actions, s.table.slots[i].vm)
    decreases |actions|
  {
    hide Accounted, Act;
    if actions != [] {
      var t := Act(s, actions[0]);
      var r := s.table.slots[i].callback;
      ActAccounts(s, actions[0]);
      if Closes(s, actions[0], s.table.slots[i].vm) {
        RefExists(s.table, i);
        CloseDeletes(s, actions[0], i);
        RunAccounts(t, actions[1..]);
        DeletedOnceOrOwnedOnce(Run(t, actions[1..]).table, r.value);
      } else {
        ActKeepsSlot(s, actions[0], i);
        ReachesItsOwn(t, actions[1..], i);
      }
    }
  }

  /** The callback that setCallback registers is the one that its slot reaches, the lowest free
      one, and it is the object that was passed in. */
  lemma RegisteredIsReached(t: Table, vm: int, target: int)
    ensures var (u, slot) := SetCallback(t, vm, target);
            slot.Some? ==>
              && u.refs[|t.refs|] == target && Lookup(u, slot.value) == Some(|t.refs|)
              && Lookup(t, slot.value) == None && u.slots[slot.value].vm == vm
              && (forall j :: 0 <= j < slot.value ==> t.slots[j].used)
              && (forall j :: 0 <= j < |t.slots| && j != slot.value ==> u.slots[j] == t.slots[j])
    ensures SetCallback(t, vm, target).1.None? <==> forall i :: 0 <= i < |t.slots| ==> t.slots[i].used
  {
  }

  /** The two together, over every run: a callback set through an open engine of VM `vm` after
      any actions is the one its function reaches after any further actions, if and only if
      none of these closed an open engine of that VM. */
  lemma CallbackReachedIff(before: seq<Action>, e: nat, target: int, after: seq<Action>)
    requires var s := Run(NEW, before); e in s.open && e < |s.vms|
    requires var s := Run(NEW, before); SetCallback(s.table, s.vms[e], target).1.Some?
    ensures var s := Run(NEW, before);
            var i := SetCallback(s.table, s.vms[e], target).1.value;
            var u := Act(s, SetJsCallback(e, Some(target)));
            var v := Run(u, after).table;
            && u.table.refs == s.table.refs + [target] && |u.table.refs| <= |v.refs|
            && v.refs[|s.table.refs|] == target
            && (Lookup(v, i) == Some(|s.table.refs|) <==> !ClosesDuring(u, after, s.vms[e]))
  {
    hide Run, Accounted, ClosesDuring;
    NewAccounts();
    RunAccounts(NEW, before);
    var s := Run(NEW, before);
    var u := Act(s, SetJsCallback(e, Some(target)));
    ActAccounts(s, SetJsCallback(e, Some(target)));
    RegisteredIsReached(s.table, s.vms[e], target);
    RunAccounts(u, after);
    ReachesItsOwn(u, after, SetCallback(s.table, s.vms[e], target).1.value);
  }

  /** Engines are not independent. Two engines of one VM, a callback set in the first: once
      the second has been closed, the function of the first reaches nothing, and once a third
      has set a callback of its own, it reaches that one. */
  lemma EnginesInterfere(vm: int, mine: int, theirs: int)
    ensures var setup := [Create(vm), Create(vm), Create(vm), SetJsCallback(0, Some(mine))];
            var closed := Run(NEW, setup + [CloseEngine(1)]);
            var reused := Run(NEW, setup + [CloseEngine(1), SetJsCallback(2, Some(theirs))]);
            && Lookup(Run(NEW, setup).table, 0) == Some(0)
            && Lookup(closed.table, 0) == None && 0 in closed.open
            && Lookup(reused.table, 0) == Some(1) && reused.table.refs == [mine, theirs]
  {
    var three := System(NEW.table, [vm, vm, vm], {0, 1, 2});
    var (t, slot) := SetCallback(NEW.table, vm, mine);
    FirstIsFree(NEW.table.slots);
    var s := System(t, [vm, vm, vm], {0, 1, 2});
    NewAccounts();
    SetCallbackAccounts(NEW.table, vm, mine);
    var c := Act(s, CloseEngine(1));
    CloseAccounts(t, vm, |t.slots|);
    FirstIsFree(c.table.slots);
    var r := Act(c, SetJsCallback(2, Some(theirs)));
    var setup := [Create(vm), Create(vm), Create(vm), SetJsCallback(0, Some(mine))];
    RunSetup(vm, mine);
    RunMore(NEW, setup, [CloseEngine(1)]);
    RunMore(NEW, setup, [CloseEngine(1), SetJsCallback(2, Some(theirs))]);
    RunTwo(s, CloseEngine(1), SetJsCallback(2, Some(theirs)));
  }

  lemma FirstIsFree(slots: seq<Slot>)
    requires slots != [] && !slots[0].used
    ensures FirstUnused(slots) == 0
  {
  }

  lemma RunTwo(s: System, a: Action, b: Action)
    ensures Run(s, [a]) == Act(s, a) && Run(s, [a, b]) == Act(Act(s, a), b)
  {
    hide Act;
    assert [a, b][1..] == [b] && [a][1..] == [];
    assert Run(Act(s, a), [b]) == Run(Act(Act(s, a), b), [b][1..]);
  }

  lemma {:induction false} RunMore(s: System, xs: seq<Action>, ys: seq<Action>)
    ensures Run(s, xs + ys) == Run(Run(s, xs), ys)
    decreases |xs|
  {
    hide Act;
    if xs == [] {
      assert xs + ys == ys;
    } else {
      assert (xs + ys)[1..] == xs[1..] + ys;
      RunMore(Act(s, xs[0]), xs[1..], ys);
    }
  }

  lemma RunSetup(vm: int, mine: int)
    ensures Run(NEW, [Create(vm), Create(vm), Create(vm), SetJsCallback(0, Some(mine))])
            == System(SetCallback(NEW.table, vm, mine).0, [vm, vm, vm], {0, 1, 2})
  {
    hide SetCallback;
    RunMore(NEW, [Create(vm), Create(vm)], [Create(vm), SetJsCallback(0, Some(mine))]);
    RunTwo(NEW, Create(vm), Create(vm));
    var two := System(NEW.table, [vm, vm], {0, 1});
    assert Run(NEW, [Create(vm), Create(vm)]) == two;
    RunTwo(two, Create(vm), SetJsCallback(0, Some(mine)));
    assert [Create(vm), Create(vm)] + [Create(vm), SetJsCallback(0, Some(mine))]
        == [Create(vm), Create(vm), Create(vm), SetJsCallback(0, Some(mine))];
  }
}
