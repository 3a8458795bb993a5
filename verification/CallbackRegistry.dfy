/** qjs_callback.c and the parts of quickjs_jni.c that use it, on the global array. `Model` is
    the value that module CallbackTable speaks of. */
module CallbackRegistry {
  import opened CallbackTable
  import opened Options

  class Registry {
    const callbacks: array<Slot>

    // the Java side: the object behind each global reference, and the deletions
    var refs: seq<int>
    var deleted: multiset<nat>

    ghost predicate Ready()
      reads this
    {
      callbacks.Length == MAX_CALLBACKS
    }

    ghost function Model(): Table
      reads this, callbacks
    {
      Table(callbacks[..], refs, deleted)
    }

    constructor ()
      ensures Ready() && fresh(callbacks) && Model() == NEW.table
    {
      callbacks := new Slot[MAX_CALLBACKS](_ => EMPTY);
      refs, deleted := [], multiset{};
    }

    method NewGlobalRef(target: int) returns (r: nat)
      requires Ready()
      modifies `refs
      ensures r == old(|refs|) && refs == old(refs) + [target]
    {
      r := |refs|;
      refs := refs + [target];
    }

    method DeleteGlobalRef(callback: Option<nat>)
      requires Ready()
      modifies `deleted
      ensures deleted == old(deleted) + if callback.Some? then multiset{callback.value} else multiset{}
    {
      if callback.Some? { deleted := deleted + multiset{callback.value}; }
    }

    /** register_callback: the slot, or -1 when all are taken. */
    method RegisterCallback(vm: int, callback: nat) returns (slot: int)
      requires Ready()
      modifies callbacks
      ensures var (slots, r) := Register(old(callbacks[..]), vm, callback);
              callbacks[..] == slots && slot == if r.Some? then r.value else -1
    {
      for i := 0 to MAX_CALLBACKS
        invariant callbacks[..] == old(callbacks[..])
        invariant forall j :: 0 <= j < i ==> callbacks[j].used
      {
        if !callbacks[i].used {
          callbacks[i] := Slot(vm, Some(callback), true);
          return i;
        }
      }
      return -1;
    }

    /** unregister_callback. */
    method UnregisterCallback(slot: int)
      requires Ready()
      modifies `deleted, callbacks
      ensures Model() == Unregister(old(Model()), slot)
      ensures forall i :: 0 <= i < MAX_CALLBACKS && i != slot ==> callbacks[i] == old(callbacks[i])
    {
      if 0 <= slot < MAX_CALLBACKS && callbacks[slot].used {
        DeleteGlobalRef(callbacks[slot].callback);
        callbacks[slot] := callbacks[slot].(callback := None, used := false);
      }
    }

    /** native_set_callback, on an open engine of the VM. */
    method SetCallback(vm: int, target: Option<int>) returns (slot: int)
      requires Ready()
      modifies `refs, `deleted, callbacks
      ensures if target.None? then slot == -1 && Model() == old(Model())
              else var (t, r) := CallbackTable.SetCallback(old(Model()), vm, target.value);
                   Model() == t && slot == if r.Some? then r.value else -1
    {
      if target.None? {
        return -1;
      }
      var globalRef := NewGlobalRef(target.value);
      slot := RegisterCallback(vm, globalRef);
      if slot < 0 {
        DeleteGlobalRef(Some(globalRef));
      }
    }

    /** The loop of native_close over the callbacks. */
    method Close(vm: int)
      requires Ready() && forall i :: 0 <= i < MAX_CALLBACKS && callbacks[i].used ==> callbacks[i].callback.Some?
      modifies `deleted, callbacks
      ensures Model() == CallbackTable.Close(old(Model()), vm)
    {
      for i := 0 to MAX_CALLBACKS
        invariant Model() == CloseTo(old(Model()), vm, i)
        invariant forall j :: 0 <= j < MAX_CALLBACKS && callbacks[j].used ==> callbacks[j].callback.Some?
      {
        if callbacks[i].used && callbacks[i].vm == vm {
          UnregisterCallback(i);
        }
      }
    }

    /** The lookup at the head of js_java_callback; `None` is the error it throws. */
    method FindCallback(magic: int) returns (callback: Option<nat>)
      requires Ready()
      ensures callback == Lookup(Model(), magic)
    {
      if magic < 0 || magic >= MAX_CALLBACKS || !callbacks[magic].used {
        return None;
      }
      return callbacks[magic].callback;
    }
  }
}
