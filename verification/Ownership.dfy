/** What the timer table and the callback table have in common: slots that own references,
    and references that move between the slots and a count of those given back. */
module Options {
  datatype Option<+T> = None | Some(value: T)
}

module Ownership {
  /** All the references that the slots own, when `refs` says what one slot owns. */
  function Owned<T>(slots: seq<T>, refs: T -> multiset<nat>): multiset<nat> {
    if slots == [] then multiset{}
    else Owned(slots[..|slots| - 1], refs) + refs(slots[|slots| - 1])
  }

  lemma OwnedLast<T>(slots: seq<T>, refs: T -> multiset<nat>)
    requires slots != []
    ensures Owned(slots, refs) == Owned(slots[..|slots| - 1], refs) + refs(slots[|slots| - 1])
  {
  }

  /** Updating one slot exchanges what it owned for what it owns now. */
  lemma {:induction false} OwnedUpdate<T>(slots: seq<T>, refs: T -> multiset<nat>, i: nat, t: T)
    requires i < |slots|
    ensures Owned(slots[i := t], refs) + refs(slots[i]) == Owned(slots, refs) + refs(t)
  {
    hide Owned;
    var n := |slots| - 1;
    var more := slots[i := t];
    var last := refs(slots[n]);
    OwnedLast(slots, refs);
    OwnedLast(more, refs);
    if i < n {
      var before := slots[..n];
      assert more[..n] == before[i := t];
      OwnedUpdate(before, refs, i, t);
      Shuffle(Owned(more[..n], refs), last, refs(slots[i]));
      Shuffle(Owned(before, refs), last, refs(t));
    } else {
      assert more[..n] == slots[..n];
      Shuffle(Owned(slots[..n], refs), last, refs(t));
    }
  }

  lemma {:induction false} NothingOwned<T>(slots: seq<T>, refs: T -> multiset<nat>)
    requires forall i :: 0 <= i < |slots| ==> refs(slots[i]) == multiset{}
    ensures Owned(slots, refs) == multiset{}
  {
    if slots != [] { NothingOwned(slots[..|slots| - 1], refs); }
  }

  lemma Shuffle(a: multiset<nat>, b: multiset<nat>, c: multiset<nat>)
    ensures a + b + c == a + c + b
  {
  }
}
