/**
 The per-key compute-once latch of one process.

 Each method is one atomic step of `hold`: the table is only touched under its guard, and a lock is
 taken or given back in one step.  Any interleaving of threads is some sequence of these calls, so
 what every call keeps holds at every moment of every interleaving.
 */
module Latch {

  /** A thread's progress through one `hold`: counted in and waiting, inside, or on its way out. */
  datatype Phase = Waiting | Inside | Leaving

  datatype Hold = Hold(thread: nat, key: string, lock: nat, phase: Phase)

  /** A table entry: the key's lock and how many holds refer to it. */
  datatype Slot = Slot(lock: nat, refs: nat)

  /** A re-entrant lock in the hands of a thread. */
  datatype Owner = Owner(thread: nat, depth: nat)

  ghost function HoldsOf(holds: map<nat, Hold>, key: string): set<nat> {
    set h | h in holds && holds[h].key == key
  }

  ghost function Insiders(holds: map<nat, Hold>, lock: nat): set<nat> {
    set h | h in holds && holds[h].lock == lock && holds[h].phase.Inside?
  }

  /** The table counts the holds of every key, and holds of a key share its lock. */
  ghost predicate TableInv(locks: map<string, Slot>, nextLock: nat, holds: map<nat, Hold>) {
    && (forall h :: h in holds ==> holds[h].key in locks && holds[h].lock == locks[holds[h].key].lock)
    && (forall k :: k in locks ==>
          locks[k].refs == |HoldsOf(holds, k)| && locks[k].refs > 0 && locks[k].lock < nextLock)
    && (forall k, l :: k in locks && l in locks && locks[k].lock == locks[l].lock ==> k == l)
  }

  /** A lock is held exactly as deep as its one owner's holds are inside. */
  ghost predicate OwnerInv(owners: map<nat, Owner>, holds: map<nat, Hold>) {
    && (forall h :: h in holds && holds[h].phase.Inside? ==>
          holds[h].lock in owners && owners[holds[h].lock].thread == holds[h].thread)
    && (forall l :: l in owners ==> owners[l].depth == |Insiders(holds, l)| && owners[l].depth > 0)
  }

  // ------------------------------------------------------------------ effects of one step

  lemma {:induction false} CountIn(locks: map<string, Slot>, nextLock: nat, holds: map<nat, Hold>, h: nat, x: Hold)
    requires TableInv(locks, nextLock, holds) && h !in holds
    requires if x.key in locks then x.lock == locks[x.key].lock else x.lock == nextLock
    ensures TableInv(locks[x.key := Slot(x.lock, if x.key in locks then locks[x.key].refs + 1 else 1)],
                     if x.key in locks then nextLock else nextLock + 1, holds[h := x])
  {
    var holds' := holds[h := x];
    forall k
      ensures |HoldsOf(holds', k)| == if k == x.key then |HoldsOf(holds, k)| + 1 else |HoldsOf(holds, k)|
    { HoldsWith(holds, h, x, k); }
    if x.key !in locks { NoHolds(locks, nextLock, holds, x.key); }
    hide HoldsOf;
  }

  lemma {:induction false} HoldsWith(holds: map<nat, Hold>, h: nat, x: Hold, k: string)
    requires h !in holds
    ensures |HoldsOf(holds[h := x], k)| == if k == x.key then |HoldsOf(holds, k)| + 1 else |HoldsOf(holds, k)|
  {
    if k == x.key { assert HoldsOf(holds[h := x], k) == HoldsOf(holds, k) + {h}; }
    else { assert HoldsOf(holds[h := x], k) == HoldsOf(holds, k); }
  }

  lemma {:induction false} NoHolds(locks: map<string, Slot>, nextLock: nat, holds: map<nat, Hold>, k: string)
    requires TableInv(locks, nextLock, holds) && k !in locks
    ensures HoldsOf(holds, k) == {}
  {}

  lemma {:induction false} SomeHold(holds: map<nat, Hold>, h: nat)
    requires h in holds
    ensures |HoldsOf(holds, holds[h].key)| > 0
  {
    assert h in HoldsOf(holds, holds[h].key);
  }

  lemma {:induction false} CountOut(locks: map<string, Slot>, nextLock: nat, holds: map<nat, Hold>, h: nat)
    requires TableInv(locks, nextLock, holds) && h in holds
    ensures holds[h].key in locks && locks[holds[h].key].refs > 0
    ensures var key := holds[h].key;
            TableInv(if locks[key].refs == 1 then locks - {key}
                     else locks[key := locks[key].(refs := locks[key].refs - 1)],
                     nextLock, holds - {h})
  {
    var x, holds' := holds[h], holds - {h};
    assert holds'[h := x] == holds;
    forall k
      ensures |HoldsOf(holds, k)| == if k == x.key then |HoldsOf(holds', k)| + 1 else |HoldsOf(holds', k)|
    { HoldsWith(holds', h, x, k); }
    forall g | g in holds'
      ensures |HoldsOf(holds', holds'[g].key)| > 0
    { SomeHold(holds', g); }
    hide HoldsOf;
  }

  lemma {:induction false} PhaseKeepsTable(locks: map<string, Slot>, nextLock: nat, holds: map<nat, Hold>, h: nat,
                                           phase: Phase)
    requires TableInv(locks, nextLock, holds) && h in holds
    ensures TableInv(locks, nextLock, holds[h := holds[h].(phase := phase)])
  {
    forall k | k in locks
      ensures HoldsOf(holds[h := holds[h].(phase := phase)], k) == HoldsOf(holds, k)
    {}
  }

  /** Holds that are not inside do not weigh on any lock. */
  lemma {:induction false} OutsideKeepsOwners(owners: map<nat, Owner>, holds: map<nat, Hold>, holds': map<nat, Hold>,
                                              h: nat)
    requires OwnerInv(owners, holds)
    requires h in holds ==> !holds[h].phase.Inside?
    requires h in holds' ==> !holds'[h].phase.Inside?
    requires holds - {h} == holds' - {h}
    ensures OwnerInv(owners, holds')
  {
    forall g | g != h
      ensures (g in holds <==> g in holds') && (g in holds ==> holds[g] == holds'[g])
    {
      assert g in holds <==> g in holds - {h};
      assert g in holds' <==> g in holds' - {h};
      if g in holds { assert holds[g] == (holds - {h})[g]; }
      if g in holds' { assert holds'[g] == (holds' - {h})[g]; }
    }
    forall l | l in owners
      ensures Insiders(holds', l) == Insiders(holds, l)
    {}
  }

  lemma {:induction false} Acquired(owners: map<nat, Owner>, holds: map<nat, Hold>, h: nat)
    requires OwnerInv(owners, holds) && h in holds && holds[h].phase.Waiting?
    requires holds[h].lock in owners ==> owners[holds[h].lock].thread == holds[h].thread
    ensures var lock := holds[h].lock;
            OwnerInv(owners[lock := Owner(holds[h].thread, (if lock in owners then owners[lock].depth else 0) + 1)],
                     holds[h := holds[h].(phase := Inside)])
  {
    var lock := holds[h].lock;
    var holds' := holds[h := holds[h].(phase := Inside)];
    assert Insiders(holds', lock) == Insiders(holds, lock) + {h};
    assert lock !in owners ==> Insiders(holds, lock) == {};
    forall l | l in owners && l != lock
      ensures Insiders(holds', l) == Insiders(holds, l)
    {}
  }

  lemma {:induction false} Released(owners: map<nat, Owner>, holds: map<nat, Hold>, h: nat)
    requires OwnerInv(owners, holds) && h in holds && holds[h].phase.Inside?
    ensures var lock := holds[h].lock;
            && lock in owners && owners[lock].depth > 0
            && OwnerInv(if owners[lock].depth == 1 then owners - {lock}
                        else owners[lock := owners[lock].(depth := owners[lock].depth - 1)],
                        holds[h := holds[h].(phase := Leaving)])
  {
    var lock := holds[h].lock;
    var holds' := holds[h := holds[h].(phase := Leaving)];
    assert Insiders(holds, lock) == Insiders(holds', lock) + {h};
    forall l | l in owners && l != lock
      ensures Insiders(holds', l) == Insiders(holds, l)
    {}
    forall g | g in holds' && holds'[g].phase.Inside?
      ensures holds'[g].lock == lock ==> owners[lock].depth != 1
    {
      if holds'[g].lock == lock { assert g in Insiders(holds', lock); }
    }
  }

  lemma {:induction false} SameLock(locks: map<string, Slot>, nextLock: nat, holds: map<nat, Hold>, h: nat)
    requires TableInv(locks, nextLock, holds) && h in holds
    ensures holds[h].key in locks && locks[holds[h].key].lock == holds[h].lock
  {}

  // ------------------------------------------------------------------ the latch

  class InflightLatch {
    var locks: map<string, Slot>
    var owners: map<nat, Owner>        // the state of the lock objects
    var nextLock: nat
    ghost var holds: map<nat, Hold>    // every `hold` between its count up and its count down

    ghost predicate Valid()
      reads this
    {
      TableInv(locks, nextLock, holds) && OwnerInv(owners, holds)
    }

    constructor ()
      ensures Valid() && locks == map[] && owners == map[] && holds == map[]
    {
      locks, owners, nextLock, holds := map[], map[], 0, map[];
    }

    /** Count a new hold in, with the key's lock or a new one. */
    method Enter(key: string, thread: nat, ghost h: nat) returns (lock: nat)
      requires Valid() && h !in holds
      modifies this`locks, this`nextLock, this`holds
      ensures Valid()
      ensures holds == old(holds)[h := Hold(thread, key, lock, Waiting)]
      ensures locks == old(locks)[key := Slot(lock, if key in old(locks) then old(locks)[key].refs + 1 else 1)]
      ensures key in old(locks) ==> lock == old(locks)[key].lock
    {
      hide TableInv, OwnerInv, HoldsOf, Insiders;
      var refs := 0;
      if key in locks {
        lock, refs := locks[key].lock, locks[key].refs;
      } else {
        lock := nextLock;
      }
      CountIn(locks, nextLock, holds, h, Hold(thread, key, lock, Waiting));
      assert holds - {h} == holds[h := Hold(thread, key, lock, Waiting)] - {h};
      OutsideKeepsOwners(owners, holds, holds[h := Hold(thread, key, lock, Waiting)], h);
      if key !in locks {
        nextLock := nextLock + 1;
      }
      locks := locks[key := Slot(lock, refs + 1)];
      holds := holds[h := Hold(thread, key, lock, Waiting)];
    }

    /** `lock.acquire()`: a free lock, or one this thread already holds. */
    method Acquire(ghost h: nat, thread: nat, lock: nat)
      requires Valid() && h in holds && holds[h].phase.Waiting? && holds[h].thread == thread && holds[h].lock == lock
      requires lock in owners ==> owners[lock].thread == thread
      modifies this`owners, this`holds
      ensures Valid()
      ensures holds == old(holds)[h := old(holds)[h].(phase := Inside)]
      ensures owners == old(owners)[lock :=
                Owner(thread, (if lock in old(owners) then old(owners)[lock].depth else 0) + 1)]
    {
      hide TableInv, OwnerInv, HoldsOf, Insiders;
      Acquired(owners, holds, h);
      PhaseKeepsTable(locks, nextLock, holds, h, Inside);
      owners := owners[lock := Owner(thread, (if lock in owners then owners[lock].depth else 0) + 1)];
      holds := holds[h := holds[h].(phase := Inside)];
    }

    /** A wait that is interrupted goes straight to the count down. */
    ghost method Interrupt(h: nat)
      requires Valid() && h in holds && holds[h].phase.Waiting?
      modifies this`holds
      ensures Valid()
      ensures holds == old(holds)[h := old(holds)[h].(phase := Leaving)]
    {
      hide TableInv, OwnerInv, HoldsOf, Insiders;
      PhaseKeepsTable(locks, nextLock, holds, h, Leaving);
      assert holds - {h} == holds[h := holds[h].(phase := Leaving)] - {h};
      OutsideKeepsOwners(owners, holds, holds[h := holds[h].(phase := Leaving)], h);
      holds := holds[h := holds[h].(phase := Leaving)];
    }

    /** `lock.release()` */
    method Release(ghost h: nat, lock: nat)
      requires Valid() && h in holds && holds[h].phase.Inside? && holds[h].lock == lock
      modifies this`owners, this`holds
      ensures Valid()
      ensures holds == old(holds)[h := old(holds)[h].(phase := Leaving)]
      ensures lock in old(owners)
      ensures owners == if old(owners)[lock].depth == 1 then old(owners) - {lock}
                        else old(owners)[lock := old(owners)[lock].(depth := old(owners)[lock].depth - 1)]
    {
      hide TableInv, OwnerInv, HoldsOf, Insiders;
      Released(owners, holds, h);
      PhaseKeepsTable(locks, nextLock, holds, h, Leaving);
      if owners[lock].depth == 1 {
        owners := owners - {lock};
      } else {
        owners := owners[lock := Owner(owners[lock].thread, owners[lock].depth - 1)];
      }
      holds := holds[h := holds[h].(phase := Leaving)];
    }

    /** Count a hold down; the last one takes the key out of the table.  The key is always there, with
        the lock this hold was given. */
    method Leave(ghost h: nat, key: string)
      requires Valid() && h in holds && holds[h].phase.Leaving? && holds[h].key == key
      modifies this`locks, this`holds
      ensures Valid()
      ensures holds == old(holds) - {h}
      ensures key in old(locks) && old(locks)[key].lock == old(holds)[h].lock
      ensures locks == if old(locks)[key].refs == 1 then old(locks) - {key}
                       else old(locks)[key := old(locks)[key].(refs := old(locks)[key].refs - 1)]
    {
      hide TableInv, OwnerInv, HoldsOf, Insiders;
      CountOut(locks, nextLock, holds, h);
      assert locks[key].lock == holds[h].lock by { SameLock(locks, nextLock, holds, h); }
      assert holds - {h} == (holds - {h}) - {h};
      OutsideKeepsOwners(owners, holds, holds - {h}, h);
      var slot := locks[key];
      if slot.refs == 1 {
        locks := locks - {key};
      } else {
        locks := locks[key := Slot(slot.lock, slot.refs - 1)];
      }
      holds := holds - {h};
    }

    /** `in_flight`: the number of keys between a count up and a count down. */
    method InFlight() returns (n: nat)
      requires Valid()
      ensures n == |set h | h in holds :: holds[h].key|
    {
      n := |locks.Keys|;
      TableIsExact(locks, owners, nextLock, holds);
    }
  }

  /** At every moment: a key is in the table iff some thread is between its count up and its count
      down; the stored count is the number of such holds; they all have the key's one lock; at most one
      thread is inside a key; and with nobody in flight the table is empty. */
  lemma {:induction false} TableIsExact(locks: map<string, Slot>, owners: map<nat, Owner>, nextLock: nat,
                                        holds: map<nat, Hold>)
    requires TableInv(locks, nextLock, holds) && OwnerInv(owners, holds)
    ensures forall k :: k in locks <==> exists h :: h in holds && holds[h].key == k
    ensures locks.Keys == set h | h in holds :: holds[h].key
    ensures forall k :: k in locks ==> locks[k].refs == |set h | h in holds && holds[h].key == k|
    ensures forall h, g :: h in holds && g in holds && holds[h].key == holds[g].key ==> holds[h].lock == holds[g].lock
    ensures forall h, g ::
              h in holds && g in holds && holds[h].key == holds[g].key && holds[h].phase.Inside?
                && holds[g].phase.Inside? ==>
                holds[h].thread == holds[g].thread
    ensures holds == map[] ==> locks == map[] && owners == map[]
  {
    forall k | k in locks
      ensures exists h :: h in holds && holds[h].key == k
    {
      assert HoldsOf(holds, k) != {};
      var h :| h in HoldsOf(holds, k);
    }
    assert forall k :: HoldsOf(holds, k) == set h | h in holds && holds[h].key == k;
    if holds == map[] {
      assert forall l :: Insiders(holds, l) == {};
    }
  }
}
