/**
 * The process-wide pool of storage-network clients: at most `ClientSize`
 * slots, chosen by the executing thread's id, filled on first use or all at
 * once by the start-up pass.
 */
module Pool {

  /** Number of slots (`CLIENTSIZE`). */
  const ClientSize: nat := 10

  /** An opaque, expensive client handle; object identity stands for the shared `Arc`. */
  class Client {
    constructor ()
    {
    }
  }

  /** The slot a thread uses. */
  function Slot(threadId: nat): (s: nat)
    ensures s < ClientSize
  {
    threadId % ClientSize
  }

  /** The slot numbers below `n`. */
  function SlotsBelow(n: nat): (r: set<nat>)
    ensures forall k: nat :: k in r <==> k < n
  {
    if n == 0 then {} else SlotsBelow(n - 1) + {n - 1}
  }

  lemma {:induction false} SlotsBelowCount(n: nat)
    ensures |SlotsBelow(n)| == n
  {
    if n > 0 {
      SlotsBelowCount(n - 1);
    }
  }

  /** A map whose keys are all slots holds at most `ClientSize` entries. */
  lemma {:induction false} SlotsBounded<C>(slots: map<nat, C>)
    requires forall k :: k in slots ==> k < ClientSize
    ensures |slots| <= ClientSize
  {
    SlotsBelowCount(ClientSize);
    assert slots.Keys <= SlotsBelow(ClientSize);
    SubsetCount(slots.Keys, SlotsBelow(ClientSize));
  }

  lemma {:induction false} SubsetCount(a: set<nat>, b: set<nat>)
    requires a <= b
    ensures |a| <= |b|
    decreases |b|
  {
    if a != {} {
      var x :| x in a;
      SubsetCount(a - {x}, b - {x});
    }
  }

  class ClientPool {
    /** Occupied slots and their clients (`CLIENTS`). */
    var slots: map<nat, Client>

    /** Every key is a slot number, so the pool never holds more than `ClientSize` clients. */
    ghost predicate Valid()
      reads this
    {
      forall k :: k in slots ==> k < ClientSize
    }

    constructor ()
      ensures Valid() && slots == map[]
    {
      slots := map[];
    }

    /**
     * `get_client`: the client of the thread's slot. An occupied slot keeps its
     * client and the pool is unchanged; an empty one gets a fresh client and no
     * other slot changes.
     */
    method GetClient(threadId: nat) returns (c: Client)
      requires Valid()
      modifies this
      ensures Valid() && |slots| <= ClientSize
      ensures Slot(threadId) in slots && c == slots[Slot(threadId)]
      ensures Slot(threadId) in old(slots) ==> slots == old(slots) && c == old(slots)[Slot(threadId)]
      ensures Slot(threadId) !in old(slots) ==> fresh(c) && slots == old(slots)[Slot(threadId) := c]
    {
      var id := Slot(threadId);
      if id !in slots {
        var created := new Client();
        slots := slots[id := created];
      }
      c := slots[id];
      SlotsBounded(slots);
    }

    /**
     * `kickstart_clients`: puts a new client in every slot, replacing any
     * client already there, so that afterwards all slots are occupied, each
     * by its own client.
     */
    method Kickstart()
      requires Valid()
      modifies this
      ensures Valid()
      ensures forall k: nat :: k in slots <==> k < ClientSize
      ensures forall k :: k in slots ==> fresh(slots[k])
      ensures forall j, k :: j in slots && k in slots && j != k ==> slots[j] != slots[k]
    {
      for i := 0 to ClientSize
        invariant Valid()
        invariant forall k: nat :: k < i ==> k in slots
        invariant forall k :: k in slots && k < i ==> fresh(slots[k])
        invariant forall j, k :: j in slots && k in slots && j < i && k < i && j != k ==> slots[j] != slots[k]
        invariant forall k :: k in slots && k >= i ==> k in old(slots) && slots[k] == old(slots)[k]
      {
        var created := new Client();
        slots := slots[i := created];
      }
    }
  }

  /** Two threads whose ids agree modulo `ClientSize` are served by the same client. */
  method SameSlotSameClient(pool: ClientPool, t1: nat, t2: nat) returns (c1: Client, c2: Client)
    requires pool.Valid()
    requires t1 % ClientSize == t2 % ClientSize
    modifies pool
    ensures pool.Valid()
    ensures c1 == c2
  {
    c1 := pool.GetClient(t1);
    c2 := pool.GetClient(t2);
  }
}
