/** The session store's lease: a counter in a shared document, taken and raised
    under an exclusive lock, and the authority a daemon builds on it. */
module Leases {
  import opened Basics

  datatype Raised = To(n: nat) | Lost(newer: nat)

  /** A missing or unreadable document counts as incarnation 0. */
  function Recorded(doc: Option<nat>): nat {
    if doc.Some? then doc.value else 0
  }

  /** What raising a lease of incarnation `mine` above `seen` comes to. */
  function RaiseOutcome(doc: Option<nat>, mine: nat, seen: nat): (raised: Raised)
    ensures raised.Lost? <==> mine < Recorded(doc)
    ensures raised.To? ==> Recorded(doc) < raised.n && mine < raised.n && seen < raised.n
    ensures raised.To? ==> raised.n - 1 == Recorded(doc) || raised.n - 1 == mine || raised.n - 1 == seen
    ensures raised.Lost? ==> raised.newer == Recorded(doc)
  {
    if Recorded(doc) > mine then Lost(Recorded(doc))
    else To(Max(Max(Recorded(doc), seen), mine) + 1)
  }

  /** `held()`: only a readable document with a newer incarnation takes a lease away. */
  predicate HeldBy(doc: Option<nat>, mine: nat) {
    doc.Some? ==> doc.value <= mine
  }

  /** The document, shared by every lease of the store. */
  class Store {
    var doc: Option<nat>

    constructor (doc: Option<nat>)
      ensures this.doc == doc
    {
      this.doc := doc;
    }
  }

  class Lease {
    const store: Store
    var incarnation: nat

    /** Takes the store: the document then records this lease and no newer one. */
    constructor Take(store: Store)
      modifies store
      ensures this.store == store && store.doc == Some(incarnation)
      ensures incarnation == Recorded(old(store.doc)) + 1
      ensures Held()
    {
      var next := Recorded(store.doc) + 1;
      store.doc := Some(next);
      this.store := store;
      incarnation := next;
    }

    predicate Held()
      reads this, store
    {
      HeldBy(store.doc, incarnation)
    }

    /** Puts the lease above `seen`, unless a newer daemon holds the store. The lock
        can be refused and the write to the document can fail; then nothing changes. */
    method RaiseAbove(seen: nat, lockFails: bool, writeFails: bool) returns (raised: Option<Raised>)
      modifies this, store
      ensures raised.Some? ==> raised.value == RaiseOutcome(old(store.doc), old(incarnation), seen)
      ensures raised.None? <==> lockFails || (writeFails && RaiseOutcome(old(store.doc), old(incarnation), seen).To?)
      ensures if raised.Some? && raised.value.To?
              then incarnation == raised.value.n && store.doc == Some(raised.value.n)
              else incarnation == old(incarnation) && store.doc == old(store.doc)
      ensures raised.Some? ==> (Held() <==> raised.value.To?)
    {
      if lockFails {
        return None;
      }
      var mine := incarnation;
      var current := Recorded(store.doc);
      if current > mine {
        return Some(Lost(current));
      }
      var next := Max(Max(current, seen), mine) + 1;
      if writeFails {
        return None;
      }
      store.doc := Some(next);
      incarnation := next;
      return Some(To(next));
    }
  }

  datatype Verdict = Retry | GiveUp

  /** A daemon's authority over its panes. `told` lists the calls of the hook. */
  class Authority {
    const lease: Option<Lease>
    var lost: bool
    var armed: bool
    var told: seq<nat>

    ghost predicate Valid()
      reads this
    {
      |told| <= 1 && (!lost ==> told == [])
    }

    constructor (lease: Option<Lease>)
      ensures this.lease == lease && Valid() && !lost
    {
      this.lease := lease;
      lost, armed, told := false, false, [];
    }

    method OnLost()
      requires Valid()
      modifies this`armed
      ensures Valid() && armed
    {
      armed := true;
    }

    /** Loses for good; the hook hears of it at most once, whoever calls. */
    method Lose(newer: nat)
      requires Valid()
      modifies this
      ensures Valid() && lost
      ensures old(lost) ==> told == old(told) && armed == old(armed)
      ensures !old(lost) ==> told == (if old(armed) then [newer] else [])
    {
      if lost {
        return;
      }
      lost := true;
      if armed {
        armed := false;
        told := told + [newer];
      }
    }

    method Holds() returns (holds: bool)
      requires Valid()
      modifies this
      ensures Valid() && (old(lost) ==> lost)
      ensures holds <==> lease.None? || (!old(lost) && lease.value.Held())
      ensures lease.Some? ==> holds == !lost
      // The hook hears of the document's incarnation.
      ensures told == if lease.Some? && lost && !old(lost) && old(armed) then [Recorded(lease.value.store.doc)] else old(told)
    {
      if lease.None? {
        return true;
      }
      if lost {
        return false;
      }
      if lease.value.Held() {
        return true;
      }
      Lose(Recorded(lease.value.store.doc));
      return false;
    }

    /** A holder said `newer` displaced this daemon. */
    method Displaced(newer: nat, lockFails: bool, writeFails: bool) returns (verdict: Verdict)
      requires Valid() && (lease.Some? ==> lease.value as object != this && lease.value.store as object != this)
      modifies this, if lease.Some? then {lease.value, lease.value.store as object} else {}
      ensures Valid() && (old(lost) ==> lost)
      ensures verdict.Retry? <==> lease.Some? && !old(lost) && !lockFails && !writeFails
                                  && RaiseOutcome(old(lease.value.store.doc), old(lease.value.incarnation), newer).To?
      ensures verdict.Retry? ==> !lost && newer < lease.value.incarnation && lease.value.Held()
      ensures verdict.GiveUp? && lease.Some? ==> lost
      // The hook hears of the document's incarnation if that is newer, else of the holder's.
      ensures told == if lease.None? || !lost || old(lost) || !old(armed) then old(told)
                      else [if !lockFails && old(lease.value.incarnation) < Recorded(old(lease.value.store.doc))
                            then Recorded(old(lease.value.store.doc)) else newer]
    {
      if lost || lease.None? {
        return GiveUp;
      }
      var raised := lease.value.RaiseAbove(newer, lockFails, writeFails);
      match raised {
        case Some(To(_)) =>
          return Retry;
        case Some(Lost(current)) =>
          Lose(current);
          return GiveUp;
        case None =>
          Lose(newer);
          return GiveUp;
      }
    }
  }
}
