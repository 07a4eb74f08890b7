// The table of requests awaiting a response, and the sequence counter. The session's
// tasks share them under a mutex and as an atomic, so each method here is one critical
// section; Sections shows that these are the session's steps.

module Pending {
  import opened Bytes
  import opened Headers

  /** When the request was registered, and the call whose oneshot the entry owns. */
  datatype Entry = Entry(since: nat, call: nat)

  type Table = map<u32, Entry>

  /** The elapsed time must exceed the timer; reaching it is not yet late. */
  predicate IsLate(e: Entry, now: nat, timer: nat) { now - e.since > timer }

  function Expired(t: Table, now: nat, timer: nat): set<u32> {
    set n | n in t && IsLate(t[n], now, timer)
  }

  /** `order` lists each element of `s` once. A hash map iterates in no fixed order. */
  ghost predicate Enumerates(order: seq<u32>, s: set<u32>) {
    && (forall n :: n in order <==> n in s)
    && (forall i, j | 0 <= i < j < |order| :: order[i] != order[j])
  }

  class PendingRequests {
    var entries: Table

    constructor ()
      ensures entries == map[]
    {
      entries := map[];
    }

    /** A registration replaces whatever was stored under the number, dropping its oneshot. */
    method Insert(number: u32, now: nat, call: nat) returns (dropped: Option<Entry>)
      modifies this
      ensures entries == old(entries)[number := Entry(now, call)]
      ensures dropped == if number in old(entries) then Some(old(entries)[number]) else None
    {
      dropped := if number in entries then Some(entries[number]) else None;
      entries := entries[number := Entry(now, call)];
    }

    method Remove(number: u32) returns (removed: Option<Entry>)
      modifies this
      ensures entries == old(entries) - {number}
      ensures removed == if number in old(entries) then Some(old(entries)[number]) else None
    {
      removed := if number in entries then Some(entries[number]) else None;
      entries := entries - {number};
    }

    /** The timeout sweep: every expired entry goes and is reported once, no other does. */
    method Sweep(now: nat, timer: nat) returns (timedOut: seq<u32>)
      modifies this
      ensures entries == old(entries) - Expired(old(entries), now, timer)
      ensures Enumerates(timedOut, Expired(old(entries), now, timer))
    {
      timedOut := [];
      ghost var before := entries;
      var unseen := entries.Keys;
      while unseen != {}
        invariant unseen <= before.Keys
        invariant entries == before - (Expired(before, now, timer) - unseen)
        invariant forall n :: n in timedOut <==> n in Expired(before, now, timer) - unseen
        invariant forall i, j | 0 <= i < j < |timedOut| :: timedOut[i] != timedOut[j]
        decreases unseen
      {
        var n :| n in unseen;
        unseen := unseen - {n};
        if IsLate(entries[n], now, timer) {
          timedOut := timedOut + [n];
          entries := entries - {n};
        }
      }
    }
  }

  /** AtomicU32::fetch_add: hands out the current value and wraps around. */
  class SequenceCounter {
    var next: u32

    constructor (first: u32)
      ensures next == first
    {
      next := first;
    }

    method FetchAdd() returns (number: u32)
      modifies this
      ensures number == old(next) && next == Low32(old(next) + 1)
    {
      number := next;
      next := if next == 0xFFFF_FFFF then 0 else next + 1;
    }
  }
}
