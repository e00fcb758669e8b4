/**
 The in-memory grant verifier: a hash set of consumed ids next to a heap that
 orders the same ids by expiry, proved to act as one plain map.
 Source: crates/centrald-platform/src/broker.rs
 */
module GrantVerification {
  import opened Wrappers
  import opened LedgerRecords
  import opened Grants

  datatype HeapEntry = HeapEntry(expiresAt: Time, id: GrantId)

  predicate NotAfter(a: HeapEntry, b: HeapEntry) {
    a.expiresAt < b.expiresAt || (a.expiresAt == b.expiresAt && a.id <= b.id)
  }

  predicate Ordered(order: seq<HeapEntry>) {
    forall i, k | 0 <= i < k < |order| :: NotAfter(order[i], order[k])
  }

  /** The heap holds exactly the pairs of `m`, each once. */
  ghost predicate Holds(order: seq<HeapEntry>, m: ReplaySet) {
    && (forall i | 0 <= i < |order| :: order[i].id in m && m[order[i].id] == order[i].expiresAt)
    && (forall id :: id in m ==> HeapEntry(m[id], id) in order)
    && (forall i, k | 0 <= i < k < |order| :: order[i].id != order[k].id)
  }

  lemma {:induction false} HeapSize(order: seq<HeapEntry>, m: ReplaySet)
    requires Holds(order, m)
    ensures |order| == |m|
  {
    if order == [] {
      assert m.Keys == {};
    } else {
      var head := order[0];
      var rest := m - {head.id};
      DropHead(order, m);
      HeapSize(order[1..], rest);
      assert m.Keys == rest.Keys + {head.id};
    }
  }

  lemma DropHead(order: seq<HeapEntry>, m: ReplaySet)
    requires Holds(order, m) && order != []
    ensures Holds(order[1..], m - {order[0].id})
  {
    var rest := m - {order[0].id};
    forall id | id in rest ensures HeapEntry(rest[id], id) in order[1..] {
      var k :| 0 <= k < |order| && order[k] == HeapEntry(m[id], id);
      assert order[k] == order[1..][k - 1];
    }
  }

  /** Pushing onto the heap: the entry takes its place in the order. */
  method Push(order: seq<HeapEntry>, entry: HeapEntry, ghost m: ReplaySet) returns (pushed: seq<HeapEntry>)
    requires Ordered(order) && Holds(order, m) && entry.id !in m
    ensures Ordered(pushed) && Holds(pushed, m[entry.id := entry.expiresAt])
  {
    var at := 0;
    while at < |order| && NotAfter(order[at], entry)
      invariant 0 <= at <= |order|
      invariant forall i | 0 <= i < at :: NotAfter(order[i], entry)
    {
      at := at + 1;
    }
    pushed := order[..at] + [entry] + order[at..];
    PlacedInOrder(order, entry, at);
    PlacedHolds(order, entry, at, m);
  }

  lemma PlacedInOrder(order: seq<HeapEntry>, entry: HeapEntry, at: nat)
    requires Ordered(order) && at <= |order|
    requires forall i | 0 <= i < at :: NotAfter(order[i], entry)
    requires at < |order| ==> !NotAfter(order[at], entry)
    ensures Ordered(order[..at] + [entry] + order[at..])
  {
  }

  lemma PlacedHolds(order: seq<HeapEntry>, entry: HeapEntry, at: nat, m: ReplaySet)
    requires Holds(order, m) && at <= |order| && entry.id !in m
    ensures Holds(order[..at] + [entry] + order[at..], m[entry.id := entry.expiresAt])
  {
    var pushed := order[..at] + [entry] + order[at..];
    var m' := m[entry.id := entry.expiresAt];
    forall id | id in m' ensures HeapEntry(m'[id], id) in pushed {
      if id == entry.id {
        assert pushed[at] == HeapEntry(m'[id], id);
      } else {
        var k :| 0 <= k < |order| && order[k] == HeapEntry(m[id], id);
        assert pushed[if k < at then k else k + 1] == order[k];
      }
    }
  }

  class GrantVerifier {
    const device: DeviceId
    var consumed: set<GrantId>
    var order: seq<HeapEntry>

    /** The map that the two collections stand for. */
    ghost var entries: ReplaySet

    ghost predicate Valid()
      reads this
    {
      && Ordered(order)
      && Holds(order, entries)
      && consumed == entries.Keys
    }

    constructor (device: DeviceId)
      ensures Valid() && this.device == device && entries == map[]
    {
      this.device := device;
      consumed, order, entries := {}, [], map[];
    }

    /** The heap and the set always hold the same ids, once each. */
    lemma SameIdsOnce()
      requires Valid()
      ensures |order| == |consumed| == |entries|
      ensures forall id :: id in consumed <==> exists i :: 0 <= i < |order| && order[i].id == id
    {
      HeapSize(order, entries);
      forall id | id in consumed ensures exists i :: 0 <= i < |order| && order[i].id == id {
        var i :| 0 <= i < |order| && order[i] == HeapEntry(entries[id], id);
      }
    }

    method Restore(id: GrantId, expiresAt: Time, now: Time)
      requires Valid()
      modifies this
      ensures Valid() && entries == Grants.Restore(old(entries), id, expiresAt, now)
    {
      if expiresAt <= now {
        return;
      }
      if id !in consumed {
        consumed := consumed + {id};
        order := Push(order, HeapEntry(expiresAt, id), entries);
        entries := entries[id := expiresAt];
      }
    }

    method VerifyAndConsume(grant: Grant, now: Time) returns (r: Result<(), GrantError>)
      requires Valid()
      modifies this
      ensures Valid() && (r, entries) == Consume(old(entries), grant, device, now)
    {
      var verdict := Verify(grant, device, now);
      if verdict.Err? {
        return verdict;
      }
      PruneExpired(now);
      if grant.id in consumed {
        return Err(Replay);
      }
      HeapSize(order, entries);
      if |order| >= MAX_REPLAY_ENTRIES {
        return Err(ReplaySetFull);
      }
      consumed := consumed + {grant.id};
      order := Push(order, HeapEntry(grant.expiresAt, grant.id), entries);
      entries := entries[grant.id := grant.expiresAt];
      return Ok(());
    }

    method PruneExpired(now: Time)
      requires Valid()
      modifies this
      ensures Valid() && entries == Live(old(entries), now)
    {
      while order != [] && order[0].expiresAt <= now
        invariant Valid()
        invariant forall id :: id in entries ==> id in old(entries) && entries[id] == old(entries)[id]
        invariant forall id :: id in old(entries) && id !in entries ==> old(entries)[id] <= now
        decreases |order|
      {
        var id := order[0].id;
        DropHead(order, entries);
        order := order[1..];
        consumed := consumed - {id};
        entries := entries - {id};
      }
      forall id | id in entries ensures entries[id] > now {
        var k :| 0 <= k < |order| && order[k] == HeapEntry(entries[id], id);
        assert k > 0 ==> NotAfter(order[0], order[k]);
      }
    }
  }
}
