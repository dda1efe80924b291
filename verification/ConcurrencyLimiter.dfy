// The limiter that bounds operations in flight (src/folio_lattice/resource_limits.py).
module ConcurrencyLimiter {
  import opened Common

  datatype SlotBounds = SlotBounds(limit: nat, perKey: nat, maxKeys: nat) {
    predicate Accepted() {
      limit >= 1 && perKey >= 1 && maxKeys >= 1
    }
  }

  datatype Slots = Slots(active: map<string, nat>, total: nat)

  function ActiveOf(s: Slots, key: string): nat {
    if key in s.active then s.active[key] else 0
  }

  predicate HasSlot(b: SlotBounds, s: Slots, key: string) {
    && s.total < b.limit
    && ActiveOf(s, key) < b.perKey
    && (ActiveOf(s, key) == 0 ==> |s.active| < b.maxKeys)
  }

  function Acquired(s: Slots, key: string): Slots {
    Slots(s.active[key := ActiveOf(s, key) + 1], s.total + 1)
  }

  function Released(s: Slots, key: string): Slots {
    if ActiveOf(s, key) == 0 then s
    else Slots(if s.active[key] <= 1 then s.active - {key} else s.active[key := s.active[key] - 1],
               if s.total > 0 then s.total - 1 else 0)
  }

  class BoundedConcurrencyLimiter {
    const bounds: SlotBounds
    var active: map<string, nat>
    var total: nat

    ghost function State(): Slots reads this {
      Slots(active, total)
    }

    constructor (bounds: SlotBounds)
      requires bounds.Accepted()
      ensures this.bounds == bounds && State() == Slots(map[], 0)
    {
      this.bounds := bounds;
      active, total := map[], 0;
    }

    method TryAcquire(key: string) returns (ok: bool)
      modifies this
      ensures ok == HasSlot(bounds, old(State()), key)
      ensures State() == if ok then Acquired(old(State()), key) else old(State())
    {
      var count := if key in active then active[key] else 0;
      if total >= bounds.limit || count >= bounds.perKey || (count == 0 && |active| >= bounds.maxKeys) {
        return false;
      }
      active := active[key := count + 1];
      total := total + 1;
      ok := true;
    }

    method Release(key: string)
      modifies this
      ensures State() == Released(old(State()), key)
    {
      var count := if key in active then active[key] else 0;
      if count == 0 {
        return;
      }
      if count <= 1 {
        active := active - {key};
      } else {
        active := active[key := count - 1];
      }
      if total > 0 {
        total := total - 1;
      }
    }
  }

  // -------------------------------------------------------------- invariant

  ghost function Sum(counts: map<string, nat>): nat {
    if counts == map[] then 0
    else
      var k :| k in counts;
      counts[k] + Sum(counts - {k})
  }

  lemma {:induction false} SumWithout(counts: map<string, nat>, key: string)
    requires key in counts
    ensures Sum(counts) == counts[key] + Sum(counts - {key})
    decreases |counts|
  {
    var k :| k in counts && Sum(counts) == counts[k] + Sum(counts - {k});
    if k != key {
      SumWithout(counts - {k}, key);
      SumWithout(counts - {key}, k);
      assert counts - {k} - {key} == counts - {key} - {k};
    }
  }

  lemma SumWith(counts: map<string, nat>, key: string, n: nat)
    ensures Sum(counts[key := n]) == n + Sum(counts - {key})
  {
    SumWithout(counts[key := n], key);
    assert counts[key := n] - {key} == counts - {key};
  }

  // The limiter's state stands for the operations in flight, each under its key.
  ghost predicate Represents(b: SlotBounds, s: Slots, inFlight: multiset<string>) {
    && (forall k :: ActiveOf(s, k) == inFlight[k])
    && (forall k :: k in s.active ==> 1 <= s.active[k] <= b.perKey)
    && s.total == |inFlight| == Sum(s.active)
    && s.total <= b.limit
    && |s.active| <= b.maxKeys
  }

  /** A slot is free exactly when the operations in flight leave room in all three bounds. */
  lemma SlotIffRoom(b: SlotBounds, s: Slots, inFlight: multiset<string>, key: string)
    requires Represents(b, s, inFlight)
    ensures HasSlot(b, s, key) <==>
              && |inFlight| < b.limit && inFlight[key] < b.perKey
              && (key in inFlight || |set k | k in inFlight| < b.maxKeys)
  {
    hide Sum;
    assert ActiveOf(s, key) == inFlight[key];
    forall k ensures k in s.active <==> k in inFlight {
      assert ActiveOf(s, k) == inFlight[k];
    }
    assert s.active.Keys == set k | k in inFlight;
  }

  lemma AcquireRepresents(b: SlotBounds, s: Slots, inFlight: multiset<string>, key: string)
    requires Represents(b, s, inFlight) && HasSlot(b, s, key)
    ensures Represents(b, Acquired(s, key), inFlight + multiset{key})
  {
    var more := Acquired(s, key);
    assert Sum(more.active) == s.total + 1 by {
      SumWith(s.active, key, ActiveOf(s, key) + 1);
      if key in s.active {
        SumWithout(s.active, key);
      } else {
        assert s.active - {key} == s.active;
      }
    }
    hide Sum;
    assert forall k :: k != key ==> ActiveOf(more, k) == ActiveOf(s, k);
    assert |more.active| <= b.maxKeys by {
      if key in s.active {
        assert more.active.Keys == s.active.Keys;
      }
    }
  }

  lemma ReleaseRepresents(b: SlotBounds, s: Slots, inFlight: multiset<string>, key: string)
    requires Represents(b, s, inFlight) && key in inFlight
    ensures Represents(b, Released(s, key), inFlight - multiset{key})
  {
    hide Sum;
    assert ActiveOf(s, key) == inFlight[key] > 0;
    SumWithout(s.active, key);
    SumWith(s.active, key, (s.active[key] - 1) as nat);
  }

  /** Releasing an operation that was just admitted restores the state exactly. */
  lemma ReleaseUndoesAcquire(b: SlotBounds, s: Slots, inFlight: multiset<string>, key: string)
    requires Represents(b, s, inFlight)
    ensures Released(Acquired(s, key), key) == s
  {
    hide Sum;
    if key !in s.active {
      assert s.active[key := 1] - {key} == s.active;
    }
  }
}
