/** The table as the receiver keeps it: a map to entries that are refreshed in place (hybrid2/receiver.go). */
module ReceiverStates {
  import opened Base
  import Spec = ReceiverTable

  class MappingEntry {
    const destination: Addr
    var lastRefresh: Time

    constructor (destination: Addr, now: Time)
      ensures this.destination == destination && lastRefresh == now
    {
      this.destination := destination;
      lastRefresh := now;
    }

    ghost function Value(): Spec.Entry
      reads this
    {
      Spec.Entry(destination, lastRefresh)
    }

    method IsExpired(now: Time) returns (yes: bool)
      ensures yes <==> Spec.Expired(Value(), now)
    {
      yes := Elapsed(lastRefresh, now) > HASH_EXPIRY;
    }

    method Refresh(now: Time)
      modifies this
      ensures lastRefresh == now
    {
      lastRefresh := now;
    }
  }

  class ReceiverState {
    var mappings: map<SenderHash, MappingEntry>

    /** No two hashes share an entry. */
    ghost predicate Valid()
      reads this
    {
      forall h, k | h in mappings && k in mappings && mappings[h] == mappings[k] :: h == k
    }

    ghost function Contents(): Spec.Table
      reads this, mappings.Values
    {
      map h | h in mappings :: mappings[h].Value()
    }

    constructor ()
      ensures Valid() && Contents() == map[] && mappings == map[]
    {
      mappings := map[];
    }

    method RegisterSender(hash: SenderHash, destination: Addr, now: Time)
      requires Valid()
      modifies this, mappings.Values
      ensures Valid() && Contents() == Spec.Register(old(Contents()), hash, destination, now)
      ensures fresh(mappings.Values - old(mappings.Values))
    {
      if hash in mappings {
        var entry := mappings[hash];
        assert entry in mappings.Values;
        entry.Refresh(now);
        return;
      }
      var entry := new MappingEntry(destination, now);
      mappings := mappings[hash := entry];
    }

    method LookupSender(hash: SenderHash, now: Time) returns (destination: Addr, found: bool)
      ensures Spec.Lookup(Contents(), hash, now) == if found then Some(destination) else None
      ensures !found ==> destination == ""
    {
      if hash !in mappings {
        return "", false;
      }
      var expired := mappings[hash].IsExpired(now);
      if expired {
        return "", false;
      }
      return mappings[hash].destination, true;
    }

    /** The table first, then SAM; `resolved` is SAM's answer, which is registered. */
    method LookupOrResolve(hash: SenderHash, now: Time, resolved: Option<Addr>) returns (source: Addr)
      requires Valid()
      modifies this, mappings.Values
      ensures Valid()
      ensures var found := Spec.Lookup(old(Contents()), hash, now);
              && source == (if found.Some? then found.value else if resolved.Some? then resolved.value else "")
              && Contents() == if found.None? && resolved.Some?
                               then Spec.Register(old(Contents()), hash, resolved.value, now)
                               else old(Contents())
    {
      var destination, found := LookupSender(hash, now);
      if found {
        return destination;
      }
      if resolved.None? {
        return "";
      }
      RegisterSender(hash, resolved.value, now);
      source := resolved.value;
    }

    /** Visits the entries in any order, deleting as it goes. */
    method RemoveExpiredMappings(now: Time)
      requires Valid()
      modifies `mappings
      ensures Valid() && Contents() == Spec.Swept(old(Contents()), now)
      ensures mappings.Values <= old(mappings.Values)
    {
      ghost var before := mappings;
      var unseen := mappings.Keys;
      while unseen != {}
        invariant unseen <= before.Keys
        invariant mappings ==
                  map h | h in before && (h in unseen || !Spec.Expired(before[h].Value(), now)) :: before[h]
      {
        var h :| h in unseen;
        unseen := unseen - {h};
        var expired := mappings[h].IsExpired(now);
        if expired {
          mappings := mappings - {h};
        }
      }
      forall e | e in mappings.Values ensures e in before.Values {
        var h :| h in mappings && mappings[h] == e;
        assert before[h] == e;
      }
    }

    method MappingCount() returns (n: nat)
      ensures n == |Contents()|
    {
      n := |mappings|;
      assert Contents().Keys == mappings.Keys;
    }
  }
}
