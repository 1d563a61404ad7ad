/** The store of public keys that the order service refreshes from its key server. */
module Keystore {
  import opened KeySets
  import opened Options

  /** A refresh: the time, and the key server's answer unless it cannot be reached. */
  datatype Call = Call(now: int, fetched: Option<seq<Jwk>>)

  /** The store after some calls, and the positions of the calls whose set was taken over. */
  datatype Past = Past(keys: seq<Jwk>, last: int, taken: seq<nat>)

  predicate Takes(p: Past, period: nat, c: Call) {
    c.fetched.Some? && c.now > p.last + period
  }

  function After(keys: seq<Jwk>, last: int, period: nat, calls: seq<Call>): Past {
    if calls == [] then Past(keys, last, [])
    else
      var n := |calls| - 1;
      var p := After(keys, last, period, calls[..n]);
      if Takes(p, period, calls[n]) then
        Past(Merged(p.keys, calls[n].fetched.value), calls[n].now, p.taken + [n])
      else p
  }

  class Store {
    var keys: seq<Jwk>
    var lastUpdate: int
    const period: nat

    /** Every key has an id. */
    predicate Valid()
      reads this
    {
      AllNamed(keys)
    }

    /** The update time is set back so that the first refresh is due at once. */
    constructor (period: nat, now: int)
      ensures Valid() && keys == [] && this.period == period && now > lastUpdate + period
    {
      this.period := period;
      keys, lastUpdate := [], now - period - 5;
    }

    /** The position of the key; every key looked at has an id. */
    method Position(id: KeyId) returns (idx: nat)
      requires Valid()
      ensures idx <= |keys| && (idx < |keys| ==> keys[idx].id == Some(id))
      ensures forall i :: 0 <= i < idx ==> keys[i].id != Some(id)
    {
      idx := 0;
      while idx < |keys| && keys[idx].id.value != id
        invariant idx <= |keys| && forall i :: 0 <= i < idx ==> keys[i].id != Some(id)
      {
        idx := idx + 1;
      }
    }

    /** Removes, for each of the given ids in some order, the first key that has it. */
    method RemoveAll(discarded: set<KeyId>)
      requires Valid()
      modifies this`keys
      ensures Valid() && keys == Without(old(keys), discarded)
    {
      hide Without;
      var rest := discarded;
      WithoutNone(keys);
      assert discarded - rest == {};
      while rest != {}
        invariant rest <= discarded && Valid() && keys == Without(old(keys), discarded - rest)
        decreases |rest|
      {
        var id :| id in rest;
        var idx := Position(id);
        WithoutOneMore(old(keys), discarded - rest, id);
        WithoutAt(keys, id, idx);
        if idx < |keys| {
          keys := keys[..idx] + keys[idx + 1..];
        }
        assert discarded - (rest - {id}) == discarded - rest + {id};
        rest := rest - {id};
      }
      assert discarded - rest == discarded;
    }

    /** Takes over a fetched key set; the counts are those of the ids dropped and gained. */
    method Merge(fetched: seq<Jwk>) returns (numDiscarded: nat, numAdded: nat)
      requires Valid()
      modifies this`keys
      ensures Valid() && keys == Merged(old(keys), fetched)
      ensures forall id :: id in Ids(old(keys)) && id in Ids(fetched) ==> Find(keys, id) == Find(old(keys), id)
      ensures forall id :: id !in Ids(old(keys)) ==> Find(keys, id) == Find(fetched, id)
      ensures forall id :: id in Ids(old(keys)) && id !in Ids(fetched) ==> Find(keys, id) == Second(old(keys), id)
      ensures numDiscarded == |Ids(old(keys)) - Ids(fetched)| && numAdded == |Ids(fetched) - Ids(old(keys))|
    {
      hide Ids, Only, Without, Find, Second;
      var ids1, ids2 := Ids(keys), Ids(fetched);
      var added, discarded := ids2 - ids1, ids1 - ids2;
      MergedNamed(keys, fetched);
      RemoveAll(discarded);
      var gained := Filter(fetched, added);
      keys := keys + gained;
      forall id { MergedFind(old(keys), fetched, id); }
      return |discarded|, |added|;
    }

    /** Asks the key server only when the last successful refresh is older than the period. */
    method Refresh(now: int, fetched: Option<seq<Jwk>>) returns (ok: bool, next: int, numDiscarded: nat, numAdded: nat)
      requires Valid()
      modifies this`keys, this`lastUpdate
      ensures Valid()
      ensures if now <= old(lastUpdate) + period then
                && ok && keys == old(keys) && lastUpdate == old(lastUpdate) && next == lastUpdate + period - now >= 0
                && numDiscarded == numAdded == 0
              else if fetched.None? then
                !ok && keys == old(keys) && lastUpdate == old(lastUpdate)
              else
                && ok && lastUpdate == now && next == period && keys == Merged(old(keys), fetched.value)
                && numDiscarded == |Ids(old(keys)) - Ids(fetched.value)|
                && numAdded == |Ids(fetched.value) - Ids(old(keys))|
    {
      var expected := lastUpdate + period;
      if now > expected {
        if fetched.None? {
          return false, 0, 0, 0;
        }
        numDiscarded, numAdded := Merge(fetched.value);
        lastUpdate := now;
        return true, period, numDiscarded, numAdded;
      }
      return true, expected - now, 0, 0;
    }

    /** Any number of refresh calls, with what the key server would answer to each. */
    method RefreshAll(calls: seq<Call>) returns (taken: seq<nat>)
      requires Valid()
      modifies this`keys, this`lastUpdate
      ensures Valid() && Past(keys, lastUpdate, taken) == After(old(keys), old(lastUpdate), period, calls)
    {
      hide Merged;
      taken := [];
      for i := 0 to |calls|
        invariant Valid() && Past(keys, lastUpdate, taken) == After(old(keys), old(lastUpdate), period, calls[..i])
      {
        assert calls[..i + 1][..i] == calls[..i];
        var due := calls[i].now > lastUpdate + period;
        var ok, next, numDiscarded, numAdded := Refresh(calls[i].now, calls[i].fetched);
        if due && ok {
          taken := taken + [i];
        }
      }
      assert calls[..|calls|] == calls;
    }
  }

  lemma OnlyFrom(keys: seq<Jwk>, i: nat, ids: set<KeyId>)
    requires i < |keys|
    ensures Only(keys[i..], ids)
            == (if keys[i].id.Some? && keys[i].id.value in ids then [keys[i]] else []) + Only(keys[i + 1..], ids)
  {
    assert keys[i..][1..] == keys[i + 1..];
  }

  method Filter(keys: seq<Jwk>, ids: set<KeyId>) returns (r: seq<Jwk>)
    ensures r == Only(keys, ids)
  {
    r := [];
    for i := 0 to |keys|
      invariant r + Only(keys[i..], ids) == Only(keys, ids)
    {
      hide Only;
      OnlyFrom(keys, i, ids);
      if keys[i].id.Some? && keys[i].id.value in ids {
        assert r + ([keys[i]] + Only(keys[i + 1..], ids)) == r + [keys[i]] + Only(keys[i + 1..], ids);
        r := r + [keys[i]];
      }
    }
  }
}
