/** Sequences of public keys, and what taking over a fetched set makes of them. */
module KeySets {
  import opened Options

  type KeyId = string
  datatype Jwk = Jwk(id: Option<KeyId>, material: string)

  function Ids(keys: seq<Jwk>): set<KeyId> {
    set i | 0 <= i < |keys| && keys[i].id.Some? :: keys[i].id.value
  }

  predicate AllNamed(keys: seq<Jwk>) {
    forall i :: 0 <= i < |keys| ==> keys[i].id.Some?
  }

  /** No id has two keys. */
  ghost predicate DistinctIds(keys: seq<Jwk>) {
    forall i, j :: 0 <= i < j < |keys| && keys[i].id.Some? ==> keys[i].id != keys[j].id
  }

  /** The key that a look-up finds. */
  function Find(keys: seq<Jwk>, id: KeyId): Option<Jwk> {
    if keys == [] then None
    else if keys[0].id == Some(id) then Some(keys[0])
    else Find(keys[1..], id)
  }

  /** The key that a look-up would find without the first one. */
  function Second(keys: seq<Jwk>, id: KeyId): Option<Jwk> {
    if keys == [] then None
    else if keys[0].id == Some(id) then Find(keys[1..], id)
    else Second(keys[1..], id)
  }

  /** The keys with an id in the set, in order. */
  function Only(keys: seq<Jwk>, ids: set<KeyId>): seq<Jwk> {
    if keys == [] then []
    else (if keys[0].id.Some? && keys[0].id.value in ids then [keys[0]] else []) + Only(keys[1..], ids)
  }

  /** The keys without the first one of each dropped id. */
  function Without(keys: seq<Jwk>, dropped: set<KeyId>): seq<Jwk> {
    if keys == [] then []
    else if keys[0].id.Some? && keys[0].id.value in dropped then Without(keys[1..], dropped - {keys[0].id.value})
    else [keys[0]] + Without(keys[1..], dropped)
  }

  function Merged(keys: seq<Jwk>, fetched: seq<Jwk>): seq<Jwk> {
    Without(keys, Ids(keys) - Ids(fetched)) + Only(fetched, Ids(fetched) - Ids(keys))
  }

  // ---- Removing one key after the other ----

  lemma {:induction false} WithoutNone(keys: seq<Jwk>)
    ensures Without(keys, {}) == keys
  {
    if keys != [] { WithoutNone(keys[1..]); }
  }

  /** The order in which the dropped ids are dealt with does not matter. */
  lemma {:induction false} WithoutOneMore(keys: seq<Jwk>, dropped: set<KeyId>, id: KeyId)
    requires id !in dropped
    ensures Without(Without(keys, dropped), {id}) == Without(keys, dropped + {id})
  {
    if keys != [] {
      var k, rest := keys[0], keys[1..];
      if k.id.Some? && k.id.value in dropped {
        WithoutOneMore(rest, dropped - {k.id.value}, id);
        assert dropped + {id} - {k.id.value} == dropped - {k.id.value} + {id};
      } else if k.id == Some(id) {
        WithoutNone(Without(rest, dropped));
        assert dropped + {id} - {id} == dropped && {id} - {id} == {};
        assert ([k] + Without(rest, dropped))[1..] == Without(rest, dropped);
      } else {
        WithoutOneMore(rest, dropped, id);
        assert ([k] + Without(rest, dropped))[1..] == Without(rest, dropped);
      }
    }
  }

  /** Without one id, the key at its first position is missing. */
  lemma {:induction false} WithoutAt(keys: seq<Jwk>, id: KeyId, idx: nat)
    requires idx <= |keys| && (idx < |keys| ==> keys[idx].id == Some(id))
    requires forall i :: 0 <= i < idx ==> keys[i].id != Some(id)
    ensures Without(keys, {id}) == if idx < |keys| then keys[..idx] + keys[idx + 1..] else keys
  {
    if keys != [] {
      WithoutStep(keys, {id});
      hide Without;
      if idx == 0 {
        WithoutNone(keys[1..]);
        assert {id} - {id} == {};
      } else {
        assert keys[0].id != Some(id);
        WithoutAt(keys[1..], id, idx - 1);
        FirstBack(keys, idx);
      }
    }
  }

  lemma WithoutStep(keys: seq<Jwk>, dropped: set<KeyId>)
    requires keys != []
    ensures Without(keys, dropped)
            == if keys[0].id.Some? && keys[0].id.value in dropped then
                 Without(keys[1..], dropped - {keys[0].id.value})
               else [keys[0]] + Without(keys[1..], dropped)
  {
  }

  lemma FirstBack(keys: seq<Jwk>, idx: nat)
    requires 0 < idx <= |keys|
    ensures [keys[0]] + keys[1..] == keys
    ensures idx < |keys| ==> [keys[0]] + (keys[1..][..idx - 1] + keys[1..][idx..]) == keys[..idx] + keys[idx + 1..]
  {
  }

  lemma {:induction false} WithoutNamed(keys: seq<Jwk>, dropped: set<KeyId>)
    requires AllNamed(keys)
    ensures AllNamed(Without(keys, dropped))
  {
    if keys != [] {
      WithoutNamed(keys[1..], dropped);
      WithoutNamed(keys[1..], dropped - {keys[0].id.value});
    }
  }

  lemma {:induction false} OnlyNamed(keys: seq<Jwk>, ids: set<KeyId>)
    ensures AllNamed(Only(keys, ids))
  {
    if keys != [] { OnlyNamed(keys[1..], ids); }
  }

  // ---- Look-ups ----

  lemma IdsCons(keys: seq<Jwk>)
    requires keys != []
    ensures Ids(keys) == Ids(keys[1..]) + if keys[0].id.Some? then {keys[0].id.value} else {}
  {
    forall x | x in Ids(keys[1..]) ensures x in Ids(keys) {
      var i :| 0 <= i < |keys[1..]| && keys[1..][i].id.Some? && keys[1..][i].id.value == x;
      assert keys[i + 1].id.value == x;
    }
    forall x | x in Ids(keys) && (keys[0].id.None? || x != keys[0].id.value) ensures x in Ids(keys[1..]) {
      var i :| 0 <= i < |keys| && keys[i].id.Some? && keys[i].id.value == x;
      assert keys[1..][i - 1].id.value == x;
    }
  }

  lemma {:induction false} FindIds(keys: seq<Jwk>, id: KeyId)
    ensures Find(keys, id).Some? <==> id in Ids(keys)
    ensures Find(keys, id).Some? ==> Find(keys, id).value in keys && Find(keys, id).value.id == Some(id)
  {
    if keys != [] {
      hide Ids;
      IdsCons(keys);
      FindIds(keys[1..], id);
    } else {
      assert Ids(keys) == {};
    }
  }

  lemma {:induction false} FindConcat(a: seq<Jwk>, b: seq<Jwk>, id: KeyId)
    ensures Find(a + b, id) == if Find(a, id).Some? then Find(a, id) else Find(b, id)
    ensures Second(a + b, id)
              == if Second(a, id).Some? then Second(a, id) else if Find(a, id).Some? then Find(b, id) else Second(b, id)
  {
    if a == [] {
      assert a + b == b;
    } else {
      FindConcat(a[1..], b, id);
      assert (a + b)[1..] == a[1..] + b;
    }
  }

  lemma {:induction false} FindOnly(keys: seq<Jwk>, ids: set<KeyId>, id: KeyId)
    ensures Find(Only(keys, ids), id) == if id in ids then Find(keys, id) else None
    ensures Second(Only(keys, ids), id) == if id in ids then Second(keys, id) else None
  {
    if keys != [] {
      FindOnly(keys[1..], ids, id);
      var rest := Only(keys[1..], ids);
      assert ([keys[0]] + rest)[1..] == rest && [] + rest == rest;
    }
  }

  lemma {:induction false} FindWithout(keys: seq<Jwk>, dropped: set<KeyId>, id: KeyId)
    ensures Find(Without(keys, dropped), id) == if id in dropped then Second(keys, id) else Find(keys, id)
    ensures id !in dropped || Second(keys, id).None? ==> Second(Without(keys, dropped), id) == Second(keys, id)
  {
    if keys != [] {
      var rest := keys[1..];
      FindWithout(rest, dropped, id);
      if keys[0].id.Some? && keys[0].id.value in dropped {
        FindWithout(rest, dropped - {keys[0].id.value}, id);
        SecondNeedsFirst(rest, id);
      } else {
        assert ([keys[0]] + Without(rest, dropped))[1..] == Without(rest, dropped);
      }
    }
  }

  lemma {:induction false} SecondNeedsFirst(keys: seq<Jwk>, id: KeyId)
    ensures Find(keys, id).None? ==> Second(keys, id).None?
  {
    if keys != [] { SecondNeedsFirst(keys[1..], id); }
  }

  /** An id has two keys exactly when there is a second one to find. */
  lemma {:induction false} SecondIff(keys: seq<Jwk>, id: KeyId)
    ensures Second(keys, id).Some? <==> exists i, j :: 0 <= i < j < |keys| && keys[i].id == keys[j].id == Some(id)
  {
    if keys != [] {
      var rest := keys[1..];
      SecondIff(rest, id);
      FindIds(rest, id);
      assert forall i :: 0 <= i < |rest| ==> rest[i] == keys[i + 1];
      if keys[0].id == Some(id) {
        if Second(keys, id).Some? {
          var j :| 0 <= j < |rest| && rest[j].id == Some(id);
          assert keys[0].id == keys[j + 1].id == Some(id);
        } else {
          forall j | 0 < j < |keys| ensures keys[j].id != Some(id) {
            assert rest[j - 1] == keys[j] && (rest[j - 1].id == Some(id) ==> id in Ids(rest));
          }
        }
      } else if Second(rest, id).Some? {
        var i, j :| 0 <= i < j < |rest| && rest[i].id == rest[j].id == Some(id);
        assert keys[i + 1].id == keys[j + 1].id == Some(id);
      } else {
        forall i, j | 0 <= i < j < |keys| ensures !(keys[i].id == keys[j].id == Some(id)) {
          if i > 0 { assert rest[i - 1] == keys[i] && rest[j - 1] == keys[j]; }
        }
      }
    }
  }

  lemma DistinctIff(keys: seq<Jwk>)
    ensures DistinctIds(keys) <==> forall id :: Second(keys, id).None?
  {
    forall id ensures Second(keys, id).Some? ==> !DistinctIds(keys) { SecondIff(keys, id); }
    if !DistinctIds(keys) {
      var i, j :| 0 <= i < j < |keys| && keys[i].id.Some? && keys[i].id == keys[j].id;
      SecondIff(keys, keys[i].id.value);
    }
  }

  // ---- Taking over a set ----

  /**
   What a look-up finds afterwards: an id that stays keeps its key, a new id has the first key of
   the set for it, and of a dropped id the second key is left if there was one.
   */
  lemma MergedFind(keys: seq<Jwk>, fetched: seq<Jwk>, id: KeyId)
    ensures Find(Merged(keys, fetched), id)
              == if id !in Ids(keys) then Find(fetched, id)
                 else if id in Ids(fetched) then Find(keys, id)
                 else Second(keys, id)
    ensures Second(keys, id).None? && Second(fetched, id).None? ==> Second(Merged(keys, fetched), id).None?
  {
    hide Ids, Find, Second, Only, Without;
    var dropped, added := Ids(keys) - Ids(fetched), Ids(fetched) - Ids(keys);
    FindIds(keys, id);
    FindIds(fetched, id);
    FindWithout(keys, dropped, id);
    FindOnly(fetched, added, id);
    FindConcat(Without(keys, dropped), Only(fetched, added), id);
    SecondNeedsFirst(keys, id);
  }

  /** The keys of `a` are among those of `b`, in the same order. */
  predicate Among(a: seq<Jwk>, b: seq<Jwk>) {
    a == [] || (b != [] && if a[0] == b[0] then Among(a[1..], b[1..]) else Among(a, b[1..]))
  }

  lemma {:induction false} WithoutAmong(keys: seq<Jwk>, dropped: set<KeyId>)
    ensures Among(Without(keys, dropped), keys)
  {
    if keys != [] {
      var rest := keys[1..];
      if keys[0].id.Some? && keys[0].id.value in dropped {
        WithoutAmong(rest, dropped - {keys[0].id.value});
        AmongMore(Without(keys, dropped), keys);
      } else {
        WithoutAmong(rest, dropped);
        assert ([keys[0]] + Without(rest, dropped))[1..] == Without(rest, dropped);
      }
    }
  }

  lemma {:induction false} OnlyAmong(keys: seq<Jwk>, ids: set<KeyId>)
    ensures Among(Only(keys, ids), keys)
  {
    if keys != [] {
      var rest := Only(keys[1..], ids);
      OnlyAmong(keys[1..], ids);
      assert ([keys[0]] + rest)[1..] == rest && [] + rest == rest;
      if Only(keys, ids) == rest { AmongMore(rest, keys); }
    }
  }

  lemma {:induction false} AmongMore(a: seq<Jwk>, b: seq<Jwk>)
    requires b != [] && Among(a, b[1..])
    ensures Among(a, b)
  {
    if a != [] && a[0] == b[0] { AmongTail(a, b[1..]); }
  }

  lemma {:induction false} AmongTail(a: seq<Jwk>, b: seq<Jwk>)
    requires a != [] && Among(a, b)
    ensures Among(a[1..], b)
  {
    if a[0] == b[0] {
      if |a| > 1 { AmongMore(a[1..], b); }
    } else {
      AmongTail(a, b[1..]);
      AmongMore(a[1..], b);
    }
  }

  /** The keys that stay come first, in their order; the new ones follow in the order of the set. */
  lemma MergedOrder(keys: seq<Jwk>, fetched: seq<Jwk>) returns (cut: nat)
    ensures cut <= |Merged(keys, fetched)|
    ensures Among(Merged(keys, fetched)[..cut], keys) && Among(Merged(keys, fetched)[cut..], fetched)
    ensures |keys| == cut + |Ids(keys) - Ids(fetched)|
  {
    hide Ids, Only, Without, Among;
    var a, b := Without(keys, Ids(keys) - Ids(fetched)), Only(fetched, Ids(fetched) - Ids(keys));
    WithoutAmong(keys, Ids(keys) - Ids(fetched));
    OnlyAmong(fetched, Ids(fetched) - Ids(keys));
    cut := |a|;
    assert (a + b)[..cut] == a && (a + b)[cut..] == b;
    WithoutLength(keys, Ids(keys) - Ids(fetched));
  }

  /** One key less for each dropped id. */
  lemma {:induction false} WithoutLength(keys: seq<Jwk>, dropped: set<KeyId>)
    requires dropped <= Ids(keys)
    ensures |keys| == |Without(keys, dropped)| + |dropped|
  {
    if keys != [] {
      IdsCons(keys);
      hide Ids;
      if keys[0].id.Some? && keys[0].id.value in dropped {
        WithoutLength(keys[1..], dropped - {keys[0].id.value});
      } else {
        WithoutLength(keys[1..], dropped);
      }
    } else {
      assert dropped == {};
    }
  }

  lemma MergedNamed(keys: seq<Jwk>, fetched: seq<Jwk>)
    requires AllNamed(keys)
    ensures AllNamed(Merged(keys, fetched))
  {
    WithoutNamed(keys, Ids(keys) - Ids(fetched));
    OnlyNamed(fetched, Ids(fetched) - Ids(keys));
  }

  /** The store has keys for exactly the ids of the set unless a dropped id had more than one key. */
  lemma MergedIds(keys: seq<Jwk>, fetched: seq<Jwk>)
    ensures Ids(Merged(keys, fetched)) == Ids(fetched)
            <==> forall id :: id in Ids(keys) && id !in Ids(fetched) ==> Second(keys, id).None?
  {
    hide Ids, Find, Second, Merged;
    var r := Merged(keys, fetched);
    forall id ensures id in Ids(r) <==> id in Ids(fetched) || (id in Ids(keys) && Second(keys, id).Some?) {
      MergedFind(keys, fetched, id);
      FindIds(r, id);
      FindIds(keys, id);
      FindIds(fetched, id);
    }
  }

  /** With no repeated id on either side, none is repeated, and the ids are those of the set. */
  lemma MergedDistinct(keys: seq<Jwk>, fetched: seq<Jwk>)
    requires DistinctIds(keys) && DistinctIds(fetched)
    ensures DistinctIds(Merged(keys, fetched)) && Ids(Merged(keys, fetched)) == Ids(fetched)
  {
    hide Ids, Find, Second, Merged, DistinctIds;
    DistinctIff(keys);
    DistinctIff(fetched);
    DistinctIff(Merged(keys, fetched));
    forall id ensures Second(Merged(keys, fetched), id).None? {
      assert Second(keys, id).None? && Second(fetched, id).None?;
      MergedFind(keys, fetched, id);
    }
    MergedIds(keys, fetched);
  }

  /** A key can outlive its id: the set repeats an id, and the next one does not have it. */
  lemma StaleKey(a: Jwk, b: Jwk)
    requires a.id.Some? && a.id == b.id
    ensures var once := Merged([], [a, b]);
            once == [a, b] && Merged(once, []) == [b] && Find(Merged(once, []), a.id.value) == Some(b)
  {
    var id := a.id.value;
    var none, two: seq<Jwk> := [], [a, b];
    assert Ids(none) == {};
    assert two[0].id.value == id && Ids(two) == {id};
    assert {id} - {} == {id} && {} - {id} == {} && {id} - {id} == {};
    assert two[1..] == [b] && [b][1..] == none;
    assert Only([b], {id}) == [b];
    assert Only(two, {id}) == [a] + [b] == two;
    assert Without([b], {}) == [b] by { WithoutNone([b]); }
    assert Without(two, {id}) == [b];
    assert Merged(none, two) == none + two == two;
    assert Merged(two, none) == [b] + none == [b];
  }
}
