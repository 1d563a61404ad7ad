/** What the key store holds after any sequence of refresh calls. */
module KeystoreHistory {
  import opened KeySets
  import opened Keystore

  /** A call takes over a set exactly when one was fetched more than a period after the last one taken. */
  lemma {:induction false} TakenIff(keys: seq<Jwk>, last: int, period: nat, calls: seq<Call>, i: nat)
    requires i < |calls|
    ensures i in After(keys, last, period, calls).taken
            <==> calls[i].fetched.Some? && calls[i].now > After(keys, last, period, calls[..i]).last + period
  {
    hide Merged;
    var n := |calls| - 1;
    TakenBefore(keys, last, period, calls[..n]);
    if i < n {
      TakenIff(keys, last, period, calls[..n], i);
      assert calls[..n][..i] == calls[..i];
    }
  }

  lemma {:induction false} TakenBefore(keys: seq<Jwk>, last: int, period: nat, calls: seq<Call>)
    ensures forall i :: i in After(keys, last, period, calls).taken ==> i < |calls| && calls[i].fetched.Some?
  {
    hide Merged;
    if calls != [] { TakenBefore(keys, last, period, calls[..|calls| - 1]); }
  }

  /** The time of the last set taken over, and that any two are more than a period apart. */
  ghost predicate Spaced(last: int, period: nat, calls: seq<Call>, p: Past) {
    && (forall j :: 0 <= j < |p.taken| ==> p.taken[j] < |calls| && calls[p.taken[j]].now > last + period)
    && (forall j, k :: 0 <= j < k < |p.taken| ==> calls[p.taken[k]].now > calls[p.taken[j]].now + period)
    && p.last == if p.taken == [] then last else calls[p.taken[|p.taken| - 1]].now
  }

  lemma SpacedSnoc(last: int, period: nat, calls: seq<Call>, c: Call, p: Past, keys: seq<Jwk>)
    requires Spaced(last, period, calls, p)
    ensures Spaced(last, period, calls + [c], p)
    ensures c.now > p.last + period ==> Spaced(last, period, calls + [c], Past(keys, c.now, p.taken + [|calls|]))
  {
    assert forall j :: 0 <= j < |p.taken| ==> (calls + [c])[p.taken[j]] == calls[p.taken[j]];
  }

  lemma {:induction false} TakenApart(keys: seq<Jwk>, last: int, period: nat, calls: seq<Call>)
    ensures Spaced(last, period, calls, After(keys, last, period, calls))
  {
    if calls != [] {
      hide Merged, Spaced;
      var n := |calls| - 1;
      var p := After(keys, last, period, calls[..n]);
      TakenApart(keys, last, period, calls[..n]);
      assert calls[..n] + [calls[n]] == calls;
      if Takes(p, period, calls[n]) {
        SpacedSnoc(last, period, calls[..n], calls[n], p, Merged(p.keys, calls[n].fetched.value));
      } else {
        SpacedSnoc(last, period, calls[..n], calls[n], p, []);
      }
    }
  }

  // ---- The keys ----

  function SetOf(calls: seq<Call>, i: nat): seq<Jwk> {
    if i < |calls| && calls[i].fetched.Some? then calls[i].fetched.value else []
  }

  /** The set that was taken over last. */
  function Latest(calls: seq<Call>, p: Past): seq<Jwk> {
    if p.taken == [] then [] else SetOf(calls, p.taken[|p.taken| - 1])
  }

  /** No set that was taken over repeats an id. */
  ghost predicate NoRepeats(calls: seq<Call>, p: Past) {
    forall i :: i in p.taken ==> DistinctIds(SetOf(calls, i))
  }

  lemma NoneBefore(keys: seq<Jwk>, last: int, period: nat, calls: seq<Call>)
    requires calls != [] && NoRepeats(calls, After(keys, last, period, calls))
    ensures NoRepeats(calls[..|calls| - 1], After(keys, last, period, calls[..|calls| - 1]))
  {
    hide Merged, DistinctIds, SetOf;
    var n := |calls| - 1;
    var p, q := After(keys, last, period, calls[..n]), After(keys, last, period, calls);
    TakenBefore(keys, last, period, calls[..n]);
    SetsStay(calls);
    forall i | i in p.taken ensures DistinctIds(SetOf(calls[..n], i)) {
      assert i in q.taken;
    }
  }

  lemma SetsStay(calls: seq<Call>)
    requires calls != []
    ensures forall i :: 0 <= i < |calls| - 1 ==> SetOf(calls[..|calls| - 1], i) == SetOf(calls, i)
  {
  }

  lemma TakenStay(calls: seq<Call>, taken: seq<nat>)
    requires calls != [] && forall i :: i in taken ==> i < |calls| - 1
    ensures forall m :: 0 <= m < |taken| ==> SetOf(calls[..|calls| - 1], taken[m]) == SetOf(calls, taken[m])
  {
    hide SetOf;
    SetsStay(calls);
    assert forall m :: 0 <= m < |taken| ==> taken[m] in taken;
  }

  /** A store that started empty has one key for each id of the latest set, and no other. */
  lemma {:induction false} LatestIds(last: int, period: nat, calls: seq<Call>)
    requires NoRepeats(calls, After([], last, period, calls))
    ensures var p := After([], last, period, calls); DistinctIds(p.keys) && Ids(p.keys) == Ids(Latest(calls, p))
  {
    if calls != [] {
      hide Merged, DistinctIds, Ids, SetOf;
      var n := |calls| - 1;
      var p := After([], last, period, calls[..n]);
      SetsStay(calls);
      TakenBefore([], last, period, calls[..n]);
      NoneBefore([], last, period, calls);
      LatestIds(last, period, calls[..n]);
      if Takes(p, period, calls[n]) {
        assert n in (p.taken + [n]);
        ItsSet(calls, n);
        MergedDistinct(p.keys, calls[n].fetched.value);
      }
    }
  }

  lemma ItsSet(calls: seq<Call>, i: nat)
    requires i < |calls| && calls[i].fetched.Some?
    ensures SetOf(calls, i) == calls[i].fetched.value
  {
  }

  /** The id is in every set taken over from the `j`-th on, and not in the one before. */
  predicate Since(calls: seq<Call>, taken: seq<nat>, j: nat, id: KeyId) {
    && j < |taken|
    && (forall m :: j <= m < |taken| ==> id in Ids(SetOf(calls, taken[m])))
    && (j > 0 ==> id !in Ids(SetOf(calls, taken[j - 1])))
  }

  lemma SinceStays(calls: seq<Call>, taken: seq<nat>, j: nat, id: KeyId)
    requires calls != [] && Since(calls[..|calls| - 1], taken, j, id) && forall i :: i in taken ==> i < |calls| - 1
    ensures Since(calls, taken, j, id)
  {
    hide SetOf, Ids;
    TakenStay(calls, taken);
  }

  /** One more set has been taken over: the id is new with it, or has been there before. */
  lemma SinceOneMore(calls: seq<Call>, taken: seq<nat>, n: nat, j: nat, id: KeyId) returns (k: nat)
    requires n + 1 == |calls| && forall i :: i in taken ==> i < n
    requires taken != [] && id in Ids(SetOf(calls, taken[|taken| - 1])) ==> Since(calls[..n], taken, j, id)
    ensures id in Ids(SetOf(calls, n)) ==> Since(calls, taken + [n], k, id)
    ensures k == if taken != [] && id in Ids(SetOf(calls, taken[|taken| - 1])) then j else |taken|
  {
    hide SetOf, Ids;
    TakenStay(calls, taken);
    k := if taken != [] && id in Ids(SetOf(calls, taken[|taken| - 1])) then j else |taken|;
  }

  lemma SecondNone(keys: seq<Jwk>, id: KeyId)
    requires DistinctIds(keys)
    ensures Second(keys, id).None?
  {
    DistinctIff(keys);
  }

  /** The key for the id is the one that came with the first of the sets that have had it since. */
  predicate CameWith(calls: seq<Call>, p: Past, id: KeyId, j: nat) {
    if id in Ids(Latest(calls, p)) then
      Since(calls, p.taken, j, id) && Find(p.keys, id) == Find(SetOf(calls, p.taken[j]), id)
    else Find(p.keys, id).None?
  }

  lemma OneMoreSet(calls: seq<Call>, p: Past, n: nat, id: KeyId, j: nat) returns (k: nat)
    requires n + 1 == |calls| && calls[n].fetched.Some? && forall i :: i in p.taken ==> i < n
    requires CameWith(calls[..n], p, id, j) && DistinctIds(p.keys) && Ids(p.keys) == Ids(Latest(calls[..n], p))
    ensures CameWith(calls, Past(Merged(p.keys, calls[n].fetched.value), calls[n].now, p.taken + [n]), id, k)
  {
    hide Merged, DistinctIds, Ids, SetOf, Find, Since, Second;
    var fetched := calls[n].fetched.value;
    TakenStay(calls, p.taken);
    ItsSet(calls, n);
    NoIds();
    SecondNone(p.keys, id);
    MergedFind(p.keys, fetched, id);
    FindIds(fetched, id);
    k := SinceOneMore(calls, p.taken, n, j, id);
    if id in Ids(p.keys) { assert (p.taken + [n])[j] == p.taken[j] by { SinceWithin(calls[..n], p.taken, j, id); } }
  }

  lemma SinceWithin(calls: seq<Call>, taken: seq<nat>, j: nat, id: KeyId)
    requires Since(calls, taken, j, id)
    ensures j < |taken|
  {
  }

  lemma NoIds()
    ensures Ids([]) == {}
  {
  }

  lemma SameSets(calls: seq<Call>, p: Past, id: KeyId, j: nat)
    requires calls != [] && CameWith(calls[..|calls| - 1], p, id, j) && forall i :: i in p.taken ==> i < |calls| - 1
    ensures CameWith(calls, p, id, j)
  {
    hide Ids, SetOf, Find, Since;
    TakenStay(calls, p.taken);
    if id in Ids(Latest(calls, p)) {
      SinceWithin(calls[..|calls| - 1], p.taken, j, id);
      SinceStays(calls, p.taken, j, id);
    }
  }

  /** Later sets do not replace a key while they have its id. */
  lemma {:induction false} KeyOrigin(last: int, period: nat, calls: seq<Call>, id: KeyId) returns (j: nat)
    requires NoRepeats(calls, After([], last, period, calls))
    ensures CameWith(calls, After([], last, period, calls), id, j)
  {
    j := 0;
    if calls != [] {
      hide Merged, DistinctIds, Ids, CameWith, NoRepeats, Latest;
      var n := |calls| - 1;
      var p := After([], last, period, calls[..n]);
      TakenBefore([], last, period, calls[..n]);
      NoneBefore([], last, period, calls);
      LatestIds(last, period, calls[..n]);
      j := KeyOrigin(last, period, calls[..n], id);
      if Takes(p, period, calls[n]) {
        j := OneMoreSet(calls, p, n, id, j);
      } else {
        SameSets(calls, p, id, j);
      }
    } else {
      NoIds();
    }
  }
}
