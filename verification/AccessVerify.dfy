/** The comparison of requested user ids with verified profiles. */
module AccessVerify {
  import opened AccessControl
  import opened AccessSync
  import opened Sequences

  const HALF := 0x8000_0000

  type Id = x: int | 0 <= x < ID_LIMIT

  /** The comparator: a 32-bit difference read as a signed number. */
  function Compare(a: Id, b: Id): int {
    var d := (a - b) % ID_LIMIT;
    if d < HALF then d else d - ID_LIMIT
  }

  predicate Small(s: seq<Id>) {
    forall i :: 0 <= i < |s| ==> s[i] < HALF
  }

  /** Below 2^31 the comparator is the order of the numbers; the bound is the best possible. */
  lemma CompareOrders(a: Id, b: Id)
    ensures a < HALF && b < HALF ==> (Compare(a, b) <= 0 <==> a <= b)
    ensures Compare(HALF, 0) < 0
  {
  }

  predicate Ordered(s: seq<Id>) {
    forall i, j :: 0 <= i < j < |s| ==> Compare(s[i], s[j]) <= 0
  }

  /** What `qsort` promises: a permutation, and order where the comparator orders the elements. */
  predicate IsSorted(s: seq<Id>, r: seq<Id>) {
    multiset(r) == multiset(s) && (Small(s) ==> Ordered(r))
  }

  lemma StaysSmall(s: seq<Id>, r: seq<Id>)
    requires Small(s) && multiset(r) == multiset(s)
    ensures Small(r)
  {
    forall i | 0 <= i < |r| ensures r[i] < HALF {
      assert r[i] in multiset(r);
      assert r[i] in s;
    }
  }

  /** Two orderings of the same small ids are the same sequence. */
  lemma {:induction false} OneOrdering(r: seq<Id>, s: seq<Id>)
    requires multiset(r) == multiset(s) && Small(r) && Small(s) && Ordered(r) && Ordered(s)
    ensures r == s
  {
    hide Ordered, Small;
    SameLength(r, s);
    if r != [] {
      LeastFirst(r, s);
      LeastFirst(s, r);
      Rest(r);
      Rest(s);
      OneOrdering(r[1..], s[1..]);
    }
  }

  lemma Rest(s: seq<Id>)
    requires s != [] && Small(s) && Ordered(s)
    ensures Small(s[1..]) && Ordered(s[1..]) && s == [s[0]] + s[1..]
    ensures multiset(s[1..]) == multiset(s) - multiset{s[0]}
  {
    hide Compare;
    assert s == [s[0]] + s[1..];
  }

  lemma SameLength(r: seq<Id>, s: seq<Id>)
    requires multiset(r) == multiset(s)
    ensures |r| == |s|
  {
    assert |multiset(r)| == |r| && |multiset(s)| == |s|;
  }

  lemma LeastFirst(r: seq<Id>, s: seq<Id>)
    requires multiset(r) == multiset(s) && r != [] && s != [] && Small(r) && Small(s) && Ordered(s)
    ensures s[0] <= r[0]
  {
    assert r[0] in multiset(r);
    assert r[0] in s;
    var k :| 0 <= k < |s| && s[k] == r[0];
    if k > 0 { CompareOrders(s[0], s[k]); }
  }

  lemma {:induction false} DistinctCounts(s: seq<Id>)
    ensures Distinct(s) <==> forall x :: multiset(s)[x] <= 1
  {
    if s != [] {
      var n := |s| - 1;
      DistinctCounts(s[..n]);
      assert s == s[..n] + [s[n]];
      assert multiset(s) == multiset(s[..n]) + multiset{s[n]};
      if Distinct(s) {
        assert s[n] !in s[..n];
        assert multiset(s[..n])[s[n]] == 0;
      } else if Distinct(s[..n]) {
        assert s[n] in s[..n];
        assert multiset(s)[s[n]] >= 2;
      } else {
        var x :| multiset(s[..n])[x] > 1;
        assert multiset(s)[x] > 1;
      }
    }
  }

  /**
   The two sorted copies are compared. Equality always means the same ids; with small ids it is
   also implied by it. Profiles are distinct, so the accepted request names each user once.
   */
  method Verify(requested: seq<Id>, profiles: seq<Id>, sortedRequested: seq<Id>, sortedProfiles: seq<Id>)
    returns (ok: bool)
    requires IsSorted(requested, sortedRequested) && IsSorted(profiles, sortedProfiles)
    ensures ok ==> multiset(requested) == multiset(profiles)
    ensures ok && Distinct(profiles) ==> Distinct(requested)
    ensures Small(requested) && Small(profiles) ==> (ok <==> multiset(requested) == multiset(profiles))
  {
    SameLength(requested, sortedRequested);
    SameLength(profiles, sortedProfiles);
    ok := false;
    if |requested| == |profiles| {
      var i := 0;
      while i < |requested| && sortedRequested[i] == sortedProfiles[i]
        invariant i <= |requested| && sortedRequested[..i] == sortedProfiles[..i]
      {
        i := i + 1;
      }
      ok := i == |requested|;
      if ok {
        assert sortedRequested == sortedRequested[..i] && sortedProfiles == sortedProfiles[..i];
      }
    } else {
      DifferentLengths(requested, profiles);
    }
    DistinctCounts(requested);
    DistinctCounts(profiles);
    if Small(requested) && Small(profiles) && multiset(requested) == multiset(profiles) {
      StaysSmall(requested, sortedRequested);
      StaysSmall(profiles, sortedProfiles);
      OneOrdering(sortedRequested, sortedProfiles);
    }
  }

  lemma DifferentLengths(r: seq<Id>, s: seq<Id>)
    requires |r| != |s|
    ensures multiset(r) != multiset(s)
  {
    if multiset(r) == multiset(s) { SameLength(r, s); }
  }

  // ---- An accepted request ----

  /** The ids that the comparison reads from the request. */
  function RequestIds(items: seq<Item>): (r: seq<Id>)
    ensures |r| == |items| && forall j :: 0 <= j < |items| ==> r[j] == items[j].user % ID_LIMIT
  {
    seq(|items|, j requires 0 <= j < |items| => (items[j].user % ID_LIMIT) as Id)
  }

  lemma AcceptedProper(items: seq<Item>, profiles: seq<Id>)
    requires Distinct(profiles) && multiset(RequestIds(items)) == multiset(profiles)
    ensures Proper(items)
  {
    DistinctCounts(RequestIds(items));
    DistinctCounts(profiles);
    forall i, j | 0 <= i < j < |items| ensures Cut(items)[i].user != Cut(items)[j].user {
      assert RequestIds(items)[i] != RequestIds(items)[j];
    }
  }

  /**
   If the comparison accepts a request against distinct profiles, the transaction succeeds and leaves
   what was requested but for the lost users; if there is none, the table has exactly the profiles.
   */
  lemma AcceptedSynchronises(t: Table, rows: seq<Entry>, items: seq<Item>, profiles: seq<Id>)
    requires Holds(rows, t) && DistinctRows(rows)
    requires Distinct(profiles) && multiset(RequestIds(items)) == multiset(profiles)
    ensures Within(Rows(rows, Users(items), false, |rows|), rows)
    ensures Within(Rows(rows, Users(items), true, |rows|), rows)
    ensures Transaction(t, rows, items) == Done(Requested(Cut(items)) - Lost(rows, items))
    ensures Lost(rows, items) == {} ==> forall u :: u in Transaction(t, rows, items).table <==> u in profiles
  {
    AcceptedProper(items, profiles);
    Synchronised(t, rows, items);
    hide Transaction, Lost, AccessOf;
    forall u ensures u in Users(Cut(items)) <==> u in profiles { AskedProfiles(items, profiles, u); }
  }

  lemma AskedProfiles(items: seq<Item>, profiles: seq<Id>, u: nat)
    requires multiset(RequestIds(items)) == multiset(profiles)
    ensures u in Users(Cut(items)) <==> u in profiles
  {
    var ids := RequestIds(items);
    if u in Users(Cut(items)) {
      var j :| 0 <= j < |items| && Cut(items)[j].user == u;
      assert ids[j] == u && ids[j] in multiset(ids);
    }
    if u in profiles {
      assert u in multiset(profiles);
      assert u in ids;
      var j :| 0 <= j < |ids| && ids[j] == u;
      assert Cut(items)[j].user == u;
    }
  }
}
