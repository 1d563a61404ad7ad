/** The transaction built from the three lists turns the table into what was requested. */
module AccessSync {
  import opened AccessControl

  /** The access list of one file. */
  type Table = map<nat, Access>

  predicate Within(idx: seq<nat>, rows: seq<Entry>) {
    forall k :: 0 <= k < |idx| ==> idx[k] < |rows|
  }

  /** `DELETE` of the listed rows. */
  function DeleteAll(t: Table, rows: seq<Entry>, idx: seq<nat>): Table
    requires Within(idx, rows)
  {
    if idx == [] then t
    else
      var n := |idx| - 1;
      DeleteAll(t, rows, idx[..n]) - {rows[idx[n]].user}
  }

  /** `UPDATE` of the listed rows; a row that is not there stays away. */
  function UpdateAll(t: Table, rows: seq<Entry>, idx: seq<nat>): Table
    requires Within(idx, rows)
  {
    if idx == [] then t
    else
      var n := |idx| - 1;
      var s := UpdateAll(t, rows, idx[..n]);
      var e := rows[idx[n]];
      if e.user in s then s[e.user := e.access] else s
  }

  datatype Outcome = Done(table: Table) | DuplicateKey

  /** `INSERT` of new rows; an existing key fails the transaction. */
  function InsertAll(t: Table, news: seq<Entry>): Outcome {
    if news == [] then Done(t)
    else
      var n := |news| - 1;
      var s := InsertAll(t, news[..n]);
      if s.DuplicateKey? || news[n].user in s.table then DuplicateKey
      else Done(s.table[news[n].user := news[n].access])
  }

  ghost predicate DistinctRows(rows: seq<Entry>) {
    forall i, j :: 0 <= i < j < |rows| ==> rows[i].user != rows[j].user
  }

  ghost predicate DistinctItems(items: seq<Item>) {
    forall i, j :: 0 <= i < j < |items| ==> items[i].user != items[j].user
  }

  function RowUsers(rows: seq<Entry>): set<nat> {
    set i | 0 <= i < |rows| :: rows[i].user
  }

  /** The table has exactly the rows, whose user ids have 32 bits. */
  ghost predicate Holds(rows: seq<Entry>, t: Table) {
    && t.Keys == RowUsers(rows)
    && forall i :: 0 <= i < |rows| ==>
      rows[i].user < ID_LIMIT && rows[i].user in t && t[rows[i].user] == rows[i].access
  }

  /** What the elements ask for; the first one for a user counts. */
  function Requested(items: seq<Item>): (t: Table) {
    map u | u in Users(items) :: AccessOf(items, u)
  }

  function AccessOf(items: seq<Item>, user: nat): Access
    requires user in Users(items)
  {
    items[First(items, user)].access
  }

  lemma {:induction false} RowsAre(rows: seq<Entry>, users: set<nat>, wanted: bool, n: nat)
    requires n <= |rows|
    ensures forall i :: i in Rows(rows, users, wanted, n) <==> 0 <= i < n && (rows[i].user in users) == wanted
  {
    if n > 0 {
      RowsAre(rows, users, wanted, n - 1);
    }
  }

  predicate Ascending(s: seq<nat>) {
    forall a, b :: 0 <= a < b < |s| ==> s[a] < s[b]
  }

  /** A list names each of its rows once, in order. */
  lemma {:induction false} RowsAscend(rows: seq<Entry>, users: set<nat>, wanted: bool, n: nat)
    requires n <= |rows|
    ensures Ascending(Rows(rows, users, wanted, n))
  {
    if n > 0 {
      RowsAscend(rows, users, wanted, n - 1);
      RowsAre(rows, users, wanted, n - 1);
      LastAscends(Rows(rows, users, wanted, n - 1), n - 1);
    }
  }

  lemma LastAscends(s: seq<nat>, x: nat)
    requires Ascending(s) && forall a :: a in s ==> a < x
    ensures Ascending(s + [x])
  {
    assert forall a :: 0 <= a < |s| ==> s[a] in s;
  }

  lemma {:induction false} AfterDelete(t: Table, rows: seq<Entry>, idx: seq<nat>)
    requires Within(idx, rows)
    ensures var s := DeleteAll(t, rows, idx);
            && (forall u :: u in s <==> u in t && forall k :: 0 <= k < |idx| ==> rows[idx[k]].user != u)
            && (forall u :: u in s ==> s[u] == t[u])
  {
    if idx != [] {
      var n := |idx| - 1;
      AfterDelete(t, rows, idx[..n]);
    }
  }

  lemma {:induction false} AfterUpdate(t: Table, rows: seq<Entry>, idx: seq<nat>)
    requires DistinctRows(rows) && Within(idx, rows)
    ensures var s := UpdateAll(t, rows, idx);
            && s.Keys == t.Keys
            && forall k :: 0 <= k < |idx| && rows[idx[k]].user in t ==> s[rows[idx[k]].user] == rows[idx[k]].access
  {
    if idx != [] {
      var n := |idx| - 1;
      AfterUpdate(t, rows, idx[..n]);
    }
  }

  lemma UsersSnoc(rows: seq<Entry>)
    requires rows != []
    ensures RowUsers(rows) == RowUsers(rows[..|rows| - 1]) + {rows[|rows| - 1].user}
    ensures DistinctRows(rows) ==> rows[|rows| - 1].user !in RowUsers(rows[..|rows| - 1])
  {
    var n := |rows| - 1;
    forall i | 0 <= i < |rows| ensures rows[i].user in RowUsers(rows[..n]) + {rows[n].user} {
      if i < n { assert rows[..n][i] == rows[i]; }
    }
    forall i | 0 <= i < n ensures rows[..n][i].user in RowUsers(rows) {
      assert rows[..n][i] == rows[i];
    }
    assert rows[n].user in RowUsers(rows);
  }

  lemma {:induction false} AfterInsert(t: Table, news: seq<Entry>)
    requires DistinctRows(news) && RowUsers(news) !! t.Keys
    ensures var o := InsertAll(t, news);
            && o.Done? && o.table.Keys == t.Keys + RowUsers(news)
            && (forall u :: u in t ==> o.table[u] == t[u])
            && (forall i :: 0 <= i < |news| ==> o.table[news[i].user] == news[i].access)
  {
    if news != [] {
      var n := |news| - 1;
      UsersSnoc(news);
      AfterInsert(t, news[..n]);
      hide RowUsers;
      assert forall i :: 0 <= i < n ==> news[..n][i] == news[i];
    }
  }

  lemma {:induction false} UsedAre(rows: seq<Entry>, items: seq<Item>, n: nat, j: nat)
    requires n <= |rows| && DistinctItems(items) && j < |items|
    ensures j in Used(rows, items, n) <==> exists i :: 0 <= i < n && rows[i].user == items[j].user
  {
    if n > 0 {
      UsedAre(rows, items, n - 1, j);
      var f := First(items, rows[n - 1].user);
      assert f == j <==> rows[n - 1].user == items[j].user;
    }
  }

  /** The users of the unmarked elements. */
  function Unmarked(items: seq<Item>): set<nat> {
    set j | 0 <= j < |items| && items[j].mark.Unused? :: items[j].user
  }

  lemma UnmarkedSnoc(items: seq<Item>)
    requires items != []
    ensures var n := |items| - 1;
            if items[n].mark.Unused? then Unmarked(items) == Unmarked(items[..n]) + {items[n].user}
            else Unmarked(items) == Unmarked(items[..n])
  {
    var n := |items| - 1;
    forall j | 0 <= j < n ensures items[..n][j] == items[j] {}
    forall u | u in Unmarked(items) ensures u in Unmarked(items[..n]) || (items[n].mark.Unused? && u == items[n].user) {
      var j :| 0 <= j < |items| && items[j].mark.Unused? && items[j].user == u;
      if j < n { assert items[..n][j].user == u; }
    }
    forall u | u in Unmarked(items[..n]) ensures u in Unmarked(items) {
      var j :| 0 <= j < n && items[..n][j].mark.Unused? && items[..n][j].user == u;
      assert items[j].user == u;
    }
  }

  /** The new rows have distinct users, those of the unmarked elements. */
  lemma {:induction false} NewRowsUsers(items: seq<Item>)
    requires DistinctItems(items) && forall j :: 0 <= j < |items| ==> items[j].user < ID_LIMIT
    ensures RowUsers(NewRows(items)) == Unmarked(items) && DistinctRows(NewRows(items))
  {
    if items == [] {
      NoRows();
      hide NewRows, Unmarked, RowUsers, DistinctRows, DistinctItems;
      assert items == [];
    } else {
      UserBefore(items);
      hide NewRows, Unmarked, RowUsers, DistinctRows, DistinctItems, NewRow;
      var n := |items| - 1;
      NewRowsUsers(items[..n]);
      UnmarkedSnoc(items);
      NewRowsLast(items);
      if items[n].mark.Unused? {
        RowOfItem(items[n]);
        OneMoreRow(NewRows(items[..n]), NewRow(items[n]));
      }
    }
  }

  lemma RowOfItem(item: Item)
    requires item.user < ID_LIMIT
    ensures NewRow(item).user == item.user
  {
  }

  lemma OneMoreRow(rows: seq<Entry>, e: Entry)
    requires DistinctRows(rows) && e.user !in RowUsers(rows)
    ensures RowUsers(rows + [e]) == RowUsers(rows) + {e.user} && DistinctRows(rows + [e])
  {
    DistinctSnoc(rows, e);
    hide RowUsers, DistinctRows;
    assert (rows + [e])[..|rows|] == rows;
    UsersSnoc(rows + [e]);
  }

  lemma NoRows()
    ensures NewRows([]) == [] && RowUsers([]) == {} && Unmarked([]) == {} && DistinctRows([])
  {
  }

  lemma UserBefore(items: seq<Item>)
    requires DistinctItems(items) && items != []
    ensures items[|items| - 1].user !in Unmarked(items[..|items| - 1]) && DistinctItems(items[..|items| - 1])
  {
  }

  lemma DistinctSnoc(rows: seq<Entry>, e: Entry)
    requires DistinctRows(rows) && e.user !in RowUsers(rows)
    ensures DistinctRows(rows + [e])
  {
    assert forall i :: 0 <= i < |rows| ==> rows[i].user in RowUsers(rows);
  }

  lemma AccessIs(items: seq<Item>, j: nat)
    requires DistinctItems(items) && j < |items|
    ensures items[j].user in Users(items) && AccessOf(items, items[j].user) == items[j].access
  {
    FirstIs(items, items[j].user, j);
  }

  lemma {:induction false} NewRowsAccess(items: seq<Item>, all: seq<Item>, i: nat)
    requires DistinctItems(all) && forall j :: 0 <= j < |all| ==> all[j].user < ID_LIMIT
    requires |items| <= |all|
    requires forall j :: 0 <= j < |items| ==> items[j].user == all[j].user && items[j].access == all[j].access
    requires i < |NewRows(items)|
    ensures NewRows(items)[i].user in Users(all) && NewRows(items)[i].access == AccessOf(all, NewRows(items)[i].user)
  {
    hide AccessOf;
    var n := |items| - 1;
    if i < |NewRows(items[..n])| {
      NewRowsAccess(items[..n], all, i);
    } else {
      assert NewRows(items)[i] == NewRow(items[n]);
      AccessIs(all, n);
    }
  }

  /** The elements with their user ids cut to 32 bits. */
  function Cut(items: seq<Item>): (r: seq<Item>)
    ensures |r| == |items|
    ensures forall j :: 0 <= j < |items| ==> r[j] == items[j].(user := items[j].user % ID_LIMIT)
  {
    seq(|items|, j requires 0 <= j < |items| => items[j].(user := items[j].user % ID_LIMIT))
  }

  /** One element per user, after the ids have been cut. */
  ghost predicate Proper(items: seq<Item>) {
    DistinctItems(Cut(items))
  }

  /** Users whose element came with a mark of its own and who have no row: nothing is inserted for them. */
  function Lost(rows: seq<Entry>, items: seq<Item>): set<nat> {
    set j | 0 <= j < |items| && items[j].mark.Updating? && items[j].user !in RowUsers(rows) :: items[j].user % ID_LIMIT
  }

  function Transaction(t: Table, rows: seq<Entry>, items: seq<Item>): Outcome
    requires Within(Rows(rows, Users(items), false, |rows|), rows)
    requires Within(Rows(rows, Users(items), true, |rows|), rows)
  {
    var kept := DeleteAll(t, rows, Rows(rows, Users(items), false, |rows|));
    var renewed := UpdateAll(kept, RowsDone(rows, items, |rows|), Rows(rows, Users(items), true, |rows|));
    InsertAll(renewed, NewRows(Marked(rows, items, |rows|)))
  }

  lemma ListsWithin(rows: seq<Entry>, users: set<nat>, wanted: bool)
    ensures Within(Rows(rows, users, wanted, |rows|), rows)
  {
    RowsAre(rows, users, wanted, |rows|);
    var r := Rows(rows, users, wanted, |rows|);
    forall k | 0 <= k < |r| ensures r[k] < |rows| {
      assert r[k] in r;
    }
  }

  /** Deleting leaves the rows whose user is requested. */
  lemma Deletes(t: Table, rows: seq<Entry>, users: set<nat>)
    requires Holds(rows, t)
    ensures Within(Rows(rows, users, false, |rows|), rows)
    ensures DeleteAll(t, rows, Rows(rows, users, false, |rows|)).Keys == t.Keys * users
  {
    ListsWithin(rows, users, false);
    var idx := Rows(rows, users, false, |rows|);
    RowsAre(rows, users, false, |rows|);
    AfterDelete(t, rows, idx);
    var s := DeleteAll(t, rows, idx);
    forall u | u in t && u !in users ensures u !in s {
      var i :| 0 <= i < |rows| && rows[i].user == u;
      assert i in idx;
    }
    forall u | u in t && u in users ensures u in s {
      forall k | 0 <= k < |idx| ensures rows[idx[k]].user != u { assert idx[k] in idx; }
    }
  }

  /** Updating gives every remaining row the requested access. */
  lemma Updates(s: Table, rows: seq<Entry>, items: seq<Item>)
    requires DistinctRows(rows) && s.Keys == RowUsers(rows) * Users(items)
    ensures Within(Rows(rows, Users(items), true, |rows|), RowsDone(rows, items, |rows|))
    ensures var r := UpdateAll(s, RowsDone(rows, items, |rows|), Rows(rows, Users(items), true, |rows|));
            r.Keys == s.Keys && forall u :: u in r ==> r[u] == AccessOf(items, u)
  {
    hide Users, Rows, UpdateAll, First;
    var users, done := Users(items), RowsDone(rows, items, |rows|);
    var idx := Rows(rows, users, true, |rows|);
    ListsWithin(rows, users, true);
    RowsAre(rows, users, true, |rows|);
    AfterUpdate(s, done, idx);
    var r := UpdateAll(s, done, idx);
    forall u | u in r ensures r[u] == AccessOf(items, u) {
      var i :| 0 <= i < |rows| && rows[i].user == u;
      assert i in idx;
      var k :| 0 <= k < |idx| && idx[k] == i;
      assert done[idx[k]].user == u;
      InUsers(items, u);
    }
  }

  lemma ProperDistinct(items: seq<Item>)
    requires Proper(items)
    ensures DistinctItems(items)
  {
    forall i, j | 0 <= i < j < |items| ensures items[i].user != items[j].user {
      assert Cut(items)[i].user != Cut(items)[j].user;
    }
  }

  /** The ids are cut when the rows are made, so cutting them before changes nothing. */
  lemma {:induction false} NewRowsCut(items: seq<Item>)
    ensures NewRows(Cut(items)) == NewRows(items)
  {
    if items != [] {
      var n := |items| - 1;
      hide NewRows, NewRow;
      NewRowsCut(items[..n]);
      NewRowsLast(items);
      NewRowsLast(Cut(items));
      CutRow(items[n]);
      assert Cut(items)[..n] == Cut(items[..n]);
    }
  }

  lemma NewRowsLast(items: seq<Item>)
    requires items != []
    ensures var n := |items| - 1;
            if items[n].mark.Updating? then NewRows(items) == NewRows(items[..n])
            else NewRows(items) == NewRows(items[..n]) + [NewRow(items[n])]
  {
  }

  lemma CutRow(item: Item)
    ensures NewRow(item.(user := item.user % ID_LIMIT)) == NewRow(item)
  {
  }

  /** The elements left unmarked are those that came so and have no row. */
  lemma LeftUnmarked(rows: seq<Entry>, items: seq<Item>, j: nat)
    requires DistinctItems(items) && j < |items|
    ensures var m := Marked(rows, items, |rows|);
            && m[j].user == items[j].user && m[j].access == items[j].access
            && (m[j].mark.Unused? <==> items[j].mark.Unused? && items[j].user !in RowUsers(rows))
  {
    UsedAre(rows, items, |rows|, j);
  }

  /** What becomes of the `j`-th element: its row is updated, a row is inserted, or it is lost. */
  predicate Fate(rows: seq<Entry>, items: seq<Item>, inserted: set<nat>, j: nat)
    requires j < |items|
  {
    var u, item := items[j].user % ID_LIMIT, items[j];
    && (u in inserted <==> item.mark.Unused? && item.user !in RowUsers(rows))
    && (u in Lost(rows, items) <==> item.mark.Updating? && item.user !in RowUsers(rows))
    && (u in RowUsers(rows) * Users(items) <==> item.user in RowUsers(rows))
  }

  ghost predicate Insertions(rows: seq<Entry>, items: seq<Item>, inserted: set<nat>) {
    forall u :: u in inserted <==>
      exists j :: 0 <= j < |items| && items[j].mark.Unused? && items[j].user !in RowUsers(rows)
                  && items[j].user % ID_LIMIT == u
  }

  lemma OneOfThem(items: seq<Item>, i: nat, j: nat)
    requires Proper(items) && i < |items| && j < |items| && items[i].user % ID_LIMIT == items[j].user % ID_LIMIT
    ensures i == j
  {
    assert Cut(items)[i].user == Cut(items)[j].user;
  }

  lemma FateOf(t: Table, rows: seq<Entry>, items: seq<Item>, inserted: set<nat>, j: nat)
    requires Holds(rows, t) && Proper(items) && j < |items| && Insertions(rows, items, inserted)
    ensures Fate(rows, items, inserted, j)
  {
    hide Proper, RowUsers;
    var u, item := items[j].user % ID_LIMIT, items[j];
    if u in inserted {
      var k :| 0 <= k < |items| && items[k].mark.Unused? && items[k].user !in RowUsers(rows)
               && items[k].user % ID_LIMIT == u;
      OneOfThem(items, k, j);
    }
    if u in Lost(rows, items) {
      var k :| 0 <= k < |items| && items[k].mark.Updating? && items[k].user !in RowUsers(rows)
               && items[k].user % ID_LIMIT == u;
      OneOfThem(items, k, j);
    }
    if u in RowUsers(rows) && u in Users(items) {
      var k :| 0 <= k < |items| && items[k].user == u;
      SmallId(rows, t, u);
      OneOfThem(items, k, j);
    }
    if item.user in RowUsers(rows) {
      SmallId(rows, t, item.user);
      assert item.user in Users(items);
    }
  }

  lemma SmallId(rows: seq<Entry>, t: Table, u: nat)
    requires Holds(rows, t) && u in RowUsers(rows)
    ensures u < ID_LIMIT && u % ID_LIMIT == u
  {
  }

  lemma Inserts(rows: seq<Entry>, items: seq<Item>)
    requires Proper(items)
    ensures var m := Marked(rows, items, |rows|);
            && |m| == |items| && Proper(m) && Insertions(rows, items, Unmarked(Cut(m)))
            && (forall j :: 0 <= j < |items| ==> m[j].user == items[j].user && m[j].access == items[j].access)
  {
    var m := Marked(rows, items, |rows|);
    ProperDistinct(items);
    hide RowUsers, Marked, Unmarked;
    forall j | 0 <= j < |items|
      ensures && m[j].user == items[j].user && m[j].access == items[j].access
              && (m[j].mark.Unused? <==> items[j].mark.Unused? && items[j].user !in RowUsers(rows))
    {
      LeftUnmarked(rows, items, j);
    }
    UnmarkedIs(Cut(m));
    assert forall j :: 0 <= j < |items| ==> Cut(m)[j].user == items[j].user % ID_LIMIT && Cut(m)[j].mark == m[j].mark;
    assert forall j :: 0 <= j < |items| ==> Cut(m)[j].user == Cut(items)[j].user;
  }

  lemma UnmarkedIs(items: seq<Item>)
    ensures forall u :: u in Unmarked(items) <==>
              exists j :: 0 <= j < |items| && items[j].mark.Unused? && items[j].user == u
  {
  }

  /** What was requested of a user whose id was not cut. */
  lemma SameAccess(items: seq<Item>, u: nat)
    requires Proper(items) && u < ID_LIMIT && u in Users(items)
    ensures u in Users(Cut(items)) && AccessOf(items, u) == AccessOf(Cut(items), u)
  {
    var j :| 0 <= j < |items| && items[j].user == u;
    ProperDistinct(items);
    AccessIs(items, j);
    AccessIs(Cut(items), j);
    assert Cut(items)[j].user == u;
  }

  /** The transaction does not fail and leaves what was requested, but for the lost users. */
  lemma Synchronised(t: Table, rows: seq<Entry>, items: seq<Item>)
    requires Holds(rows, t) && DistinctRows(rows) && Proper(items)
    ensures Within(Rows(rows, Users(items), false, |rows|), rows)
    ensures Within(Rows(rows, Users(items), true, |rows|), rows)
    ensures Transaction(t, rows, items) == Done(Requested(Cut(items)) - Lost(rows, items))
  {
    hide RowUsers, Users, DeleteAll, UpdateAll, InsertAll, Rows, NewRows, RowsDone, Unmarked, MarkAll, AccessOf, Lost;
    hide Marked, Insertions, DistinctRows, DistinctItems;
    ListsWithin(rows, Users(items), true);
    ListsWithin(rows, Users(items), false);
    Deletes(t, rows, Users(items));
    var kept := DeleteAll(t, rows, Rows(rows, Users(items), false, |rows|));
    Updates(kept, rows, items);
    var renewed := UpdateAll(kept, RowsDone(rows, items, |rows|), Rows(rows, Users(items), true, |rows|));
    var m := Marked(rows, items, |rows|);
    Inserts(rows, items);
    NewRowsCut(m);
    CutSmall(m);
    CutSmall(items);
    NewRowsUsers(Cut(m));
    var inserted := RowUsers(NewRows(m));
    AllFates(t, rows, items, inserted);
    AfterInsert(renewed, NewRows(m));
    var r := InsertAll(renewed, NewRows(m)).table;
    forall u | u in r ensures u in Users(Cut(items)) && r[u] == AccessOf(Cut(items), u) {
      if u in renewed {
        SmallId(rows, t, u);
        SameAccess(items, u);
      } else {
        var i := RowOf(NewRows(m), u);
        NewRowsAccess(Cut(m), Cut(items), i);
      }
    }
    assert r == Requested(Cut(items)) - Lost(rows, items);
  }

  lemma CutSmall(items: seq<Item>)
    ensures forall j :: 0 <= j < |items| ==> Cut(items)[j].user < ID_LIMIT
  {
  }

  lemma AllFates(t: Table, rows: seq<Entry>, items: seq<Item>, inserted: set<nat>)
    requires Holds(rows, t) && Proper(items) && Insertions(rows, items, inserted)
    ensures inserted !! RowUsers(rows) * Users(items)
    ensures RowUsers(rows) * Users(items) + inserted == Users(Cut(items)) - Lost(rows, items)
  {
    hide RowUsers, Lost, Proper;
    forall j | 0 <= j < |items| ensures Fate(rows, items, inserted, j) { FateOf(t, rows, items, inserted, j); }
    var updated := RowUsers(rows) * Users(items);
    forall u | u in updated ensures u in Users(Cut(items)) && u !in inserted && u !in Lost(rows, items) {
      var j :| 0 <= j < |items| && items[j].user == u;
      SmallId(rows, t, u);
      assert Cut(items)[j].user == u && Fate(rows, items, inserted, j);
    }
    forall u | u in Users(Cut(items)) ensures u in updated || u in inserted || u in Lost(rows, items) {
      var j :| 0 <= j < |items| && Cut(items)[j].user == u;
      assert Fate(rows, items, inserted, j);
    }
    forall u | u in inserted ensures u in Users(Cut(items)) && u !in Lost(rows, items) {
      var j :| 0 <= j < |items| && items[j].mark.Unused? && items[j].user !in RowUsers(rows)
               && items[j].user % ID_LIMIT == u;
      assert Cut(items)[j].user == u && Fate(rows, items, inserted, j);
    }
  }

  /** So the table becomes exactly what was requested if and only if no user is lost. */
  lemma SynchronisedIff(t: Table, rows: seq<Entry>, items: seq<Item>)
    requires Holds(rows, t) && DistinctRows(rows) && Proper(items)
    ensures Within(Rows(rows, Users(items), false, |rows|), rows)
    ensures Within(Rows(rows, Users(items), true, |rows|), rows)
    ensures Transaction(t, rows, items) == Done(Requested(Cut(items))) <==> Lost(rows, items) == {}
  {
    Synchronised(t, rows, items);
    hide Users, RowUsers, Unmarked, Transaction, AccessOf;
    var lost, all := Lost(rows, items), Requested(Cut(items));
    if lost == {} {
      assert all - lost == all;
    } else {
      var u :| u in lost;
      LostAsked(rows, items, u);
      assert u in all && u !in all - lost;
    }
  }

  lemma LostAsked(rows: seq<Entry>, items: seq<Item>, u: nat)
    requires u in Lost(rows, items)
    ensures u in Users(Cut(items))
  {
    var j :| 0 <= j < |items| && items[j].mark.Updating? && items[j].user % ID_LIMIT == u;
    assert Cut(items)[j].user == u;
  }

  /** A user is lost: the request brings the mark along, and the table is empty. */
  lemma SomeoneLost(user: nat, access: Access)
    ensures var items := [Item(user, access, Updating)];
            && Holds([], map[]) && Proper(items) && Lost([], items) == {user % ID_LIMIT}
            && Transaction(map[], [], items) == Done(map[])
  {
    var items := [Item(user, access, Updating)];
    var none: seq<Entry> := [];
    OnlyLost(user, access);
    Synchronised(map[], none, items);
    hide Transaction, Lost, Users, AccessOf, Cut;
    assert Requested(Cut(items)) - Lost(none, items) == map[];
  }

  lemma OnlyLost(user: nat, access: Access)
    ensures var items := [Item(user, access, Updating)];
            && Holds([], map[]) && Proper(items)
            && Users(Cut(items)) == Lost([], items) == {user % ID_LIMIT}
  {
    var items := [Item(user, access, Updating)];
    var none: seq<Entry> := [];
    assert RowUsers(none) == {};
    assert items[0].user !in RowUsers(none) && Cut(items)[0].user == user % ID_LIMIT;
    assert Lost(none, items) == {user % ID_LIMIT};
    assert Users(Cut(items)) == {user % ID_LIMIT};
  }

  lemma RowOf(rows: seq<Entry>, u: nat) returns (i: nat)
    requires u in RowUsers(rows)
    ensures i < |rows| && rows[i].user == u
  {
    i :| 0 <= i < |rows| && rows[i].user == u;
  }
}
