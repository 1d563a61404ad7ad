/** Synchronisation of a file's user-level access list with the list a request asks for. */
module AccessControl {
  datatype Access = Access(editAcl: bool, transcode: bool)
  /** A row of the table. */
  datatype Entry = Entry(user: nat, access: Access)
  /** The mark that the list builder leaves in an element. */
  datatype Mark = Unused | Updating
  /** An element of the request body. */
  datatype Item = Item(user: nat, access: Access, mark: Mark)

  const ID_LIMIT := 0x1_0000_0000

  function Users(items: seq<Item>): set<nat> {
    set i | 0 <= i < |items| :: items[i].user
  }

  /** The first element for a user, or the length of the list. */
  function First(items: seq<Item>, user: nat): (j: nat)
    ensures j <= |items| && forall k :: 0 <= k < j ==> items[k].user != user
    ensures j < |items| ==> items[j].user == user
  {
    if items == [] || items[0].user == user then 0 else 1 + First(items[1..], user)
  }

  /** The rows with index below `n` whose user is in the request, or is not. */
  function Rows(rows: seq<Entry>, users: set<nat>, wanted: bool, n: nat): seq<nat>
    requires n <= |rows|
  {
    if n == 0 then []
    else Rows(rows, users, wanted, n - 1) + if (rows[n - 1].user in users) == wanted then [n - 1] else []
  }

  function Refreshed(items: seq<Item>, e: Entry): Entry {
    var j := First(items, e.user);
    if j < |items| then e.(access := items[j].access) else e
  }

  /** The elements from which the first `n` rows are refreshed. */
  function Used(rows: seq<Entry>, items: seq<Item>, n: nat): set<nat>
    requires n <= |rows|
  {
    if n == 0 then {} else Used(rows, items, n - 1) + {First(items, rows[n - 1].user)}
  }

  function MarkAll(items: seq<Item>, used: set<nat>): (r: seq<Item>)
    ensures |r| == |items|
    ensures forall j :: 0 <= j < |items| ==> r[j] == if j in used then items[j].(mark := Updating) else items[j]
  {
    seq(|items|, j requires 0 <= j < |items| => if j in used then items[j].(mark := Updating) else items[j])
  }

  function Marked(rows: seq<Entry>, items: seq<Item>, n: nat): seq<Item>
    requires n <= |rows|
  {
    MarkAll(items, Used(rows, items, n))
  }

  function NewRow(item: Item): Entry {
    Entry(item.user % ID_LIMIT, item.access)
  }

  /** The rows made from the unmarked elements. */
  function NewRows(items: seq<Item>): (r: seq<Entry>)
    ensures |r| <= |items|
  {
    if items == [] then []
    else
      var n := |items| - 1;
      NewRows(items[..n]) + if items[n].mark.Updating? then [] else [NewRow(items[n])]
  }

  // ---- The list builder ----

  method FindItem(items: array<Item>, user: nat) returns (j: nat)
    ensures j == First(items[..], user)
  {
    j := 0;
    while j < items.Length && items[j].user != user
      invariant j <= items.Length && forall k :: 0 <= k < j ==> items[k].user != user
    {
      j := j + 1;
    }
    FirstIs(items[..], user, j);
  }

  lemma FirstIs(items: seq<Item>, user: nat, j: nat)
    requires j <= |items| && (j < |items| ==> items[j].user == user)
    requires forall k :: 0 <= k < j ==> items[k].user != user
    ensures First(items, user) == j
  {
  }

  /** Marks leave the users alone. */
  lemma {:induction false} FirstOfMarked(a: seq<Item>, b: seq<Item>, user: nat)
    requires |a| == |b| && forall i :: 0 <= i < |a| ==> a[i].user == b[i].user
    ensures First(a, user) == First(b, user)
  {
    FirstIs(b, user, First(a, user));
  }

  lemma MarkOne(items: seq<Item>, used: set<nat>, j: nat)
    ensures MarkAll(items, used + {j})
            == if j < |items| then MarkAll(items, used)[j := items[j].(mark := Updating)] else MarkAll(items, used)
  {
  }

  lemma InUsers(items: seq<Item>, user: nat)
    ensures First(items, user) < |items| <==> user in Users(items)
  {
  }

  /**
   Sorts the rows into those to update, refreshed in place, and those to delete, and collects the
   rows to insert. The three output arrays have one place per row or element.
   */
  method BuildUpdateLists(rows: array<Entry>, items: array<Item>, updates: array<nat>, deletes: array<nat>,
                          inserts: array<Entry>)
    returns (numUpdate: nat, numDelete: nat, numInsert: nat)
    requires updates.Length == deletes.Length == rows.Length && inserts.Length == items.Length
    requires updates != deletes && rows != inserts
    modifies rows, items, updates, deletes, inserts
    ensures numUpdate + numDelete == rows.Length && numInsert <= items.Length
    ensures updates[..numUpdate] == Rows(old(rows[..]), Users(old(items[..])), true, rows.Length)
    ensures deletes[..numDelete] == Rows(old(rows[..]), Users(old(items[..])), false, rows.Length)
    ensures rows[..] == RowsDone(old(rows[..]), old(items[..]), rows.Length)
    ensures items[..] == Marked(old(rows[..]), old(items[..]), rows.Length)
    ensures inserts[..numInsert] == NewRows(items[..])
  {
    hide Marked, Rows, First, Users, RowsDone, NewRows;
    ghost var rows0, items0 := rows[..], items[..];
    StartLists(rows0, items0);
    numUpdate, numDelete, numInsert := 0, 0, 0;
    var idx := 0;
    while idx < rows.Length
      invariant idx <= rows.Length && numUpdate + numDelete == idx
      invariant updates[..numUpdate] == Rows(rows0, Users(items0), true, idx)
      invariant deletes[..numDelete] == Rows(rows0, Users(items0), false, idx)
      invariant rows[..] == RowsDone(rows0, items0, idx)
      invariant items[..] == Marked(rows0, items0, idx)
    {
      RowsStep(rows0, Users(items0), idx);
      var found := RefreshRow(rows, items, idx, rows0, items0);
      if found {
        numUpdate := Push(updates, numUpdate, idx);
      } else {
        numDelete := Push(deletes, numDelete, idx);
      }
      idx := idx + 1;
    }
    numInsert := CollectInserts(items, inserts);
  }

  /** The rows after the first `n` have been dealt with. */
  function RowsDone(rows: seq<Entry>, items: seq<Item>, n: nat): (r: seq<Entry>)
    ensures |r| == |rows|
    ensures forall i :: 0 <= i < |rows| ==> r[i] == if i < n then Refreshed(items, rows[i]) else rows[i]
  {
    seq(|rows|, i requires 0 <= i < |rows| => if i < n then Refreshed(items, rows[i]) else rows[i])
  }

  /** Looks the row's user up in the request; a hit refreshes the row and marks the element. */
  method RefreshRow(rows: array<Entry>, items: array<Item>, idx: nat, ghost rows0: seq<Entry>, ghost items0: seq<Item>)
    returns (found: bool)
    requires idx < rows.Length == |rows0|
    requires rows[..] == RowsDone(rows0, items0, idx) && items[..] == Marked(rows0, items0, idx)
    modifies rows, items
    ensures rows[..] == RowsDone(rows0, items0, idx + 1) && items[..] == Marked(rows0, items0, idx + 1)
    ensures found <==> rows0[idx].user in Users(items0)
  {
    hide First, Users;
    assert rows[idx] == rows0[idx];
    FirstOfMarked(items0, items[..], rows[idx].user);
    InUsers(items0, rows[idx].user);
    ghost var marked := items[..];
    ghost var done := rows[..];
    var jdx := FindItem(items, rows[idx].user);
    MarkOne(items0, Used(rows0, items0, idx), jdx);
    found := jdx < items.Length;
    if found {
      rows[idx] := rows[idx].(access := items[jdx].access);
      items[jdx] := items[jdx].(mark := Updating);
      assert items[..] == marked[jdx := items0[jdx].(mark := Updating)];
      assert rows[..] == done[idx := Refreshed(items0, rows0[idx])];
    }
    RowsDoneMore(rows0, items0, idx);
  }

  lemma RowsDoneMore(rows: seq<Entry>, items: seq<Item>, n: nat)
    requires n < |rows|
    ensures RowsDone(rows, items, n + 1) == RowsDone(rows, items, n)[n := Refreshed(items, rows[n])]
  {
  }

  lemma StartLists(rows: seq<Entry>, items: seq<Item>)
    ensures Marked(rows, items, 0) == items && RowsDone(rows, items, 0) == rows
    ensures Rows(rows, Users(items), true, 0) == [] && Rows(rows, Users(items), false, 0) == []
  {
  }

  method Push(list: array<nat>, n: nat, x: nat) returns (m: nat)
    requires n < list.Length
    modifies list
    ensures m == n + 1 && list[..m] == old(list[..n]) + [x]
  {
    list[n] := x;
    m := n + 1;
  }

  lemma RowsStep(rows: seq<Entry>, users: set<nat>, n: nat)
    requires n < |rows|
    ensures Rows(rows, users, true, n + 1) == Rows(rows, users, true, n) + if rows[n].user in users then [n] else []
    ensures Rows(rows, users, false, n + 1) == Rows(rows, users, false, n) + if rows[n].user in users then [] else [n]
  {
  }

  method CollectInserts(items: array<Item>, inserts: array<Entry>) returns (n: nat)
    requires inserts.Length == items.Length
    modifies inserts
    ensures n <= items.Length && inserts[..n] == NewRows(items[..])
  {
    n := 0;
    assert items[..0] == [];
    for j := 0 to items.Length
      invariant n <= j && inserts[..n] == NewRows(items[..j])
    {
      assert items[..j + 1][..j] == items[..j];
      if items[j].mark.Unused? {
        inserts[n] := Entry(items[j].user % ID_LIMIT, items[j].access);
        n := n + 1;
      }
    }
    assert items[..items.Length] == items[..];
  }
}
