/** The books of a connection's queries, and the effect on them of each action of the handler. */
module DbLedger {
  import opened DatabaseResult
  import opened DbProtocol
  import opened DbHistory
  import opened Sequences

  /** Nothing has been told yet. */
  predicate Untouched(q: Query) {
    q.sent == [] && q.remain == q.numRs > 0 && q.drained == 0 && q.closes == 0
  }

  /** The query whose result sets are arriving. */
  predicate Current(q: Query, rows: bool) {
    && 0 < q.remain <= q.numRs
    && PhaseOf(q.numRs, q.sent) == if rows then InRows(q.numRs - q.remain) else Between(q.numRs - q.remain)
  }

  predicate Over(q: Query) {
    q.numRs > 0 && PhaseOf(q.numRs, q.sent) == Finished
  }

  /** The callbacks have seen a prefix, and the handle is closed once that prefix is a whole life. */
  predicate Delivered(q: Query) {
    && q.drained <= |q.sent|
    && q.closes == if q.drained == |q.sent| && PhaseOf(q.numRs, q.sent) == Finished then 1 else 0
  }

  /** Every query accepted in order is finished, in the batch, or pending, and none is in two places. */
  ghost predicate Lists(b: Books) {
    && b.line == b.done + b.processing + b.pending
    && Distinct(b.line)
    && (forall q :: q in b.queries <==> q in b.line || q in b.dropped)
    && (forall q :: q in b.line ==> q !in b.dropped)
  }

  ghost predicate Lives(b: Books, rows: bool) {
    && (forall q :: q in b.done ==> q in b.queries && Over(b.queries[q]))
    && (forall q :: q in b.pending ==> q in b.queries && Untouched(b.queries[q]))
    && (forall q :: q in b.dropped ==> q in b.queries && Untouched(b.queries[q]))
    && (forall i :: 0 < i < |b.processing| ==> b.processing[i] in b.queries && Untouched(b.queries[b.processing[i]]))
    && (b.processing != [] ==> b.processing[0] in b.queries && Current(b.queries[b.processing[0]], rows))
    && (forall q :: q in b.queries ==> Delivered(b.queries[q]))
  }

  /** The batch waits for as many result sets as its queries, unless more arrived than were declared. */
  predicate Owes(b: Books) {
    if b.owed >= 0 then SumRs(b.queries, b.processing) == b.owed else b.processing == []
  }

  /** `rows` tells whether the rows of a result set are being delivered. */
  ghost predicate Ledger(b: Books, rows: bool) {
    Lists(b) && Lives(b, rows) && Owes(b)
  }

  predicate ToldMore(x: Query, y: Query, n: Note) {
    y.sent == x.sent + [n] && y.numRs == x.numRs
  }

  /** Exactly the queries `qs` have been told one thing more, namely `n`. */
  predicate AllTold(b: Books, c: Books, qs: seq<QueryId>, n: Note) {
    && (forall q :: q in b.queries ==> q in c.queries)
    && (forall q :: q in b.queries && q in qs ==> ToldMore(b.queries[q], c.queries[q], n))
    && (forall q :: q in b.queries && q !in qs ==> c.queries[q] == b.queries[q])
  }

  lemma {:induction false} SumOf(a: map<QueryId, Query>, b: map<QueryId, Query>, qs: seq<QueryId>)
    requires forall q :: q in qs ==> (q in a <==> q in b) && (q in a ==> a[q].remain == b[q].remain)
    ensures SumRs(a, qs) == SumRs(b, qs)
  {
    if qs != [] { SumOf(a, b, qs[1..]); }
  }

  lemma AllInLine(b: Books)
    requires b.line == b.done + b.processing + b.pending
    ensures forall q :: q in b.line <==> q in b.done || q in b.processing || q in b.pending
  {
  }

  lemma OnePlace(line: seq<QueryId>, x: seq<QueryId>, y: seq<QueryId>, z: seq<QueryId>)
    requires line == x + y + z && Distinct(line)
    ensures forall q :: q in x ==> q !in y && q !in z
    ensures forall q :: q in y ==> q !in z
    ensures forall i :: 0 < i < |y| ==> y[i] != y[0]
  {
    assert forall i :: 0 <= i < |x| ==> line[i] == x[i];
    assert forall i :: 0 <= i < |y| ==> line[|x| + i] == y[i];
    assert forall i :: 0 <= i < |z| ==> line[|x| + |y| + i] == z[i];
  }

  lemma WhereQueries(b: Books)
    requires Lists(b)
    ensures forall q :: q in b.done || q in b.processing || q in b.pending || q in b.dropped ==> q in b.queries
    ensures forall q :: q in b.queries ==> q in b.done || q in b.processing || q in b.pending || q in b.dropped
    ensures forall q :: q in b.done ==> q !in b.processing && q !in b.pending
    ensures forall q :: q in b.processing ==> q !in b.pending
    ensures forall q :: q in b.dropped ==> q !in b.done && q !in b.processing && q !in b.pending
    ensures forall i :: 0 < i < |b.processing| ==> b.processing[i] != b.processing[0]
  {
    hide Distinct;
    AllInLine(b);
    OnePlace(b.line, b.done, b.processing, b.pending);
  }

  /** Moving queries along the line keeps the lists in order. */
  lemma Regroup(b: Books, c: Books)
    requires Lists(b) && c.line == b.line == c.done + c.processing + c.pending
    requires c.queries.Keys == b.queries.Keys && c.dropped == b.dropped
    ensures Lists(c)
  {
    hide Distinct;
    assert forall q :: q in c.queries <==> q in b.queries.Keys;
  }

  // ---- Effects ----

  lemma NewIsFresh(numRs: nat)
    requires numRs > 0
    ensures Untouched(NewQuery(numRs)) && Delivered(NewQuery(numRs))
  {
  }

  lemma Longer(s: seq<QueryId>, q: QueryId)
    requires Distinct(s) && q !in s
    ensures Distinct(s + [q])
  {
  }

  lemma SubmitLists(b: Books, c: Books, q: QueryId)
    requires Lists(b) && q !in b.queries
    requires c.line == b.line + [q] && c.pending == b.pending + [q] && c.queries.Keys == b.queries.Keys + {q}
    requires c.done == b.done && c.processing == b.processing && c.dropped == b.dropped
    ensures Lists(c)
  {
    hide Distinct;
    Longer(b.line, q);
    assert c.done + c.processing + c.pending == b.line + [q];
    assert forall x :: x in c.queries <==> x in b.queries.Keys || x == q;
  }

  lemma Submits(b: Books, q: QueryId, numRs: nat, rows: bool)
    requires Ledger(b, rows) && q !in b.queries && numRs > 0
    ensures Ledger(Submitted(b, q, numRs), rows)
  {
    hide Lists, Delivered, Over, Untouched, Current, SumRs, PhaseOf, NewQuery;
    var c := Submitted(b, q, numRs);
    WhereQueries(b);
    SubmitLists(b, c, q);
    NewIsFresh(numRs);
    SumOf(b.queries, c.queries, b.processing);
  }

  lemma TellPhase(q: Query, n: Note, rows: bool)
    requires Current(q, rows) && Delivered(q)
    requires if rows then IsRow(n) else OpensRows(n)
    ensures Current(Told(q, n), true) && Delivered(Told(q, n))
  {
    PhaseSnoc(q.numRs, q.sent, n);
  }

  /** The current query is told of rows that begin, or of one row. */
  lemma Tells(b: Books, n: Note, rows: bool)
    requires Ledger(b, rows) && b.processing != []
    requires if rows then IsRow(n) else OpensRows(n)
    ensures var c := Notify(b, b.processing[0], n);
            Ledger(c, true) && AllTold(b, c, [b.processing[0]], n)
  {
    hide Lists, Delivered, Over, Untouched, Current, SumRs, PhaseOf, IsRow, OpensRows;
    var q := b.processing[0];
    var c := Notify(b, q, n);
    WhereQueries(b);
    SamePlaces(b, c);
    TellPhase(b.queries[q], n, rows);
    SumOf(b.queries, c.queries, b.processing);
  }

  function GroupNote(rows: bool, code: DbaResult, final: bool): Note {
    if rows then Note(FreeDone, code, final) else Note(CheckRset, EndOfRows, final)
  }

  /** The record of a query after one of its result sets. */
  function AfterGroup(q: Query, rows: bool, code: DbaResult): Query
    requires q.remain > 0
  {
    Told(q.(remain := q.remain - 1), GroupNote(rows, code, q.remain == 1))
  }

  lemma AfterGroupCounts(q: Query, rows: bool, code: DbaResult)
    requires q.remain > 0
    ensures AfterGroup(q, rows, code).remain == q.remain - 1
  {
  }

  lemma GroupPhase(q: Query, rows: bool, code: DbaResult)
    requires Current(q, rows) && Delivered(q)
    ensures var r := AfterGroup(q, rows, code);
            Delivered(r) && if q.remain == 1 then Over(r) else Current(r, false)
  {
    PhaseSnoc(q.numRs, q.sent, GroupNote(rows, code, q.remain == 1));
  }

  function GroupEnd(b: Books, rows: bool, code: DbaResult): Books {
    if rows then EndGroup(b, FreeDone, code) else EndGroup(b, CheckRset, EndOfRows)
  }

  lemma NoGroup(b: Books, rows: bool, code: DbaResult)
    requires b.processing == []
    ensures GroupEnd(b, rows, code) == b.(owed := b.owed - 1)
  {
  }

  lemma GroupEffect(b: Books, rows: bool, code: DbaResult)
    requires b.processing != [] && b.processing[0] in b.queries && b.queries[b.processing[0]].remain > 0
    ensures var q := b.processing[0];
            var x := b.queries[q];
            var c := b.(queries := b.queries[q := AfterGroup(x, rows, code)], owed := b.owed - 1);
            GroupEnd(b, rows, code)
              == if x.remain == 1 then c.(processing := b.processing[1..], done := b.done + [q]) else c
  {
  }

  lemma GroupTold(b: Books, c: Books, q: QueryId, rows: bool, code: DbaResult)
    requires q in b.queries && b.queries[q].remain > 0
    requires c.queries == b.queries[q := AfterGroup(b.queries[q], rows, code)]
    ensures AllTold(b, c, [q], GroupNote(rows, code, b.queries[q].remain == 1))
  {
  }

  lemma UntouchedIsCurrent(q: Query)
    requires Untouched(q)
    ensures Current(q, false)
  {
  }

  lemma GroupLists(b: Books, c: Books, last: bool)
    requires Lists(b) && b.processing != []
    requires c.line == b.line && c.pending == b.pending && c.dropped == b.dropped && c.queries.Keys == b.queries.Keys
    requires if last then c.processing == b.processing[1..] && c.done == b.done + [b.processing[0]]
             else c.processing == b.processing && c.done == b.done
    ensures Lists(c)
  {
    hide Distinct;
    assert b.processing == [b.processing[0]] + b.processing[1..];
    assert c.done + c.processing + c.pending == b.line;
    Regroup(b, c);
  }

  lemma LastOwes(b: Books, c: Books, q: QueryId, y: Query)
    requires Owes(b) && b.processing != [] && q == b.processing[0] && q in b.queries && b.queries[q].remain == 1
    requires q !in b.processing[1..]
    requires c.queries == b.queries[q := y] && c.owed == b.owed - 1 && c.processing == b.processing[1..]
    ensures Owes(c)
  {
    SumOf(b.queries, c.queries, c.processing);
  }

  lemma LastGroup(b: Books, c: Books, rows: bool, q: QueryId, y: Query)
    requires Ledger(b, rows) && b.processing != [] && q == b.processing[0] && b.queries[q].remain == 1
    requires Over(y) && Delivered(y)
    requires c == b.(queries := b.queries[q := y], owed := b.owed - 1,
                     processing := b.processing[1..], done := b.done + [q])
    ensures Ledger(c, false)
  {
    hide Lists, Delivered, Over, Untouched, PhaseOf, Current, Owes;
    WhereQueries(b);
    GroupLists(b, c, true);
    LastOwes(b, c, q, y);
    assert forall i :: 0 < i < |c.processing| ==> c.processing[i] == b.processing[i + 1];
    if c.processing != [] { UntouchedIsCurrent(b.queries[c.processing[0]]); }
  }

  lemma MoreGroups(b: Books, c: Books, rows: bool, q: QueryId, y: Query)
    requires Ledger(b, rows) && b.processing != [] && q == b.processing[0] && b.queries[q].remain > 0
    requires Current(y, false) && Delivered(y) && y.remain == b.queries[q].remain - 1
    requires c == b.(queries := b.queries[q := y], owed := b.owed - 1)
    ensures Ledger(c, false)
  {
    hide Lists, Delivered, Over, Untouched, PhaseOf, Current;
    WhereQueries(b);
    GroupLists(b, c, false);
    SumOf(b.queries, c.queries, b.processing[1..]);
  }

  /**
   A result set of the current query is over. That query alone is told so, finally if nothing remains
   of it, and then it is the last of the finished ones.
   */
  lemma EndsGroup(b: Books, rows: bool, code: DbaResult)
    requires Ledger(b, rows)
    ensures var c := GroupEnd(b, rows, code);
            && Ledger(c, false) && c.owed == b.owed - 1
            && if b.processing == [] then c.queries == b.queries && c.done == b.done else
               var final := b.queries[b.processing[0]].remain == 1;
               && AllTold(b, c, [b.processing[0]], GroupNote(rows, code, final))
               && c.done == if final then b.done + [b.processing[0]] else b.done
  {
    hide Ledger, AllTold, GroupEnd, GroupNote, AfterGroup, Current, Over, Delivered;
    var c := GroupEnd(b, rows, code);
    if b.processing != [] {
      TheCurrent(b, rows);
      var q := b.processing[0];
      var x := b.queries[q];
      GroupPhase(x, rows, code);
      GroupEffect(b, rows, code);
      if x.remain == 1 {
        LastGroup(b, c, rows, q, AfterGroup(x, rows, code));
      } else {
        AfterGroupCounts(x, rows, code);
        MoreGroups(b, c, rows, q, AfterGroup(x, rows, code));
      }
      GroupTold(b, c, q, rows, code);
    } else {
      NoGroup(b, rows, code);
      OneLess(b, c, rows);
    }
  }

  lemma TheCurrent(b: Books, rows: bool)
    requires Ledger(b, rows) && b.processing != []
    ensures b.processing[0] in b.queries
    ensures var x := b.queries[b.processing[0]]; Current(x, rows) && Delivered(x) && x.remain > 0
  {
    hide Lists, Owes, Over, Untouched, Delivered;
  }

  lemma OneLess(b: Books, c: Books, rows: bool)
    requires Ledger(b, rows) && b.processing == [] && c == b.(owed := b.owed - 1)
    ensures Ledger(c, false)
  {
    hide Lists, Over, Delivered, Untouched, Current;
    SamePlaces(b, c);
  }

  lemma FailPhase(q: Query, n: Note)
    requires Delivered(q) && IsError(n) && (Current(q, false) || Untouched(q))
    ensures Delivered(Failed(q, n)) && Over(Failed(q, n))
  {
    PhaseSnoc(q.numRs, q.sent, n);
  }

  lemma FailTold(b: Books, qs: seq<QueryId>, n: Note)
    ensures forall c: Books :: c.queries == FailThese(b.queries, qs, n) ==> AllTold(b, c, qs, n)
  {
  }

  lemma FailLists(b: Books, c: Books)
    requires Lists(b) && c.queries.Keys == b.queries.Keys && c.dropped == b.dropped && c.line == b.line
    requires c.done == b.done + b.processing && c.processing == [] && c.pending == b.pending
    ensures Lists(c)
  {
    hide Distinct;
    assert c.done + c.processing + c.pending == b.line;
    Regroup(b, c);
  }

  lemma FailLedger(b: Books, n: Note)
    requires Ledger(b, false) && IsError(n)
    ensures Ledger(FailProcessing(b, n), false)
  {
    hide Lists, Delivered, Over, Untouched, PhaseOf, Current, Failed, IsError;
    var c := FailProcessing(b, n);
    WhereQueries(b);
    FailLists(b, c);
    forall q | q in b.processing ensures Over(c.queries[q]) && Delivered(c.queries[q]) {
      FailPhase(b.queries[q], n);
    }
  }

  /** Every query of the batch, and no other, gets the error, which is its final result. */
  lemma FailsProcessing(b: Books, n: Note)
    requires Ledger(b, false) && IsError(n)
    ensures var c := FailProcessing(b, n);
            && Ledger(c, false) && n.final && AllTold(b, c, b.processing, n)
            && c.processing == [] && c.pending == b.pending && c.done == b.done + b.processing
  {
    hide Ledger, FailThese, AllTold;
    FailLedger(b, n);
    FailTold(b, b.processing, n);
  }

  lemma LateLists(b: Books, c: Books, late: map<QueryId, nat>)
    requires Lists(b) && c.queries.Keys == b.queries.Keys + late.Keys && c.dropped == b.dropped + late.Keys
    requires c.line == b.line && b.processing == [] && AllNew(b, late)
    requires c.done == b.done + b.pending && c.processing == [] && c.pending == []
    ensures Lists(c)
  {
    hide Distinct;
    assert c.done + c.processing + c.pending == b.line;
    assert forall q :: q in c.queries <==> q in b.queries.Keys || q in late.Keys;
  }

  lemma LateLedger(b: Books, n: Note, late: map<QueryId, nat>)
    requires Ledger(b, false) && b.processing == [] && IsError(n) && AllNew(b, late)
    ensures Ledger(FailPending(b, n, late), false)
  {
    hide Lists, Delivered, Over, Untouched, PhaseOf, Current, Failed, IsError, NewQuery;
    var c := FailPending(b, n, late);
    WhereQueries(b);
    LateLists(b, c, late);
    forall q | q in b.pending ensures q in c.queries && Over(c.queries[q]) && Delivered(c.queries[q]) {
      FailPhase(b.queries[q], n);
    }
    forall q | q in late ensures Untouched(c.queries[q]) && Delivered(c.queries[q]) {
      NewIsFresh(late[q]);
    }
  }

  lemma LateUnheard(b: Books, rows: bool, q: QueryId)
    requires Ledger(b, rows) && q in b.dropped
    ensures q in b.queries && Untouched(b.queries[q]) && q !in b.line
  {
    hide Delivered, Over, Untouched, Current, Owes;
  }

  /**
   Every pending query, and no other, gets the error. The late ones are left with nothing told, in
   none of the lists.
   */
  lemma FailsPending(b: Books, n: Note, late: map<QueryId, nat>)
    requires Ledger(b, false) && b.processing == [] && IsError(n) && AllNew(b, late)
    ensures var c := FailPending(b, n, late);
            && Ledger(c, false) && n.final && AllTold(b, c, b.pending, n)
            && c.processing == c.pending == [] && c.done == b.done + b.pending
            && forall q :: q in late ==> q in c.queries && Untouched(c.queries[q]) && q !in c.line
  {
    hide Ledger, FailThese, AllTold, Untouched, Newcomers;
    LateLedger(b, n, late);
    LateTold(b, n, late);
    forall q | q in late ensures var c := FailPending(b, n, late);
                                 q in c.queries && Untouched(c.queries[q]) && q !in c.line {
      LateUnheard(FailPending(b, n, late), false, q);
    }
  }

  lemma LateTold(b: Books, n: Note, late: map<QueryId, nat>)
    requires AllNew(b, late)
    ensures AllTold(b, FailPending(b, n, late), b.pending, n)
  {
  }

  lemma BatchLists(b: Books, c: Books, k: nat)
    requires Lists(b) && c.queries == b.queries && c.dropped == b.dropped && c.line == b.line && c.done == b.done
    requires b.processing == [] && k <= |b.pending| && c.processing == b.pending[..k] && c.pending == b.pending[k..]
    ensures Lists(c)
  {
    hide Distinct;
    assert b.pending == c.processing + c.pending;
    assert c.done + c.processing + c.pending == b.line;
    Regroup(b, c);
  }

  /** The batch is a beginning of the pending queries, not an empty one if there are any. */
  lemma FormsBatch(b: Books, take: nat)
    requires Ledger(b, false)
    ensures var c := FormBatch(b, take);
            && Ledger(c, false) && c.queries == b.queries && c.done == b.done
            && c.processing + c.pending == b.processing + b.pending
            && (b.pending != [] ==> c.processing != [])
            && (b.processing == [] && 0 < take <= |b.pending| ==> |c.processing| == take)
            && (b.processing == [] ==> c.owed == SumRs(c.queries, c.processing))
  {
    hide Ledger, SumRs;
    if b.processing == [] {
      var k := BatchOf(b, take);
      hide FormBatch;
      BatchLedger(b, FormBatch(b, take), k);
      assert b.pending == b.pending[..k] + b.pending[k..] == b.processing + b.pending;
    }
  }

  lemma BatchOf(b: Books, take: nat) returns (k: nat)
    requires b.processing == []
    ensures k <= |b.pending| && (b.pending != [] ==> k > 0) && (0 < take <= |b.pending| ==> k == take)
    ensures FormBatch(b, take)
            == b.(processing := b.pending[..k], pending := b.pending[k..], owed := SumRs(b.queries, b.pending[..k]))
  {
    hide SumRs;
    k := if 0 < take <= |b.pending| then take else |b.pending|;
  }

  lemma BatchLedger(b: Books, c: Books, k: nat)
    requires Ledger(b, false) && b.processing == [] && k <= |b.pending| && (b.pending != [] ==> k > 0)
    requires c == b.(processing := b.pending[..k], pending := b.pending[k..], owed := SumRs(b.queries, b.pending[..k]))
    ensures Ledger(c, false)
  {
    hide Lists, Delivered, Over, Untouched, PhaseOf, Current, SumRs;
    WhereQueries(b);
    BatchLists(b, c, k);
    if b.pending != [] { UntouchedIsCurrent(b.queries[b.pending[0]]); }
  }

  lemma DrainKeeps(q: Query, rows: bool)
    requires Delivered(q)
    requires Over(q) || Current(q, rows) || Untouched(q)
    ensures Delivered(Drained(q))
    ensures Over(Drained(q)) == Over(q) && Current(Drained(q), rows) == Current(q, rows)
    ensures Untouched(q) ==> Drained(q) == q
    ensures Drained(q).remain == q.remain
  {
    if q.sent != [] {
      FinalEnds(q.numRs, q.sent);
    }
  }

  lemma HasLife(b: Books, q: QueryId, rows: bool)
    requires Lists(b) && Lives(b, rows) && q in b.queries
    ensures Over(b.queries[q]) || Current(b.queries[q], rows) || Untouched(b.queries[q])
  {
    hide Over, Current, Untouched, Delivered, Distinct;
    WhereQueries(b);
  }

  lemma SamePlaces(b: Books, c: Books)
    requires Lists(b) && c.queries.Keys == b.queries.Keys && c.dropped == b.dropped && c.line == b.line
    requires c.done == b.done && c.processing == b.processing && c.pending == b.pending
    ensures Lists(c)
  {
    hide Distinct;
    Regroup(b, c);
  }

  lemma HeardAll(b: Books, q: QueryId, rows: bool)
    requires Ledger(b, rows) && q in b.queries
    ensures Drained(b.queries[q]).sent == b.queries[q].sent && Drained(b.queries[q]).drained == |b.queries[q].sent|
    ensures Drained(b.queries[q]).closes == if q in b.done then 1 else 0
  {
    WhereQueries(b);
    HasLife(b, q, rows);
    DrainKeeps(b.queries[q], rows);
    hide Lists, Owes, Untouched, Current, SumRs;
  }

  lemma DrainLedger(b: Books, q: QueryId, rows: bool)
    requires Ledger(b, rows) && q in b.queries
    ensures Ledger(Heard(b, q), rows)
  {
    hide Lists, Delivered, Over, Untouched, PhaseOf, Current, SumRs, Drained;
    var c := Heard(b, q);
    WhereQueries(b);
    SamePlaces(b, c);
    HasLife(b, q, rows);
    DrainKeeps(b.queries[q], rows);
    SumOf(b.queries, c.queries, b.processing);
  }

  /** The callbacks of the query have seen all of it, and its handle is closed if it is finished. */
  lemma Drains(b: Books, q: QueryId, rows: bool)
    requires Ledger(b, rows) && q in b.queries
    ensures var c := Heard(b, q);
            && Ledger(c, rows) && q in c.queries && c.queries[q].sent == b.queries[q].sent
            && c.queries[q].drained == |b.queries[q].sent|
            && c.queries[q].closes == (if q in b.done then 1 else 0)
            && forall p :: p in b.queries && p != q ==> p in c.queries && c.queries[p] == b.queries[p]
  {
    hide Ledger, Drained;
    DrainLedger(b, q, rows);
    HeardAll(b, q, rows);
  }
}
