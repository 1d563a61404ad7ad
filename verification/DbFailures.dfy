/** What a failure of the connection does to its queries: who is told, and who is never heard of. */
module DbFailures {
  import opened DatabaseResult
  import opened DbProtocol
  import opened DbHistory
  import opened DbLedger
  import opened DbSafety
  import opened DbTheorems
  import opened DbRace

  predicate IsFailure(e: Effect) {
    e.FailBatch? || e.FailAll?
  }

  /** The queries that are on a list which the failure empties. */
  function Listed(b: Books, e: Effect): seq<QueryId> {
    match e
    case FailBatch(_) => b.processing
    case FailAll(_) => b.processing + b.pending
    case _ => []
  }

  lemma FailureIsError(s: Sys, step: Step)
    requires Inv(s) && Enabled(s, step) && IsFailure(EffectOf(s, step))
    ensures Ledger(s.books, false) && IsError(EffectOf(s, step).note)
  {
    hide Ledger, Round, RowThere, AllNew, IsError, Settled, AtRow, AtRows;
    var agent := step.agent;
    assert AtHome(s.conn, agent, s.drivers[agent]);
    RoundLawful(s.conn, ViewOf(s.books), s.drivers[agent], step.answer);
  }

  lemma Fails(b: Books, e: Effect, take: nat, late: map<QueryId, nat>)
    requires Ledger(b, false) && IsFailure(e) && IsError(e.note) && AllNew(b, late)
    ensures var c := Effected(b, e, take, late);
            && Ledger(c, false) && AllTold(b, c, Listed(b, e), e.note) && c.done == b.done + Listed(b, e)
  {
    hide Ledger, AllNew, FailPending, FailProcessing, IsError, AllTold;
    FailsProcessing(b, e.note);
    if e.FailAll? {
      var c := FailProcessing(b, e.note);
      StillNew(b, e.note, late);
      FailsPending(c, e.note, late);
      OneList(b);
      BothTold(b, c, FailPending(c, e.note, late), b.processing, b.pending, e.note);
    }
  }

  lemma OneList(b: Books)
    requires Ledger(b, false)
    ensures forall q :: q in b.processing ==> q !in b.pending
  {
    hide Lives, Owes;
    WhereQueries(b);
  }

  lemma BothTold(b: Books, c: Books, d: Books, p: seq<QueryId>, r: seq<QueryId>, n: Note)
    requires AllTold(b, c, p, n) && AllTold(c, d, r, n) && forall q :: q in p ==> q !in r
    ensures AllTold(b, d, p + r, n)
  {
    hide ToldMore;
  }

  lemma NotYetOver(b: Books, q: QueryId)
    requires Ledger(b, false) && (q in b.processing || q in b.pending)
    ensures q in b.queries && b.queries[q].numRs > 0 && PhaseOf(b.queries[q].numRs, b.queries[q].sent).Between?
  {
    hide Lists, Owes, Delivered;
  }

  /**
   When the connection or the batch fails, each listed query is told one thing more, the error, and
   that is final: it gave up. No other query is told anything.
   */
  lemma EachGivesUp(states: seq<Sys>, steps: seq<Step>, k: nat, q: QueryId) returns (gs: seq<seq<Note>>)
    requires Careful(states, steps) && k < |steps| && IsFailure(EffectOf(states[k], steps[k]))
    requires q in states[k].books.queries
    ensures q in states[k + 1].books.queries
    ensures var b, c, e := states[k].books, states[k + 1].books, EffectOf(states[k], steps[k]);
            var x, y := b.queries[q], c.queries[q];
            if q in Listed(b, e) then
              && y.sent == x.sent + [e.note] && e.note.final && q in c.done
              && y.numRs == x.numRs && GaveUp(y.numRs, y.sent, gs, [e.note])
            else y == x && (q in c.done <==> q in b.done)
  {
    RunKeeps(states, steps, k);
    hide Inv, Ledger, Round, RowThere, AllNew, Effected, Owned, GaveUp;
    var b, e := states[k].books, EffectOf(states[k], steps[k]);
    FailureIsError(states[k], steps[k]);
    Fails(b, e, steps[k].take, steps[k].late);
    gs := [];
    if q in Listed(b, e) {
      NotYetOver(b, q);
      gs := GivesUp(b.queries[q], e.note);
    }
  }

  lemma GivesUp(x: Query, n: Note) returns (gs: seq<seq<Note>>)
    requires x.numRs > 0 && PhaseOf(x.numRs, x.sent).Between? && IsError(n)
    ensures GaveUp(x.numRs, x.sent + [n], gs, [n])
  {
    var last;
    gs, last := PhaseParses(x.numRs, x.sent);
  }

  // ---- Queries that nobody hears of ----

  lemma StaysDiscarded(states: seq<Sys>, steps: seq<Step>, i: nat, k: nat, q: QueryId)
    requires Careful(states, steps) && i < k <= |steps| && Discards(states[i], steps[i], q)
    ensures q in states[k].books.dropped
  {
    hide Discards;
    RunPlaces(states, steps, k);
    assert Discarded(states, steps, k, q);
  }

  /** A query let in while the pending ones were failed is never told anything, nor is its handle closed. */
  lemma NeverHeard(states: seq<Sys>, steps: seq<Step>, i: nat, k: nat, q: QueryId)
    requires Careful(states, steps) && i < k <= |steps| && Discards(states[i], steps[i], q)
    ensures q in states[k].books.queries && q !in Arrived(steps[..k])
    ensures var x := states[k].books.queries[q]; x.sent == [] && x.drained == 0 && x.closes == 0
  {
    StaysDiscarded(states, steps, i, k, q);
    RunPlaces(states, steps, k);
    RunKeeps(states, steps, k);
    hide IsRun, Careful, Discards, Ledger, AtRows, AtRow, Settled, Exclusive;
    LateUnheard(states[k].books, AtRows(states[k].conn.st), q);
  }

  /**
   There are such queries: the first connect fails, the two queries that had asked for it are told
   so, and any other query may arrive just then.
   */
  lemma DiscardReached(q: QueryId, numRs: nat) returns (states: seq<Sys>, steps: seq<Step>)
    requires numRs > 0
    ensures Careful(states, steps) && steps != [] && Discards(states[|steps| - 1], steps[|steps| - 1], q)
    ensures var b := states[|steps|].books;
            q in b.dropped && q in b.queries && b.queries[q] == NewQuery(numRs) && b.done == [q + 1, q + 2]
  {
    hide Enabled, Apply, Discards, Owned, Asked;
    var p, b, me, l := q + 1, Asked(q + 1), App(q + 2, 1), Local(Ok, ByApp, Running);
    states, steps := Enters(p);
    states, steps := Passes(p, states, steps, b, At(Inited, Set, Closed, Unarmed), me, l, ENDS);
    states, steps := Passes(p, states, steps, b, At(ConnStart, Set, Closed, Unarmed), me, l, FAILS);
    LateQuery(q, numRs);
    states, steps := GoOn(states, steps, Pass(me, ENDS, 0, map[q := numRs]));
  }

  lemma LateQuery(q: QueryId, numRs: nat)
    requires numRs > 0
    ensures var me := App(q + 2, 1);
            var s := Solo(q + 1, Asked(q + 1), At(ConnDone, Set, Closed, Unarmed), me,
                          Local(NetworkError, ByApp, Running));
            var step := Pass(me, ENDS, 0, map[q := numRs]);
            && Enabled(s, step) && Owned(s, step) && Discards(s, step, q)
            && var b := Apply(s, step).books;
            q in b.dropped && q in b.queries && b.queries[q] == NewQuery(numRs) && b.done == [q + 1, q + 2]
  {
  }
}
