/** What the invariant of the database connection means for its callers, and where it ends. */
module DbTheorems {
  import opened DbProtocol
  import opened DbHistory
  import opened DbLedger
  import opened DbSafety
  import opened Sequences

  /** A run from the start in which every thread takes the flag on the loop of the handle. */
  predicate Careful(states: seq<Sys>, steps: seq<Step>) {
    && IsRun(states, steps) && states[0] == Init()
    && forall i :: 0 <= i < |steps| ==> Owned(states[i], steps[i])
  }

  lemma NoSteps()
    ensures Careful([Init()], [])
  {
  }

  /** A careful run goes on with a step. */
  lemma GoOn(states: seq<Sys>, steps: seq<Step>, step: Step) returns (more: seq<Sys>, moreSteps: seq<Step>)
    requires Careful(states, steps) && Enabled(states[|steps|], step) && Owned(states[|steps|], step)
    ensures more == states + [Apply(states[|steps|], step)] && moreSteps == steps + [step]
    ensures Careful(more, moreSteps)
  {
    hide Enabled, Apply, Owned;
    more, moreSteps := states + [Apply(states[|steps|], step)], steps + [step];
  }

  /**
   Mutual exclusion. At most one agent is in the handler, the flag is set in all but four states,
   and nothing is armed while it is clear.
   */
  lemma OneDriver(states: seq<Sys>, steps: seq<Step>, k: nat)
    requires Careful(states, steps) && k <= |steps|
    ensures forall a, b :: a in states[k].drivers && b in states[k].drivers ==> a == b
    ensures states[k].drivers != map[] ==> states[k].conn.flag.Set?
    ensures var c := states[k].conn;
            c.flag.Clear? ==>
              c.watch.Unarmed? && (c.st.Inited? || c.st.ConnStart? || c.st.QueryStart? || c.st.CloseDone?)
  {
    RunKeeps(states, steps, k);
    hide Accounts, IsRun;
    var s := states[k];
    assert forall a :: a in s.drivers ==> AtHome(s.conn, a, s.drivers[a]);
  }

  // ---- Order and conservation ----

  /** The queries that arrived while the pending ones were not being failed, in that order. */
  function Arrived(steps: seq<Step>): seq<QueryId> {
    if steps == [] then []
    else
      var step := steps[|steps| - 1];
      Arrived(steps[..|steps| - 1]) + if step.Submit? then [step.q] else []
  }

  /** The step fails the pending queries, and `q` arrives behind them before the list is emptied. */
  predicate Discards(s: Sys, step: Step, q: QueryId)
    requires Enabled(s, step)
  {
    step.Pass? && EffectOf(s, step).FailAll? && q in step.late
  }

  predicate Discarded(states: seq<Sys>, steps: seq<Step>, k: nat, q: QueryId)
    requires IsRun(states, steps) && k <= |steps|
  {
    exists i :: 0 <= i < k && Discards(states[i], steps[i], q)
  }

  lemma EffectPlaces(b: Books, e: Effect, take: nat, late: map<QueryId, nat>)
    ensures var c := Effected(b, e, take, late);
            c.line == b.line && c.dropped == if e.FailAll? then b.dropped + late.Keys else b.dropped
  {
  }

  lemma StepPlaces(s: Sys, step: Step)
    requires Enabled(s, step)
    ensures var t := Apply(s, step);
            && t.books.line == s.books.line + (if step.Submit? then [step.q] else [])
            && forall q :: q in t.books.dropped <==> q in s.books.dropped || Discards(s, step, q)
  {
    match step
    case Pass(agent, a, take, late) =>
      hide Effected, Round, RowThere, AllNew;
      EffectPlaces(s.books, Round(s.conn, ViewOf(s.books), s.drivers[agent], a).effect, take, late);
    case _ =>
  }

  lemma {:induction false} RunPlaces(states: seq<Sys>, steps: seq<Step>, k: nat)
    requires IsRun(states, steps) && states[0] == Init() && k <= |steps|
    ensures states[k].books.line == Arrived(steps[..k])
    ensures forall q :: q in states[k].books.dropped <==> Discarded(states, steps, k, q)
  {
    hide Enabled, Apply, Discards;
    if k > 0 {
      RunPlaces(states, steps, k - 1);
      StepPlaces(states[k - 1], steps[k - 1]);
      assert steps[..k][..k - 1] == steps[..k - 1];
      forall q ensures q in states[k].books.dropped <==> Discarded(states, steps, k, q) {
        assert Discarded(states, steps, k, q)
               <==> Discarded(states, steps, k - 1, q) || Discards(states[k - 1], steps[k - 1], q);
      }
    }
  }

  /**
   Every query that was let in has arrived or is discarded, not both. Those that arrived are, in that
   order, the ones with a final result, the ones of the batch and the ones pending.
   */
  lemma Conserved(states: seq<Sys>, steps: seq<Step>, k: nat)
    requires Careful(states, steps) && k <= |steps|
    ensures var b := states[k].books;
            && Arrived(steps[..k]) == b.done + b.processing + b.pending && Distinct(Arrived(steps[..k]))
            && (forall q :: q in b.queries <==> q in Arrived(steps[..k]) || Discarded(states, steps, k, q))
            && (forall q :: q in Arrived(steps[..k]) ==> !Discarded(states, steps, k, q))
  {
    RunPlaces(states, steps, k);
    assert Lists(states[k].books) by { RunKeeps(states, steps, k); }
    hide IsRun, Arrived, Discarded, Distinct;
  }

  lemma ToldHasLeft(b: Books, rows: bool, q: QueryId)
    requires Ledger(b, rows) && q in b.queries && b.queries[q].sent != []
    ensures q in b.done || (b.processing != [] && q == b.processing[0])
  {
    hide Over, Current, Delivered, Owes;
    WhereQueries(b);
  }

  lemma BeforeCurrent(b: Books, i: nat, j: nat)
    requires i < j < |b.line| && b.line == b.done + b.processing + b.pending && Distinct(b.line)
    requires b.line[j] in b.done || (b.processing != [] && b.line[j] == b.processing[0])
    ensures b.line[i] in b.done
  {
    if b.line[j] in b.done {
      var m :| 0 <= m < |b.done| && b.done[m] == b.line[j];
      assert b.line[m] == b.line[j];
    } else {
      assert b.line[|b.done|] == b.line[j];
    }
    assert i < |b.done| && b.line[i] == b.done[i];
  }

  /** Queries are served in turn: nothing is told to one before all that arrived earlier are finished. */
  lemma InTurn(states: seq<Sys>, steps: seq<Step>, k: nat, i: nat, j: nat)
    requires Careful(states, steps) && k <= |steps| && i < j < |Arrived(steps[..k])|
    ensures Arrived(steps[..k])[j] in states[k].books.queries
    ensures states[k].books.queries[Arrived(steps[..k])[j]].sent != [] ==>
              Arrived(steps[..k])[i] in states[k].books.done
  {
    RunPlaces(states, steps, k);
    RunKeeps(states, steps, k);
    hide IsRun, Careful, Arrived, Lives, Owes, Exclusive, Settled, AtRows, AtRow, Distinct;
    var b := states[k].books;
    assert b.line[j] in b.line;
    if b.queries[b.line[j]].sent != [] {
      ToldHasLeft(b, AtRows(states[k].conn.st), b.line[j]);
      BeforeCurrent(b, i, j);
    }
  }

  lemma QueryLawful(s: Sys, q: QueryId)
    requires Inv(s) && q in s.books.queries
    ensures var x := s.books.queries[q];
            && x.numRs > 0 && PhaseOf(x.numRs, x.sent) != Bad && Delivered(x)
            && (PhaseOf(x.numRs, x.sent) == Finished <==> q in s.books.done)
  {
    hide Lists, Exclusive, Settled, Owes, AtRows, AtRow, Delivered;
    WhereQueries(s.books);
  }

  /**
   What a query has been told falls into result sets. A finished query got all it declared, the
   last note alone being final, or one error after some of them; its handle is closed once, when
   the callbacks have seen that last note.
   */
  lemma Results(states: seq<Sys>, steps: seq<Step>, k: nat, q: QueryId)
    returns (gs: seq<seq<Note>>, last: seq<Note>)
    requires Careful(states, steps) && k <= |steps| && q in states[k].books.queries
    ensures var x := states[k].books.queries[q];
            && (q in states[k].books.done ==> Served(x.numRs, x.sent, gs, last) || GaveUp(x.numRs, x.sent, gs, last))
            && (q !in states[k].books.done ==>
                  Groups(gs) && |gs| < x.numRs && (last == [] || IsOpenGroup(last)) && x.sent == Concat(gs) + last)
            && (forall i :: 0 <= i < |x.sent| && x.sent[i].final ==> i == |x.sent| - 1)
            && x.drained <= |x.sent|
            && x.closes == if x.drained == |x.sent| && q in states[k].books.done then 1 else 0
  {
    RunKeeps(states, steps, k);
    hide IsRun, Inv, PhaseOf, Served, GaveUp, Groups, IsOpenGroup, Concat;
    var x := states[k].books.queries[q];
    QueryLawful(states[k], q);
    gs, last := PhaseParses(x.numRs, x.sent);
    forall i | 0 <= i < |x.sent| && x.sent[i].final ensures i == |x.sent| - 1 {
      OnlyLastFinal(x.numRs, x.sent, i);
    }
    if PhaseOf(x.numRs, x.sent).Between? { assert Concat(gs) + last == Concat(gs); }
  }

  // ---- No result after a final one ----

  /** The queue of a query only grows. */
  predicate Grew(b: Books, c: Books) {
    forall q :: q in b.queries ==> q in c.queries && b.queries[q].sent <= c.queries[q].sent
  }

  lemma AllFail(b: Books, n: Note, late: map<QueryId, nat>)
    requires AllNew(b, late)
    ensures Grew(b, FailPending(FailProcessing(b, n), n, late))
  {
    var c := FailProcessing(b, n);
    assert Grew(b, c) && AllNew(c, late);
    assert Grew(c, FailPending(c, n, late));
  }

  lemma EffectGrows(b: Books, e: Effect, take: nat, late: map<QueryId, nat>)
    requires AllNew(b, late)
    ensures Grew(b, Effected(b, e, take, late))
  {
    hide FailPending, AllNew, FormBatch;
    match e
    case FailAll(n) => AllFail(b, n, late);
    case Form => SameQueries(b, take);
    case _ =>
  }

  lemma SameQueries(b: Books, take: nat)
    ensures FormBatch(b, take).queries == b.queries
  {
  }

  lemma StepGrows(s: Sys, step: Step)
    requires Enabled(s, step)
    ensures Grew(s.books, Apply(s, step).books)
  {
    match step
    case Pass(agent, a, take, late) =>
      hide Effected, Round, RowThere, AllNew;
      EffectGrows(s.books, Round(s.conn, ViewOf(s.books), s.drivers[agent], a).effect, take, late);
    case _ =>
  }

  lemma FinalKept(s: Sys, step: Step, q: QueryId)
    requires Inv(s) && Enabled(s, step) && Owned(s, step) && q in s.books.done
    ensures var t := Apply(s, step);
            && q in s.books.queries && q in t.books.queries && q in t.books.done
            && t.books.queries[q].sent == s.books.queries[q].sent
  {
    InQueries(s, q);
    hide Inv, Enabled, Owned, PhaseOf, Delivered, Apply;
    var t := Apply(s, step);
    StepKeeps(s, step);
    StepGrows(s, step);
    QueryLawful(s, q);
    QueryLawful(t, q);
    var x, y := s.books.queries[q], t.books.queries[q];
    FinishedNotEmpty(x.numRs, x.sent);
    FinalEnds(x.numRs, x.sent);
    OnlyLastFinal(y.numRs, y.sent, |x.sent| - 1);
  }

  lemma FinishedNotEmpty(numRs: nat, sent: seq<Note>)
    requires PhaseOf(numRs, sent) == Finished
    ensures sent != []
  {
  }

  /** A query that got its final result is never told anything again. */
  lemma {:induction false} NothingAfterFinal(states: seq<Sys>, steps: seq<Step>, j: nat, k: nat, q: QueryId)
    requires Careful(states, steps) && j <= k <= |steps| && q in states[j].books.done
    ensures q in states[j].books.queries && q in states[k].books.queries && q in states[k].books.done
    ensures states[k].books.queries[q].sent == states[j].books.queries[q].sent
    decreases k
  {
    hide Enabled, Apply, Owned, Inv;
    if j < k {
      NothingAfterFinal(states, steps, j, k - 1, q);
      RunKeeps(states, steps, k - 1);
      FinalKept(states[k - 1], steps[k - 1], q);
    } else {
      RunKeeps(states, steps, k);
      InQueries(states[k], q);
    }
  }

  lemma InQueries(s: Sys, q: QueryId)
    requires Inv(s) && q in s.books.done
    ensures q in s.books.queries
  {
    hide Lives, Owes, Settled, Exclusive, AtRow, AtRows;
    WhereQueries(s.books);
  }
}
