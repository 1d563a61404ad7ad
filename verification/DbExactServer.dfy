/** A batch whose server returns the declared number of result sets. */
module DbExactServer {
  import opened DatabaseResult
  import opened DbProtocol
  import opened DbHistory
  import opened DbLedger
  import opened DbSafety
  import opened DbTheorems

  /** No failure, and the batch is not exchanged for another. */
  predicate Quiet(e: Effect) {
    e.Nothing? || e.Tell? || e.End?
  }

  /** The number of result sets that end in the steps from `i` up to `k`. */
  function Ends(states: seq<Sys>, steps: seq<Step>, i: nat, k: nat): nat
    requires IsRun(states, steps) && i <= k <= |steps|
    decreases k
  {
    if i == k then 0
    else Ends(states, steps, i, k - 1) + if EffectOf(states[k - 1], steps[k - 1]).End? then 1 else 0
  }

  predicate AllQuiet(states: seq<Sys>, steps: seq<Step>, i: nat, k: nat)
    requires IsRun(states, steps) && i <= k <= |steps|
  {
    forall j :: i <= j < k ==> Quiet(EffectOf(states[j], steps[j]))
  }

  predicate Unfailed(x: Query) {
    forall i :: 0 <= i < |x.sent| ==> !IsError(x.sent[i])
  }

  /** The queries of the batch, and those that left it for the end of `done`, have not failed. */
  predicate Going(b: Books, served: seq<QueryId>, batch: seq<QueryId>) {
    b.done + b.processing == served && forall q :: q in batch ==> q in b.queries && Unfailed(b.queries[q])
  }

  lemma TellUnfailed(x: Query, n: Note)
    requires Unfailed(x) && !IsError(n)
    ensures Unfailed(Told(x, n))
  {
  }

  lemma TellGoes(b: Books, n: Note, served: seq<QueryId>, batch: seq<QueryId>)
    requires Going(b, served, batch) && b.processing != [] && !IsError(n)
    ensures Going(Notify(b, b.processing[0], n), served, batch)
  {
    hide Unfailed;
    if b.processing[0] in batch {
      TellUnfailed(b.queries[b.processing[0]], n);
    }
  }

  lemma EndGoes(b: Books, at: State, code: DbaResult, served: seq<QueryId>, batch: seq<QueryId>)
    requires Going(b, served, batch) && (at.CheckRset? || at.FreeDone?)
    requires b.processing != [] ==> b.processing[0] in b.queries
    ensures Going(EndGroup(b, at, code), served, batch)
    ensures EndGroup(b, at, code).owed == b.owed - 1
  {
    hide Unfailed;
    if b.processing != [] {
      var q := b.processing[0];
      var x := b.queries[q];
      var left := if x.remain > 0 then x.remain - 1 else 0;
      if q in batch {
        Recount(x, left);
        TellUnfailed(x.(remain := left), Note(at, code, left == 0));
      }
      assert b.processing == [q] + b.processing[1..];
      assert (b.done + [q]) + b.processing[1..] == b.done + b.processing;
    }
  }

  lemma Recount(x: Query, left: nat)
    requires Unfailed(x)
    ensures Unfailed(x.(remain := left))
  {
  }

  lemma QuietGoes(s: Sys, step: Step, served: seq<QueryId>, batch: seq<QueryId>)
    requires Inv(s) && Enabled(s, step) && Quiet(EffectOf(s, step)) && Going(s.books, served, batch)
    ensures Going(Apply(s, step).books, served, batch)
    ensures Apply(s, step).books.owed == s.books.owed - if EffectOf(s, step).End? then 1 else 0
  {
    match step
    case Pass(agent, a, take, late) =>
      PassGoes(s, agent, a, take, late, served, batch);
    case Submit(q, numRs) =>
      hide Inv;
    case Drain(q) =>
      hide Inv;
    case _ =>
      hide Inv, Going;
  }

  lemma PassGoes(s: Sys, agent: Agent, a: Answer, take: nat, late: map<QueryId, nat>, served: seq<QueryId>,
                 batch: seq<QueryId>)
    requires Inv(s) && Enabled(s, Pass(agent, a, take, late)) && Quiet(EffectOf(s, Pass(agent, a, take, late)))
    requires Going(s.books, served, batch)
    ensures var t := Apply(s, Pass(agent, a, take, late));
            Going(t.books, served, batch)
            && t.books.owed == s.books.owed - if EffectOf(s, Pass(agent, a, take, late)).End? then 1 else 0
  {
    hide Going, Lives, Owes, Round, AllNew, RowThere, AtRow, AtRows, EndGroup, Notify, Settled;
    var l := s.drivers[agent];
    assert AtHome(s.conn, agent, l);
    var n := Round(s.conn, ViewOf(s.books), l, a);
    RoundLawful(s.conn, ViewOf(s.books), l, a);
    WhereQueries(s.books);
    match n.effect
    case Tell(r) =>
      TellGoes(s.books, r, served, batch);
      OwedStays(s.books, r);
    case End(at, code) => EndGoes(s.books, at, code, served, batch);
    case _ =>
  }

  lemma OwedStays(b: Books, n: Note)
    requires b.processing != []
    ensures Notify(b, b.processing[0], n).owed == b.owed
  {
  }

  lemma {:induction false} QuietRun(states: seq<Sys>, steps: seq<Step>, i: nat, k: nat, served: seq<QueryId>,
                                    batch: seq<QueryId>)
    requires Careful(states, steps) && i <= k <= |steps| && AllQuiet(states, steps, i, k)
    requires Going(states[i].books, served, batch)
    ensures Going(states[k].books, served, batch)
    ensures states[k].books.owed == states[i].books.owed - Ends(states, steps, i, k)
    decreases k
  {
    hide Going, Inv, Owned, Apply, Enabled, EffectOf, Quiet;
    if i < k {
      QuietRun(states, steps, i, k - 1, served, batch);
      RunKeeps(states, steps, k - 1);
      QuietGoes(states[k - 1], steps[k - 1], served, batch);
    }
  }

  lemma NotFinished(s: Sys, q: QueryId)
    requires Inv(s) && q in s.books.processing
    ensures q in s.books.queries && Unfailed(s.books.queries[q])
  {
    assert q in s.books.queries && PhaseOf(s.books.queries[q].numRs, s.books.queries[q].sent) != Finished
           && PhaseOf(s.books.queries[q].numRs, s.books.queries[q].sent) != Bad by {
      hide Lists, Settled, Exclusive, AtRow, AtRows, Owes;
    }
    var x := s.books.queries[q];
    hide Inv, PhaseOf;
    forall i | 0 <= i < |x.sent| ensures !IsError(x.sent[i]) {
      if x.sent[i].final {
        OnlyLastFinal(x.numRs, x.sent, i);
      }
    }
  }

  lemma NothingOwed(b: Books, rows: bool)
    requires Ledger(b, rows) && b.owed == 0
    ensures b.processing == []
  {
  }

  /**
   If as many result sets end as the batch is owed, and nothing fails, every query of the batch is
   served: it gets as many result sets as it declared, and only the last note is final.
   */
  lemma ServedExactly(states: seq<Sys>, steps: seq<Step>, i: nat, k: nat, q: QueryId)
    returns (gs: seq<seq<Note>>, last: seq<Note>)
    requires Careful(states, steps) && i <= k <= |steps| && AllQuiet(states, steps, i, k)
    requires q in states[i].books.processing && Ends(states, steps, i, k) == states[i].books.owed
    ensures q in states[k].books.queries && q in states[k].books.done
    ensures var x := states[k].books.queries[q]; Served(x.numRs, x.sent, gs, last)
  {
    hide Owned, Apply, Enabled, EffectOf, Quiet, Served, GaveUp, Unfailed;
    var b := states[i].books;
    assert Going(b, b.done + b.processing, b.processing) by {
      RunKeeps(states, steps, i);
      hide Inv;
      forall p | p in b.processing ensures p in b.queries && Unfailed(b.queries[p]) {
        NotFinished(states[i], p);
      }
    }
    QuietRun(states, steps, i, k, b.done + b.processing, b.processing);
    var c := states[k].books;
    assert c.processing == [] by {
      RunKeeps(states, steps, k);
      NothingOwed(c, AtRows(states[k].conn.st));
    }
    assert q in c.done + c.processing;
    gs, last := Results(states, steps, k, q);
    NotGivenUp(c.queries[q], gs, last);
  }

  lemma NotGivenUp(x: Query, gs: seq<seq<Note>>, last: seq<Note>)
    requires Unfailed(x)
    ensures !GaveUp(x.numRs, x.sent, gs, last)
  {
    if |last| == 1 && x.sent == Concat(gs) + last {
      assert x.sent[|Concat(gs)|] == last[0];
    }
  }
}
