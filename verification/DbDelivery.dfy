/** What a batch is told of the result sets that the server returns to it. */
module DbDelivery {
  import opened DatabaseResult
  import opened DbProtocol
  import opened DbHistory
  import opened DbLedger
  import opened DbScript
  import opened Sequences

  // ---- What the library reports in a step ----

  /** The handler executes a case of its switch. */
  predicate Works(s: Sys, step: Step)
    requires Enabled(s, step)
  {
    step.Pass? && s.drivers[step.agent].settle.Running?
  }

  predicate Asks(a: Answer) {
    a.code.Ok? && a.waits
  }

  function Begun(call: Call, a: Answer): seq<Exchange> {
    if Asks(a) then [] else [Exchange(call, a.code, false)]
  }

  function Continued(call: Call, a: Answer, busy: DbaResult): seq<Exchange> {
    if a.code == busy then [] else [Exchange(call, a.code, false)]
  }

  /** The call that comes to its end in a step, if one does. */
  function Completion(s: Sys, step: Step): (r: seq<Exchange>)
    requires Enabled(s, step)
    ensures |r| <= 1
  {
    if !Works(s, step) then []
    else
      match s.conn.st
      case QueryStart => if s.books.processing == [] && s.books.pending != [] then Begun(Send, step.answer) else []
      case QueryWaiting => Continued(Send, step.answer, QueryStillProcessing)
      case CheckRset => [Exchange(Store, Ok, step.answer.rows)]
      case RowStart => Begun(Fetch, step.answer)
      case RowWaiting => Continued(Fetch, step.answer, RowStillFetching)
      case FreeStart => Begun(Free, step.answer)
      case FreeWaiting => Continued(Free, step.answer, RestReleasing)
      case NextStart => Begun(Move, step.answer)
      case NextWaiting => Continued(Move, step.answer, RsetStillLoading)
      case _ => []
  }

  /** When the library asks for an event, the poll can be armed. */
  predicate CanWait(s: Sys, step: Step)
    requires Enabled(s, step)
  {
    Works(s, step) && Asks(step.answer) ==>
      && step.answer.arms
      && (s.conn.handle.Open?
          || ((s.conn.st.ConnStart? || s.conn.st.QueryStart?) && s.conn.handle.Closed? && step.answer.inits
              && s.drivers[step.agent].caller.ByApp?))
  }

  function Reported(states: seq<Sys>, steps: seq<Step>, i: nat, k: nat): seq<Exchange>
    requires IsRun(states, steps) && i <= k <= |steps|
    decreases k
  {
    if i == k then [] else Reported(states, steps, i, k - 1) + Completion(states[k - 1], steps[k - 1])
  }

  /** The first call that the script does not expect gets any answer; the others get that of the script. */
  predicate Answers(heard: seq<Exchange>, script: seq<Line>) {
    forall n :: 0 <= n < |heard| && n < |script| && heard[n].call == script[n].x.call ==> heard[n] == script[n].x
  }

  predicate Answered(states: seq<Sys>, steps: seq<Step>, i: nat, k: nat, script: seq<Line>)
    requires IsRun(states, steps) && i <= k <= |steps|
  {
    && Answers(Reported(states, steps, i, k), script)
    && forall j :: i <= j < k ==> CanWait(states[j], steps[j])
  }

  // ---- What the batch has been told ----

  /** Notes but for their finality. */
  function Plain(sent: seq<Note>): (r: seq<Note>)
    ensures |r| == |sent| && forall i :: 0 <= i < |sent| ==> r[i] == sent[i].(final := false)
  {
    seq(|sent|, i requires 0 <= i < |sent| => sent[i].(final := false))
  }

  /** What the queries were told, one query after the other. */
  function Story(b: Books, qs: seq<QueryId>): seq<Note> {
    if qs == [] then []
    else
      var n := |qs| - 1;
      Story(b, qs[..n]) + if qs[n] in b.queries then Plain(b.queries[qs[n]].sent) else []
  }

  lemma ToldSnoc(b: Books, qs: seq<QueryId>, q: QueryId)
    ensures Story(b, qs + [q]) == Story(b, qs) + if q in b.queries then Plain(b.queries[q].sent) else []
  {
    assert (qs + [q])[..|qs|] == qs;
  }

  lemma {:induction false} ToldConcat(b: Books, p: seq<QueryId>, r: seq<QueryId>)
    ensures Story(b, p + r) == Story(b, p) + Story(b, r)
  {
    if r == [] {
      assert p + r == p;
    } else {
      hide Story;
      var n := |r| - 1;
      ToldConcat(b, p, r[..n]);
      ToldSnoc(b, p + r[..n], r[n]);
      ToldSnoc(b, r[..n], r[n]);
      assert p + r[..n] + [r[n]] == p + r && r[..n] + [r[n]] == r;
      Associates(Story(b, p), Story(b, r[..n]), if r[n] in b.queries then Plain(b.queries[r[n]].sent) else []);
    }
  }

  /** The queries have been told the same. */
  predicate SameSent(b: Books, c: Books, qs: seq<QueryId>) {
    forall q :: q in qs ==> q in b.queries && q in c.queries && b.queries[q].sent == c.queries[q].sent
  }

  lemma {:induction false} ToldSame(b: Books, c: Books, qs: seq<QueryId>)
    requires SameSent(b, c, qs)
    ensures Story(b, qs) == Story(c, qs)
  {
    if qs != [] { ToldSame(b, c, qs[..|qs| - 1]); }
  }

  lemma {:induction false} ToldNothing(b: Books, qs: seq<QueryId>)
    requires forall q :: q in qs ==> q in b.queries && b.queries[q].sent == []
    ensures Story(b, qs) == []
  {
    if qs != [] {
      ToldNothing(b, qs[..|qs| - 1]);
      assert qs[|qs| - 1] in qs;
    }
  }

  lemma PlainSnoc(sent: seq<Note>, n: Note)
    ensures Plain(sent + [n]) == Plain(sent) + [n.(final := false)]
  {
  }

  /** The first query of `q + rest` is told one thing more, and nothing had been told to the others. */
  lemma ToldOne(b: Books, c: Books, p: seq<QueryId>, q: QueryId, rest: seq<QueryId>, n: Note)
    requires SameSent(b, c, p) && SameSent(b, c, rest)
    requires q in b.queries && q in c.queries && c.queries[q].sent == b.queries[q].sent + [n]
    requires forall r :: r in rest ==> b.queries[r].sent == []
    ensures Story(c, p + ([q] + rest)) == Story(b, p + ([q] + rest)) + [n.(final := false)]
  {
    hide Story, Plain;
    ToldConcat(b, p, [q] + rest);
    ToldConcat(c, p, [q] + rest);
    ToldConcat(b, [q], rest);
    ToldConcat(c, [q], rest);
    ToldSame(b, c, p);
    ToldNothing(b, rest);
    ToldNothing(c, rest);
    assert [] + [q] == [q];
    ToldSnoc(b, [], q);
    ToldSnoc(c, [], q);
    PlainSnoc(b.queries[q].sent, n);
    NobodyTold(b);
    NobodyTold(c);
    Associates(Story(b, p), Plain(b.queries[q].sent), [n.(final := false)]);
  }

  lemma NobodyTold(b: Books)
    ensures Story(b, []) == []
  {
  }

  /** The batch is what was finished since it was formed, and what is being processed. */
  predicate Batched(b: Books, before: seq<QueryId>, batch: seq<QueryId>) {
    before <= b.done && b.done + b.processing == before + batch
  }

  lemma BatchedSplit(b: Books, before: seq<QueryId>, batch: seq<QueryId>)
    requires Batched(b, before, batch)
    ensures batch == b.done[|before|..] + b.processing
  {
    assert batch == (b.done + b.processing)[|before|..];
  }

  lemma InBatch(b: Books, rows: bool, before: seq<QueryId>, batch: seq<QueryId>)
    requires Ledger(b, rows) && Batched(b, before, batch)
    ensures forall q :: q in batch ==> q in b.queries
  {
    hide Lives, Owes;
    WhereQueries(b);
    BatchedSplit(b, before, batch);
  }

  lemma BatchTold(b: Books, rows: bool, c: Books, before: seq<QueryId>, batch: seq<QueryId>, n: Note)
    requires Ledger(b, rows) && Batched(b, before, batch) && b.processing != []
    requires AllTold(b, c, [b.processing[0]], n)
    ensures Story(c, batch) == Story(b, batch) + [n.(final := false)]
  {
    assert before <= b.done;
    hide Ledger, Batched, Story, SameSent;
    var q, p, rest := b.processing[0], b.done[|before|..], b.processing[1..];
    BatchedSplit(b, before, batch);
    OthersApart(b, rows);
    InBatch(b, rows, before, batch);
    Splits(p, b.processing, batch);
    SameElsewhere(b, c, q, n, p);
    SameElsewhere(b, c, q, n, rest);
    hide AllTold;
    ToldOne(b, c, p, q, rest, n);
  }

  lemma Splits(p: seq<QueryId>, r: seq<QueryId>, batch: seq<QueryId>)
    requires batch == p + r && r != []
    ensures r == [r[0]] + r[1..] && batch == p + ([r[0]] + r[1..])
    ensures forall q :: q in p || q in r ==> q in batch
  {
  }

  lemma SameElsewhere(b: Books, c: Books, q: QueryId, n: Note, qs: seq<QueryId>)
    requires AllTold(b, c, [q], n) && q !in qs && forall r :: r in qs ==> r in b.queries
    ensures SameSent(b, c, qs)
  {
  }

  lemma OthersApart(b: Books, rows: bool)
    requires Ledger(b, rows) && b.processing != []
    ensures b.processing[0] in b.queries && b.processing[0] !in b.done && b.processing[0] !in b.processing[1..]
    ensures forall q :: q in b.processing[1..] ==> q in b.queries && b.queries[q].sent == []
  {
    hide Over, Current, Delivered, Owes;
    WhereQueries(b);
    var rest := b.processing[1..];
    forall i | 0 <= i < |rest| ensures rest[i] != b.processing[0] && Untouched(b.queries[rest[i]]) {
      assert rest[i] == b.processing[i + 1];
    }
  }

  /** Something is owed exactly while a query is being processed. */
  lemma OwedIff(b: Books, rows: bool)
    requires Ledger(b, rows)
    ensures b.owed > 0 <==> b.processing != []
  {
    hide Lists, Over, Untouched, Delivered, PhaseOf;
  }
}
