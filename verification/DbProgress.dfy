/** What the server returns can always be delivered: no run is lost when a batch is about to be sent. */
module DbProgress {
  import opened DbProtocol
  import opened DbSafety
  import opened DbTheorems
  import opened DbScript
  import opened DbDelivery
  import opened DbConversation
  import opened DbResultSets
  import opened DbShares
  import opened DbStranded

  /** The library ends the call at once, as the script says. */
  function AnswerOf(x: Exchange): Answer {
    Answer(x.code, false, true, true, x.rows, true)
  }

  /** One agent executes the handler; a row that it is to hand over is there. */
  predicate Ready(s: Sys, me: Agent, l: Local) {
    && s.drivers == map[me := l] && l.settle.Running?
    && (s.conn.st.RowReady? && !l.result.EndOfRows? ==> s.conn.row.SomeRow?)
  }

  predicate AllCanWait(states: seq<Sys>, steps: seq<Step>, i: nat)
    requires IsRun(states, steps)
  {
    forall j :: i <= j < |steps| ==> CanWait(states[j], steps[j])
  }

  lemma ReadyEnabled(s: Sys, me: Agent, l: Local, x: Exchange)
    requires Ready(s, me, l)
    ensures var step := Pass(me, AnswerOf(x), 0, map[]);
            Enabled(s, step) && Works(s, step) && CanWait(s, step) && Owned(s, step)
  {
  }

  /** The agent goes on, and does not wait. */
  lemma RoundStays(c: Conn, v: View, l: Local, x: Exchange)
    requires l.settle.Running? && (x.code.Ok? || x.code.EndOfRows? || x.code.EndOfRsets?)
    requires !c.st.CloseDone? && (c.st.QueryStart? ==> !v.batch && v.pending)
    requires c.st.RowStart? || c.st.RowWaiting? ==> !x.code.EndOfRsets?
    ensures var n := Round(c, v, l, AnswerOf(x));
            && n.locals.Here? && n.locals.l.settle.Running?
            && (n.c.st.RowReady? && !n.locals.l.result.EndOfRows? ==> n.c.row.SomeRow?)
  {
  }

  lemma StaysReady(s: Sys, me: Agent, l: Local, x: Exchange) returns (k: Local)
    requires Inv(s) && Ready(s, me, l) && (x.code.Ok? || x.code.EndOfRows? || x.code.EndOfRsets?)
    requires !s.conn.st.CloseDone?
    requires s.conn.st.QueryStart? ==> s.books.processing == [] && s.books.pending != []
    requires s.conn.st.RowStart? || s.conn.st.RowWaiting? ==> !x.code.EndOfRsets?
    ensures Enabled(s, Pass(me, AnswerOf(x), 0, map[])) && Ready(Apply(s, Pass(me, AnswerOf(x), 0, map[])), me, k)
  {
    hide Inv, Enabled, Apply, Round, Effected;
    var step := Pass(me, AnswerOf(x), 0, map[]);
    ReadyEnabled(s, me, l, x);
    PassIs(s, step);
    RoundStays(s.conn, ViewOf(s.books), l, x);
    k := Round(s.conn, ViewOf(s.books), l, AnswerOf(x)).locals.l;
    DrivenAlone(s.drivers, me, k);
  }

  /** The answer agrees with the script. */
  lemma AnswerAgrees(s: Sys, me: Agent, l: Local, script: seq<Line>, n: nat)
    requires Ready(s, me, l) && IsScript(script) && n < |script|
    ensures Enabled(s, Pass(me, AnswerOf(script[n].x), 0, map[]))
    ensures Agreed(s, Pass(me, AnswerOf(script[n].x), 0, map[]), script, n)
    ensures script[n].x.code.Ok? || script[n].x.code.EndOfRows? || script[n].x.code.EndOfRsets?
  {
    hide Linked;
    LinkedAt(script, n);
    ReadyEnabled(s, me, l, script[n].x);
  }

  /** Where the handler is while the conversation goes on. */
  lemma TalkingAt(s: Sys, before: seq<QueryId>, batch: seq<QueryId>, script: seq<Line>, n: nat, place: Place,
                  me: Agent, l: Local)
    requires Talking(s, before, batch, script, n, place) && IsScript(script) && n < |script|
    requires Ready(s, me, l)
    ensures !s.conn.st.CloseDone? && !s.conn.st.QueryStart?
    ensures s.conn.st.RowStart? || s.conn.st.RowWaiting? ==> !script[n].x.code.EndOfRsets?
  {
    hide Linked, Accounted;
    LinkedAt(script, n);
    assert me in s.drivers;
  }

  /** A longer run reports the same up to where the shorter one ends. */
  lemma {:induction false} ReportedSame(states: seq<Sys>, steps: seq<Step>, more: seq<Sys>, moreSteps: seq<Step>,
                                        i: nat, k: nat)
    requires IsRun(states, steps) && IsRun(more, moreSteps) && states <= more && steps <= moreSteps
    requires i <= k <= |steps|
    ensures Reported(more, moreSteps, i, k) == Reported(states, steps, i, k)
    decreases k
  {
    hide Enabled, Apply, Completion;
    if i < k {
      ReportedSame(states, steps, more, moreSteps, i, k - 1);
      assert more[k - 1] == states[k - 1] && moreSteps[k - 1] == steps[k - 1];
    }
  }

  /** A call that is not to be continued ends. */
  lemma MustEnd(s: Sys, before: seq<QueryId>, batch: seq<QueryId>, script: seq<Line>, n: nat, me: Agent, l: Local)
    requires Talking(s, before, batch, script, n, Calling) && IsScript(script) && Ready(s, me, l)
    requires Enabled(s, Pass(me, AnswerOf(script[n].x), 0, map[]))
    ensures Completion(s, Pass(me, AnswerOf(script[n].x), 0, map[])) != []
  {
    hide Linked, Accounted;
    LinkedAt(script, n);
    TalkingAt(s, before, batch, script, n, Calling, me, l);
  }

  /** The conversation about the batch sent in step `i` has come to line `n` of the script. */
  predicate Underway(states: seq<Sys>, steps: seq<Step>, i: nat, sets: seq<ResultSet>, n: nat, place: Place,
                     me: Agent, l: Local)
    requires Careful(states, steps) && i < |steps| && sets != []
  {
    var b, script, s := states[i + 1].books, TheScript(states[i + 1], sets), states[|steps|];
    && AllCanWait(states, steps, i) && IsScript(script) && n <= |script| && !place.Through?
    && Talking(s, b.done, b.processing, script, n, place) && Ready(s, me, l)
    && Reported(states, steps, i, |steps|) == Said(script[..n])
  }

  lemma OneMore(states: seq<Sys>, steps: seq<Step>, i: nat, sets: seq<ResultSet>, n: nat, place: Place, me: Agent,
                l: Local)
    returns (more: seq<Sys>, moreSteps: seq<Step>, m: nat, next: Place, k: Local)
    requires Careful(states, steps) && i < |steps| && sets != [] && Underway(states, steps, i, sets, n, place, me, l)
    requires n < |TheScript(states[i + 1], sets)|
    ensures Careful(more, moreSteps) && states <= more && steps <= moreSteps && |moreSteps| == |steps| + 1
    ensures Underway(more, moreSteps, i, sets, m, next, me, k)
    ensures if place.Settling? then m == n && next.Calling? else m == n + 1
  {
    hide Inv, Enabled, Apply, Owned, Completion, Talking, IsScript, Agreed, Reported, Said, CanWait, Ready, TheScript;
    var b, script, s := states[i + 1].books, TheScript(states[i + 1], sets), states[|steps|];
    var step := Pass(me, AnswerOf(script[n].x), 0, map[]);
    RunKeeps(states, steps, |steps|);
    AnswerAgrees(s, me, l, script, n);
    TalkingAt(s, b.done, b.processing, script, n, place, me, l);
    k := StaysReady(s, me, l, script[n].x);
    if place.Calling? { MustEnd(s, b.done, b.processing, script, n, me, l); }
    ReadyEnabled(s, me, l, script[n].x);
    more, moreSteps := GoOn(states, steps, step);
    m, next := PassTalks(s, step, b.done, b.processing, script, n, place);
    ReportedSame(states, steps, more, moreSteps, i, |steps|);
    ReportedSnoc(more, moreSteps, i, |moreSteps|);
    SaidMore(script, n);
    assert AllCanWait(more, moreSteps, i) by { WaitsMore(states, steps, more, moreSteps, i); }
  }

  lemma WaitsMore(states: seq<Sys>, steps: seq<Step>, more: seq<Sys>, moreSteps: seq<Step>, i: nat)
    requires IsRun(states, steps) && IsRun(more, moreSteps) && states <= more && steps <= moreSteps
    requires |moreSteps| == |steps| + 1 && AllCanWait(states, steps, i)
    requires CanWait(more[|steps|], moreSteps[|steps|])
    ensures AllCanWait(more, moreSteps, i)
  {
    hide Enabled, Apply, CanWait;
    forall j | i <= j < |moreSteps| ensures CanWait(more[j], moreSteps[j]) {
      if j < |steps| { assert more[j] == states[j] && moreSteps[j] == steps[j]; }
    }
  }

  lemma SaidMore(script: seq<Line>, n: nat)
    requires n < |script|
    ensures Said(script[..n + 1]) == Said(script[..n]) + [script[n].x] && Said(script[..n]) + [] == Said(script[..n])
  {
  }

  lemma {:induction false} Finishes(states: seq<Sys>, steps: seq<Step>, i: nat, sets: seq<ResultSet>, n: nat,
                                    place: Place, me: Agent, l: Local)
    returns (more: seq<Sys>, moreSteps: seq<Step>)
    requires Careful(states, steps) && i < |steps| && sets != [] && Underway(states, steps, i, sets, n, place, me, l)
    ensures Careful(more, moreSteps) && states <= more && steps <= moreSteps && AllCanWait(more, moreSteps, i)
    ensures Reported(more, moreSteps, i, |moreSteps|) == Said(TheScript(states[i + 1], sets))
    decreases |TheScript(states[i + 1], sets)| - n, place.Settling?
  {
    hide Enabled, Apply, Owned, Underway, Said, TheScript, Reported, CanWait;
    var script := TheScript(states[i + 1], sets);
    assert n <= |script| by { Bounded(states, steps, i, sets, n, place, me, l); }
    if n < |script| {
      var m, next, k;
      more, moreSteps, m, next, k := OneMore(states, steps, i, sets, n, place, me, l);
      assert more[i + 1] == states[i + 1];
      more, moreSteps := Finishes(more, moreSteps, i, sets, m, next, me, k);
    } else {
      more, moreSteps := states, steps;
      SaidAll(script, n);
      Bounded(states, steps, i, sets, n, place, me, l);
    }
  }

  lemma Bounded(states: seq<Sys>, steps: seq<Step>, i: nat, sets: seq<ResultSet>, n: nat, place: Place, me: Agent,
                l: Local)
    requires Careful(states, steps) && i < |steps| && sets != [] && Underway(states, steps, i, sets, n, place, me, l)
    ensures n <= |TheScript(states[i + 1], sets)| && AllCanWait(states, steps, i)
    ensures Reported(states, steps, i, |steps|) == Said(TheScript(states[i + 1], sets)[..n])
  {
  }

  lemma AnsweredAll(states: seq<Sys>, steps: seq<Step>, i: nat, script: seq<Line>)
    requires IsRun(states, steps) && i <= |steps| && AllCanWait(states, steps, i)
    requires Reported(states, steps, i, |steps|) == Said(script)
    ensures Answered(states, steps, i, |steps|, script) && |Reported(states, steps, i, |steps|)| == |script|
  {
    hide Enabled, Apply, CanWait, Reported;
  }

  /** The batch is sent at once. */
  lemma SentAtOnce(before: seq<Sys>, taken: seq<Step>, me: Agent, l: Local, sets: seq<ResultSet>)
    returns (states: seq<Sys>, steps: seq<Step>, k: Local)
    requires Careful(before, taken) && Ready(before[|taken|], me, l) && sets != []
    requires var s := before[|taken|]; s.conn.st.QueryStart? && s.books.processing == [] && s.books.pending != []
    ensures Careful(states, steps) && before <= states && taken <= steps && |steps| == |taken| + 1
    ensures Sends(states[|taken|], steps[|taken|]) && Underway(states, steps, |taken|, sets, 1, Settling, me, k)
  {
    hide Inv, Enabled, Apply, Owned, Talking, IsScript, TheScript, Said, Ready, Reported, Completion, Sends, CanWait,
         Agreed;
    var s, step := before[|taken|], Pass(me, AnswerOf(SENT), 0, map[]);
    RunKeeps(before, taken, |taken|);
    ReadyEnabled(s, me, l, SENT);
    k := StaysReady(s, me, l, SENT);
    states, steps := GoOn(before, taken, step);
    var script := TheScript(Apply(s, step), sets);
    FirstLine(Apply(s, step), sets);
    SendsNow(s, me, l, script);
    var n, place := PassSends(s, step, sets);
    ReportedSnoc(states, steps, |taken|, |steps|);
    SaidFirst(script, 1);
  }

  lemma SendsNow(s: Sys, me: Agent, l: Local, script: seq<Line>)
    requires Ready(s, me, l) && s.conn.st.QueryStart? && s.books.processing == [] && s.books.pending != []
    requires Enabled(s, Pass(me, AnswerOf(SENT), 0, map[])) && script != [] && script[0].x == SENT
    ensures var step := Pass(me, AnswerOf(SENT), 0, map[]);
            Sends(s, step) && Agreed(s, step, script, 0) && Completion(s, step) == [SENT]
  {
  }

  lemma FirstLine(s: Sys, sets: seq<ResultSet>)
    requires sets != []
    ensures TheScript(s, sets) != [] && TheScript(s, sets)[0].x == SENT
  {
  }

  /**
   Every careful run that is about to send a batch goes on to one in which the server returns any given
   result sets and the library reports them all.
   */
  lemma CanBeDelivered(before: seq<Sys>, taken: seq<Step>, me: Agent, l: Local, sets: seq<ResultSet>)
    returns (states: seq<Sys>, steps: seq<Step>)
    requires Careful(before, taken) && Ready(before[|taken|], me, l) && sets != []
    requires var s := before[|taken|]; s.conn.st.QueryStart? && s.books.processing == [] && s.books.pending != []
    ensures Careful(states, steps) && before <= states && taken <= steps && |taken| < |steps|
    ensures Sends(states[|taken|], steps[|taken|])
    ensures Answered(states, steps, |taken|, |steps|, TheScript(states[|taken| + 1], sets))
    ensures |Reported(states, steps, |taken|, |steps|)| == |TheScript(states[|taken| + 1], sets)|
  {
    hide Enabled, Apply, Owned, Ready, Underway, TheScript, Reported, Answered, Sends, CanWait;
    var sent, sends, k := SentAtOnce(before, taken, me, l, sets);
    states, steps := Finishes(sent, sends, |taken|, sets, 1, Settling, me, k);
    assert states[|taken|] == sent[|taken|] && states[|taken| + 1] == sent[|taken| + 1];
    assert steps[|taken|] == sends[|taken|];
    AnsweredAll(states, steps, |taken|, TheScript(states[|taken| + 1], sets));
  }

  lemma TheBatch(q: QueryId, numRs: nat, take: nat)
    requires numRs > 0
    ensures var b := FormBatch(Submitted(Init().books, q, numRs), take);
            b.processing == [q] && b.owed == numRs && q in b.queries && b.queries[q].numRs == numRs
  {
    var b := Submitted(Init().books, q, numRs);
    assert b.pending[..1] == [q];
    assert SumRs(b.queries, [q]) == numRs;
  }

  lemma SendForms(s: Sys, step: Step)
    requires Inv(s) && Enabled(s, step) && Sends(s, step) && CanWait(s, step)
    ensures step.Pass? && Apply(s, step).books == FormBatch(s.books, step.take)
  {
    hide Inv, FormBatch, Round, Apply;
    PassAlone(s, step);
    PassIs(s, step);
    RoundSends(s.conn, ViewOf(s.books), s.drivers[step.agent], step.answer);
  }

  /** For any result sets there is a careful run in which a query that declared as many is told just them. */
  lemma ToldExactly(q: QueryId, sets: seq<ResultSet>) returns (states: seq<Sys>, steps: seq<Step>)
    requires sets != []
    ensures Careful(states, steps)
    ensures var c := states[|steps|].books;
            && q in c.queries && q in c.done && c.queries[q].numRs == |sets|
            && Plain(c.queries[q].sent) == SetsNotes(sets)
  {
    hide Enabled, Apply, Owned, Inv, TheScript, Reported, Sends, CanWait, FormBatch, Submitted, Plain, SetsNotes;
    var before, taken := AboutToSend(q, |sets|);
    var i := |taken|;
    assert ViewOf(before[i].books) == View(false, true) by { OnePending(q, |sets|); }
    states, steps := CanBeDelivered(before, taken, App(q, 0), DRIVES, sets);
    assert states[i] == before[i];
    RunKeeps(states, steps, i);
    SendForms(states[i], steps[i]);
    TheBatch(q, |sets|, steps[i].take);
    OwnResultSets(states, steps, i, |steps|, |steps|, sets, 0);
    assert Declared(states[i + 1].books, [q][..0]) == 0 && sets[0..|sets|] == sets;
    RunSizes(states, steps, i + 1, |steps|);
  }

  lemma OnePending(q: QueryId, numRs: nat)
    ensures ViewOf(Submitted(Init().books, q, numRs)) == View(false, true)
  {
  }
}
