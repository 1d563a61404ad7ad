/** Every query of a batch is told the result sets that the server returns to it, and no others. */
module DbResultSets {
  import opened DbProtocol
  import opened DbLedger
  import opened DbSafety
  import opened DbTheorems
  import opened DbScript
  import opened DbDelivery
  import opened DbConversation

  /** A batch is formed and sent. */
  predicate Sends(s: Sys, step: Step)
    requires Enabled(s, step)
  {
    Works(s, step) && s.conn.st.QueryStart? && s.books.processing == [] && s.books.pending != []
  }

  lemma RoundSends(c: Conn, v: View, l: Local, a: Answer)
    requires l.settle.Running? && c.st.QueryStart? && !v.batch && v.pending
    requires Asks(a) ==> a.arms && (c.handle.Open? || (c.handle.Closed? && a.inits && l.caller.ByApp?))
    ensures var n := Round(c, v, l, a);
            && n.effect.Form? && n.locals.Here?
            && if Asks(a) then n.c.st.QueryStart? && n.locals.l.settle.Arming?
               else n.c.st.QueryReady? && n.locals.l.settle.Running? && n.locals.l.result == a.code
  {
  }

  lemma BatchFormed(b: Books, take: nat)
    requires Ledger(b, false) && b.processing == []
    ensures var c := FormBatch(b, take);
            Batched(c, c.done, c.processing) && Story(c, c.processing) == []
  {
    hide Ledger, FormBatch, Story, SumRs;
    FormsBatch(b, take);
    var c := FormBatch(b, take);
    forall q | q in c.processing ensures q in c.queries && c.queries[q].sent == [] {
      assert q in c.processing + c.pending;
      assert b.processing + b.pending == b.pending;
      PendingUntold(b, q);
    }
    ToldNothing(c, c.processing);
  }

  lemma PendingUntold(b: Books, q: QueryId)
    requires Ledger(b, false) && q in b.pending
    ensures q in b.queries && b.queries[q].sent == []
  {
    hide Lists, Over, Current, Delivered, Owes;
  }

  lemma CompletionSend(s: Sys, step: Step)
    requires Enabled(s, step) && Sends(s, step)
    ensures Completion(s, step) == if Asks(step.answer) then [] else [Exchange(Send, step.answer.code, false)]
  {
  }

  function TheScript(s: Sys, sets: seq<ResultSet>): seq<Line>
    requires sets != []
  {
    Script(sets, s.books.owed)
  }

  lemma PassSends(s: Sys, step: Step, sets: seq<ResultSet>) returns (n: nat, place: Place)
    requires Inv(s) && Enabled(s, step) && Sends(s, step) && sets != []
    requires Agreed(s, step, TheScript(Apply(s, step), sets), 0)
    ensures var t := Apply(s, step);
            && Talking(t, t.books.done, t.books.processing, TheScript(t, sets), n, place) && !place.Through?
            && IsScript(TheScript(t, sets)) && n <= 1 <= |TheScript(t, sets)|
            && Completion(s, step) == (if n == 0 then [] else [TheScript(t, sets)[0].x])
            && place == if n == 0 then Calling else Settling
  {
    hide Inv, Ledger, FormBatch, Round, Completion, Linked, Script, Story, Batched;
    PassAlone(s, step);
    PassIs(s, step);
    var t, l := Apply(s, step), s.drivers[step.agent];
    var script := TheScript(t, sets);
    ScriptLinked(sets, t.books.owed);
    RoundSends(s.conn, ViewOf(s.books), l, step.answer);
    var r := Round(s.conn, ViewOf(s.books), l, step.answer);
    DrivenAlone(s.drivers, step.agent, r.locals.l);
    BatchFormed(s.books, step.take);
    NoLines();
    CompletionSend(s, step);
    assert script[..0] == [];
    assert Accounted(t.books, t.books.done, t.books.processing, script, 0);
    if Asks(step.answer) {
      n, place := 0, Calling;
    } else {
      assert Exchange(Send, step.answer.code, false) in Completion(s, step);
      n, place := 1, Settling;
    }
  }

  // ---- Over a run ----

  function Said(lines: seq<Line>): (r: seq<Exchange>)
    ensures |r| == |lines| && forall i :: 0 <= i < |lines| ==> r[i] == lines[i].x
  {
    seq(|lines|, i requires 0 <= i < |lines| => lines[i].x)
  }

  lemma AnsweredBefore(states: seq<Sys>, steps: seq<Step>, i: nat, k: nat, script: seq<Line>)
    requires IsRun(states, steps) && i < k <= |steps| && Answered(states, steps, i, k, script)
    ensures Answered(states, steps, i, k - 1, script)
    ensures Agreed(states[k - 1], steps[k - 1], script, |Reported(states, steps, i, k - 1)|)
  {
    hide Enabled, Apply, Completion, CanWait;
    var h, c := Reported(states, steps, i, k - 1), Completion(states[k - 1], steps[k - 1]);
    assert Reported(states, steps, i, k) == h + c;
    assert forall n :: 0 <= n < |h| ==> (h + c)[n] == h[n];
    if c != [] { assert (h + c)[|h|] == c[0]; }
  }

  lemma ReportedSnoc(states: seq<Sys>, steps: seq<Step>, i: nat, k: nat)
    requires IsRun(states, steps) && i < k <= |steps|
    ensures Reported(states, steps, i, k) == Reported(states, steps, i, k - 1) + Completion(states[k - 1], steps[k - 1])
    ensures Reported(states, steps, i, i) == []
    ensures k == i + 1 ==> Reported(states, steps, i, k) == Completion(states[i], steps[i])
  {
    hide Enabled, Apply, Completion;
  }

  lemma SaidFirst(script: seq<Line>, n: nat)
    requires n <= 1 <= |script|
    ensures Said(script[..n]) == if n == 0 then [] else [script[0].x]
  {
  }

  /**
   The server answers a batch that has just been sent with the result sets `sets`. Then the calls made
   are those of the script, and the batch is told what the script calls for, up to the current step or
   to the end of the conversation.
   */
  lemma {:induction false} TalkGoes(states: seq<Sys>, steps: seq<Step>, i: nat, k: nat, sets: seq<ResultSet>)
    returns (j: nat, n: nat, place: Place)
    requires Careful(states, steps) && i < k <= |steps| && Sends(states[i], steps[i]) && sets != []
    requires Answered(states, steps, i, k, TheScript(states[i + 1], sets))
    ensures i < j <= k && (j == k || place.Through?)
    ensures var b, script := states[i + 1].books, TheScript(states[i + 1], sets);
            && Talking(states[j], b.done, b.processing, script, n, place) && IsScript(script) && n <= |script|
            && Reported(states, steps, i, j) == Said(script[..n])
    decreases k
  {
    hide Inv, Enabled, Apply, Owned, Completion, Talking, IsScript, Sends, Agreed, TheScript, Answered, Reported, Said;
    var b, script := states[i + 1].books, TheScript(states[i + 1], sets);
    AnsweredBefore(states, steps, i, k, script);
    RunKeeps(states, steps, k - 1);
    ReportedSnoc(states, steps, i, k);
    if k == i + 1 {
      n, place := PassSends(states[i], steps[i], sets);
      j := k;
      SaidFirst(script, n);
    } else {
      j, n, place := TalkGoes(states, steps, i, k - 1, sets);
      if !place.Through? {
        j := k;
        n, place := StepTalks(states[k - 1], steps[k - 1], b.done, b.processing, script, n, place);
      }
    }
  }

  lemma StepTalks(s: Sys, step: Step, before: seq<QueryId>, batch: seq<QueryId>, script: seq<Line>, n: nat,
                  place: Place) returns (m: nat, next: Place)
    requires Inv(s) && Enabled(s, step) && Talking(s, before, batch, script, n, place) && !place.Through?
    requires Agreed(s, step, script, n) && IsScript(script) && n <= |script|
    ensures Talking(Apply(s, step), before, batch, script, m, next) && n <= m <= |script|
    ensures Said(script[..n]) + Completion(s, step) == Said(script[..m])
  {
    hide Inv, Enabled, Apply, Completion, Talking, IsScript, Agreed;
    if step.Pass? {
      m, next := PassTalks(s, step, before, batch, script, n, place);
      if m == n + 1 { assert script[..m] == script[..n] + [script[n]]; }
    } else {
      OtherTalks(s, step, before, batch, script, n, place);
      m, next := n, place;
    }
  }

  /**
   When the library has reported the last result set, the batch has been told, query after query, of
   each result set that it was owed: that it is empty, or its opening, its rows and its release. The
   calls made were those of the script, and the handler is about to look for the next batch.
   */
  lemma SetsDelivered(states: seq<Sys>, steps: seq<Step>, i: nat, k: nat, sets: seq<ResultSet>) returns (j: nat)
    requires Careful(states, steps) && i < k <= |steps| && Sends(states[i], steps[i]) && sets != []
    requires Answered(states, steps, i, k, TheScript(states[i + 1], sets))
    requires |Reported(states, steps, i, k)| >= |TheScript(states[i + 1], sets)|
    ensures i < j <= k && Reported(states, steps, i, j) == Said(TheScript(states[i + 1], sets))
    ensures var b := states[i + 1].books;
            && b.processing != [] && Batched(states[j].books, b.done, b.processing)
            && Story(states[j].books, b.processing) == SetsNotes(Owed(sets, b.owed))
            && states[j].books.owed == b.owed - |sets|
    ensures states[j].conn.st.QueryStart? || (j == k && states[j].conn.st.NextDone?)
  {
    hide Inv, Enabled, Apply, Owned, Story, Notes, Owed, Script, Sends, Reported, CanWait, Talking, Said, IsScript;
    var n, place;
    var b, script := states[i + 1].books, TheScript(states[i + 1], sets);
    j, n, place := TalkGoes(states, steps, i, k, sets);
    SaidAll(script, n);
    if place.Through? { ThroughAll(states[j], b.done, b.processing, script, n); }
    ConversationOver(states[j], b.done, b.processing, script, place);
    ScriptNotes(sets, b.owed);
    ScriptLast(sets, b.owed);
    RunKeeps(states, steps, i);
    SomethingSent(states[i], steps[i]);
  }

  lemma ThroughAll(s: Sys, before: seq<QueryId>, batch: seq<QueryId>, script: seq<Line>, n: nat)
    requires Talking(s, before, batch, script, n, Through)
    ensures n == |script|
  {
  }

  lemma ConversationOver(s: Sys, before: seq<QueryId>, batch: seq<QueryId>, script: seq<Line>, place: Place)
    requires Talking(s, before, batch, script, |script|, place) && IsScript(script)
    ensures Batched(s.books, before, batch) && Story(s.books, batch) == Notes(script)
    ensures s.books.owed == script[|script| - 1].left
    ensures if place.Through? then s.conn.st.QueryStart? else s.conn.st.NextDone?
  {
    hide Notes, Story, Batched, Linked;
    assert script[..|script|] == script;
    LastLine(script);
  }

  lemma SaidAll(script: seq<Line>, n: nat)
    requires n <= |script|
    ensures |Said(script[..n])| == n && (n == |script| ==> script[..n] == script)
  {
  }

  lemma LastLine(script: seq<Line>)
    requires IsScript(script)
    ensures Notes(script[..|script| - 1]) == Notes(script)
  {
    hide Linked, Notes;
    var n := |script| - 1;
    assert script == script[..n] + [script[n]];
    NotesSnoc(script[..n], script[n]);
  }

  lemma SomethingSent(s: Sys, step: Step)
    requires Inv(s) && Enabled(s, step) && Sends(s, step) && CanWait(s, step)
    ensures Apply(s, step).books.processing != []
  {
    hide Inv, Ledger, FormBatch, Round, Apply;
    PassAlone(s, step);
    PassIs(s, step);
    RoundSends(s.conn, ViewOf(s.books), s.drivers[step.agent], step.answer);
    FormsBatch(s.books, step.take);
  }
}
