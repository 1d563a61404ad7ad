/** What becomes of the code with which a call of the client library ends. */
module DbOutcomes {
  import opened DatabaseResult
  import opened DbProtocol
  import opened DbHistory
  import opened DbLedger
  import opened DbSafety
  import opened DbTheorems
  import opened DbFailures
  import opened DbDelivery
  import opened DbConversation

  /** A step may end a call: the state in which its code is dealt with, and the code. */
  datatype Ending = GoesOn | EndsWith(at: State, code: DbaResult)

  /** A call that asks for an event which cannot be awaited has failed. */
  function Started(s: Sys, step: Step, done: State): Ending
    requires Enabled(s, step) && step.Pass?
  {
    if !Asks(step.answer) then EndsWith(done, step.answer.code)
    else if CanWait(s, step) then GoesOn
    else EndsWith(done, OsError)
  }

  function Resumed(a: Answer, busy: DbaResult, done: State): Ending {
    if a.code == busy then GoesOn else EndsWith(done, a.code)
  }

  function EndingOf(s: Sys, step: Step): Ending
    requires Enabled(s, step)
  {
    if !Works(s, step) then GoesOn
    else
      match s.conn.st
      case ConnStart => Started(s, step, ConnDone)
      case ConnWaiting => Resumed(step.answer, ConnectionBusy, ConnDone)
      case QueryStart =>
        if s.books.processing == [] && s.books.pending != [] then Started(s, step, QueryReady) else GoesOn
      case QueryWaiting => Resumed(step.answer, QueryStillProcessing, QueryReady)
      case RowStart => Started(s, step, RowReady)
      case RowWaiting => Resumed(step.answer, RowStillFetching, RowReady)
      case FreeStart => Started(s, step, FreeDone)
      case FreeWaiting => Resumed(step.answer, RestReleasing, FreeDone)
      case NextStart => Started(s, step, NextDone)
      case NextWaiting => Resumed(step.answer, RsetStillLoading, NextDone)
      case CloseStart => Started(s, step, CloseDone)
      case CloseWaiting => Resumed(step.answer, ConnectionBusy, CloseDone)
      case _ => GoesOn
  }

  /** The code of a call is about to be dealt with. */
  predicate Ended(s: Sys, at: State, code: DbaResult) {
    s.conn.st == at && s.drivers != map[] && AllRun(s.drivers, code)
  }

  predicate IsDone(st: State) {
    st.ConnDone? || st.QueryReady? || st.RowReady? || st.FreeDone? || st.NextDone? || st.CloseDone?
  }

  lemma RoundEnds(s: Sys, step: Step)
    requires Enabled(s, step) && EndingOf(s, step).EndsWith?
    ensures var n := Round(s.conn, ViewOf(s.books), s.drivers[step.agent], step.answer);
            var e := EndingOf(s, step);
            && n.c.st == e.at && n.locals.Here? && n.locals.l.settle.Running? && n.locals.l.result == e.code
            && IsDone(e.at)
  {
  }

  lemma CallEnds(s: Sys, step: Step)
    requires Inv(s) && Enabled(s, step) && EndingOf(s, step).EndsWith?
    ensures IsDone(EndingOf(s, step).at) && Ended(Apply(s, step), EndingOf(s, step).at, EndingOf(s, step).code)
  {
    RoundEnds(s, step);
    hide Inv, Enabled, Apply, Round, EndingOf, ViewOf;
    PassAlone(s, step);
    PassIs(s, step);
    DrivenAlone(s.drivers, step.agent, Round(s.conn, ViewOf(s.books), s.drivers[step.agent], step.answer).locals.l);
  }

  /** Nobody but the agent in the handler touches the code. */
  lemma OthersWait(s: Sys, step: Step, at: State, code: DbaResult)
    requires Inv(s) && Enabled(s, step) && !step.Pass? && Ended(s, at, code)
    ensures Ended(Apply(s, step), at, code)
  {
    hide Accounts;
    match step
    case TakeFlag(id) =>
      if s.conn.flag.Clear? { Nobody(s.conn, s.drivers); }
    case Fire(on, timedOut) => NobodyThere(s.conn, s.drivers, on);
    case _ =>
  }

  /** The queries `qs` have failed with the note `n`, and the batch is empty. */
  predicate AllFailed(b: Books, c: Books, qs: seq<QueryId>, n: Note) {
    AllTold(b, c, qs, n) && c.done == b.done + qs && c.processing == []
  }

  /** The first query of the batch is told the note `n`. */
  predicate FirstTold(b: Books, c: Books, n: Note) {
    b.processing != [] && AllTold(b, c, [b.processing[0]], n)
  }

  /** The code has been dealt with: who was told what, and where the connection goes on. */
  predicate DealtWith(s: Sys, t: Sys, code: DbaResult) {
    var b, c := s.books, t.books;
    match s.conn.st
    case ConnDone =>
      if code.Ok? then c == b && t.conn.st.QueryStart?
      else
        && t.conn.st.CloseStart? && c.pending == []
        && AllFailed(b, c, b.processing + b.pending, Note(ConnDone, code, true))
    case QueryReady =>
      if code.Ok? then c == b && t.conn.st.CheckRset?
      else
        && (if code.NetworkError? then t.conn.st.CloseStart? else t.conn.st.QueryStart?)
        && c.pending == b.pending && AllFailed(b, c, b.processing, Note(QueryReady, code, true))
    case RowReady =>
      if code.EndOfRows? then c == b && t.conn.st.FreeStart?
      else t.conn.st.RowStart? && c.processing == b.processing && FirstTold(b, c, Note(RowReady, code, false))
    case FreeDone =>
      && t.conn.st.NextStart?
      && if b.processing == [] then c.queries == b.queries
         else FirstTold(b, c, Note(FreeDone, code, b.processing[0] in c.done))
    case NextDone => c == b && if code.EndOfRsets? then t.conn.st.QueryStart? else t.conn.st.CheckRset?
    case CloseDone =>
      if s.conn.pool.ShuttingDown? then
        && t.conn.st.CloseDone? && t.conn.flag.Clear? && t.drivers == map[] && c.pending == []
        && AllFailed(b, c, b.processing + b.pending, Note(CloseDone, ConnectionBusy, true))
      else
        && c == b && t.conn.st.ConnStart?
        && (t.drivers == map[] <==> b.processing == [] && b.pending == [])
        && (t.drivers == map[] ==> t.conn.flag.Clear?)
    case _ => false
  }

  // ---- One round, state by state ----

  lemma RoundDeals(c: Conn, v: View, l: Local, a: Answer)
    requires l.settle.Running? && IsDone(c.st)
    ensures var n := Round(c, v, l, a);
            match c.st
            case ConnDone =>
              if l.result.Ok? then n.c.st.QueryStart? && n.effect.Nothing?
              else n.c.st.CloseStart? && n.effect == FailAll(Note(ConnDone, l.result, true))
            case QueryReady =>
              if l.result.Ok? then n.c.st.CheckRset? && n.effect.Nothing?
              else
                && n.c.st == (if l.result.NetworkError? then CloseStart else QueryStart)
                && n.effect == FailBatch(Note(QueryReady, l.result, true))
            case RowReady =>
              if l.result.EndOfRows? then n.c.st.FreeStart? && n.effect.Nothing?
              else n.c.st.RowStart? && n.effect == Tell(Note(RowReady, l.result, false))
            case FreeDone => n.c.st.NextStart? && n.effect == End(FreeDone, l.result)
            case NextDone =>
              n.effect.Nothing? && n.c.st == if l.result.EndOfRsets? then QueryStart else CheckRset
            case CloseDone =>
              if c.pool.ShuttingDown? then
                && n.c.st.CloseDone? && n.c.flag.Clear? && n.locals.Gone?
                && n.effect == if v.batch || v.pending then FailAll(Note(CloseDone, ConnectionBusy, true)) else Nothing
              else
                && n.c.st.ConnStart? && n.effect.Nothing? && (n.locals.Gone? <==> !v.batch && !v.pending)
                && (n.locals.Gone? ==> n.c.flag.Clear?)
            case _ => true
  {
  }

  lemma FailureDealt(b: Books, e: Effect, take: nat, late: map<QueryId, nat>)
    requires Ledger(b, false) && IsFailure(e) && IsError(e.note) && AllNew(b, late)
    ensures var c := Effected(b, e, take, late);
            && AllFailed(b, c, Listed(b, e), e.note) && c.pending == if e.FailAll? then [] else b.pending
  {
    Fails(b, e, take, late);
  }

  lemma NobodyFailed(b: Books, n: Note)
    requires b.processing == [] && b.pending == []
    ensures AllFailed(b, b, b.processing + b.pending, n)
  {
    assert b.done + [] == b.done;
  }

  lemma RowDealt(b: Books, code: DbaResult)
    requires Ledger(b, true) && b.processing != [] && code != EndOfRows
    ensures var c := Notify(b, b.processing[0], Note(RowReady, code, false));
            c.processing == b.processing && FirstTold(b, c, Note(RowReady, code, false))
  {
    hide Ledger;
    Tells(b, Note(RowReady, code, false), true);
  }

  lemma ReleaseDealt(b: Books, code: DbaResult)
    requires Ledger(b, true)
    ensures var c := EndGroup(b, FreeDone, code);
            if b.processing == [] then c.queries == b.queries
            else FirstTold(b, c, Note(FreeDone, code, b.processing[0] in c.done))
  {
    EndsGroup(b, true, code);
    hide EndGroup, AllTold;
    if b.processing != [] {
      assert b.processing[0] !in b.done by { FirstNotDone(b); }
    }
  }

  lemma FirstNotDone(b: Books)
    requires Ledger(b, true) && b.processing != []
    ensures b.processing[0] !in b.done
  {
    hide Lives, Owes;
    WhereQueries(b);
  }

  lemma Deals(s: Sys, step: Step, code: DbaResult)
    requires Inv(s) && Enabled(s, step) && step.Pass? && IsDone(s.conn.st) && Ended(s, s.conn.st, code)
    ensures DealtWith(s, Apply(s, step), code)
  {
    hide Ledger, Round, Apply, EndGroup, AllFailed, AllTold, FailPending, FailProcessing, Notify, FirstTold, AllNew;
    PassAlone(s, step);
    PassIs(s, step);
    var l, b := s.drivers[step.agent], s.books;
    assert s.conn.st.RowReady? ==> b.processing != [];
    hide Inv, RowThere;
    RoundDeals(s.conn, ViewOf(b), l, step.answer);
    var n := Round(s.conn, ViewOf(b), l, step.answer);
    match s.conn.st
    case ConnDone =>
      if !code.Ok? { FailureDealt(b, n.effect, step.take, step.late); }
    case QueryReady =>
      if !code.Ok? { FailureDealt(b, n.effect, step.take, step.late); }
    case RowReady =>
      if !code.EndOfRows? { RowDealt(b, code); }
    case FreeDone => ReleaseDealt(b, code);
    case NextDone =>
    case CloseDone =>
      DrivenAlone(s.drivers, step.agent, l);
      if s.conn.pool.ShuttingDown? {
        if n.effect.FailAll? {
          FailureDealt(b, n.effect, step.take, step.late);
        } else {
          NobodyFailed(b, Note(CloseDone, ConnectionBusy, true));
        }
      }
    case _ =>
  }

  // ---- Over a run ----

  /** The code stays as it is until the handler goes on. */
  lemma {:induction false} CodeKept(states: seq<Sys>, steps: seq<Step>, j: nat, k: nat, at: State, code: DbaResult)
    requires Careful(states, steps) && j < k <= |steps| && EndingOf(states[j], steps[j]) == EndsWith(at, code)
    requires forall i :: j < i < k ==> !steps[i].Pass?
    ensures IsDone(at) && Ended(states[k], at, code)
    decreases k
  {
    hide Inv, Enabled, Apply, EndingOf, Ended, Owned, IsDone;
    RunKeeps(states, steps, k - 1);
    if j == k - 1 {
      CallEnds(states[j], steps[j]);
    } else {
      CodeKept(states, steps, j, k - 1, at, code);
      OthersWait(states[k - 1], steps[k - 1], at, code);
    }
  }

  /**
   The code with which a call of the library ends is the one that the queries are told, whatever else
   the program does before the handler goes on.
   */
  lemma CodeTold(states: seq<Sys>, steps: seq<Step>, j: nat, k: nat, at: State, code: DbaResult)
    requires Careful(states, steps) && j < k < |steps| && EndingOf(states[j], steps[j]) == EndsWith(at, code)
    requires steps[k].Pass? && forall i :: j < i < k ==> !steps[i].Pass?
    ensures states[k].conn.st == at && DealtWith(states[k], states[k + 1], code)
  {
    hide Inv, Enabled, Apply, EndingOf, DealtWith, Owned, IsDone;
    RunKeeps(states, steps, k);
    CodeKept(states, steps, j, k, at, code);
    Deals(states[k], steps[k], code);
  }

  /** Nothing is told to anybody in any other step, but for the opening of a result set. */
  lemma ToldOtherwise(s: Sys, step: Step, q: QueryId)
    requires Enabled(s, step) && q in s.books.queries
    requires step.Pass? ==> s.drivers[step.agent].settle.Arming? || (!IsDone(s.conn.st) && !s.conn.st.CheckRset?)
    ensures q in Apply(s, step).books.queries && Apply(s, step).books.queries[q].sent == s.books.queries[q].sent
  {
    if step.Pass? {
      PassIs(s, step);
      RoundQuiet(s.conn, ViewOf(s.books), s.drivers[step.agent], step.answer);
      hide Round, Apply;
    } else {
      OtherBooks(s, step);
    }
  }

  lemma RoundQuiet(c: Conn, v: View, l: Local, a: Answer)
    requires l.settle.Arming? || (!IsDone(c.st) && !c.st.CheckRset?)
    ensures var e := Round(c, v, l, a).effect; e.Nothing? || e.Form?
  {
  }

  /** With nothing to send, the handler gives the connection back, or closes it for good. */
  lemma Rests(s: Sys, step: Step)
    requires Inv(s) && Enabled(s, step) && Works(s, step) && s.conn.st.QueryStart?
    requires s.books.processing == [] && s.books.pending == []
    ensures var c, t := s.conn, Apply(s, step);
            && t.books.queries == s.books.queries && t.books.processing == [] && t.books.pending == []
            && t.conn.ready.NoneReady?
            && if c.pool.ShuttingDown? then t.conn.st.CloseStart? && t.drivers != map[]
               else
                 && t.conn.st.QueryStart? && t.conn.flag.Clear? && t.drivers == map[]
                 && t.conn.handle == if c.handle.Open? then Closing(c.handle.loop) else c.handle
  {
    PassAlone(s, step);
    PassIs(s, step);
    hide Inv, Ledger, Apply;
    DrivenAlone(s.drivers, step.agent, s.drivers[step.agent].(result := Skipped));
  }
}
