/** The conversation of the handler with the server about one batch, step by step. */
module DbConversation {
  import opened DatabaseResult
  import opened DbProtocol
  import opened DbHistory
  import opened DbLedger
  import opened DbSafety
  import opened DbScript
  import opened DbDelivery
  import opened Sequences

  /** Where the handler begins a call, awaits its event, and deals with its code. */
  function StartOf(call: Call): State {
    match call
    case Send => QueryStart
    case Store => CheckRset
    case Fetch => RowStart
    case Free => FreeStart
    case Move => NextStart
  }

  function WaitOf(call: Call): State
    requires !call.Store?
  {
    match call
    case Send => QueryWaiting
    case Fetch => RowWaiting
    case Free => FreeWaiting
    case Move => NextWaiting
  }

  function DoneOf(call: Call): State
    requires !call.Store?
  {
    match call
    case Send => QueryReady
    case Fetch => RowReady
    case Free => FreeDone
    case Move => NextDone
  }

  function BusyOf(call: Call): DbaResult
    requires !call.Store?
  {
    match call
    case Send => QueryStillProcessing
    case Fetch => RowStillFetching
    case Free => RestReleasing
    case Move => RsetStillLoading
  }

  /** A call is under way, its code is still to be dealt with, or the conversation is over. */
  datatype Place = Calling | Settling | Through

  predicate AllRun(drivers: map<Agent, Local>, code: DbaResult) {
    forall a :: a in drivers ==> drivers[a].settle.Running? && drivers[a].result == code
  }

  predicate AllArm(drivers: map<Agent, Local>) {
    forall a :: a in drivers ==> drivers[a].settle.Arming?
  }

  /** The state of the connection when `n` calls of the script have come to their end. */
  predicate Placed(c: Conn, drivers: map<Agent, Local>, script: seq<Line>, n: nat, place: Place) {
    match place
    case Calling =>
      && n < |script|
      && var call := script[n].x.call;
      || (c.st == StartOf(call) && (call.Send? ==> drivers != map[] && AllArm(drivers)))
      || (!call.Store? && c.st == WaitOf(call))
    case Settling =>
      && 0 < n <= |script| && !script[n - 1].x.call.Store? && c.st == DoneOf(script[n - 1].x.call)
      && drivers != map[] && AllRun(drivers, script[n - 1].x.code)
    case Through => n == |script| && c.st.QueryStart?
  }

  /** The batch has been told what the first `m` lines of the script call for. */
  predicate Accounted(b: Books, before: seq<QueryId>, batch: seq<QueryId>, script: seq<Line>, m: nat) {
    && Batched(b, before, batch) && m <= |script| && Story(b, batch) == Notes(script[..m])
    && (script != [] ==> b.owed == script[if m < |script| then m else |script| - 1].left)
  }

  /** The code of a row or of a release is told when it is dealt with. */
  function Lag(place: Place): nat {
    if place.Settling? then 1 else 0
  }

  predicate Talking(s: Sys, before: seq<QueryId>, batch: seq<QueryId>, script: seq<Line>, n: nat, place: Place) {
    && Placed(s.conn, s.drivers, script, n, place)
    && Lag(place) <= n && Accounted(s.books, before, batch, script, n - Lag(place))
  }

  // ---- One round of the handler ----

  lemma RoundArms(c: Conn, v: View, l: Local, a: Answer, call: Call)
    requires l.settle.Arming? && Awaited(c.st, l.settle.to) && c.st == StartOf(call)
    ensures !call.Store? && Round(c, v, l, a) == Next(c.(st := WaitOf(call)), Gone, Nothing)
  {
  }

  lemma RoundStarts(c: Conn, v: View, l: Local, a: Answer, call: Call)
    requires l.settle.Running? && c.st == StartOf(call) && !call.Store? && !call.Send?
    requires Asks(a) ==> a.arms && c.handle.Open?
    ensures var n := Round(c, v, l, a);
            && n.effect.Nothing? && n.locals.Here?
            && if Asks(a) then n.c.st == c.st && n.locals.l.settle.Arming?
               else n.c.st == DoneOf(call) && n.locals.l.settle.Running? && n.locals.l.result == a.code
  {
  }

  lemma RoundContinues(c: Conn, v: View, l: Local, a: Answer, call: Call)
    requires l.settle.Running? && !call.Store? && c.st == WaitOf(call)
    ensures var n := Round(c, v, l, a);
            && n.effect.Nothing?
            && if a.code == BusyOf(call) then n.locals.Gone? && n.c.st == c.st
               else n.c.st == DoneOf(call) && n.locals == Here(l.(result := a.code))
  {
  }

  lemma RoundStores(c: Conn, v: View, l: Local, a: Answer)
    requires l.settle.Running? && c.st.CheckRset?
    ensures var n := Round(c, v, l, a);
            && n.locals == Here(l)
            && if !a.rows then n.c.st == NextStart && n.effect == End(CheckRset, EndOfRows)
               else if v.batch then n.c.st == RowStart && n.effect == Tell(OPENING)
               else n.c.st == FreeStart && n.effect == Nothing
  {
  }

  function NextOf(x: Exchange): State {
    if x == END_OF_SETS then QueryStart
    else if x == ROW then RowStart
    else if x == END_OF_ROWS then FreeStart
    else if x == FREED then NextStart
    else CheckRset
  }

  function EffectAfter(x: Exchange): Effect {
    if x == ROW then Tell(ONE_ROW) else if x == FREED then End(FreeDone, Ok) else Nothing
  }

  lemma RoundSettles(c: Conn, v: View, l: Local, a: Answer, line: Line)
    requires Proper(line) && !line.x.call.Store? && l.settle.Running? && l.result == line.x.code
    requires c.st == DoneOf(line.x.call)
    ensures var n := Round(c, v, l, a);
            n.locals == Here(l) && n.c.st == NextOf(line.x) && n.effect == EffectAfter(line.x)
  {
  }

  // ---- What a round does to the books ----

  lemma NothingTold(b: Books, before: seq<QueryId>, batch: seq<QueryId>, script: seq<Line>, m: nat)
    requires Accounted(b, before, batch, script, m) && m < |script| && NotesOf(script[m]) == []
    requires m + 1 < |script| ==> script[m + 1].left == script[m].left
    ensures Accounted(b, before, batch, script, m + 1)
  {
    hide Notes, NotesOf, Story;
    assert script[..m + 1] == script[..m] + [script[m]];
    NotesSnoc(script[..m], script[m]);
    assert Notes(script[..m]) + [] == Notes(script[..m]);
  }

  lemma OneTold(b: Books, rows: bool, before: seq<QueryId>, batch: seq<QueryId>, script: seq<Line>, m: nat, r: Note)
    requires Ledger(b, rows) && (if rows then IsRow(r) else OpensRows(r)) && b.processing != []
    requires Accounted(b, before, batch, script, m) && m < |script| && NotesOf(script[m]) == [r.(final := false)]
    requires m + 1 < |script| ==> script[m + 1].left == script[m].left
    ensures Accounted(Notify(b, b.processing[0], r), before, batch, script, m + 1)
  {
    hide Notes, NotesOf, Story, Ledger, IsRow, OpensRows, AllTold;
    var c := Notify(b, b.processing[0], r);
    Tells(b, r, rows);
    BatchTold(b, rows, c, before, batch, r);
    assert script[..m + 1] == script[..m] + [script[m]];
    NotesSnoc(script[..m], script[m]);
  }

  lemma SetTold(b: Books, rows: bool, before: seq<QueryId>, batch: seq<QueryId>, script: seq<Line>, m: nat)
    requires Ledger(b, rows) && Accounted(b, before, batch, script, m) && m < |script|
    requires script[m].x == if rows then FREED else NO_ROWS
    requires m + 1 < |script| && script[m + 1].left == script[m].left - 1
    ensures Accounted(GroupEnd(b, rows, Ok), before, batch, script, m + 1)
  {
    hide Notes, Story, Ledger, AllTold, GroupEnd;
    var c := GroupEnd(b, rows, Ok);
    OwedIff(b, rows);
    EndsGroup(b, rows, Ok);
    GroupBatched(b, rows, before, batch);
    assert script[..m + 1] == script[..m] + [script[m]];
    NotesSnoc(script[..m], script[m]);
    if b.processing != [] {
      TheCurrent(b, rows);
      var final := b.queries[b.processing[0]].remain == 1;
      BatchTold(b, rows, c, before, batch, GroupNote(rows, Ok, final));
    } else {
      assert Notes(script[..m]) + [] == Notes(script[..m]);
      InBatch(b, rows, before, batch);
      ToldSame(b, c, batch);
    }
  }

  lemma StillBatched(b: Books, c: Books, before: seq<QueryId>, batch: seq<QueryId>)
    requires Batched(b, before, batch) && b.processing != []
    requires || (c.done == b.done && c.processing == b.processing)
             || (c.done == b.done + [b.processing[0]] && c.processing == b.processing[1..])
    ensures Batched(c, before, batch)
  {
    assert b.processing == [b.processing[0]] + b.processing[1..];
    Associates(b.done, [b.processing[0]], b.processing[1..]);
  }

  lemma GroupBatched(b: Books, rows: bool, before: seq<QueryId>, batch: seq<QueryId>)
    requires Ledger(b, rows) && Batched(b, before, batch)
    ensures Batched(GroupEnd(b, rows, Ok), before, batch)
  {
    if b.processing != [] {
      TheCurrent(b, rows);
      GroupEffect(b, rows, Ok);
      hide Ledger, GroupEnd, AfterGroup, Batched;
      StillBatched(b, GroupEnd(b, rows, Ok), before, batch);
    } else {
      NoGroup(b, rows, Ok);
    }
  }

  // ---- One step of the program ----

  /** The drivers of a state with one agent in the handler, after a round of that agent. */
  function Driven(drivers: map<Agent, Local>, agent: Agent, locals: Locals): map<Agent, Local> {
    match locals
    case Gone => drivers - {agent}
    case Here(l) => drivers[agent := l]
  }

  lemma PassIs(s: Sys, step: Step)
    requires Enabled(s, step) && step.Pass?
    ensures var n := Round(s.conn, ViewOf(s.books), s.drivers[step.agent], step.answer);
            var t := Apply(s, step);
            && t.conn == n.c && t.books == Effected(s.books, n.effect, step.take, step.late)
            && t.drivers == Driven(s.drivers, step.agent, n.locals)
  {
    hide Round, Effected, ViewOf;
  }

  /** Nobody but the agent is in the handler. */
  predicate Alone(drivers: map<Agent, Local>, agent: Agent) {
    agent in drivers && forall b :: b in drivers ==> b == agent
  }

  lemma PassAlone(s: Sys, step: Step)
    requires Inv(s) && Enabled(s, step) && step.Pass?
    ensures Alone(s.drivers, step.agent)
    ensures s.drivers[step.agent].settle.Arming? ==> Awaited(s.conn.st, s.drivers[step.agent].settle.to)
    ensures Ledger(s.books, AtRows(s.conn.st))
  {
    hide Ledger, Settled, AtRows, AtRow;
    assert AtHome(s.conn, step.agent, s.drivers[step.agent]);
  }

  lemma DrivenAlone(drivers: map<Agent, Local>, agent: Agent, l: Local)
    requires Alone(drivers, agent)
    ensures Driven(drivers, agent, Gone) == map[]
    ensures Driven(drivers, agent, Here(l)) == map[agent := l]
  {
    assert drivers[agent := l] == map[agent := l];
  }

  /** What the step says agrees with the script. */
  predicate Agreed(s: Sys, step: Step, script: seq<Line>, n: nat)
    requires Enabled(s, step)
  {
    && CanWait(s, step)
    && (n < |script| ==> forall x :: x in Completion(s, step) && x.call == script[n].x.call ==> x == script[n].x)
  }

  predicate IsScript(script: seq<Line>) {
    Linked(script) && script != [] && script[|script| - 1].x == END_OF_SETS
  }

  /** The poll was armed; the waiting state is written. */
  lemma PassArms(s: Sys, step: Step, before: seq<QueryId>, batch: seq<QueryId>, script: seq<Line>, n: nat)
    requires Inv(s) && Enabled(s, step) && step.Pass? && Talking(s, before, batch, script, n, Calling)
    requires s.drivers[step.agent].settle.Arming?
    ensures Completion(s, step) == [] && Talking(Apply(s, step), before, batch, script, n, Calling)
  {
    hide Inv, Accounted, Enabled, Round, ViewOf, Apply;
    PassAlone(s, step);
    PassIs(s, step);
    WaitsOnlyInStart(s.conn.st, s.drivers[step.agent].settle.to, script[n].x.call);
    RoundArms(s.conn, ViewOf(s.books), s.drivers[step.agent], step.answer, script[n].x.call);
  }

  lemma WaitsOnlyInStart(st: State, to: State, call: Call)
    requires Awaited(st, to)
    ensures !call.Store? ==> st != WaitOf(call)
  {
  }

  lemma CompletionStart(s: Sys, step: Step, call: Call)
    requires Enabled(s, step) && Works(s, step) && s.conn.st == StartOf(call) && !call.Store? && !call.Send?
    ensures Completion(s, step) == if Asks(step.answer) then [] else [Exchange(call, step.answer.code, false)]
  {
  }

  lemma CompletionWait(s: Sys, step: Step, call: Call)
    requires Enabled(s, step) && Works(s, step) && !call.Store? && s.conn.st == WaitOf(call)
    ensures Completion(s, step)
            == if step.answer.code == BusyOf(call) then [] else [Exchange(call, step.answer.code, false)]
  {
  }

  /** A call is begun, and perhaps ends at once. */
  lemma PassStarts(s: Sys, step: Step, before: seq<QueryId>, batch: seq<QueryId>, script: seq<Line>, n: nat)
    requires Inv(s) && Enabled(s, step) && step.Pass? && Talking(s, before, batch, script, n, Calling)
    requires Works(s, step) && Agreed(s, step, script, n)
    requires s.conn.st == StartOf(script[n].x.call) && !script[n].x.call.Store? && !script[n].x.call.Send?
    ensures var t := Apply(s, step);
            || (Completion(s, step) == [] && Talking(t, before, batch, script, n, Calling))
            || (Completion(s, step) == [script[n].x] && Talking(t, before, batch, script, n + 1, Settling))
  {
    hide Inv, Accounted, Enabled, Round, ViewOf, Completion, Apply;
    PassAlone(s, step);
    var call, l := script[n].x.call, s.drivers[step.agent];
    PassIs(s, step);
    RoundStarts(s.conn, ViewOf(s.books), l, step.answer, call);
    var r := Round(s.conn, ViewOf(s.books), l, step.answer);
    CompletionStart(s, step, call);
    DrivenAlone(s.drivers, step.agent, r.locals.l);
    if !Asks(step.answer) {
      assert Exchange(call, step.answer.code, false) in Completion(s, step);
    }
  }

  /** A call is continued on an event. */
  lemma PassContinues(s: Sys, step: Step, before: seq<QueryId>, batch: seq<QueryId>, script: seq<Line>, n: nat)
    requires Inv(s) && Enabled(s, step) && step.Pass? && Talking(s, before, batch, script, n, Calling)
    requires Works(s, step) && Agreed(s, step, script, n)
    requires !script[n].x.call.Store? && s.conn.st == WaitOf(script[n].x.call)
    ensures var t := Apply(s, step);
            || (Completion(s, step) == [] && Talking(t, before, batch, script, n, Calling))
            || (Completion(s, step) == [script[n].x] && Talking(t, before, batch, script, n + 1, Settling))
  {
    hide Inv, Accounted, Enabled, Round, ViewOf, Completion, Apply;
    PassAlone(s, step);
    var call, l := script[n].x.call, s.drivers[step.agent];
    PassIs(s, step);
    RoundContinues(s.conn, ViewOf(s.books), l, step.answer, call);
    CompletionWait(s, step, call);
    DrivenAlone(s.drivers, step.agent, l.(result := step.answer.code));
    if step.answer.code != BusyOf(call) {
      assert Exchange(call, step.answer.code, false) in Completion(s, step);
    }
  }

  lemma LinkedAt(script: seq<Line>, n: nat)
    requires IsScript(script) && n < |script|
    ensures Proper(script[n]) && (n + 1 < |script| ==> Follows(script[n], script[n + 1]))
    ensures n + 1 == |script| ==> script[n].x == END_OF_SETS
  {
    hide Proper, Follows;
  }

  /** The handler looks at a result set. */
  lemma PassStores(s: Sys, step: Step, before: seq<QueryId>, batch: seq<QueryId>, script: seq<Line>, n: nat)
    requires Inv(s) && Enabled(s, step) && step.Pass? && Talking(s, before, batch, script, n, Calling)
    requires Works(s, step) && Agreed(s, step, script, n) && IsScript(script)
    requires s.conn.st.CheckRset? && script[n].x.call.Store?
    ensures Completion(s, step) == [script[n].x] && Talking(Apply(s, step), before, batch, script, n + 1, Calling)
  {
    hide Inv, Enabled, Round, Apply, Accounted, Ledger, EndGroup, Notify, IsScript, Effected;
    PassAlone(s, step);
    var l, b, x := s.drivers[step.agent], s.books, Exchange(Store, Ok, step.answer.rows);
    assert Completion(s, step) == [x];
    assert x in Completion(s, step);
    PassIs(s, step);
    RoundStores(s.conn, ViewOf(b), l, step.answer);
    DrivenAlone(s.drivers, step.agent, l);
    StoreTold(b, before, batch, script, n, step.take, step.late);
    StoreLeads(b, before, batch, script, n);
  }

  function StoreEffect(x: Exchange, batch: bool): Effect {
    if !x.rows then End(CheckRset, EndOfRows) else if batch then Tell(OPENING) else Nothing
  }

  lemma StoreTold(b: Books, before: seq<QueryId>, batch: seq<QueryId>, script: seq<Line>, n: nat, take: nat,
                  late: map<QueryId, nat>)
    requires Ledger(b, false) && Accounted(b, before, batch, script, n) && IsScript(script)
    requires n < |script| && script[n].x.call.Store?
    ensures var c := Effected(b, StoreEffect(script[n].x, b.processing != []), take, late);
            n + 1 < |script| && Accounted(c, before, batch, script, n + 1)
  {
    hide Linked, Accounted, Ledger, EndGroup, Notify;
    LinkedAt(script, n);
    OwedIff(b, false);
    OwedLeft(b, before, batch, script, n);
    if !script[n].x.rows {
      SetTold(b, false, before, batch, script, n);
    } else if b.processing != [] {
      OneTold(b, false, before, batch, script, n, OPENING);
    } else {
      NothingTold(b, before, batch, script, n);
    }
  }

  lemma StoreLeads(b: Books, before: seq<QueryId>, batch: seq<QueryId>, script: seq<Line>, n: nat)
    requires Ledger(b, false) && Accounted(b, before, batch, script, n) && IsScript(script)
    requires n + 1 < |script| && script[n].x.call.Store?
    ensures var call := script[n + 1].x.call;
            && !call.Send?
            && StartOf(call) == if !script[n].x.rows then NextStart
                                else if b.processing != [] then RowStart else FreeStart
  {
    hide Linked, Accounted, Ledger;
    LinkedAt(script, n);
    OwedIff(b, false);
    OwedLeft(b, before, batch, script, n);
  }

  lemma OwedLeft(b: Books, before: seq<QueryId>, batch: seq<QueryId>, script: seq<Line>, m: nat)
    requires Accounted(b, before, batch, script, m) && m < |script|
    ensures b.owed == script[m].left
  {
  }

  /** The code of a call is dealt with. */
  lemma PassSettles(s: Sys, step: Step, before: seq<QueryId>, batch: seq<QueryId>, script: seq<Line>, n: nat)
    requires Inv(s) && Enabled(s, step) && step.Pass? && Talking(s, before, batch, script, n, Settling)
    requires IsScript(script)
    ensures Completion(s, step) == []
    ensures Talking(Apply(s, step), before, batch, script, n, if n < |script| then Calling else Through)
  {
    hide Inv, Enabled, Round, ViewOf, Apply, Accounted, Ledger, EndGroup, Notify, IsScript, Effected, EffectAfter,
         NextOf, Proper;
    PassAlone(s, step);
    var l, b, line := s.drivers[step.agent], s.books, script[n - 1];
    LinkedAt(script, n - 1);
    PassIs(s, step);
    RoundSettles(s.conn, ViewOf(b), l, step.answer, line);
    DrivenAlone(s.drivers, step.agent, l);
    LineTold(b, AtRows(s.conn.st), before, batch, script, n - 1, step.take, step.late);
    LineLeads(script, n - 1);
  }

  lemma LineTold(b: Books, rows: bool, before: seq<QueryId>, batch: seq<QueryId>, script: seq<Line>, m: nat,
                 take: nat, late: map<QueryId, nat>)
    requires Ledger(b, rows) && Accounted(b, before, batch, script, m) && IsScript(script)
    requires m < |script| && !script[m].x.call.Store? && (rows <==> AtRows(DoneOf(script[m].x.call)))
    ensures Accounted(Effected(b, EffectAfter(script[m].x), take, late), before, batch, script, m + 1)
  {
    hide Linked, Accounted, Ledger, EndGroup, Notify;
    LinkedAt(script, m);
    OwedLeft(b, before, batch, script, m);
    if script[m].x == FREED {
      SetTold(b, true, before, batch, script, m);
    } else if script[m].x == ROW {
      OwedIff(b, true);
      OneTold(b, true, before, batch, script, m, ONE_ROW);
    } else {
      NothingTold(b, before, batch, script, m);
    }
  }

  lemma LineLeads(script: seq<Line>, m: nat)
    requires IsScript(script) && m < |script| && !script[m].x.call.Store?
    ensures if m + 1 < |script| then
              !script[m + 1].x.call.Send? && NextOf(script[m].x) == StartOf(script[m + 1].x.call)
            else NextOf(script[m].x) == QueryStart
  {
    hide Linked;
    LinkedAt(script, m);
  }

  lemma PassTalks(s: Sys, step: Step, before: seq<QueryId>, batch: seq<QueryId>, script: seq<Line>, n: nat,
                  place: Place) returns (m: nat, next: Place)
    requires Inv(s) && Enabled(s, step) && step.Pass? && Talking(s, before, batch, script, n, place) && !place.Through?
    requires Agreed(s, step, script, n) && IsScript(script)
    ensures Talking(Apply(s, step), before, batch, script, m, next)
    ensures if m == n then Completion(s, step) == [] else m == n + 1 <= |script| && Completion(s, step) == [script[n].x]
    ensures if place.Settling? then m == n && next == (if n < |script| then Calling else Through) else !next.Through?
  {
    PassAlone(s, step);
    hide Inv, Enabled, Apply, Accounted, Completion, Agreed, IsScript, Ledger;
    if place.Settling? {
      PassSettles(s, step, before, batch, script, n);
      m, next := n, if n < |script| then Calling else Through;
    } else if s.drivers[step.agent].settle.Arming? {
      PassArms(s, step, before, batch, script, n);
      m, next := n, Calling;
    } else if script[n].x.call.Store? {
      PassStores(s, step, before, batch, script, n);
      m, next := n + 1, Calling;
    } else if s.conn.st == WaitOf(script[n].x.call) {
      PassContinues(s, step, before, batch, script, n);
      m, next := n + |Completion(s, step)|, if Completion(s, step) == [] then Calling else Settling;
    } else {
      PassStarts(s, step, before, batch, script, n);
      m, next := n + |Completion(s, step)|, if Completion(s, step) == [] then Calling else Settling;
    }
  }

  lemma SameStory(b: Books, rows: bool, c: Books, before: seq<QueryId>, batch: seq<QueryId>, script: seq<Line>, m: nat)
    requires Ledger(b, rows) && Accounted(b, before, batch, script, m)
    requires c.done == b.done && c.processing == b.processing && c.owed == b.owed
    requires forall q :: q in b.queries ==> q in c.queries && c.queries[q].sent == b.queries[q].sent
    ensures Accounted(c, before, batch, script, m)
  {
    InBatch(b, rows, before, batch);
    hide Ledger, Story, Notes;
    ToldSame(b, c, batch);
  }

  /** A step of somebody else leaves the conversation where it is. */
  lemma OtherTalks(s: Sys, step: Step, before: seq<QueryId>, batch: seq<QueryId>, script: seq<Line>, n: nat,
                   place: Place)
    requires Inv(s) && Enabled(s, step) && !step.Pass? && Talking(s, before, batch, script, n, place) && !place.Through?
    ensures Completion(s, step) == [] && Talking(Apply(s, step), before, batch, script, n, place)
  {
    assert Ledger(s.books, AtRows(s.conn.st));
    var t := Apply(s, step);
    OtherBooks(s, step);
    OtherPlace(s, step, script, n, place);
    hide Inv, Enabled, Apply, Accounted, Ledger, Placed;
    SameStory(s.books, AtRows(s.conn.st), t.books, before, batch, script, n - Lag(place));
  }

  lemma OtherBooks(s: Sys, step: Step)
    requires Enabled(s, step) && !step.Pass?
    ensures var b, c := s.books, Apply(s, step).books;
            && c.done == b.done && c.processing == b.processing && c.owed == b.owed
            && forall q :: q in b.queries ==> q in c.queries && c.queries[q].sent == b.queries[q].sent
  {
  }

  lemma OtherPlace(s: Sys, step: Step, script: seq<Line>, n: nat, place: Place)
    requires Inv(s) && Enabled(s, step) && !step.Pass? && Placed(s.conn, s.drivers, script, n, place) && !place.Through?
    ensures var t := Apply(s, step); Placed(t.conn, t.drivers, script, n, place)
  {
    hide Accounts;
    match step
    case TakeFlag(id) => FlagTaken(s, script, n, place);
    case Fire(on, timedOut) => NobodyThere(s.conn, s.drivers, on);
    case _ =>
  }

  /** While the conversation goes on, the flag is taken. */
  lemma FlagTaken(s: Sys, script: seq<Line>, n: nat, place: Place)
    requires Inv(s) && Placed(s.conn, s.drivers, script, n, place) && !place.Through?
    ensures s.conn.flag.Set?
  {
    hide Accounts;
    if s.conn.flag.Clear? { Nobody(s.conn, s.drivers); }
  }
}
