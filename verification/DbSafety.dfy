/** Safety of the database connection over all runs: one driver at a time, and lawful results. */
module DbSafety {
  import opened DatabaseResult
  import opened DbProtocol
  import opened DbHistory
  import opened DbLedger

  predicate Waits(st: State) {
    st.ConnWaiting? || st.QueryWaiting? || st.NextWaiting? || st.RowWaiting? || st.FreeWaiting?
    || st.CloseWaiting?
  }

  /** The state in which a call is started, and the one in which its event is awaited. */
  predicate Awaited(st: State, wait: State) {
    || (st.ConnStart? && wait.ConnWaiting?) || (st.QueryStart? && wait.QueryWaiting?)
    || (st.NextStart? && wait.NextWaiting?) || (st.RowStart? && wait.RowWaiting?)
    || (st.FreeStart? && wait.FreeWaiting?) || (st.CloseStart? && wait.CloseWaiting?)
  }

  predicate AtRow(st: State) {
    st.RowStart? || st.RowWaiting? || st.RowReady?
  }

  /** Between the opening of a result set with rows and its release. */
  predicate AtRows(st: State) {
    AtRow(st) || st.FreeStart? || st.FreeWaiting? || st.FreeDone?
  }

  ghost predicate Accounts(st: State, b: Books) {
    Ledger(b, AtRows(st)) && (AtRow(st) ==> b.processing != [])
  }

  /** What the flag and the handle say about the state when no agent is looked at. */
  predicate Settled(c: Conn) {
    && (c.watch.Armed? ==> c.flag.Set? && c.handle.Open?)
    && (c.flag.Clear? ==> Admits(c.st) || c.st.CloseDone?)
    && (c.flag.Clear? && c.handle.Open? ==> c.st.ConnStart?)
  }

  /** The agent drives on the loop of the open handle. */
  predicate AtHome(c: Conn, a: Agent, l: Local) {
    && c.flag.Set?
    && (c.handle.Open? ==> c.handle.loop == a.home)
    && (l.caller.ByApp? ==> a.home == c.loop)
    && (l.settle.Arming? ==> Awaited(c.st, l.settle.to))
  }

  /** At most one agent is in the handler; with the flag set and nobody there, an event is awaited. */
  predicate Exclusive(c: Conn, drivers: map<Agent, Local>) {
    && (forall a, b :: a in drivers && b in drivers ==> a == b)
    && (forall a :: a in drivers ==> AtHome(c, a, drivers[a]))
    && (c.flag.Set? && drivers == map[] ==> Waits(c.st))
  }

  ghost predicate Inv(s: Sys) {
    Accounts(s.conn.st, s.books) && Settled(s.conn) && Exclusive(s.conn, s.drivers)
  }

  // ---- One round of the handler ----

  /** How a round may change the flag, the handle and its own locals. */
  predicate Controlled(c: Conn, l: Local, n: Next) {
    && Settled(n.c)
    && n.c.loop == c.loop
    && (n.c.handle.Open? ==> n.c.handle == c.handle || (l.caller.ByApp? && n.c.handle.loop == c.loop))
    && match n.locals
       case Here(k) => n.c.flag.Set? && k.caller == l.caller && (k.settle.Arming? ==> Awaited(n.c.st, k.settle.to))
       case Gone => n.c.flag.Set? ==> Waits(n.c.st)
  }

  /** Which effect on the queries goes with which change of state. */
  predicate Fits(st: State, v: View, n: Next) {
    match n.effect
    case Nothing => AtRows(n.c.st) == AtRows(st) || !v.batch
    case Tell(r) => v.batch && AtRow(n.c.st) && if AtRows(st) then IsRow(r) else OpensRows(r)
    case End(at, code) =>
      !AtRows(n.c.st) && if AtRows(st) then at.FreeDone? else at.CheckRset? && code.EndOfRows?
    case Form => !AtRows(st) && !AtRows(n.c.st)
    case FailBatch(r) => !AtRows(st) && !AtRows(n.c.st) && IsError(r)
    case FailAll(r) => !AtRows(st) && !AtRows(n.c.st) && IsError(r)
  }

  /** A lawful round: `Controlled`, `Fits`, and a row is only awaited for a query of the batch. */
  predicate Lawful(c: Conn, v: View, l: Local, n: Next) {
    Controlled(c, l, n) && Fits(c.st, v, n) && (AtRow(n.c.st) ==> v.batch)
  }

  predicate Ready(c: Conn, v: View, l: Local) {
    c.flag.Set? && Settled(c) && (AtRow(c.st) ==> v.batch) && l.settle.Running?
  }

  /** A call is started on the connection `d`, which is `c` but for an opened handle or a lost row. */
  predicate Prepared(c: Conn, v: View, l: Local, d: Conn, e: Effect) {
    && Ready(c, v, l)
    && d.flag.Set? && Settled(d) && d.st == c.st && d.loop == c.loop
    && (d.handle.Open? ==> d.handle == c.handle || (l.caller.ByApp? && d.handle.loop == c.loop))
    && (e.Nothing? || (e.Form? && !AtRows(c.st)))
  }

  lemma StartArms(c: Conn, v: View, l: Local, a: Answer, d: Conn, wait: State, ready: State, e: Effect)
    requires Prepared(c, v, l, d, e) && Awaited(c.st, wait)
    requires a.code.Ok? && a.waits && a.arms && d.handle.Open?
    ensures Lawful(c, v, l, StartCall(d, l, a, wait, ready, e))
  {
  }

  lemma StartEnds(c: Conn, v: View, l: Local, result: DbaResult, d: Conn, ready: State, e: Effect)
    requires Prepared(c, v, l, d, e) && AtRow(ready) == AtRow(c.st) && AtRows(ready) == AtRows(c.st)
    ensures Lawful(c, v, l, Goto(d, ready, l.(result := result), e))
  {
  }

  lemma Start(c: Conn, v: View, l: Local, a: Answer, d: Conn, wait: State, ready: State, e: Effect)
    requires Prepared(c, v, l, d, e) && Awaited(c.st, wait)
    requires AtRow(ready) == AtRow(c.st) && AtRows(ready) == AtRows(c.st)
    ensures Lawful(c, v, l, StartCall(d, l, a, wait, ready, e))
  {
    hide AtRow, AtRows, Awaited, Lawful, Prepared, Goto;
    if a.code.Ok? && a.waits && a.arms && d.handle.Open? {
      StartArms(c, v, l, a, d, wait, ready, e);
    } else {
      StartEnds(c, v, l, OsError, d, ready, e);
      StartEnds(c, v, l, a.code, d, ready, e);
    }
  }

  lemma Continue(c: Conn, v: View, l: Local, a: Answer, d: Conn, busy: DbaResult, ready: State)
    requires Ready(c, v, l) && Waits(c.st) && AtRow(ready) == AtRow(c.st) && AtRows(ready) == AtRows(c.st)
    requires d.flag.Set? && Settled(d) && d.st == c.st && d.loop == c.loop && d.handle == c.handle
    ensures Lawful(c, v, l, ContinueCall(d, l, a, busy, ready))
  {
    hide AtRow, AtRows, IsRow, OpensRows, IsError, Awaited;
  }

  lemma Done(c: Conn, v: View, l: Local)
    requires Ready(c, v, l)
    ensures c.st.ConnDone? ==> Lawful(c, v, l, AtConnDone(c, l))
    ensures c.st.QueryReady? ==> Lawful(c, v, l, AtQueryReady(c, l))
    ensures c.st.NextDone? ==> Lawful(c, v, l, AtNextDone(c, l))
    ensures c.st.RowReady? ==> Lawful(c, v, l, AtRowReady(c, l))
    ensures c.st.FreeDone? ==> Lawful(c, v, l, AtFreeDone(c, l))
  {
  }

  lemma Idles(c: Conn, v: View, l: Local, a: Answer)
    requires Ready(c, v, l) && c.st.QueryStart?
    ensures Lawful(c, v, l, AtQueryStart(c, v, l, a))
  {
    hide StartCall, Lawful;
    var d := if v.batch then c else c.(ready := if v.pending then SomeReady else NoneReady);
    var e := InitHandle(d, l.caller, a);
    if !v.batch && v.pending {
      Start(c, v, l, a, e, QueryWaiting, QueryReady, Form);
    } else {
      IdleEnds(c, v, l, a, d);
    }
  }

  lemma IdleEnds(c: Conn, v: View, l: Local, a: Answer, d: Conn)
    requires Ready(c, v, l) && c.st.QueryStart?
    requires d == c || d == c.(ready := NoneReady) || d == c.(ready := SomeReady)
    ensures Lawful(c, v, l, Goto(InitHandle(d, l.caller, a), CloseStart, l.(result := Skipped), Form))
    ensures Lawful(c, v, l, Leave(Deinit(d).(flag := Clear), Form))
  {
  }

  lemma Closes(c: Conn, v: View, l: Local)
    requires Ready(c, v, l) && c.st.CloseDone?
    ensures Lawful(c, v, l, AtCloseDone(c, v, l))
  {
  }

  lemma Checks(c: Conn, v: View, l: Local, a: Answer)
    requires Ready(c, v, l) && c.st.CheckRset?
    ensures Lawful(c, v, l, AtCheck(c, v, l, a))
  {
  }

  lemma Connects(c: Conn, v: View, l: Local, a: Answer)
    requires Ready(c, v, l) && c.st.ConnStart?
    ensures Lawful(c, v, l, AtConnStart(c, l, a))
  {
    hide StartCall, Lawful;
    Start(c, v, l, a, c, ConnWaiting, ConnDone, Nothing);
    Start(c, v, l, a, InitHandle(c, l.caller, a), ConnWaiting, ConnDone, Nothing);
  }

  lemma Fetches(c: Conn, v: View, l: Local, a: Answer)
    requires Ready(c, v, l)
    ensures c.st.RowStart? ==> Lawful(c, v, l, AtRowStart(c, l, a))
    ensures c.st.RowWaiting? ==> Lawful(c, v, l, AtRowWaiting(c, l, a))
  {
    hide StartCall, ContinueCall, Lawful;
    var row := if a.code.Ok? then SomeRow else NoRow;
    if c.st.RowStart? {
      Start(c, v, l, a, c, RowWaiting, RowReady, Nothing);
      Start(c, v, l, a, c.(row := row), RowWaiting, RowReady, Nothing);
    } else if c.st.RowWaiting? {
      Continue(c, v, l, a, c, RowStillFetching, RowReady);
      Continue(c, v, l, a, c.(row := row), RowStillFetching, RowReady);
    }
  }

  lemma CaseLawful(c: Conn, v: View, l: Local, a: Answer)
    requires Ready(c, v, l)
    ensures Lawful(c, v, l, Case(c, v, l, a))
  {
    hide Lawful, StartCall, ContinueCall;
    hide AtConnStart, AtConnDone, AtQueryStart, AtQueryReady, AtCheck, AtNextDone;
    hide AtRowStart, AtRowWaiting, AtRowReady, AtFreeDone, AtCloseDone;
    match c.st
    case Inited => Begins(c, v, l);
    case ConnStart => Connects(c, v, l, a);
    case ConnWaiting => Continue(c, v, l, a, c, ConnectionBusy, ConnDone);
    case ConnDone => Done(c, v, l);
    case QueryStart => Idles(c, v, l, a);
    case QueryWaiting => Continue(c, v, l, a, c, QueryStillProcessing, QueryReady);
    case QueryReady => Done(c, v, l);
    case CheckRset => Checks(c, v, l, a);
    case NextStart => StartPlain(c, v, l, a, NextWaiting, NextDone);
    case NextWaiting => Continue(c, v, l, a, c, RsetStillLoading, NextDone);
    case NextDone => Done(c, v, l);
    case RowStart => Fetches(c, v, l, a);
    case RowWaiting => Fetches(c, v, l, a);
    case RowReady => Done(c, v, l);
    case FreeStart => StartPlain(c, v, l, a, FreeWaiting, FreeDone);
    case FreeWaiting => Continue(c, v, l, a, c, RestReleasing, FreeDone);
    case FreeDone => Done(c, v, l);
    case CloseStart => StartPlain(c, v, l, a, CloseWaiting, CloseDone);
    case CloseWaiting => Continue(c, v, l, a, c, ConnectionBusy, CloseDone);
    case CloseDone => Closes(c, v, l);
  }

  lemma Begins(c: Conn, v: View, l: Local)
    requires Ready(c, v, l) && c.st.Inited?
    ensures Lawful(c, v, l, Goto(c, ConnStart, l, Nothing))
  {
  }

  lemma StartPlain(c: Conn, v: View, l: Local, a: Answer, wait: State, ready: State)
    requires Ready(c, v, l) && Awaited(c.st, wait) && AtRow(ready) == AtRow(c.st) && AtRows(ready) == AtRows(c.st)
    ensures Lawful(c, v, l, StartCall(c, l, a, wait, ready, Nothing))
  {
    hide Lawful, StartCall;
    Start(c, v, l, a, c, wait, ready, Nothing);
  }

  lemma RoundLawful(c: Conn, v: View, l: Local, a: Answer)
    requires c.flag.Set? && Settled(c) && (AtRow(c.st) ==> v.batch)
    requires l.settle.Arming? ==> Awaited(c.st, l.settle.to)
    ensures Lawful(c, v, l, Round(c, v, l, a))
  {
    hide Case;
    if l.settle.Running? { CaseLawful(c, v, l, a); }
  }

  // ---- Every step keeps the invariant ----

  lemma EffectAccounts(st: State, b: Books, n: Next, take: nat, late: map<QueryId, nat>)
    requires Accounts(st, b) && Fits(st, ViewOf(b), n) && (AtRow(n.c.st) ==> b.processing != [])
    requires AllNew(b, late)
    ensures Accounts(n.c.st, Effected(b, n.effect, take, late))
  {
    hide Ledger, AllNew, FormBatch, EndGroup, FailPending, FailProcessing, Notify, IsRow, OpensRows, IsError;
    var rows := AtRows(st);
    match n.effect
    case Nothing => if rows != AtRows(n.c.st) { EmptyBatch(b, rows); }
    case Tell(r) =>
      Tells(b, r, rows);
      BatchStays(b, r);
    case End(at, code) => EndsGroup(b, rows, code);
    case Form => FormsBatch(b, take);
    case FailBatch(r) => FailsProcessing(b, r);
    case FailAll(r) =>
      FailsProcessing(b, r);
      StillNew(b, r, late);
      FailsPending(FailProcessing(b, r), r, late);
  }

  lemma BatchStays(b: Books, r: Note)
    requires b.processing != []
    ensures Notify(b, b.processing[0], r).processing == b.processing
  {
  }

  lemma StillNew(b: Books, r: Note, late: map<QueryId, nat>)
    requires AllNew(b, late)
    ensures AllNew(FailProcessing(b, r), late) && FailProcessing(b, r).processing == []
  {
  }

  /** With no query in the batch it does not matter whether rows are under way. */
  lemma EmptyBatch(b: Books, rows: bool)
    requires Ledger(b, rows) && b.processing == []
    ensures Ledger(b, !rows)
  {
  }

  lemma OnePasses(c: Conn, drivers: map<Agent, Local>, agent: Agent, n: Next)
    requires Exclusive(c, drivers) && agent in drivers && Controlled(c, drivers[agent], n)
    ensures n.locals.Gone? ==> Exclusive(n.c, drivers - {agent})
    ensures n.locals.Here? ==> Exclusive(n.c, drivers[agent := n.locals.l])
  {
    hide Settled, Awaited, Waits;
    assert AtHome(c, agent, drivers[agent]);
    assert forall b :: b in drivers ==> b == agent;
    match n.locals
    case Gone => assert drivers - {agent} == map[];
    case Here(k) =>
      var next := drivers[agent := k];
      assert agent in next;
      assert AtHome(n.c, agent, k);
  }

  lemma PassKeeps(s: Sys, agent: Agent, a: Answer, take: nat, late: map<QueryId, nat>)
    requires Inv(s) && Enabled(s, Pass(agent, a, take, late))
    ensures Inv(Apply(s, Pass(agent, a, take, late)))
  {
    hide Ledger, AllNew, RowThere, Effected, Round, Settled, AtRow, AtRows, Fits, Controlled;
    var l := s.drivers[agent];
    assert AtHome(s.conn, agent, l);
    var n := Round(s.conn, ViewOf(s.books), l, a);
    RoundLawful(s.conn, ViewOf(s.books), l, a);
    EffectAccounts(s.conn.st, s.books, n, take, late);
    OnePasses(s.conn, s.drivers, agent, n);
    KeptSettled(s.conn, l, n);
    var t := Apply(s, Pass(agent, a, take, late));
    assert t == Passed(s, agent, n, take, late);
    assert Accounts(t.conn.st, t.books);
    assert Settled(t.conn);
    assert Exclusive(t.conn, t.drivers);
  }

  lemma KeptSettled(c: Conn, l: Local, n: Next)
    requires Controlled(c, l, n)
    ensures Settled(n.c)
  {
  }

  /** A thread that takes the flag finds the handle not open, or open on its own loop. */
  predicate Owned(s: Sys, step: Step) {
    step.TakeFlag? && step.id in s.attempts && s.conn.flag.Clear? && s.conn.handle.Open?
    ==> s.conn.handle.loop == s.attempts[step.id].home
  }

  lemma Nobody(c: Conn, drivers: map<Agent, Local>)
    requires Exclusive(c, drivers) && c.flag.Clear?
    ensures drivers == map[]
  {
    forall a ensures a !in drivers {
      assert a in drivers ==> AtHome(c, a, drivers[a]);
    }
  }

  lemma TakeKeeps(s: Sys, id: nat)
    requires Inv(s) && Enabled(s, TakeFlag(id)) && Owned(s, TakeFlag(id))
    ensures Inv(Apply(s, TakeFlag(id)))
  {
    hide Accounts;
    var t := Apply(s, TakeFlag(id));
    if s.conn.flag.Clear? {
      Nobody(s.conn, s.drivers);
      var me := App(id, s.attempts[id].home);
      assert me in t.drivers && AtHome(t.conn, me, t.drivers[me]);
    }
  }

  lemma FireKeeps(s: Sys, on: Loop, timedOut: bool)
    requires Inv(s) && Enabled(s, Fire(on, timedOut))
    ensures Inv(Apply(s, Fire(on, timedOut)))
  {
    hide Accounts;
    NobodyThere(s.conn, s.drivers, on);
  }

  lemma NobodyThere(c: Conn, drivers: map<Agent, Local>, on: Loop)
    requires Exclusive(c, drivers) && c.handle.Open? && c.handle.loop == on
    requires forall a :: a in drivers ==> a.home != on
    ensures drivers == map[]
  {
    forall a ensures a !in drivers {
      assert a in drivers ==> AtHome(c, a, drivers[a]);
    }
  }

  lemma OtherKeeps(s: Sys, step: Step)
    requires Inv(s) && Enabled(s, step) && !step.TakeFlag? && !step.Fire? && !step.Pass?
    ensures Inv(Apply(s, step))
  {
    hide Ledger, AtRow, AtRows, Drained;
    match step
    case Submit(q, numRs) => Submits(s.books, q, numRs, AtRows(s.conn.st));
    case Drain(q) => Drains(s.books, q, AtRows(s.conn.st));
    case HandleClosed => HandleKeeps(s);
    case SignalClosing => ClosingKeeps(s);
    case _ =>
  }

  lemma HandleKeeps(s: Sys)
    requires Settled(s.conn) && Exclusive(s.conn, s.drivers) && s.conn.handle.Closing?
    ensures var c := s.conn.(handle := Closed); Settled(c) && Exclusive(c, s.drivers)
  {
  }

  lemma ClosingKeeps(s: Sys)
    requires Settled(s.conn) && Exclusive(s.conn, s.drivers)
    ensures var c := s.conn.(pool := ShuttingDown); Settled(c) && Exclusive(c, s.drivers)
  {
  }

  lemma StepKeeps(s: Sys, step: Step)
    requires Inv(s) && Enabled(s, step) && Owned(s, step)
    ensures Inv(Apply(s, step))
  {
    hide *;
    match step
    case TakeFlag(id) => TakeKeeps(s, id);
    case Fire(on, timedOut) => FireKeeps(s, on, timedOut);
    case Pass(agent, a, take, late) => PassKeeps(s, agent, a, take, late);
    case _ => OtherKeeps(s, step);
  }

  lemma InitHolds()
    ensures Inv(Init())
  {
  }

  /** The invariant holds in every state of a run whose threads take the flag on the handle's loop. */
  lemma {:induction false} RunKeeps(states: seq<Sys>, steps: seq<Step>, k: nat)
    requires IsRun(states, steps) && states[0] == Init() && k <= |steps|
    requires forall i :: 0 <= i < k ==> Owned(states[i], steps[i])
    ensures Inv(states[k])
  {
    hide Inv, Enabled, Owned, Apply;
    if k == 0 {
      InitHolds();
    } else {
      RunKeeps(states, steps, k - 1);
      StepKeeps(states[k - 1], steps[k - 1]);
    }
  }
}
