/**
 The connection handler of the database layer as a state machine. A step is one `case` of the
 handler's switch, one atomic access of a thread that wants to drive the connection, one event of
 the event loop, or one callback of the application. What the client library, the operating system
 and the scheduler do is chosen by the step.
 */
module DbProtocol {
  import opened DatabaseResult

  type QueryId = nat
  /** An event loop; each one is run by a thread of its own. */
  type Loop = nat

  datatype State =
    | Inited
    | ConnStart | ConnWaiting | ConnDone
    | QueryStart | QueryWaiting | QueryReady
    | CheckRset
    | NextStart | NextWaiting | NextDone
    | RowStart | RowWaiting | RowReady
    | FreeStart | FreeWaiting | FreeDone
    | CloseStart | CloseWaiting | CloseDone

  /** What a query is told: the state of the connection, the code, and whether nothing follows. */
  datatype Note = Note(at: State, code: DbaResult, final: bool)

  /** `sent` are the results queued so far, of which the callbacks have seen the first `drained`. */
  datatype Query = Query(numRs: nat, remain: nat, sent: seq<Note>, drained: nat, closes: nat)

  /** The poll and timer handles of a connection, which are opened, armed and closed together. */
  datatype Handle = Closed | Open(loop: Loop) | Closing(loop: Loop)

  /** Who executes the handler: a call of the application, or an event on a loop. */
  datatype Agent = App(id: nat, home: Loop) | Event(home: Loop)

  /**
   The local variables of a handler call. `settle` is the state still to be written once the poll
   has been armed.
   */
  datatype Local = Local(result: DbaResult, caller: Caller, settle: Settle)
  datatype Caller = ByApp | ByLoop
  datatype Settle = Running | Arming(to: State)

  /** A thread on its way to the handler: it has seen the handle closed, then a state that admits it. */
  datatype Attempt = Waiting(home: Loop) | SawClosed(home: Loop) | Admitted(home: Loop)

  /**
   The queries of a connection. For the history: the queries in the order they were accepted, those
   that got their final result, those discarded unheard, and the result sets still owed to the batch.
   */
  datatype Books = Books(
    pending: seq<QueryId>, processing: seq<QueryId>, queries: map<QueryId, Query>,
    line: seq<QueryId>, done: seq<QueryId>, dropped: set<QueryId>, owed: int)

  /** The flag that an agent in the handler owns. */
  datatype Flag = Clear | Set
  /** The poll and the timer are armed and disarmed together. */
  datatype Watch = Unarmed | Armed
  datatype Ready = NoneReady | SomeReady
  datatype Pool = Serving | ShuttingDown
  datatype Row = NoRow | SomeRow

  /** The connection object but for its queries. */
  datatype Conn = Conn(
    st: State, flag: Flag, handle: Handle, watch: Watch, loop: Loop, ready: Ready, pool: Pool, row: Row)

  /** `begun` are the queries whose callers have gone on to see to the connection. */
  datatype Sys = Sys(
    conn: Conn, books: Books, drivers: map<Agent, Local>, attempts: map<nat, Attempt>, begun: set<QueryId>)

  /** What the library and the operating system answer during one case of the handler. */
  datatype Answer = Answer(
    code: DbaResult,  // result of the library call
    waits: bool,      // it asks to be continued on an event
    inits: bool,      // opening the handle succeeds
    arms: bool,       // arming it succeeds
    rows: bool,       // the current result set has rows
    reached: bool)    // the event status let the library call happen

  /**
   `take` is the length of the batch that a pass of the handler forms from the pending queries.
   `late` are queries that arrive while it fails the pending ones. The thread that has let query `q`
   in goes on, once, with `Begin(q, ..)`; `BeginClose` is the closing of the connection.
   */
  datatype Step =
    | Submit(q: QueryId, numRs: nat)
    | Begin(id: nat, home: Loop)
    | BeginClose(id: nat, home: Loop)
    | SeeClosed(id: nat)
    | ReadState(id: nat)
    | TakeFlag(id: nat)
    | Pass(agent: Agent, answer: Answer, take: nat, late: map<QueryId, nat>)
    | Fire(on: Loop, timedOut: bool)
    | HandleClosed
    | SignalClosing
    | Drain(q: QueryId)

  function Init(): Sys {
    Sys(Conn(Inited, Clear, Closed, Unarmed, 0, NoneReady, Serving, NoRow),
        Books([], [], map[], [], [], {}, 0), map[], map[], {})
  }

  // ---- Results ----

  function Told(q: Query, n: Note): Query {
    q.(sent := q.sent + [n])
  }

  function Notify(b: Books, q: QueryId, n: Note): Books {
    if q in b.queries then b.(queries := b.queries[q := Told(b.queries[q], n)]) else b
  }

  /** One result set of the first query is over; after its last one the query leaves the list. */
  function Evict(b: Books): Books {
    if b.processing == [] || b.processing[0] !in b.queries then b else
    var q := b.processing[0];
    var left := if b.queries[q].remain > 0 then b.queries[q].remain - 1 else 0;
    var c := b.(queries := b.queries[q := b.queries[q].(remain := left)]);
    if left == 0 then c.(processing := b.processing[1..], done := b.done + [q]) else c
  }

  /** A result set is over: the first query is told so, finally if it was its last. */
  function EndGroup(b: Books, at: State, code: DbaResult): Books {
    var c := Evict(b).(owed := b.owed - 1);
    if b.processing == [] || b.processing[0] !in c.queries then c
    else Notify(c, b.processing[0], Note(at, code, c.queries[b.processing[0]].remain == 0))
  }

  function Failed(q: Query, n: Note): Query {
    q.(remain := 0, sent := q.sent + [n])
  }

  function FailThese(queries: map<QueryId, Query>, qs: seq<QueryId>, n: Note): map<QueryId, Query> {
    map q | q in queries :: if q in qs then Failed(queries[q], n) else queries[q]
  }

  function FailProcessing(b: Books, n: Note): Books {
    b.(queries := FailThese(b.queries, b.processing, n), processing := [], done := b.done + b.processing, owed := 0)
  }

  /** The queries of `late` are appended after the pending list was walked and before it is emptied. */
  function FailPending(b: Books, n: Note, late: map<QueryId, nat>): Books {
    b.(queries := FailThese(b.queries, b.pending, n) + Newcomers(late), pending := [],
       done := b.done + b.pending, dropped := b.dropped + late.Keys)
  }

  function Newcomers(late: map<QueryId, nat>): map<QueryId, Query> {
    map q | q in late :: NewQuery(late[q])
  }

  function NewQuery(numRs: nat): Query {
    Query(numRs, numRs, [], 0, 0)
  }

  /** Forms a batch unless one is being processed; the batch is not empty if a query is pending. */
  function FormBatch(b: Books, take: nat): Books {
    if b.processing != [] then b
    else
      var k := if 0 < take <= |b.pending| then take else |b.pending|;
      b.(processing := b.pending[..k], pending := b.pending[k..], owed := SumRs(b.queries, b.pending[..k]))
  }

  function Submitted(b: Books, q: QueryId, numRs: nat): Books {
    b.(queries := b.queries[q := NewQuery(numRs)], pending := b.pending + [q], line := b.line + [q])
  }

  /** All queued results go to the callbacks; after a final one the notification handle is closed. */
  function Drained(q: Query): Query {
    var closes := if q.drained < |q.sent| && q.sent[|q.sent| - 1].final then q.closes + 1 else q.closes;
    q.(drained := |q.sent|, closes := closes)
  }

  function Heard(b: Books, q: QueryId): Books
    requires q in b.queries
  {
    b.(queries := b.queries[q := Drained(b.queries[q])])
  }

  function SumRs(queries: map<QueryId, Query>, qs: seq<QueryId>): nat {
    if qs == [] then 0
    else (if qs[0] in queries then queries[qs[0]].remain else 0) + SumRs(queries, qs[1..])
  }

  // ---- The handles ----

  function InitHandle(c: Conn, caller: Caller, a: Answer): Conn {
    if caller.ByApp? && a.inits && c.handle.Closed? then c.(handle := Open(c.loop)) else c
  }

  function Stop(c: Conn): Conn {
    if c.handle.Open? then c.(watch := Unarmed) else c
  }

  function Deinit(c: Conn): Conn {
    if c.handle.Open? then c.(handle := Closing(c.handle.loop), watch := Unarmed) else c
  }

  // ---- The cases of the handler ----

  /** What a case does to the queries. */
  datatype Effect =
    | Nothing
    | Tell(note: Note)                     // the current query gets a result
    | End(at: State, code: DbaResult)      // a result set of the current query is over
    | Form                                 // a batch is formed
    | FailBatch(note: Note)                // the queries of the batch fail
    | FailAll(note: Note)                  // the pending ones fail as well

  /** Of the queries, the cases only look at whether the batch and the pending list are empty. */
  datatype View = View(batch: bool, pending: bool)

  /** The connection, the handler's local variables unless it has returned, and the effect. */
  datatype Next = Next(c: Conn, locals: Locals, effect: Effect)
  datatype Locals = Gone | Here(l: Local)

  function Goto(c: Conn, to: State, l: Local, e: Effect): Next {
    Next(c.(st := to), Here(l), e)
  }

  function Leave(c: Conn, e: Effect): Next {
    Next(c, Gone, e)
  }

  /**
   A library call that either ends at once, or asks for an event: then the poll is armed before
   the waiting state is written.
   */
  function StartCall(c: Conn, l: Local, a: Answer, wait: State, ready: State, e: Effect): Next {
    if a.code.Ok? && a.waits then
      if a.arms && c.handle.Open? then
        Next(c.(watch := Armed), Here(l.(result := Ok, settle := Arming(wait))), e)
      else
        Goto(c, ready, l.(result := OsError), e)
    else
      Goto(c, ready, l.(result := a.code), e)
  }

  /** The continuation of a call on an event. */
  function ContinueCall(c: Conn, l: Local, a: Answer, busy: DbaResult, ready: State): Next {
    if a.code == busy then Leave(c, Nothing) else Goto(c, ready, l.(result := a.code), Nothing)
  }

  function AtConnStart(c: Conn, l: Local, a: Answer): Next {
    var d := if a.code.Ok? && a.waits then InitHandle(c, l.caller, a) else c;
    StartCall(d, l, a, ConnWaiting, ConnDone, Nothing)
  }

  function AtConnDone(c: Conn, l: Local): Next {
    if l.result.Ok? then Goto(Stop(c), QueryStart, l, Nothing)
    else Goto(Stop(c), CloseStart, l, FailAll(Note(ConnDone, l.result, true)))
  }

  function AtQueryStart(c: Conn, v: View, l: Local, a: Answer): Next {
    var d := if v.batch then c else c.(ready := if v.pending then SomeReady else NoneReady);
    if !v.batch && v.pending then
      StartCall(InitHandle(d, l.caller, a), l, a, QueryWaiting, QueryReady, Form)
    else if c.pool.ShuttingDown? then
      Goto(InitHandle(d, l.caller, a), CloseStart, l.(result := Skipped), Form)
    else
      Leave(Deinit(d).(flag := Clear), Form)
  }

  function AtQueryReady(c: Conn, l: Local): Next {
    if l.result.Ok? then Goto(Stop(c), CheckRset, l, Nothing)
    else
      Goto(Stop(c), if l.result.NetworkError? then CloseStart else QueryStart, l,
           FailBatch(Note(QueryReady, l.result, true)))
  }

  /** Result sets may outnumber the declared ones: then there is no query to tell. */
  function AtCheck(c: Conn, v: View, l: Local, a: Answer): Next {
    var d := c.(row := NoRow);
    if !a.rows then Goto(d, NextStart, l, End(CheckRset, EndOfRows))
    else if !v.batch then Goto(d, FreeStart, l, Nothing)
    else Goto(d, RowStart, l, Tell(Note(CheckRset, Ok, false)))
  }

  function AtNextDone(c: Conn, l: Local): Next {
    Goto(Stop(c), if l.result.EndOfRsets? then QueryStart else CheckRset, l, Nothing)
  }

  /** A finished fetch has a row exactly when its code is `Ok`. */
  function AtRowStart(c: Conn, l: Local, a: Answer): Next {
    var d := if a.code.Ok? && a.waits then c else c.(row := if a.code.Ok? then SomeRow else NoRow);
    StartCall(d, l, a, RowWaiting, RowReady, Nothing)
  }

  /** A bad event status leaves the row of the previous fetch in place. */
  function AtRowWaiting(c: Conn, l: Local, a: Answer): Next {
    var d := if a.code.RowStillFetching? || !a.reached then c else c.(row := if a.code.Ok? then SomeRow else NoRow);
    ContinueCall(d, l, a, RowStillFetching, RowReady)
  }

  function AtRowReady(c: Conn, l: Local): Next {
    if l.result.EndOfRows? then Goto(Stop(c), FreeStart, l, Nothing)
    else Goto(Stop(c), RowStart, l, Tell(Note(RowReady, l.result, false)))
  }

  function AtFreeDone(c: Conn, l: Local): Next {
    Goto(Stop(c), NextStart, l, End(FreeDone, l.result))
  }

  function AtCloseDone(c: Conn, v: View, l: Local): Next {
    var more := v.batch || v.pending;
    if c.pool.ShuttingDown? then
      Leave(Deinit(Stop(c)).(flag := Clear),
            if more then FailAll(Note(CloseDone, ConnectionBusy, true)) else Nothing)
    else if more then
      Goto(Stop(c), ConnStart, l, Nothing)
    else
      Leave(Stop(c).(st := ConnStart, flag := Clear), Nothing)
  }

  function Case(c: Conn, v: View, l: Local, a: Answer): Next {
    match c.st
    case Inited => Goto(c, ConnStart, l, Nothing)
    case ConnStart => AtConnStart(c, l, a)
    case ConnWaiting => ContinueCall(c, l, a, ConnectionBusy, ConnDone)
    case ConnDone => AtConnDone(c, l)
    case QueryStart => AtQueryStart(c, v, l, a)
    case QueryWaiting => ContinueCall(c, l, a, QueryStillProcessing, QueryReady)
    case QueryReady => AtQueryReady(c, l)
    case CheckRset => AtCheck(c, v, l, a)
    case NextStart => StartCall(c, l, a, NextWaiting, NextDone, Nothing)
    case NextWaiting => ContinueCall(c, l, a, RsetStillLoading, NextDone)
    case NextDone => AtNextDone(c, l)
    case RowStart => AtRowStart(c, l, a)
    case RowWaiting => AtRowWaiting(c, l, a)
    case RowReady => AtRowReady(c, l)
    case FreeStart => StartCall(c, l, a, FreeWaiting, FreeDone, Nothing)
    case FreeWaiting => ContinueCall(c, l, a, RestReleasing, FreeDone)
    case FreeDone => AtFreeDone(c, l)
    case CloseStart => StartCall(c, l, a, CloseWaiting, CloseDone, Nothing)
    case CloseWaiting => ContinueCall(c, l, a, ConnectionBusy, CloseDone)
    case CloseDone => AtCloseDone(c, v, l)
  }

  /** One round of the handler's loop, or the write of the waiting state after arming. */
  function Round(c: Conn, v: View, l: Local, a: Answer): Next {
    match l.settle
    case Arming(to) => Leave(c.(st := to), Nothing)
    case Running => Case(c, v, l, a)
  }

  function Effected(b: Books, e: Effect, take: nat, late: map<QueryId, nat>): Books {
    match e
    case Nothing => b
    case Tell(n) => if b.processing == [] then b else Notify(b, b.processing[0], n)
    case End(at, code) => EndGroup(b, at, code)
    case Form => FormBatch(b, take)
    case FailBatch(n) => FailProcessing(b, n)
    case FailAll(n) => FailPending(FailProcessing(b, n), n, late)
  }

  // ---- Steps ----

  predicate Admits(st: State) {
    st.Inited? || st.ConnStart? || st.QueryStart?
  }

  /** No handler call is running on the thread of the loop. */
  predicate Idle(s: Sys, on: Loop) {
    forall a :: a in s.drivers ==> a.home != on
  }

  /** The thread `id` is not yet on its way to the handler or in it. */
  predicate Away(s: Sys, id: nat) {
    id !in s.attempts && (forall a :: a in s.drivers && a.App? ==> a.id != id)
  }

  /** The program does not get past the assertion that a fetched row is there. */
  predicate RowThere(c: Conn, l: Local) {
    c.st.RowReady? && l.settle.Running? && !l.result.EndOfRows? ==> c.row.SomeRow?
  }

  predicate AllNew(b: Books, late: map<QueryId, nat>) {
    forall q :: q in late ==> q !in b.queries && late[q] > 0
  }

  predicate Enabled(s: Sys, step: Step) {
    match step
    case Submit(q, numRs) => q !in s.books.queries && numRs > 0
    case Begin(id, _) => id in s.books.queries && id !in s.begun && Away(s, id)
    case BeginClose(id, _) => Away(s, id)
    case SeeClosed(id) => id in s.attempts && s.attempts[id].Waiting? && s.conn.handle.Closed?
    case ReadState(id) => id in s.attempts && s.attempts[id].SawClosed?
    case TakeFlag(id) => id in s.attempts && s.attempts[id].Admitted?
    case Pass(agent, _, _, late) =>
      agent in s.drivers && RowThere(s.conn, s.drivers[agent]) && AllNew(s.books, late)
    case Fire(on, _) => s.conn.handle.Open? && s.conn.handle.loop == on && s.conn.watch.Armed? && Idle(s, on)
    case HandleClosed => s.conn.handle.Closing?
    case SignalClosing => true
    case Drain(q) => q in s.books.queries
  }

  function ViewOf(b: Books): View {
    View(b.processing != [], b.pending != [])
  }

  function Passed(s: Sys, agent: Agent, n: Next, take: nat, late: map<QueryId, nat>): Sys {
    var drivers := match n.locals case Gone => s.drivers - {agent} case Here(l) => s.drivers[agent := l];
    s.(conn := n.c, books := Effected(s.books, n.effect, take, late), drivers := drivers)
  }

  function Taken(s: Sys, id: nat): Sys
    requires id in s.attempts
  {
    var home := s.attempts[id].home;
    var t := s.(attempts := s.attempts - {id});
    if s.conn.flag.Set? then t
    else
      t.(conn := s.conn.(flag := Set, loop := home),
         drivers := s.drivers[App(id, home) := Local(Ok, ByApp, Running)])
  }

  function Fired(s: Sys, on: Loop, timedOut: bool): Sys {
    s.(conn := if timedOut then s.conn.(watch := Unarmed) else s.conn,
       drivers := s.drivers[Event(on) := Local(Ok, ByLoop, Running)])
  }

  function Apply(s: Sys, step: Step): Sys
    requires Enabled(s, step)
  {
    match step
    case Submit(q, numRs) => s.(books := Submitted(s.books, q, numRs))
    case Begin(id, home) =>
      var t := s.(begun := s.begun + {id});
      if s.conn.ready.SomeReady? then t else t.(attempts := s.attempts[id := Waiting(home)])
    case BeginClose(id, home) =>
      if (s.conn.st.Inited? || s.conn.st.CloseDone?) && s.conn.handle.Closed? then s
      else s.(attempts := s.attempts[id := SawClosed(home)])
    case SeeClosed(id) => s.(attempts := s.attempts[id := SawClosed(s.attempts[id].home)])
    case ReadState(id) =>
      if Admits(s.conn.st) then s.(attempts := s.attempts[id := Admitted(s.attempts[id].home)])
      else s.(attempts := s.attempts - {id})
    case TakeFlag(id) => Taken(s, id)
    case Pass(agent, a, take, late) =>
      Passed(s, agent, Round(s.conn, ViewOf(s.books), s.drivers[agent], a), take, late)
    case Fire(on, timedOut) => Fired(s, on, timedOut)
    case HandleClosed => s.(conn := s.conn.(handle := Closed))
    case SignalClosing => s.(conn := s.conn.(pool := ShuttingDown))
    case Drain(q) => s.(books := Heard(s.books, q))
  }

  /** What a step does to the queries by way of the handler. */
  function EffectOf(s: Sys, step: Step): Effect
    requires Enabled(s, step)
  {
    if step.Pass? then Round(s.conn, ViewOf(s.books), s.drivers[step.agent], step.answer).effect else Nothing
  }

  /** A run: its states, and the steps between them. */
  predicate IsRun(states: seq<Sys>, steps: seq<Step>) {
    && |states| == |steps| + 1
    && forall i :: 0 <= i < |steps| ==> Enabled(states[i], steps[i]) && states[i + 1] == Apply(states[i], steps[i])
  }
}
