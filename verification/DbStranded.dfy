/**
 A caller that finds the flag of ready queries set leaves its query to whoever drives the connection.
 That somebody does is not always so.
 */
module DbStranded {
  import opened DatabaseResult
  import opened DbProtocol
  import opened DbSafety
  import opened DbTheorems
  import opened DbConversation
  import DbRace

  /** An agent executes the handler, or its next event is awaited. */
  predicate Attended(s: Sys) {
    s.drivers != map[] || Waits(s.conn.st)
  }

  /** A caller does not go to the handler, although nobody is in it, comes to it or is awaited. */
  predicate Forsaken(s: Sys) {
    s.conn.ready.SomeReady? && s.conn.flag.Clear? && s.drivers == map[] && s.attempts == map[] && s.conn.watch.Unarmed?
  }

  /** Somebody attends to the connection exactly while the flag that admits one agent is set. */
  lemma AttendedIff(states: seq<Sys>, steps: seq<Step>, k: nat)
    requires Careful(states, steps) && k <= |steps|
    ensures Attended(states[k]) <==> states[k].conn.flag.Set?
    ensures states[k].conn.ready.SomeReady? && states[k].attempts == map[] ==>
              (Forsaken(states[k]) <==> !Attended(states[k]))
  {
    hide Accounts, Enabled, Apply, Owned;
    RunKeeps(states, steps, k);
    if states[k].conn.flag.Clear? { Nobody(states[k].conn, states[k].drivers); }
  }

  lemma ForsakenStep(s: Sys, step: Step)
    requires Forsaken(s) && Enabled(s, step) && !step.BeginClose?
    ensures var b, c := s.books, Apply(s, step).books;
            && Forsaken(Apply(s, step)) && b.pending <= c.pending
            && (forall q :: q in b.queries ==> q in c.queries && c.queries[q].sent == b.queries[q].sent)
            && (forall q :: q in c.queries && q !in b.queries ==> c.queries[q].sent == [] && q in c.pending)
  {
  }

  /**
   From then on, until the connection is to be closed, nobody is told anything, and the queries that
   are let in stay pending.
   */
  lemma {:induction false} Stranded(states: seq<Sys>, steps: seq<Step>, i: nat, k: nat)
    requires IsRun(states, steps) && i <= k <= |steps| && Forsaken(states[i])
    requires forall j :: i <= j < k ==> !steps[j].BeginClose?
    ensures var b, c := states[i].books, states[k].books;
            && Forsaken(states[k]) && b.pending <= c.pending
            && (forall q :: q in b.queries ==> q in c.queries && c.queries[q].sent == b.queries[q].sent)
            && (forall q :: q in c.queries && q !in b.queries ==> c.queries[q].sent == [] && q in c.pending)
    decreases k
  {
    hide Enabled, Apply, Forsaken;
    if i < k {
      Stranded(states, steps, i, k - 1);
      ForsakenStep(states[k - 1], steps[k - 1]);
      var a, b, c := states[i].books, states[k - 1].books, states[k].books;
      forall q | q in c.queries && q !in a.queries ensures c.queries[q].sent == [] && q in c.pending {
        if q in b.queries { InLonger(b.pending, c.pending, q); }
      }
    }
  }

  lemma InLonger(a: seq<QueryId>, b: seq<QueryId>, q: QueryId)
    requires a <= b && q in a
    ensures q in b
  {
    var i :| 0 <= i < |a| && a[i] == q;
    assert b[i] == q;
  }

  // ---- It happens ----

  /** The agent that is alone in the handler goes on. */
  lemma Goes(before: seq<Sys>, taken: seq<Step>, me: Agent, l: Local, a: Answer)
    returns (states: seq<Sys>, steps: seq<Step>)
    requires Careful(before, taken) && before[|taken|].drivers == map[me := l] && !before[|taken|].conn.st.RowReady?
    ensures Careful(states, steps)
    ensures var s, t := before[|taken|], states[|steps|];
            var n := Round(s.conn, ViewOf(s.books), l, a);
            && t.conn == n.c && t.books == Effected(s.books, n.effect, 0, map[]) && t.attempts == s.attempts
            && t.drivers == match n.locals case Gone => map[] case Here(k) => map[me := k]
  {
    var step := Pass(me, a, 0, map[]);
    assert Enabled(before[|taken|], step);
    PassIs(before[|taken|], step);
    DrivenAlone(before[|taken|].drivers, me, l);
    hide Round, Effected, Enabled;
    assert Apply(before[|taken|], step).attempts == before[|taken|].attempts;
    states, steps := GoOn(before, taken, step);
  }

  const DRIVES := Local(Ok, ByApp, Running)

  function Fresh(st: State, flag: Flag): Conn {
    Conn(st, flag, Closed, Unarmed, 0, NoneReady, Serving, NoRow)
  }

  /** One caller has let its query in and is about to execute the handler for the first time. */
  lemma EntersAlone(q: QueryId, numRs: nat) returns (states: seq<Sys>, steps: seq<Step>)
    requires numRs > 0
    ensures Careful(states, steps)
    ensures states[|steps|]
            == Sys(Fresh(Inited, Set), Submitted(Init().books, q, numRs), map[App(q, 0) := DRIVES], map[], {q})
  {
    hide Careful;
    states, steps := [Init()], [];
    NoSteps();
    states, steps := GoOn(states, steps, Submit(q, numRs));
    states, steps := GoOn(states, steps, Begin(q, 0));
    states, steps := GoOn(states, steps, SeeClosed(q));
    states, steps := GoOn(states, steps, ReadState(q));
    assert states[|steps|].attempts - {q} == map[];
    states, steps := GoOn(states, steps, TakeFlag(q));
  }

  /** The connection is there, and the query is about to be sent. */
  lemma AboutToSend(q: QueryId, numRs: nat) returns (states: seq<Sys>, steps: seq<Step>)
    requires numRs > 0
    ensures Careful(states, steps)
    ensures var s := states[|steps|];
            && s.conn == Fresh(QueryStart, Set) && s.books == Submitted(Init().books, q, numRs)
            && s.drivers == map[App(q, 0) := DRIVES] && s.attempts == map[]
  {
    hide Careful, Submitted, Enabled, Apply;
    var me := App(q, 0);
    states, steps := EntersAlone(q, numRs);
    states, steps := Goes(states, steps, me, DRIVES, DbRace.ENDS);
    states, steps := Goes(states, steps, me, DRIVES, DbRace.ENDS);
    states, steps := Goes(states, steps, me, DRIVES, DbRace.ENDS);
  }

  /**
   The first query is sent in vain and told so, the broken connection is given up with nothing left to
   do, and the flag of ready queries stays set.
   */
  lemma ForsakenReached(q: QueryId, numRs: nat) returns (states: seq<Sys>, steps: seq<Step>)
    requires numRs > 0
    ensures Careful(states, steps) && Forsaken(states[|steps|]) && states[|steps|].books.done == [q]
  {
    hide Careful, Enabled, Apply;
    var me := App(q, 0);
    states, steps := SentInVain(q, numRs);
    states, steps := Goes(states, steps, me, DRIVES.(result := NetworkError), DbRace.ENDS);
    states, steps := Goes(states, steps, me, DRIVES, DbRace.ENDS);
  }

  lemma SentInVain(q: QueryId, numRs: nat) returns (states: seq<Sys>, steps: seq<Step>)
    requires numRs > 0
    ensures Careful(states, steps)
    ensures var s := states[|steps|];
            && s.conn == Conn(CloseStart, Set, Open(0), Unarmed, 0, SomeReady, Serving, NoRow)
            && s.books.processing == [] && s.books.pending == [] && s.books.done == [q]
            && s.drivers == map[App(q, 0) := DRIVES.(result := NetworkError)] && s.attempts == map[]
  {
    hide Careful, Enabled, Apply;
    var me := App(q, 0);
    states, steps := AboutToSend(q, numRs);
    states, steps := Goes(states, steps, me, DRIVES, DbRace.FAILS);
    states, steps := Goes(states, steps, me, DRIVES.(result := NetworkError), DbRace.ENDS);
  }
}
