/**
 The condition on taking the flag is needed: the closed handle is seen before the flag is taken, and
 the handle can be opened in between.
 */
module DbRace {
  import opened DatabaseResult
  import opened DbProtocol
  import opened DbSafety
  import opened DbTheorems

  /** A thread may take the flag next although the handle is open on another loop. */
  predicate Foreign(s: Sys, id: nat) {
    Enabled(s, TakeFlag(id)) && s.conn.flag.Clear? && !Owned(s, TakeFlag(id))
  }

  const WAITS := Answer(Ok, true, true, true, false, true)
  const ENDS := Answer(Ok, false, true, true, false, true)
  const FAILS := Answer(NetworkError, false, true, true, false, true)

  function Drive(agent: Agent, a: Answer): Step {
    Pass(agent, a, 0, map[])
  }

  /** From every such state, three steps put two agents into the handler. */
  lemma TwoDrivers(s: Sys, id: nat) returns (states: seq<Sys>, steps: seq<Step>)
    requires Inv(s) && Foreign(s, id)
    ensures IsRun(states, steps) && states[0] == s && |steps| == 3 && steps[0] == TakeFlag(id)
    ensures id in s.attempts && s.conn.handle.Open?
    ensures var a, b := App(id, s.attempts[id].home), Event(s.conn.handle.loop);
            a != b && a in states[3].drivers && b in states[3].drivers
    ensures forall i :: 0 <= i < 3 ==> (Owned(states[i], steps[i]) <==> i != 0)
  {
    hide Accounts;
    var me, on := App(id, s.attempts[id].home), s.conn.handle.loop;
    Nobody(s.conn, s.drivers);
    var t := Apply(s, TakeFlag(id));
    ArmsForeign(t, me);
    var u := Apply(t, Drive(me, WAITS));
    var v := Apply(u, Fire(on, false));
    states, steps := [s, t, u, v], [TakeFlag(id), Drive(me, WAITS), Fire(on, false)];
  }

  lemma ArmsForeign(s: Sys, me: Agent)
    requires s.drivers == map[me := Local(Ok, ByApp, Running)]
    requires s.conn.st.ConnStart? && s.conn.handle.Open? && s.conn.handle.loop != me.home
    ensures Enabled(s, Drive(me, WAITS))
    ensures var t := Apply(s, Drive(me, WAITS));
            t.conn.watch.Armed? && t.conn.handle == s.conn.handle && t.drivers.Keys == {me}
            && Enabled(t, Fire(s.conn.handle.loop, false))
  {
  }

  // ---- Such a state is reached ----

  /** Two callers, `p` on loop 0 and `p + 1` on loop 1, each of which has let in a query. */
  function Asked(p: nat): Books {
    Submitted(Submitted(Init().books, p, 1), p + 1, 1)
  }

  function At(st: State, flag: Flag, handle: Handle, watch: Watch): Conn {
    Conn(st, flag, handle, watch, 1, NoneReady, Serving, NoRow)
  }

  /** Caller `p` has seen the handle closed, and one agent executes the handler. */
  function Solo(p: nat, b: Books, c: Conn, agent: Agent, l: Local): Sys {
    Sys(c, b, map[agent := l], map[p := SawClosed(0)], {p, p + 1})
  }

  function Unattended(p: nat, b: Books, c: Conn): Sys {
    Sys(c, b, map[], map[p := SawClosed(0)], {p, p + 1})
  }

  /** What a round of that agent leads to. */
  function Driven(p: nat, b: Books, agent: Agent, n: Next): Sys {
    var d := Effected(b, n.effect, 0, map[]);
    match n.locals
    case Gone => Unattended(p, d, n.c)
    case Here(k) => Solo(p, d, n.c, agent, k)
  }

  lemma Drives(p: nat, b: Books, c: Conn, agent: Agent, l: Local, a: Answer, n: Next)
    requires n == Round(c, ViewOf(b), l, a) && !c.st.RowReady?
    ensures var s := Solo(p, b, c, agent, l);
            Enabled(s, Drive(agent, a)) && Apply(s, Drive(agent, a)) == Driven(p, b, agent, n)
  {
    hide Round, Effected, ViewOf;
    assert map[agent := l] - {agent} == map[];
  }

  /** The first caller has seen the handle closed, and the second has let its query in. */
  function Looking(p: nat): Sys {
    Sys(Init().conn, Asked(p), map[], map[p := SawClosed(0)], {p})
  }

  lemma SecondEnters(p: nat)
    ensures var s := Looking(p);
            && Enabled(s, Begin(p + 1, 1))
            && var t := Apply(s, Begin(p + 1, 1));
            && Enabled(t, SeeClosed(p + 1))
            && var u := Apply(t, SeeClosed(p + 1));
            && Enabled(u, ReadState(p + 1))
            && var v := Apply(u, ReadState(p + 1));
            && Enabled(v, TakeFlag(p + 1)) && Owned(v, TakeFlag(p + 1))
            && Apply(v, TakeFlag(p + 1))
               == Solo(p, Asked(p), At(Inited, Set, Closed, Unarmed), App(p + 1, 1), Local(Ok, ByApp, Running))
  {
    var v := Apply(Apply(Apply(Looking(p), Begin(p + 1, 1)), SeeClosed(p + 1)), ReadState(p + 1));
    assert v.attempts - {p + 1} == map[p := SawClosed(0)];
  }

  /** Both callers let their queries in and see the closed handle; the second takes the flag. */
  lemma Enters(p: nat) returns (states: seq<Sys>, steps: seq<Step>)
    ensures Careful(states, steps)
    ensures states[|steps|]
            == Solo(p, Asked(p), At(Inited, Set, Closed, Unarmed), App(p + 1, 1), Local(Ok, ByApp, Running))
  {
    hide Careful;
    states, steps := [Init()], [];
    NoSteps();
    states, steps := GoOn(states, steps, Submit(p, 1));
    states, steps := GoOn(states, steps, Begin(p, 0));
    states, steps := GoOn(states, steps, SeeClosed(p));
    states, steps := GoOn(states, steps, Submit(p + 1, 1));
    assert states[|steps|] == Looking(p);
    hide Enabled, Apply;
    SecondEnters(p);
    states, steps := GoOn(states, steps, Begin(p + 1, 1));
    states, steps := GoOn(states, steps, SeeClosed(p + 1));
    states, steps := GoOn(states, steps, ReadState(p + 1));
    states, steps := GoOn(states, steps, TakeFlag(p + 1));
  }

  /** The second caller opens the handle on its loop and waits; its loop then finds the connection ready. */
  lemma Connects(p: nat, before: seq<Sys>, taken: seq<Step>) returns (states: seq<Sys>, steps: seq<Step>)
    requires Careful(before, taken)
    requires before[|taken|]
             == Solo(p, Asked(p), At(Inited, Set, Closed, Unarmed), App(p + 1, 1), Local(Ok, ByApp, Running))
    ensures Careful(states, steps)
    ensures states[|steps|]
            == Solo(p, Asked(p), At(ConnWaiting, Set, Open(1), Armed), Event(1), Local(Ok, ByLoop, Running))
  {
    hide Enabled, Apply, Asked;
    var b, me, l := Asked(p), App(p + 1, 1), Local(Ok, ByApp, Running);
    states, steps := Passes(p, before, taken, b, At(Inited, Set, Closed, Unarmed), me, l, ENDS);
    states, steps := Passes(p, states, steps, b, At(ConnStart, Set, Closed, Unarmed), me, l, WAITS);
    l := l.(settle := Arming(ConnWaiting));
    states, steps := Passes(p, states, steps, b, At(ConnStart, Set, Open(1), Armed), me, l, ENDS);
    Fires(p, b, At(ConnWaiting, Set, Open(1), Armed));
    states, steps := GoOn(states, steps, Fire(1, false));
  }

  lemma Fires(p: nat, b: Books, c: Conn)
    requires c.handle == Open(1) && c.watch.Armed?
    ensures Enabled(Unattended(p, b, c), Fire(1, false))
    ensures Apply(Unattended(p, b, c), Fire(1, false)) == Solo(p, b, c, Event(1), Local(Ok, ByLoop, Running))
  {
  }

  /** The step of the agent that is alone in the handler. */
  lemma Passes(p: nat, before: seq<Sys>, taken: seq<Step>, b: Books, c: Conn, agent: Agent, l: Local, a: Answer)
    returns (states: seq<Sys>, steps: seq<Step>)
    requires Careful(before, taken) && before[|taken|] == Solo(p, b, c, agent, l) && !c.st.RowReady?
    ensures Careful(states, steps)
    ensures states[|steps|] == Driven(p, b, agent, Round(c, ViewOf(b), l, a))
  {
    hide Enabled, Apply, Round, Driven;
    Drives(p, b, c, agent, l, a, Round(c, ViewOf(b), l, a));
    states, steps := GoOn(before, taken, Drive(agent, a));
  }

  lemma BothFail(p: nat, n: Note)
    ensures var b := Effected(Asked(p), FailAll(n), 0, map[]); ViewOf(b) == View(false, false) && b.done == [p, p + 1]
  {
  }

  /**
   The connection fails, both queries are told so, and it is given up; the first caller is admitted
   while the handle is still open.
   */
  lemma Fails(p: nat, before: seq<Sys>, taken: seq<Step>) returns (states: seq<Sys>, steps: seq<Step>)
    requires Careful(before, taken)
    requires before[|taken|]
             == Solo(p, Asked(p), At(ConnWaiting, Set, Open(1), Armed), Event(1), Local(Ok, ByLoop, Running))
    ensures Careful(states, steps)
    ensures Foreign(states[|steps|], p) && states[|steps|].books.done == [p, p + 1]
  {
    hide Enabled, Apply, Foreign, Asked, FailPending, FailProcessing, ViewOf;
    var b, me, l := Asked(p), Event(1), Local(NetworkError, ByLoop, Running);
    states, steps := Passes(p, before, taken, b, At(ConnWaiting, Set, Open(1), Armed), me, l.(result := Ok), FAILS);
    states, steps := Passes(p, states, steps, b, At(ConnDone, Set, Open(1), Armed), me, l, ENDS);
    var note := Note(ConnDone, NetworkError, true);
    BothFail(p, note);
    b := Effected(b, FailAll(note), 0, map[]);
    hide Effected;
    states, steps := Passes(p, states, steps, b, At(CloseStart, Set, Open(1), Unarmed), me, l, ENDS);
    states, steps := Passes(p, states, steps, b, At(CloseDone, Set, Open(1), Unarmed), me, l.(result := Ok), ENDS);
    AdmitsForeign(p, b, At(ConnStart, Clear, Open(1), Unarmed));
    states, steps := GoOn(states, steps, ReadState(p));
  }

  lemma AdmitsForeign(p: nat, b: Books, c: Conn)
    requires c.st.ConnStart? && c.flag.Clear? && c.handle == Open(1)
    ensures var s := Unattended(p, b, c);
            && Enabled(s, ReadState(p)) && Foreign(Apply(s, ReadState(p)), p)
            && Apply(s, ReadState(p)).books == b
  {
  }

  /** By then both callers' queries have been told of the failure. */
  lemma ForeignReached(p: nat) returns (states: seq<Sys>, steps: seq<Step>)
    ensures Careful(states, steps)
    ensures Foreign(states[|steps|], p) && states[|steps|].books.done == [p, p + 1]
  {
    states, steps := Enters(p);
    states, steps := Connects(p, states, steps);
    states, steps := Fails(p, states, steps);
  }

  /**
   So mutual exclusion fails on some run: all its steps but one are careful, and that one takes the
   flag on a loop that is not the handle's.
   */
  lemma ExclusionFails() returns (states: seq<Sys>, steps: seq<Step>, k: nat, a: Agent, b: Agent)
    ensures IsRun(states, steps) && states[0] == Init()
    ensures k < |steps| && (forall i :: 0 <= i < |steps| ==> (Owned(states[i], steps[i]) <==> i != k))
    ensures a != b && a in states[|steps|].drivers && b in states[|steps|].drivers
  {
    hide Apply, Inv, Enabled;
    var before, taken := ForeignReached(0);
    k := |taken|;
    RunKeeps(before, taken, k);
    var s := before[k];
    var after, more := TwoDrivers(s, 0);
    states, steps := before[..k] + after, taken + more;
    a, b := App(0, s.attempts[0].home), Event(s.conn.handle.loop);
    Joined(before, taken, after, more);
    assert forall i :: 0 <= i < k ==> states[i] == before[i] && steps[i] == taken[i];
    assert forall i :: k <= i < |steps| ==> states[i] == after[i - k] && steps[i] == more[i - k];
  }

  lemma Joined(before: seq<Sys>, taken: seq<Step>, after: seq<Sys>, more: seq<Step>)
    requires IsRun(before, taken) && IsRun(after, more) && before[|taken|] == after[0]
    ensures IsRun(before[..|taken|] + after, taken + more)
  {
    hide Enabled, Apply;
    var k, states, steps := |taken|, before[..|taken|] + after, taken + more;
    forall i | 0 <= i < |steps| ensures Enabled(states[i], steps[i]) && states[i + 1] == Apply(states[i], steps[i]) {
      if i < k {
        assert states[i] == before[i] && states[i + 1] == before[i + 1] && steps[i] == taken[i];
      } else {
        assert states[i] == after[i - k] && states[i + 1] == after[i - k + 1] && steps[i] == more[i - k];
      }
    }
  }
}
