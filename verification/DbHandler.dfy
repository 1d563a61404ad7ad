/** The handler as it is executed: a loop over the cases that updates the connection in place. */
module DbHandler {
  import opened DatabaseResult
  import opened DbProtocol
  import opened DbLedger
  import opened DbSafety
  import opened DbTheorems

  datatype Ask = Ask(q: QueryId, numRs: nat)

  /**
   What one round meets: the queries let in before it, the library's answer, the length of a batch,
   and the queries that arrive while the pending ones are failed.
   */
  datatype Turn = Turn(asks: seq<Ask>, answer: Answer, take: nat, late: map<QueryId, nat>)

  /** The queries of a sequence are let in one after the other, unless they are known already. */
  function Admitting(b: Books, asks: seq<Ask>): Books {
    if asks == [] then b
    else
      var c, ask := Admitting(b, asks[..|asks| - 1]), asks[|asks| - 1];
      if ask.q in c.queries || ask.numRs == 0 then c else Submitted(c, ask.q, ask.numRs)
  }

  lemma {:induction false} AdmittingKeeps(st: State, b: Books, asks: seq<Ask>)
    requires Accounts(st, b)
    ensures Accounts(st, Admitting(b, asks)) && Grew(b, Admitting(b, asks))
  {
    hide Ledger, AtRow, AtRows;
    if asks == [] {
      Reflexive(b);
    } else {
      var c, ask := Admitting(b, asks[..|asks| - 1]), asks[|asks| - 1];
      AdmittingKeeps(st, b, asks[..|asks| - 1]);
      if ask.q !in c.queries && ask.numRs > 0 {
        Submits(c, ask.q, ask.numRs, AtRows(st));
        GrewOn(b, c, Submitted(c, ask.q, ask.numRs));
      }
    }
  }

  /** A query that is already known cannot arrive. */
  function NewOnes(b: Books, late: map<QueryId, nat>): (r: map<QueryId, nat>)
    ensures AllNew(b, r) && (AllNew(b, late) ==> r == late)
  {
    map q | q in late && q !in b.queries && late[q] > 0 :: late[q]
  }

  function Turned(b: Books, e: Effect, t: Turn): Books {
    Effected(b, e, t.take, NewOnes(b, t.late))
  }

  /** One round, after the queries let in before it. */
  function TurnOf(c: Conn, b: Books, l: Local, t: Turn): (Next, Books) {
    var d := Admitting(b, t.asks);
    var n := Round(c, ViewOf(d), l, t.answer);
    (n, Turned(d, n.effect, t))
  }

  /** The rounds of one handler call while the turns last. */
  function Rounds(c: Conn, b: Books, l: Local, turns: seq<Turn>): (Conn, Books, Locals)
    decreases |turns|
  {
    if turns == [] then (c, b, Here(l))
    else
      var (n, d) := TurnOf(c, b, l, turns[0]);
      match n.locals
      case Gone => (n.c, d, Gone)
      case Here(k) => Rounds(n.c, d, k, turns[1..])
  }

  class Connection {
    var conn: Conn
    var books: Books

    ghost predicate Valid()
      reads this
    {
      Settled(conn) && Accounts(conn.st, books)
    }

    /**
     Runs the handler for its owner, one round per turn; the call is not over if the turns do not
     suffice. A call that is over has given the flag back or waits
     for an event, and no query has lost a result on the way.
     */
    method Transition(caller: Caller, turns: seq<Turn>) returns (over: bool)
      requires Valid() && conn.flag.Set?
      modifies this
      ensures Valid() && Grew(old(books), books)
      ensures over ==> conn.flag.Clear? || Waits(conn.st)
      ensures conn.flag.Clear? ==> over && conn.watch.Unarmed?
      ensures var r := Rounds(old(conn), old(books), Local(Ok, caller, Running), turns);
              conn == r.0 && books == r.1 && over == r.2.Gone?
    {
      hide Accounts, TurnOf, Rounds, Grew;
      var l := Local(Ok, caller, Running);
      var i := 0;
      over := false;
      assert turns[0..] == turns;
      Reflexive(books);
      while !over && i < |turns|
        invariant i <= |turns| && Valid() && Grew(old(books), books)
        invariant if over then conn.flag.Set? ==> Waits(conn.st) else conn.flag.Set?
        invariant l.settle.Arming? && !over ==> Awaited(conn.st, l.settle.to)
        invariant Rounds(old(conn), old(books), Local(Ok, caller, Running), turns)
                  == if over then (conn, books, Gone) else Rounds(conn, books, l, turns[i..])
        decreases |turns| - i, !over
      {
        var (n, d) := TurnOf(conn, books, l, turns[i]);
        TurnKept(conn, books, l, turns[i]);
        Unroll(conn, books, l, turns[i..]);
        GrewOn(old(books), books, d);
        assert turns[i..][1..] == turns[i + 1..];
        conn, books := n.c, d;
        match n.locals {
          case Gone => over := true;
          case Here(k) => l := k;
        }
        i := i + 1;
      }
      if !over { Unroll(conn, books, l, turns[i..]); }
    }
  }

  lemma Reflexive(b: Books)
    ensures Grew(b, b)
  {
  }

  lemma GrewOn(a: Books, b: Books, c: Books)
    requires Grew(a, b) && Grew(b, c)
    ensures Grew(a, c)
  {
  }

  lemma Unroll(c: Conn, b: Books, l: Local, turns: seq<Turn>)
    ensures turns == [] ==> Rounds(c, b, l, turns) == (c, b, Here(l))
    ensures turns != [] ==>
              var (n, d) := TurnOf(c, b, l, turns[0]);
              Rounds(c, b, l, turns)
                == match n.locals case Gone => (n.c, d, Gone) case Here(k) => Rounds(n.c, d, k, turns[1..])
  {
    hide TurnOf;
  }

  predicate Kept(n: Next) {
    match n.locals
    case Gone => n.c.flag.Set? ==> Waits(n.c.st)
    case Here(k) => n.c.flag.Set? && (k.settle.Arming? ==> Awaited(n.c.st, k.settle.to))
  }

  lemma RoundKept(c: Conn, b: Books, l: Local, t: Turn)
    requires Accounts(c.st, b) && c.flag.Set? && Settled(c) && (l.settle.Arming? ==> Awaited(c.st, l.settle.to))
    ensures var n := Round(c, ViewOf(b), l, t.answer);
            var d := Turned(b, n.effect, t);
            Accounts(n.c.st, d) && Settled(n.c) && Grew(b, d) && Kept(n)
  {
    hide Ledger, Round, Effected, Settled, Awaited, Waits, AtRow, AtRows, Fits, NewOnes, AllNew;
    RoundLawful(c, ViewOf(b), l, t.answer);
    var n := Round(c, ViewOf(b), l, t.answer);
    EffectAccounts(c.st, b, n, t.take, NewOnes(b, t.late));
    EffectGrows(b, n.effect, t.take, NewOnes(b, t.late));
  }

  lemma TurnKept(c: Conn, b: Books, l: Local, t: Turn)
    requires Accounts(c.st, b) && c.flag.Set? && Settled(c) && (l.settle.Arming? ==> Awaited(c.st, l.settle.to))
    ensures var (n, d) := TurnOf(c, b, l, t); Accounts(n.c.st, d) && Settled(n.c) && Grew(b, d) && Kept(n)
  {
    hide Accounts, Settled, Awaited, Round, Turned, Grew, Kept, Admitting, ViewOf;
    AdmittingKeeps(c.st, b, t.asks);
    var m := Admitting(b, t.asks);
    RoundKept(c, m, l, t);
    GrewOn(b, m, TurnOf(c, b, l, t).1);
  }
}
