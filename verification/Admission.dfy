/** Admission of TCP connections: worker threads share an atomic counter. */
module Admission {
  /** Where a worker thread is in the accept loop. */
  datatype Pc =
    | Idle
    | Granted   // it incremented the counter below the limit
    | Refused   // it incremented the counter at or above the limit
    | NoSocket  // it was granted a place, but no client was waiting

  /** `closing` are sockets whose close callback has yet to decrement the counter. */
  datatype Server = Server(limit: nat, counter: int, open: nat, closing: nat, workers: seq<Pc>)

  datatype Step = Increment(w: nat) | OpenSocket(w: nat) | NoClient(w: nat) | Undo(w: nat) | CloseSocket | Decrement

  function Count(workers: seq<Pc>, pc: Pc): nat {
    if workers == [] then 0
    else Count(workers[..|workers| - 1], pc) + if workers[|workers| - 1] == pc then 1 else 0
  }

  predicate Enabled(s: Server, step: Step) {
    match step
    case Increment(w) => w < |s.workers| && s.workers[w].Idle?
    case OpenSocket(w) => w < |s.workers| && s.workers[w].Granted?
    case NoClient(w) => w < |s.workers| && s.workers[w].Granted?
    case Undo(w) => w < |s.workers| && (s.workers[w].Refused? || s.workers[w].NoSocket?)
    case CloseSocket => s.open > 0
    case Decrement => s.closing > 0
  }

  function Apply(s: Server, step: Step): Server
    requires Enabled(s, step)
  {
    match step
    case Increment(w) =>
      s.(counter := s.counter + 1, workers := s.workers[w := if s.counter >= s.limit then Refused else Granted])
    case OpenSocket(w) => s.(open := s.open + 1, workers := s.workers[w := Idle])
    case NoClient(w) => s.(workers := s.workers[w := NoSocket])
    case Undo(w) => s.(counter := s.counter - 1, workers := s.workers[w := Idle])
    case CloseSocket => s.(open := s.open - 1, closing := s.closing + 1)
    case Decrement => s.(counter := s.counter - 1, closing := s.closing - 1)
  }

  /** Places taken below the limit. */
  function Places(s: Server): nat {
    s.open + s.closing + Count(s.workers, Granted) + Count(s.workers, NoSocket)
  }

  ghost predicate Inv(s: Server) {
    s.counter == Places(s) + Count(s.workers, Refused) && Places(s) <= s.limit
  }

  lemma {:induction false} CountUpdate(workers: seq<Pc>, w: nat, to: Pc, pc: Pc)
    requires w < |workers|
    ensures Count(workers[w := to], pc) + (if workers[w] == pc then 1 else 0)
            == Count(workers, pc) + if to == pc then 1 else 0
  {
    var n := |workers| - 1;
    if w < n {
      CountUpdate(workers[..n], w, to, pc);
      assert workers[w := to][..n] == workers[..n][w := to];
    } else {
      assert workers[w := to][..n] == workers[..n];
    }
  }

  lemma StepKeeps(s: Server, step: Step)
    requires Inv(s) && Enabled(s, step)
    ensures Inv(Apply(s, step))
  {
    hide Count;
    var t := Apply(s, step);
    if !step.CloseSocket? && !step.Decrement? {
      var to := t.workers[step.w];
      CountUpdate(s.workers, step.w, to, Granted);
      CountUpdate(s.workers, step.w, to, Refused);
      CountUpdate(s.workers, step.w, to, NoSocket);
    }
  }

  predicate IsRun(states: seq<Server>, steps: seq<Step>) {
    && |states| == |steps| + 1
    && states[0].counter == 0 && states[0].open == 0 && states[0].closing == 0
    && (forall w :: 0 <= w < |states[0].workers| ==> states[0].workers[w].Idle?)
    && forall i :: 0 <= i < |steps| ==> Enabled(states[i], steps[i]) && states[i + 1] == Apply(states[i], steps[i])
  }

  lemma {:induction false} NobodyYet(workers: seq<Pc>, pc: Pc)
    requires !pc.Idle? && forall w :: 0 <= w < |workers| ==> workers[w].Idle?
    ensures Count(workers, pc) == 0
  {
    if workers != [] { NobodyYet(workers[..|workers| - 1], pc); }
  }

  lemma {:induction false} RunKeeps(states: seq<Server>, steps: seq<Step>, k: nat)
    requires IsRun(states, steps) && k <= |steps|
    ensures Inv(states[k])
  {
    hide Enabled, Apply, Count;
    if k == 0 {
      NobodyYet(states[0].workers, Granted);
      NobodyYet(states[0].workers, Refused);
      NobodyYet(states[0].workers, NoSocket);
    } else {
      RunKeeps(states, steps, k - 1);
      StepKeeps(states[k - 1], steps[k - 1]);
    }
  }

  /** The counter is the sockets plus the increments still to be settled; it may exceed the limit, sockets never do. */
  lemma Admitted(states: seq<Server>, steps: seq<Step>, k: nat)
    requires IsRun(states, steps) && k <= |steps|
    ensures var s := states[k];
            && s.counter == s.open + s.closing
                            + Count(s.workers, Granted) + Count(s.workers, NoSocket) + Count(s.workers, Refused)
            && 0 <= s.counter <= s.limit + |s.workers| && s.open + s.closing <= s.limit
  {
    RunKeeps(states, steps, k);
    CountBound(states[k].workers, Refused);
  }

  /**
   A client is let in exactly while the sockets and the increments still to be settled are fewer than
   the limit; nobody else is affected.
   */
  lemma LetIn(states: seq<Server>, steps: seq<Step>, k: nat)
    requires IsRun(states, steps) && k < |steps| && steps[k].Increment?
    ensures var s, t, w := states[k], states[k + 1], steps[k].w;
            && w < |s.workers| && |t.workers| == |s.workers|
            && (t.workers[w] == Granted <==>
                  s.open + s.closing
                  + Count(s.workers, Granted) + Count(s.workers, NoSocket) + Count(s.workers, Refused) < s.limit)
            && (t.workers[w] == Granted || t.workers[w] == Refused)
            && t.open == s.open && t.closing == s.closing && t.limit == s.limit
            && forall v :: 0 <= v < |s.workers| && v != w ==> t.workers[v] == s.workers[v]
  {
    Admitted(states, steps, k);
  }

  lemma {:induction false} CountBound(workers: seq<Pc>, pc: Pc)
    ensures Count(workers, pc) <= |workers|
  {
    if workers != [] { CountBound(workers[..|workers| - 1], pc); }
  }
}
