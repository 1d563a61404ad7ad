/** What a query may be told over its life, as an automaton and as a grammar. */
module DbHistory {
  import opened DatabaseResult
  import opened DbProtocol

  /** `n` result sets are complete; the rows of the next may be under way. */
  datatype Phase = Between(n: nat) | InRows(n: nat) | Finished | Bad

  /** A failure of the whole batch or of the connection. */
  predicate IsError(r: Note) {
    (r.at == ConnDone || r.at == QueryReady || r.at == CloseDone) && r.code != Ok && r.final
  }

  predicate OpensRows(r: Note) {
    r == Note(CheckRset, Ok, false)
  }

  predicate IsRow(r: Note) {
    r.at == RowReady && r.code != EndOfRows && !r.final
  }

  predicate IsEmptySet(r: Note) {
    r.at == CheckRset && r.code == EndOfRows
  }

  function Complete(numRs: nat, n: nat, final: bool): Phase {
    if n + 1 == numRs && final then Finished
    else if n + 1 < numRs && !final then Between(n + 1)
    else Bad
  }

  function Advance(numRs: nat, p: Phase, r: Note): Phase {
    match p
    case Between(n) =>
      if OpensRows(r) then InRows(n)
      else if IsEmptySet(r) then Complete(numRs, n, r.final)
      else if IsError(r) then Finished
      else Bad
    case InRows(n) =>
      if IsRow(r) then p
      else if r.at == FreeDone then Complete(numRs, n, r.final)
      else Bad
    case _ => Bad
  }

  function PhaseOf(numRs: nat, sent: seq<Note>): Phase {
    if sent == [] then Between(0)
    else Advance(numRs, PhaseOf(numRs, sent[..|sent| - 1]), sent[|sent| - 1])
  }

  lemma PhaseSnoc(numRs: nat, sent: seq<Note>, r: Note)
    ensures PhaseOf(numRs, sent + [r]) == Advance(numRs, PhaseOf(numRs, sent), r)
  {
    assert (sent + [r])[..|sent|] == sent;
  }

  /** A note is final exactly when the history it ends is finished. */
  lemma FinalEnds(numRs: nat, sent: seq<Note>)
    requires sent != [] && PhaseOf(numRs, sent) != Bad
    ensures sent[|sent| - 1].final <==> PhaseOf(numRs, sent) == Finished
  {
  }

  /** Nothing that was told before the last note was final. */
  lemma {:induction false} OnlyLastFinal(numRs: nat, sent: seq<Note>, i: nat)
    requires PhaseOf(numRs, sent) != Bad
    requires i < |sent| && sent[i].final
    ensures i == |sent| - 1 && PhaseOf(numRs, sent) == Finished
  {
    var k := |sent| - 1;
    if i < k {
      assert PhaseOf(numRs, sent[..k]) != Bad;
      OnlyLastFinal(numRs, sent[..k], i);
      assert false;
    }
    FinalEnds(numRs, sent);
  }

  // ---- The grammar ----

  /** One result set as the callbacks see it: no rows, or an opening, rows and a release. */
  predicate IsGroup(g: seq<Note>) {
    || (|g| == 1 && IsEmptySet(g[0]))
    || (|g| >= 2 && OpensRows(g[0]) && g[|g| - 1].at == FreeDone && forall i :: 0 < i < |g| - 1 ==> IsRow(g[i]))
  }

  /** A result set whose release has not been told yet. */
  predicate IsOpenGroup(g: seq<Note>) {
    |g| >= 1 && OpensRows(g[0]) && forall i :: 0 < i < |g| ==> IsRow(g[i])
  }

  function Concat(gs: seq<seq<Note>>): seq<Note> {
    if gs == [] then [] else Concat(gs[..|gs| - 1]) + gs[|gs| - 1]
  }

  /** `gs` are complete result sets none of which ends with a final note. */
  predicate Groups(gs: seq<seq<Note>>) {
    forall i :: 0 <= i < |gs| ==> IsGroup(gs[i]) && !gs[i][|gs[i]| - 1].final
  }

  /** The histories of an unfailed query: `numRs` result sets, the last note of the last one final. */
  predicate Served(numRs: nat, sent: seq<Note>, gs: seq<seq<Note>>, last: seq<Note>) {
    && Groups(gs) && IsGroup(last) && last[|last| - 1].final
    && |gs| + 1 == numRs && sent == Concat(gs) + last
  }

  /** The histories of a failed query: fewer than `numRs` result sets, then one error. */
  predicate GaveUp(numRs: nat, sent: seq<Note>, gs: seq<seq<Note>>, last: seq<Note>) {
    Groups(gs) && |gs| < numRs && |last| == 1 && IsError(last[0]) && sent == Concat(gs) + last
  }

  /** The meaning of a phase: how the notes told so far fall into result sets. */
  predicate Parses(numRs: nat, sent: seq<Note>, gs: seq<seq<Note>>, last: seq<Note>) {
    match PhaseOf(numRs, sent)
    case Between(n) => Groups(gs) && |gs| == n < numRs && last == [] && sent == Concat(gs)
    case InRows(n) => Groups(gs) && |gs| == n < numRs && IsOpenGroup(last) && sent == Concat(gs) + last
    case Finished => Served(numRs, sent, gs, last) || GaveUp(numRs, sent, gs, last)
    case Bad => true
  }

  lemma CompletesGroup(numRs: nat, sent: seq<Note>, gs: seq<seq<Note>>, g: seq<Note>)
    returns (hs: seq<seq<Note>>, last: seq<Note>)
    requires Groups(gs) && IsGroup(g)
    requires PhaseOf(numRs, sent) == Complete(numRs, |gs|, g[|g| - 1].final)
    requires sent == Concat(gs) + g
    ensures Parses(numRs, sent, hs, last)
  {
    assert |g| > 0;
    if g[|g| - 1].final {
      hide PhaseOf, IsGroup, Groups;
      hs, last := gs, g;
    } else {
      hide PhaseOf, IsGroup, Concat;
      hs, last := gs + [g], [];
      ConcatSnoc(gs, g);
    }
  }

  lemma ConcatSnoc(gs: seq<seq<Note>>, g: seq<Note>)
    ensures Concat(gs + [g]) == Concat(gs) + g
  {
    assert (gs + [g])[..|gs|] == gs;
  }

  lemma AddNote(numRs: nat, sent: seq<Note>, r: Note, gs: seq<seq<Note>>, last: seq<Note>)
    returns (hs: seq<seq<Note>>, end: seq<Note>)
    requires Parses(numRs, sent, gs, last)
    ensures Parses(numRs, sent + [r], hs, end)
  {
    PhaseSnoc(numRs, sent, r);
    hs, end := gs, last + [r];
    match PhaseOf(numRs, sent)
    case Between(n) =>
      assert last + [r] == [r];
      if IsEmptySet(r) {
        hs, end := CompletesGroup(numRs, sent + [r], gs, [r]);
      }
    case InRows(n) =>
      assert sent + [r] == Concat(gs) + (last + [r]);
      if !IsRow(r) && r.at == FreeDone {
        hs, end := CompletesGroup(numRs, sent + [r], gs, last + [r]);
      }
    case _ =>
  }

  /** Every history in a phase parses as that phase says. */
  lemma {:induction false} PhaseParses(numRs: nat, sent: seq<Note>) returns (gs: seq<seq<Note>>, last: seq<Note>)
    requires numRs > 0
    ensures Parses(numRs, sent, gs, last)
  {
    if sent == [] {
      gs, last := [], [];
    } else {
      var k := |sent| - 1;
      gs, last := PhaseParses(numRs, sent[..k]);
      gs, last := AddNote(numRs, sent[..k], sent[k], gs, last);
      assert sent == sent[..k] + [sent[k]];
    }
  }
}
