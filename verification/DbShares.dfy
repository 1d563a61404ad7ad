/** Which of the result sets are whose. */
module DbShares {
  import opened DbProtocol
  import opened DbHistory
  import opened DbLedger
  import opened DbSafety
  import opened DbTheorems
  import opened DbScript
  import opened DbDelivery
  import opened DbResultSets
  import opened Sequences

  /** A note that ends a result set. */
  predicate IsEnd(n: Note) {
    n.at.FreeDone? || (n.at.CheckRset? && n.code.EndOfRows?)
  }

  function Ends(notes: seq<Note>): nat {
    if notes == [] then 0 else Ends(notes[..|notes| - 1]) + if IsEnd(notes[|notes| - 1]) then 1 else 0
  }

  lemma EndsSnoc(notes: seq<Note>, n: Note)
    ensures Ends(notes + [n]) == Ends(notes) + if IsEnd(n) then 1 else 0
  {
    assert (notes + [n])[..|notes|] == notes;
  }

  lemma {:induction false} EndsConcat(a: seq<Note>, b: seq<Note>)
    ensures Ends(a + b) == Ends(a) + Ends(b)
  {
    if b == [] {
      assert a + b == a;
    } else {
      hide Ends;
      var n := |b| - 1;
      EndsConcat(a, b[..n]);
      EndsSnoc(a + b[..n], b[n]);
      EndsSnoc(b[..n], b[n]);
      assert a + b[..n] + [b[n]] == a + b && b[..n] + [b[n]] == b;
    }
  }

  lemma {:induction false} NoEnds(notes: seq<Note>)
    requires forall i :: 0 <= i < |notes| ==> !IsEnd(notes[i])
    ensures Ends(notes) == 0
  {
    if notes != [] { NoEnds(notes[..|notes| - 1]); }
  }

  /** Only the last of the notes ends a result set. */
  predicate EndsOnce(notes: seq<Note>) {
    notes != [] && IsEnd(notes[|notes| - 1]) && forall i :: 0 <= i < |notes| - 1 ==> !IsEnd(notes[i])
  }

  lemma OneEnd(notes: seq<Note>)
    requires EndsOnce(notes)
    ensures Ends(notes) == 1
    ensures forall p :: p <= notes && p != notes ==> Ends(p) == 0
  {
    var n := |notes| - 1;
    NoEnds(notes[..n]);
    forall p | p <= notes && p != notes ensures Ends(p) == 0 {
      assert p == notes[..|p|];
      NoEnds(p);
    }
  }

  lemma SetEndsOnce(rs: ResultSet)
    ensures EndsOnce(SetNotes(rs))
  {
  }

  /** Notes that end as many result sets as `r`, and end with one, are those of the first `r` result sets. */
  lemma {:induction false} CutAtEnd(sets: seq<ResultSet>, p: seq<Note>, r: nat)
    requires p <= SetsNotes(sets) && p != [] && IsEnd(p[|p| - 1]) && Ends(p) == r
    ensures 0 < r <= |sets| && p == SetsNotes(sets[..r])
  {
    hide SetNotes, Ends, IsEnd, EndsOnce;
    var first, more := SetNotes(sets[0]), SetsNotes(sets[1..]);
    SetEndsOnce(sets[0]);
    OneEnd(first);
    LastEnd(p);
    if |p| <= |first| {
      assert p <= first;
      OneSet(sets);
    } else {
      var q := p[|first|..];
      assert p == first + q && q <= more;
      EndsConcat(first, q);
      CutAtEnd(sets[1..], q, r - 1);
      FirstSet(sets, r);
    }
  }

  lemma OneSet(sets: seq<ResultSet>)
    requires sets != []
    ensures SetsNotes(sets[..1]) == SetNotes(sets[0])
  {
    assert sets[..1][1..] == [];
  }

  lemma FirstSet(sets: seq<ResultSet>, r: nat)
    requires 0 < r <= |sets|
    ensures SetsNotes(sets[..r]) == SetNotes(sets[0]) + SetsNotes(sets[1..][..r - 1])
  {
    assert sets[..r][0] == sets[0] && sets[..r][1..] == sets[1..][..r - 1];
  }

  lemma LastEnd(p: seq<Note>)
    requires p != [] && IsEnd(p[|p| - 1])
    ensures Ends(p) > 0
  {
  }

  // ---- The histories of served queries ----

  lemma PlainConcat(a: seq<Note>, b: seq<Note>)
    ensures Plain(a + b) == Plain(a) + Plain(b)
  {
  }

  lemma GroupEndsOnce(g: seq<Note>)
    requires IsGroup(g)
    ensures EndsOnce(Plain(g))
  {
  }

  lemma {:induction false} GroupsEnds(gs: seq<seq<Note>>)
    requires Groups(gs)
    ensures Ends(Plain(Concat(gs))) == |gs|
  {
    if gs != [] {
      var n := |gs| - 1;
      GroupsEnds(gs[..n]);
      GroupEndsOnce(gs[n]);
      OneEnd(Plain(gs[n]));
      PlainConcat(Concat(gs[..n]), gs[n]);
      hide Ends, Plain;
      EndsConcat(Plain(Concat(gs[..n])), Plain(gs[n]));
    }
  }

  lemma ServedEnds(numRs: nat, sent: seq<Note>, gs: seq<seq<Note>>, last: seq<Note>)
    requires Served(numRs, sent, gs, last)
    ensures Ends(Plain(sent)) == numRs && sent != [] && IsEnd(Plain(sent)[|sent| - 1])
  {
    hide Ends, Concat, IsGroup;
    GroupsEnds(gs);
    GroupEndsOnce(last);
    OneEnd(Plain(last));
    PlainConcat(Concat(gs), last);
    EndsConcat(Plain(Concat(gs)), Plain(last));
    assert Plain(sent)[|sent| - 1] == Plain(last)[|last| - 1];
  }

  // ---- Shares ----

  /** The number of result sets that the queries declared. */
  function Declared(b: Books, qs: seq<QueryId>): nat {
    if qs == [] then 0
    else
      var n := |qs| - 1;
      Declared(b, qs[..n]) + if qs[n] in b.queries then b.queries[qs[n]].numRs else 0
  }

  /** What the query was told ends as many result sets as it declared, the last with its last note. */
  predicate Whole(x: Query) {
    x.sent != [] && Ends(Plain(x.sent)) == x.numRs && IsEnd(Plain(x.sent)[|x.sent| - 1])
  }

  lemma {:induction false} SetsNotesConcat(a: seq<ResultSet>, b: seq<ResultSet>)
    ensures SetsNotes(a + b) == SetsNotes(a) + SetsNotes(b)
  {
    hide SetNotes;
    if a == [] {
      assert a + b == b;
    } else {
      SetsNotesConcat(a[1..], b);
      assert (a + b)[0] == a[0] && (a + b)[1..] == a[1..] + b;
      Associates(SetNotes(a[0]), SetsNotes(a[1..]), SetsNotes(b));
    }
  }

  lemma StoryPrefix(b: Books, qs: seq<QueryId>, x: nat)
    requires x < |qs| && qs[x] in b.queries
    ensures Story(b, qs[..x]) + Plain(b.queries[qs[x]].sent) <= Story(b, qs)
    ensures Story(b, qs[..x + 1]) == Story(b, qs[..x]) + Plain(b.queries[qs[x]].sent)
  {
    hide Story, Plain;
    assert qs[..x + 1] == qs[..x] + [qs[x]] && qs == qs[..x + 1] + qs[x + 1..];
    ToldSnoc(b, qs[..x], qs[x]);
    ToldConcat(b, qs[..x + 1], qs[x + 1..]);
  }

  lemma DeclaredNext(b: Books, qs: seq<QueryId>, x: nat)
    requires x < |qs| && qs[x] in b.queries
    ensures Declared(b, qs[..x + 1]) == Declared(b, qs[..x]) + b.queries[qs[x]].numRs
  {
    assert qs[..x + 1][..x] == qs[..x];
  }

  lemma NextShare(sets: seq<ResultSet>, lo: nat, p: seq<Note>, r: nat)
    requires lo <= |sets| && SetsNotes(sets[..lo]) + p <= SetsNotes(sets)
    requires p != [] && IsEnd(p[|p| - 1]) && Ends(p) == r
    ensures lo + r <= |sets| && p == SetsNotes(sets[lo..lo + r])
    ensures SetsNotes(sets[..lo + r]) == SetsNotes(sets[..lo]) + p
  {
    hide SetsNotes, Ends, IsEnd;
    assert p <= SetsNotes(sets[lo..]) by { AfterFirst(sets, lo, p); }
    CutAtEnd(sets[lo..], p, r);
    UpTo(sets, lo, lo + r);
  }

  lemma AfterFirst(sets: seq<ResultSet>, lo: nat, p: seq<Note>)
    requires lo <= |sets| && SetsNotes(sets[..lo]) + p <= SetsNotes(sets)
    ensures p <= SetsNotes(sets[lo..])
  {
    hide SetsNotes;
    assert sets == sets[..lo] + sets[lo..];
    SetsNotesConcat(sets[..lo], sets[lo..]);
    SamePrefix(SetsNotes(sets[..lo]), p, SetsNotes(sets[lo..]));
  }

  lemma UpTo(sets: seq<ResultSet>, lo: nat, hi: nat)
    requires lo <= hi <= |sets|
    ensures sets[lo..][..hi - lo] == sets[lo..hi]
    ensures SetsNotes(sets[..hi]) == SetsNotes(sets[..lo]) + SetsNotes(sets[lo..hi])
  {
    hide SetsNotes;
    assert sets[..hi] == sets[..lo] + sets[lo..hi];
    SetsNotesConcat(sets[..lo], sets[lo..hi]);
  }

  /** What follows the queries told of the first `lo` result sets is told of the next ones. */
  lemma ShareStep(b: Books, qs: seq<QueryId>, sets: seq<ResultSet>, x: nat, lo: nat)
    requires Story(b, qs) == SetsNotes(sets) && x < |qs| && qs[x] in b.queries && Whole(b.queries[qs[x]])
    requires lo <= |sets| && Story(b, qs[..x]) == SetsNotes(sets[..lo])
    ensures var hi := lo + b.queries[qs[x]].numRs;
            && hi <= |sets| && Plain(b.queries[qs[x]].sent) == SetsNotes(sets[lo..hi])
            && Story(b, qs[..x + 1]) == SetsNotes(sets[..hi])
  {
    hide Story, SetsNotes, Plain, Ends, IsEnd;
    StoryPrefix(b, qs, x);
    NextShare(sets, lo, Plain(b.queries[qs[x]].sent), b.queries[qs[x]].numRs);
  }

  predicate AllWhole(b: Books, qs: seq<QueryId>) {
    forall q :: q in qs ==> q in b.queries && Whole(b.queries[q])
  }

  lemma NoShares(b: Books, qs: seq<QueryId>, sets: seq<ResultSet>)
    ensures Declared(b, qs[..0]) == 0 && Story(b, qs[..0]) == SetsNotes(sets[..0])
  {
  }

  /** If the queries are whole, each was told its own result sets, in the order of the queries. */
  lemma {:induction false} Shares(b: Books, qs: seq<QueryId>, sets: seq<ResultSet>, x: nat)
    requires Story(b, qs) == SetsNotes(sets) && x <= |qs| && AllWhole(b, qs)
    ensures Declared(b, qs[..x]) <= |sets| && Story(b, qs[..x]) == SetsNotes(sets[..Declared(b, qs[..x])])
  {
    hide Story, SetsNotes, Plain, Declared, Whole;
    if x == 0 {
      NoShares(b, qs, sets);
    } else {
      assert qs[x - 1] in qs;
      Shares(b, qs, sets, x - 1);
      DeclaredNext(b, qs, x - 1);
      ShareStep(b, qs, sets, x - 1, Declared(b, qs[..x - 1]));
    }
  }

  lemma SamePrefix(a: seq<Note>, b: seq<Note>, c: seq<Note>)
    requires a + b <= a + c
    ensures b <= c
  {
    assert forall i :: 0 <= i < |b| ==> b[i] == (a + b)[|a| + i] == (a + c)[|a| + i] == c[i];
  }

  // ---- Every query of the batch was told its share ----

  /** The notes of result sets are no errors. */
  lemma {:induction false} SetsNoErrors(sets: seq<ResultSet>)
    ensures forall n :: n in SetsNotes(sets) ==> n.at.CheckRset? || n.at.RowReady? || n.at.FreeDone?
  {
    if sets != [] {
      SetNoErrors(sets[0]);
      hide SetNotes;
      SetsNoErrors(sets[1..]);
    }
  }

  lemma SetNoErrors(rs: ResultSet)
    ensures forall n :: n in SetNotes(rs) ==> n.at.CheckRset? || n.at.RowReady? || n.at.FreeDone?
  {
  }

  lemma ToldOfSets(x: Query, gs: seq<seq<Note>>, last: seq<Note>)
    requires Served(x.numRs, x.sent, gs, last) || GaveUp(x.numRs, x.sent, gs, last)
    requires forall n :: n in Plain(x.sent) ==> n.at.CheckRset? || n.at.RowReady? || n.at.FreeDone?
    ensures Whole(x)
  {
    hide Ends, IsEnd, Concat, Groups;
    assert x.sent != [] && Plain(x.sent)[|x.sent| - 1] in Plain(x.sent);
    if Served(x.numRs, x.sent, gs, last) { ServedEnds(x.numRs, x.sent, gs, last); }
  }

  lemma InStory(b: Books, qs: seq<QueryId>, q: QueryId, n: Note)
    requires q in qs && q in b.queries && n in Plain(b.queries[q].sent)
    ensures n in Story(b, qs)
  {
    hide Story, Plain;
    var x :| 0 <= x < |qs| && qs[x] == q;
    StoryPrefix(b, qs, x);
    var p := Story(b, qs[..x]) + Plain(b.queries[q].sent);
    assert n in p;
    assert p <= Story(b, qs);
  }

  /** No step changes how many result sets a query declared. */
  predicate SameSizes(b: Books, c: Books) {
    forall q :: q in b.queries ==> q in c.queries && b.queries[q].numRs == c.queries[q].numRs
  }

  lemma AllFailSizes(b: Books, n: Note, late: map<QueryId, nat>)
    requires AllNew(b, late)
    ensures SameSizes(b, FailPending(FailProcessing(b, n), n, late))
  {
    var c := FailProcessing(b, n);
    assert SameSizes(b, c) && AllNew(c, late);
    assert SameSizes(c, FailPending(c, n, late));
  }

  lemma EffectSizes(b: Books, e: Effect, take: nat, late: map<QueryId, nat>)
    requires AllNew(b, late)
    ensures SameSizes(b, Effected(b, e, take, late))
  {
    hide FailPending, AllNew, FormBatch;
    match e
    case FailAll(n) => AllFailSizes(b, n, late);
    case Form => SameQueries(b, take);
    case _ =>
  }

  lemma StepSizes(s: Sys, step: Step)
    requires Enabled(s, step)
    ensures SameSizes(s.books, Apply(s, step).books)
  {
    match step
    case Pass(agent, a, take, late) =>
      hide Effected, Round, RowThere, AllNew;
      EffectSizes(s.books, Round(s.conn, ViewOf(s.books), s.drivers[agent], a).effect, take, late);
    case _ =>
  }

  lemma {:induction false} RunSizes(states: seq<Sys>, steps: seq<Step>, i: nat, j: nat)
    requires IsRun(states, steps) && i <= j <= |steps|
    ensures SameSizes(states[i].books, states[j].books)
    decreases j
  {
    hide Enabled, Apply;
    if i < j {
      RunSizes(states, steps, i, j - 1);
      StepSizes(states[j - 1], steps[j - 1]);
    }
  }

  lemma {:induction false} DeclaredSame(b: Books, c: Books, qs: seq<QueryId>)
    requires SameSizes(b, c) && forall q :: q in qs ==> q in b.queries
    ensures Declared(b, qs) == Declared(c, qs)
  {
    if qs != [] {
      var n := |qs| - 1;
      assert qs[n] in qs;
      DeclaredSame(b, c, qs[..n]);
    }
  }

  /** When the batch is over, each of its queries is whole. */
  lemma BatchWhole(states: seq<Sys>, steps: seq<Step>, j: nat, batch: seq<QueryId>, sets: seq<ResultSet>)
    requires Careful(states, steps) && j <= |steps| && Story(states[j].books, batch) == SetsNotes(sets)
    requires forall q :: q in batch ==> q in states[j].books.done
    ensures AllWhole(states[j].books, batch)
  {
    hide Enabled, Apply, Story, SetsNotes, Plain, Served, GaveUp, Groups, IsOpenGroup, Concat, Whole;
    var b := states[j].books;
    SetsNoErrors(sets);
    forall q | q in batch ensures q in b.queries && Whole(b.queries[q]) {
      NothingAfterFinal(states, steps, j, j, q);
      var gs, last := Results(states, steps, j, q);
      forall n | n in Plain(b.queries[q].sent) ensures n in Story(b, batch) {
        InStory(b, batch, q, n);
      }
      ToldOfSets(b.queries[q], gs, last);
    }
  }

  lemma BatchOver(states: seq<Sys>, steps: seq<Step>, j: nat, before: seq<QueryId>, batch: seq<QueryId>)
    requires Careful(states, steps) && j <= |steps|
    requires Batched(states[j].books, before, batch) && states[j].books.owed <= 0
    ensures forall q :: q in batch ==> q in states[j].books.done
  {
    RunKeeps(states, steps, j);
    hide IsRun, Ledger, AtRows;
    var b := states[j].books;
    OwedIff(b, AtRows(states[j].conn.st));
    assert b.done + b.processing == b.done;
  }

  /**
   A server that returns the result sets that a batch was owed, and perhaps more, has each query told
   of those that are its own: as many as it declared, behind those that the queries before it declared.
   */
  lemma OwnResultSets(states: seq<Sys>, steps: seq<Step>, i: nat, m: nat, k: nat, sets: seq<ResultSet>, x: nat)
    requires Careful(states, steps) && i < m <= k <= |steps| && Sends(states[i], steps[i])
    requires sets != [] && states[i + 1].books.owed <= |sets| && x < |states[i + 1].books.processing|
    requires Answered(states, steps, i, m, TheScript(states[i + 1], sets))
    requires |Reported(states, steps, i, m)| >= |TheScript(states[i + 1], sets)|
    ensures var b, c := states[i + 1].books, states[k].books;
            var q, lo := b.processing[x], Declared(b, b.processing[..x]);
            && q in b.queries && q in c.queries && q in c.done && lo + b.queries[q].numRs <= |sets|
            && Plain(c.queries[q].sent) == SetsNotes(sets[lo..lo + b.queries[q].numRs])
  {
    hide Enabled, Apply, Inv, Story, SetsNotes, Plain, Whole, Declared, Answered, Reported, TheScript, Sends;
    var b, batch := states[i + 1].books, states[i + 1].books.processing;
    var j := SetsDelivered(states, steps, i, m, sets);
    var own := Owed(sets, b.owed);
    BatchOver(states, steps, j, b.done, batch);
    BatchWhole(states, steps, j, batch, own);
    Shares(states[j].books, batch, own, x);
    assert batch[x] in batch;
    ShareStep(states[j].books, batch, own, x, Declared(states[j].books, batch[..x]));
    BatchKnown(states, steps, i + 1);
    RunSizes(states, steps, i + 1, j);
    DeclaredSame(b, states[j].books, batch[..x]);
    OwedAt(sets, b.owed, Declared(b, batch[..x]), Declared(b, batch[..x]) + b.queries[batch[x]].numRs);
    NothingAfterFinal(states, steps, j, k, batch[x]);
  }

  lemma OwedAt(sets: seq<ResultSet>, owed: int, lo: nat, hi: nat)
    requires lo <= hi <= |Owed(sets, owed)|
    ensures hi <= |sets| && Owed(sets, owed)[lo..hi] == sets[lo..hi]
  {
  }

  lemma BatchKnown(states: seq<Sys>, steps: seq<Step>, k: nat)
    requires Careful(states, steps) && k <= |steps|
    ensures forall q :: q in states[k].books.processing ==> q in states[k].books.queries
  {
    RunKeeps(states, steps, k);
    hide IsRun, Over, Current, Delivered, Owes, Untouched, Exclusive, Settled;
    WhereQueries(states[k].books);
  }
}
