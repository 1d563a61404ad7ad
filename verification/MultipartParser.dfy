/** The resumable multipart parser: a loop over a buffer, a resume mark and a lookbehind buffer. */
module MultipartParser {
  import opened Bytes
  import opened MultipartAutomaton
  import opened MultipartNames

  /** How a call ended: all bytes taken, a byte refused, or a callback asked to stop. */
  datatype Outcome = Consumed | Rejected | Aborted

  /** What the loop does after a byte. */
  datatype Move = Next | Reread | Refuse | Halt

  /** The states in which bytes pile up between `mark` and the current position. */
  predicate Collects(state: State) {
    state.HeaderFieldProceed? || state.HeaderValueProceed? || state.PartDataProceed?
  }

  function DataEvent(state: State, data: seq<Byte>): Event
    requires Collects(state)
  {
    match state
    case HeaderFieldProceed => HeaderField(data)
    case HeaderValueProceed => HeaderValue(data)
    case PartDataProceed => PartData(data)
  }

  /** The callbacks made so far, completed by the bytes no callback has received yet. */
  function Completed(events: seq<Event>, state: State, data: seq<Byte>): seq<Event> {
    if Collects(state) && data != [] then events + [DataEvent(state, data)] else events
  }

  /** The bytes of this call that are waiting to be handed over when byte `i` is next. */
  function Unsent(state: State, buf: seq<Byte>, mark: nat, i: nat): seq<Byte> {
    if Collects(state) && mark <= i < |buf| then buf[mark..i] else []
  }

  lemma CompleteMore(events: seq<Event>, state: State, data: seq<Byte>, more: seq<Byte>)
    requires Collects(state)
    ensures SameAll(Completed(events, state, data) + [DataEvent(state, more)],
                    events + [DataEvent(state, data + more)])
  {
    if data == [] {
      assert data + more == more;
    } else {
      SameJoin(true, events, DataEvent(state, data), DataEvent(state, more));
      SameJoin(false, events, DataEvent(state, data), DataEvent(state, more));
    }
  }

  /** Handing the waiting bytes over, or letting one more wait, is what the automaton emits byte by byte. */
  lemma HandOver(events: seq<Event>, state: State, buf: seq<Byte>, mark: nat, i: nat)
    requires Collects(state) && mark <= i < |buf|
    ensures SameAll(Completed(events, state, buf[mark..i]) + [DataEvent(state, [])],
                    events + [DataEvent(state, buf[mark..i])])
    ensures SameAll(Completed(events, state, buf[mark..i]) + [DataEvent(state, [buf[i]])],
                    events + [DataEvent(state, buf[mark..i + 1])])
  {
    assert buf[mark..i] + [] == buf[mark..i];
    assert buf[mark..i] + [buf[i]] == buf[mark..i + 1];
    CompleteMore(events, state, buf[mark..i], []);
    CompleteMore(events, state, buf[mark..i], [buf[i]]);
  }

  /** It makes no difference how much of a dropped name was reported. */
  lemma NameUnheard(events: seq<Event>, buf: seq<Byte>, mark: nat, i: nat)
    requires mark <= i < |buf|
    ensures var t := Completed(events, HeaderFieldProceed, buf[mark..i]) + [NameDropped];
            && Same(false, t, events + [NameDropped])
            && Same(false, t, events + [HeaderField(buf[mark..i + 1])] + [NameDropped])
  {
    hide Norm;
    SameForget(events, HeaderField(buf[mark..i]));
    SameForget(events, HeaderField(buf[mark..i + 1]));
  }

  /** The callbacks among the first `n` events returned zero. */
  ghost predicate Unvetoed(veto: seq<Event> -> bool, events: seq<Event>, n: int) {
    forall k :: 0 < k <= n <= |events| && !events[k - 1].NameDropped? ==> !veto(events[..k])
  }

  /** The last callback, and no earlier one, asked to stop. */
  ghost predicate FirstVeto(veto: seq<Event> -> bool, events: seq<Event>) {
    |events| > 0 && veto(events) && Unvetoed(veto, events, |events| - 1)
  }

  ghost predicate Heeded(veto: seq<Event> -> bool, events: seq<Event>, halted: bool) {
    if halted then FirstVeto(veto, events) else Unvetoed(veto, events, |events|)
  }

  /** Invokes one callback. */
  method Raise(events: seq<Event>, e: Event, veto: seq<Event> -> bool) returns (events': seq<Event>, halt: bool)
    requires Unvetoed(veto, events, |events|)
    ensures events' == events + [e]
    ensures Heeded(veto, events', halt)
  {
    events' := events + [e];
    halt := veto(events');
    assert forall k :: 0 < k <= |events| ==> events'[..k] == events[..k] && events'[k - 1] == events[k - 1];
    assert events'[..|events'|] == events';
  }

  /** Notes, without a callback, that the name being read is given up. */
  method Drop(events: seq<Event>, veto: seq<Event> -> bool) returns (events': seq<Event>)
    requires Unvetoed(veto, events, |events|)
    ensures events' == events + [NameDropped] && Unvetoed(veto, events', |events'|)
  {
    events' := events + [NameDropped];
    assert forall k :: 0 < k <= |events| ==> events'[..k] == events[..k] && events'[k - 1] == events[k - 1];
  }

  /**
   One pass of the loop against the automaton's step on the same byte: `before` and `after`
   are the completed traces around the pass, `rest` is what a halted pass did not send.
   */
  ghost predicate Simulates(boundary: seq<Byte>, cur: Core, c: Byte, move: Move, core: Core,
                            before: seq<Event>, after: seq<Event>, rest: seq<Event>)
    requires Reachable(boundary, cur)
  {
    var t := Step(boundary, cur, c);
    match move
    case Next =>
      && t.ok && core == t.core
      && Same(false, before + t.out, after) && (!CutsName(cur, c) ==> Same(true, before + t.out, after))
    case Refuse =>
      !t.ok && core == t.core && Same(false, before + t.out, after)
    case Halt =>
      Same(false, before + t.out, after + rest)
    case Reread =>
      && HeldLen(cur) > 0 && core == Core(PartDataProceed, cur.index)
      && t == Prepend([PartData(Held(boundary, cur))], Step(boundary, core, c))
      && after == before + [PartData(Held(boundary, cur))]
  }

  /**
   The loop before byte `i`: its state and completed trace are those of the automaton after
   `buf[..i]`, up to the held bytes `pre` that a mismatch has already handed over.
   */
  ghost predicate Synced(boundary: seq<Byte>, start: Core, buf: seq<Byte>, i: nat,
                         cur: Core, mark: nat, events: seq<Event>, pre: seq<Event>)
    requires Reachable(boundary, start) && Reachable(boundary, cur)
  {
    && mark <= i <= |buf|
    && var r := Feed(boundary, start, buf[..i]);
    && r.ok
    && var trace := Completed(events, cur.state, Unsent(cur.state, buf, mark, i));
    && Same(false, trace, r.out + pre)
    && (!r.cut ==> Same(true, trace, r.out + pre))
    && (if pre == [] then cur == r.core
        else i < |buf| && cur.state.PartDataProceed? && !CutsName(r.core, buf[i]) &&
             Step(boundary, r.core, buf[i]) == Prepend(pre, Step(boundary, cur, buf[i])))
  }

  /** The loop before byte `i`, as to the bytes of field names it has reported, holds back or lost. */
  ghost predicate Tally(boundary: seq<Byte>, start: Core, buf: seq<Byte>, i: nat, cur: Core, mark: nat,
                        events: seq<Event>)
    requires Reachable(boundary, start) && i <= |buf|
  {
    && NameBytes(Completed(events, cur.state, Unsent(cur.state, buf, mark, i))) + LostNames(boundary, start, buf[..i])
       == NameBytes(Feed(boundary, start, buf[..i]).out)
    && (cur.state.HeaderFieldProceed? && i < |buf| ==> mark + NameRun(boundary, start, buf[..i]) == i)
  }

  lemma TallyStart(boundary: seq<Byte>, start: Core, buf: seq<Byte>)
    requires Reachable(boundary, start)
    ensures Tally(boundary, start, buf, 0, start, 0, []) && NameBytes([]) == 0
  {
    assert buf[..0] == [];
  }

  lemma NameUnsent(events: seq<Event>, data: seq<Byte>)
    ensures NameBytes(Completed(events, HeaderFieldProceed, data)) == NameBytes(events) + |data|
  {
    NameSnoc(events, HeaderField(data));
  }

  /** A pass that makes the automaton's callbacks keeps the tally. */
  lemma TallyKept(boundary: seq<Byte>, start: Core, buf: seq<Byte>, i: nat, before: seq<Event>, after: seq<Event>,
                  out: seq<Event>, pre: seq<Event>)
    requires Reachable(boundary, start) && i < |buf| && Same(true, before + out, after) && NameBytes(pre) == 0
    requires var r := Feed(boundary, start, buf[..i]);
             && r.ok && !CutsName(r.core, buf[i]) && Step(boundary, r.core, buf[i]).out == pre + out
             && NameBytes(before) + LostNames(boundary, start, buf[..i]) == NameBytes(r.out)
    ensures NameBytes(after) + LostNames(boundary, start, buf[..i + 1])
              == NameBytes(Feed(boundary, start, buf[..i + 1]).out)
  {
    hide Norm, Step, Feed, LostNames;
    FeedUpTo(boundary, start, buf, i);
    assert buf[..i + 1] == buf[..i] + [buf[i]];
    RunSnoc(boundary, start, buf[..i], buf[i]);
    NameSame(before + out, after);
    NameConcat(before, out);
    NameConcat(pre, out);
    NameConcat(Feed(boundary, start, buf[..i]).out, pre + out);
  }

  /** A name that a CR cuts short is dropped as far as it is held back. */
  lemma TallyCut(boundary: seq<Byte>, start: Core, buf: seq<Byte>, i: nat, cur: Core, mark: nat, events: seq<Event>)
    requires Reachable(boundary, start) && i < |buf| && CutsName(cur, buf[i])
             && Tally(boundary, start, buf, i, cur, mark, events)
    requires var r := Feed(boundary, start, buf[..i]); r.ok && r.core == cur
    ensures NameBytes(events + [NameDropped]) + LostNames(boundary, start, buf[..i + 1])
              == NameBytes(Feed(boundary, start, buf[..i + 1]).out)
  {
    hide Norm, Feed, LostNames, NameRun, NameBytes, Completed;
    FeedUpTo(boundary, start, buf, i);
    assert buf[..i + 1] == buf[..i] + [buf[i]];
    RunSnoc(boundary, start, buf[..i], buf[i]);
    NameUnsent(events, buf[mark..i]);
    NameSnoc(events, NameDropped);
    NameSnoc(Feed(boundary, start, buf[..i]).out, NameDropped);
  }

  lemma ProceedsFrom(boundary: seq<Byte>, core: Core, c: Byte)
    requires Reachable(boundary, core) && Step(boundary, core, c).core.state.HeaderFieldProceed?
             && Step(boundary, core, c).ok
    ensures core.state.HeaderFieldStart? || core.state.HeaderFieldProceed?
  {
  }

  lemma TallyNext(boundary: seq<Byte>, start: Core, buf: seq<Byte>, i: nat, cur: Core, mark: nat,
                  events: seq<Event>, pre: seq<Event>, cur': Core, mark': nat, events': seq<Event>, rest: seq<Event>)
    requires Reachable(boundary, start) && Reachable(boundary, cur) && Reachable(boundary, cur')
    requires Synced(boundary, start, buf, i, cur, mark, events, pre) && i < |buf| && mark' <= i && NameBytes(pre) == 0
    requires Tally(boundary, start, buf, i, cur, mark, events)
    requires Simulates(boundary, cur, buf[i], Next, cur', Completed(events, cur.state, Unsent(cur.state, buf, mark, i)),
                       Completed(events', cur'.state, Unsent(cur'.state, buf, mark', i + 1)), rest)
    requires CutsName(cur, buf[i]) ==> events' == events + [NameDropped]
    requires (cur.state.HeaderFieldStart? || cur.state.HeaderFieldProceed?) && cur'.state.HeaderFieldProceed? ==>
               mark' == if cur.state.HeaderFieldProceed? then mark else i
    ensures Tally(boundary, start, buf, i + 1, cur', mark', events')
  {
    hide Norm, Feed, LostNames, NameRun, NameBytes, Completed, Unsent;
    var r, t := Feed(boundary, start, buf[..i]), Step(boundary, cur, buf[i]);
    FeedUpTo(boundary, start, buf, i);
    assert buf[..i + 1] == buf[..i] + [buf[i]];
    RunSnoc(boundary, start, buf[..i], buf[i]);
    var after := Completed(events', cur'.state, Unsent(cur'.state, buf, mark', i + 1));
    if CutsName(cur, buf[i]) {
      assert pre == [];
      TallyCut(boundary, start, buf, i, cur, mark, events);
      NothingUnsent(events', cur'.state, Unsent(cur'.state, buf, mark', i + 1));
    } else {
      hide Step;
      assert pre == [] ==> pre + t.out == t.out;
      TallyKept(boundary, start, buf, i, Completed(events, cur.state, Unsent(cur.state, buf, mark, i)), after, t.out,
                pre);
      if cur'.state.HeaderFieldProceed? { ProceedsFrom(boundary, cur, buf[i]); }
    }
  }

  lemma TallyReread(boundary: seq<Byte>, start: Core, buf: seq<Byte>, i: nat, cur: Core, mark: nat,
                    events: seq<Event>, cur': Core, events': seq<Event>, rest: seq<Event>)
    requires Reachable(boundary, start) && Reachable(boundary, cur) && Reachable(boundary, cur')
    requires i < |buf| && !Collects(cur.state) && Tally(boundary, start, buf, i, cur, mark, events)
    requires Simulates(boundary, cur, buf[i], Reread, cur', events, events', rest)
    ensures Tally(boundary, start, buf, i, cur', i, events') && NameBytes([PartData(Held(boundary, cur))]) == 0
  {
    hide Norm, Feed, LostNames, NameRun, Step, Completed, NameBytes, Held;
    var e := PartData(Held(boundary, cur));
    NoneLost(boundary, start);
    NameSnoc(events, e);
    NameSnoc([], e);
    assert [] + [e] == [e] && buf[i..i] == [];
    NothingUnsent(events, cur.state, Unsent(cur.state, buf, mark, i));
    NothingToComplete(events', cur'.state, Unsent(cur'.state, buf, i, i));
  }

  lemma NothingToComplete(events: seq<Event>, state: State, data: seq<Byte>)
    ensures data == [] ==> Completed(events, state, data) == events
  {
  }

  /** Nothing is named in the two hyphens at the beginning of the stream. */
  lemma TallyOpening(boundary: seq<Byte>, buf: seq<Byte>)
    requires |boundary| > 0 && |buf| > 2
    requires Feed(boundary, Core(EntityStart, 0), buf[..2]) == FeedResult(Core(InitialBoundary, 0), [], true, 2, false)
    ensures Tally(boundary, Core(EntityStart, 0), buf, 2, Core(InitialBoundary, 0), 0, [])
  {
    hide Feed, LostNames, NameRun;
    var start := Core(EntityStart, 0);
    assert buf[..2] == buf[..1] + [buf[1]] && buf[..1] == [] + [buf[0]] == [buf[0]];
    FeedUpTo(boundary, start, buf, 1);
    FeedOne(boundary, start, buf[0]);
    RunSnoc(boundary, start, buf[..1], buf[1]);
    RunSnoc(boundary, start, [], buf[0]);
    NoneLost(boundary, start);
  }

  lemma NoneLost(boundary: seq<Byte>, start: Core)
    requires Reachable(boundary, start)
    ensures LostNames(boundary, start, []) == 0 && NameRun(boundary, start, []) == 0 && NameBytes([]) == 0
  {
  }

  lemma TallyEnd(boundary: seq<Byte>, start: Core, buf: seq<Byte>, cur: Core, mark: nat, events: seq<Event>)
    requires Reachable(boundary, start) && Tally(boundary, start, buf, |buf|, cur, mark, events)
    ensures NameBytes(events) + LostNames(boundary, start, buf) == NameBytes(Feed(boundary, start, buf).out)
  {
    hide Feed, LostNames, NameBytes;
    assert buf[..|buf|] == buf;
  }

  lemma NothingUnsent(events: seq<Event>, state: State, data: seq<Byte>)
    ensures !Collects(state) ==> Completed(events, state, data) == events
  {
  }

  lemma FeedUpTo(boundary: seq<Byte>, start: Core, buf: seq<Byte>, i: nat)
    requires Reachable(boundary, start) && i < |buf|
    ensures Feed(boundary, start, buf[..i + 1]) == Extend(boundary, Feed(boundary, start, buf[..i]), buf[i])
  {
    assert buf[..i + 1] == buf[..i] + [buf[i]];
    FeedSnoc(boundary, start, buf[..i], buf[i]);
  }

  lemma {:induction false} FeedStopsAt(boundary: seq<Byte>, start: Core, buf: seq<Byte>, i: nat)
    requires Reachable(boundary, start) && i <= |buf|
    requires !Feed(boundary, start, buf[..i]).ok
    ensures Feed(boundary, start, buf) == Feed(boundary, start, buf[..i])
    decreases |buf|
  {
    hide Step;
    if i == |buf| {
      assert buf[..i] == buf;
    } else {
      var b := buf[..|buf| - 1];
      assert b[..i] == buf[..i];
      FeedStopsAt(boundary, start, b, i);
    }
  }

  lemma FeedEmpty(boundary: seq<Byte>, start: Core)
    requires Reachable(boundary, start)
    ensures Feed(boundary, start, []) == FeedResult(start, [], true, 0, false)
  {
  }

  lemma SyncedStart(boundary: seq<Byte>, start: Core, buf: seq<Byte>)
    requires Reachable(boundary, start)
    ensures Synced(boundary, start, buf, 0, start, 0, [], [])
  {
    assert buf[..0] == [];
  }

  lemma ExtendTrace(names: bool, boundary: seq<Byte>, r: FeedResult, cur: Core, c: Byte, trace: seq<Event>,
                    pre: seq<Event>)
    requires Reachable(boundary, r.core) && Reachable(boundary, cur) && r.ok
    requires Same(names, trace, r.out + pre)
    requires if pre == [] then cur == r.core
             else cur.state.PartDataProceed? && !CutsName(r.core, c) &&
                  Step(boundary, r.core, c) == Prepend(pre, Step(boundary, cur, c))
    ensures var t := Step(boundary, cur, c);
            var x := Extend(boundary, r, c);
            && x.core == t.core && x.ok == t.ok && x.used == (if t.ok then r.used + 1 else r.used)
            && x.cut == (r.cut || CutsName(cur, c))
            && Same(names, trace + t.out, x.out)
  {
    hide Norm, Step;
    var t := Step(boundary, cur, c);
    assert r.out + (pre + t.out) == r.out + pre + t.out;
    assert pre == [] ==> pre + t.out == t.out;
    SameAppend(names, trace, r.out + pre, t.out);
  }

  /** What the automaton emits up to and including byte `i`, in terms of the loop's trace. */
  lemma SyncedStep(names: bool, boundary: seq<Byte>, start: Core, buf: seq<Byte>, i: nat,
                   cur: Core, mark: nat, events: seq<Event>, pre: seq<Event>)
    requires Reachable(boundary, start) && Reachable(boundary, cur)
    requires Synced(boundary, start, buf, i, cur, mark, events, pre) && i < |buf|
    requires names ==> !Feed(boundary, start, buf[..i]).cut
    ensures var t := Step(boundary, cur, buf[i]);
            var r := Feed(boundary, start, buf[..i + 1]);
            && r.core == t.core && r.ok == t.ok
            && r.used == (if t.ok then i + 1 else i)
            && r.cut == (Feed(boundary, start, buf[..i]).cut || CutsName(cur, buf[i]))
            && Same(names, Completed(events, cur.state, Unsent(cur.state, buf, mark, i)) + t.out, r.out)
  {
    hide Norm, Step, Feed, Completed, Unsent, Extend;
    FeedUpTo(boundary, start, buf, i);
    ExtendTrace(names, boundary, Feed(boundary, start, buf[..i]), cur, buf[i],
                Completed(events, cur.state, Unsent(cur.state, buf, mark, i)), pre);
  }

  lemma SyncedNext(boundary: seq<Byte>, start: Core, buf: seq<Byte>, i: nat, cur: Core, mark: nat,
                   events: seq<Event>, pre: seq<Event>, cur': Core, mark': nat, events': seq<Event>, rest: seq<Event>)
    requires Reachable(boundary, start) && Reachable(boundary, cur) && Reachable(boundary, cur')
    requires Synced(boundary, start, buf, i, cur, mark, events, pre) && i < |buf| && mark' <= i
    requires Simulates(boundary, cur, buf[i], Next, cur', Completed(events, cur.state, Unsent(cur.state, buf, mark, i)),
                       Completed(events', cur'.state, Unsent(cur'.state, buf, mark', i + 1)), rest)
    ensures Synced(boundary, start, buf, i + 1, cur', mark', events', [])
  {
    hide Norm, Step;
    SyncedStep(false, boundary, start, buf, i, cur, mark, events, pre);
    if !Feed(boundary, start, buf[..i]).cut {
      SyncedStep(true, boundary, start, buf, i, cur, mark, events, pre);
    }
    var r := Feed(boundary, start, buf[..i + 1]);
    assert r.out + [] == r.out;
  }

  lemma SyncedReread(boundary: seq<Byte>, start: Core, buf: seq<Byte>, i: nat, cur: Core, mark: nat,
                     events: seq<Event>, pre: seq<Event>, cur': Core, events': seq<Event>, rest: seq<Event>)
    requires Reachable(boundary, start) && Reachable(boundary, cur) && Reachable(boundary, cur')
    requires Synced(boundary, start, buf, i, cur, mark, events, pre) && i < |buf|
    requires Simulates(boundary, cur, buf[i], Reread, cur', events, events', rest)
    ensures Synced(boundary, start, buf, i, cur', i, events', [PartData(Held(boundary, cur))])
  {
    hide Norm, Step, Feed;
    assert pre == [];
    var r := Feed(boundary, start, buf[..i]);
    var held := [PartData(Held(boundary, cur))];
    assert r.out + pre == r.out;
    SameAppend(false, events, r.out, held);
    if !r.cut {
      SameAppend(true, events, r.out, held);
    }
    assert buf[i..i] == [];
  }

  lemma SyncedRefuse(boundary: seq<Byte>, start: Core, buf: seq<Byte>, i: nat, cur: Core, mark: nat,
                     events: seq<Event>, pre: seq<Event>, cur': Core, events': seq<Event>, rest: seq<Event>)
    requires Reachable(boundary, start) && Reachable(boundary, cur)
    requires Synced(boundary, start, buf, i, cur, mark, events, pre) && i < |buf|
    requires Simulates(boundary, cur, buf[i], Refuse, cur',
                       Completed(events, cur.state, Unsent(cur.state, buf, mark, i)), events', rest)
    ensures var r := Feed(boundary, start, buf);
            !r.ok && r.used == i && r.core == cur' && Same(false, events', r.out)
  {
    hide Norm, Step, Feed;
    SyncedStep(false, boundary, start, buf, i, cur, mark, events, pre);
    FeedStopsAt(boundary, start, buf, i + 1);
  }

  lemma SyncedHalt(boundary: seq<Byte>, start: Core, buf: seq<Byte>, i: nat, cur: Core, mark: nat,
                   events: seq<Event>, pre: seq<Event>, cur': Core, events': seq<Event>, rest: seq<Event>)
    requires Reachable(boundary, start) && Reachable(boundary, cur)
    requires Synced(boundary, start, buf, i, cur, mark, events, pre) && i < |buf|
    requires Simulates(boundary, cur, buf[i], Halt, cur',
                       Completed(events, cur.state, Unsent(cur.state, buf, mark, i)), events', rest)
    ensures Same(false, events' + rest, Feed(boundary, start, buf[..i + 1]).out)
  {
    hide Norm, Step, Feed;
    SyncedStep(false, boundary, start, buf, i, cur, mark, events, pre);
  }

  /** What a call achieves, in terms of the automaton. */
  ghost predicate Executed(boundary: seq<Byte>, start: Core, buf: seq<Byte>, n: nat, events: seq<Event>,
                           outcome: Outcome, rest: seq<Event>, end: Core)
    requires Reachable(boundary, start)
  {
    var r := Feed(boundary, start, buf);
    match outcome
    case Consumed =>
      && r.ok && n == |buf| && end == r.core
      && Same(false, events, r.out) && (!r.cut ==> Same(true, events, r.out))
      && NameBytes(events) + LostNames(boundary, start, buf) == NameBytes(r.out)
    case Rejected =>
      && !r.ok && Same(false, events, r.out)
      && if r.core.state.EntityStart? then n == 1 && end == start else n == r.used + 1 && end == r.core
    case Aborted =>
      n < |buf| && Same(false, events + rest, Feed(boundary, start, buf[..n + 1]).out)
  }

  lemma OpeningHyphens(boundary: seq<Byte>, buf: seq<Byte>)
    requires |boundary| > 0 && |buf| > 0
    requires buf[0] == HYPHEN ==> |buf| > 1
    ensures var r := Feed(boundary, Core(EntityStart, 0), buf);
            if buf[0] != HYPHEN || buf[1] != HYPHEN then !r.ok && r.core.state.EntityStart? && r.out == []
            else Feed(boundary, Core(EntityStart, 0), buf[..2])
                   == FeedResult(Core(InitialBoundary, 0), [], true, 2, false)
  {
    var start := Core(EntityStart, 0);
    assert buf[..0] == [];
    FeedUpTo(boundary, start, buf, 0);
    if buf[0] != HYPHEN {
      FeedStopsAt(boundary, start, buf, 1);
    } else {
      FeedUpTo(boundary, start, buf, 1);
      if buf[1] != HYPHEN {
        FeedStopsAt(boundary, start, buf, 2);
      }
    }
  }

  class Parser {
    const boundary: seq<Byte>
    const lookbehind: array<Byte>
    var state: State
    var index: nat

    ghost predicate Valid()
      reads this, lookbehind
    {
      && Reachable(boundary, Core(state, index))
      && (state.EntityStart? ==> index == 0)
      && lookbehind.Length == |boundary| + 8
      && lookbehind[..HeldLen(Core(state, index))] == Held(boundary, Core(state, index))
    }

    constructor (boundary: seq<Byte>)
      requires |boundary| > 0
      ensures Valid() && fresh(lookbehind)
      ensures this.boundary == boundary && Core(state, index) == Core(EntityStart, 0)
    {
      this.boundary := boundary;
      this.lookbehind := new Byte[|boundary| + 8];
      this.state := EntityStart;
      this.index := 0;
    }

    method AtInitialBoundary(c: Byte, events: seq<Event>, veto: seq<Event> -> bool)
      returns (move: Move, events': seq<Event>)
      requires Valid() && state.InitialBoundary?
      requires Unvetoed(veto, events, |events|)
      modifies this
      ensures Valid() && Heeded(veto, events', move.Halt?) && move != Reread
      ensures Simulates(boundary, old(Core(state, index)), c, move, Core(state, index), events, events', [])
      ensures !Collects(state)
    {
      move, events' := Next, events;
      if index == |boundary| {
        if c != CR { move := Refuse; } else { index := index + 1; }
      } else if index == |boundary| + 1 {
        if c != LF {
          move := Refuse;
        } else {
          index := 0;
          state := HeaderFieldStart;
          var halt;
          events', halt := Raise(events, PartBegin, veto);
          if halt { move := Halt; }
        }
      } else {
        if c != boundary[index] { move := Refuse; } else { index := index + 1; }
      }
      assert events + [] == events;
      assert events' + [] == events';
    }

    method AtFieldName(buf: seq<Byte>, i: nat, start: nat, events: seq<Event>, veto: seq<Event> -> bool)
      returns (move: Move, events': seq<Event>, mark: nat, ghost rest: seq<Event>)
      requires Valid() && (state.HeaderFieldStart? || state.HeaderFieldProceed?)
      requires start <= i < |buf|
      requires Unvetoed(veto, events, |events|)
      modifies this
      ensures Valid() && Heeded(veto, events', move.Halt?) && move != Reread && mark <= i
      ensures Simulates(boundary, old(Core(state, index)), buf[i], move, Core(state, index),
                        Completed(events, old(state), Unsent(old(state), buf, start, i)),
                        Completed(events', state, if move.Next? then Unsent(state, buf, mark, i + 1) else []), rest)
      ensures CutsName(old(Core(state, index)), buf[i]) ==> events' == events + [NameDropped]
      ensures move.Next? && state.HeaderFieldProceed? ==> mark == if old(state).HeaderFieldProceed? then start else i
    {
      hide Norm;
      move, events', mark, rest := Next, events, start, [];
      var c, begun := buf[i], state.HeaderFieldProceed?;
      if !begun {
        mark := i;
        state := HeaderFieldProceed;
      }
      ghost var before := Completed(events, HeaderFieldProceed, buf[mark..i]);
      assert before == Completed(events, old(state), Unsent(old(state), buf, start, i));
      HandOver(events, HeaderFieldProceed, buf, mark, i);
      NameUnheard(events, buf, mark, i);
      assert before + [] == before;
      if c == CR {
        state := HeadersPossibleEnd;
        if begun { events' := Drop(events, veto); }
      } else if c == COLON {
        var halt;
        events', halt := Raise(events, HeaderField(buf[mark..i]), veto);
        if halt { move := Halt; } else { state := HeaderValueStart; }
      } else {
        if c != HYPHEN && !IsLetter(c) { move := Refuse; }
        var halt := false;
        if i == |buf| - 1 {
          events', halt := Raise(events, HeaderField(buf[mark..i + 1]), veto);
        }
        if halt {
          rest := if move.Refuse? then [NameDropped] else [];
          move := Halt;
        } else if move.Refuse? {
          events' := Drop(events', veto);
        }
      }
      assert events' + [] == events';
    }

    method AtFieldValue(buf: seq<Byte>, i: nat, start: nat, events: seq<Event>, veto: seq<Event> -> bool)
      returns (move: Move, events': seq<Event>, mark: nat)
      requires Valid() && (state.HeaderValueStart? || state.HeaderValueProceed?)
      requires start <= i < |buf|
      requires Unvetoed(veto, events, |events|)
      modifies this
      ensures Valid() && Heeded(veto, events', move.Halt?) && move != Reread && mark <= i
      ensures Simulates(boundary, old(Core(state, index)), buf[i], move, Core(state, index),
                        Completed(events, old(state), Unsent(old(state), buf, start, i)),
                        Completed(events', state, if move.Next? then Unsent(state, buf, mark, i + 1) else []), [])
    {
      hide Norm;
      move, events', mark := Next, events, start;
      var c := buf[i];
      assert events + [] == events;
      if state.HeaderValueStart? {
        if c == SPACE {
          return;
        }
        mark := i;
        state := HeaderValueProceed;
      }
      ghost var before := Completed(events, HeaderValueProceed, buf[mark..i]);
      assert before == Completed(events, old(state), Unsent(old(state), buf, start, i));
      HandOver(events, HeaderValueProceed, buf, mark, i);
      if c == CR {
        var halt;
        events', halt := Raise(events, HeaderValue(buf[mark..i]), veto);
        if halt { move := Halt; } else { state := HeaderValuePossibleEnd; }
      } else if i == |buf| - 1 {
        var halt;
        events', halt := Raise(events, HeaderValue(buf[mark..i + 1]), veto);
        if halt { move := Halt; }
      }
      assert events' + [] == events';
    }

    method AtPlainData(buf: seq<Byte>, i: nat, start: nat, events: seq<Event>, veto: seq<Event> -> bool)
      returns (move: Move, events': seq<Event>, mark: nat, ghost rest: seq<Event>)
      requires Valid() && (state.PartDataStart? || state.PartDataProceed?)
      requires start <= i < |buf|
      requires Unvetoed(veto, events, |events|)
      modifies this, lookbehind
      ensures Valid() && Heeded(veto, events', move.Halt?) && (move.Next? || move.Halt?) && mark <= i
      ensures Simulates(boundary, old(Core(state, index)), buf[i], move, Core(state, index),
                        Completed(events, old(state), Unsent(old(state), buf, start, i)),
                        Completed(events', state, if move.Next? then Unsent(state, buf, mark, i + 1) else []), rest)
    {
      hide Norm;
      move, events', mark, rest := Next, events, start, [];
      var c := buf[i];
      var halt;
      if state.PartDataStart? {
        events', halt := Raise(events, HeadersComplete, veto);
        if halt {
          move, rest := Halt, StepPlainData(index, c).out;
          assert events + ([HeadersComplete] + rest) == events' + rest;
          return;
        }
        mark := i;
        state := PartDataProceed;
      }
      ghost var sent := events';
      ghost var before := Completed(sent, PartDataProceed, buf[mark..i]);
      HandOver(sent, PartDataProceed, buf, mark, i);
      assert old(state).PartDataProceed? ==>
               before == Completed(events, old(state), Unsent(old(state), buf, start, i));
      assert old(state).PartDataStart? ==>
               before + StepPlainData(index, c).out == events + ([HeadersComplete] + StepPlainData(index, c).out);
      assert before + [] == before;
      if c == CR {
        if i > mark {
          events', halt := Raise(events', PartData(buf[mark..i]), veto);
          if halt {
            move := Halt;
            assert events' + [] == events';
            return;
          }
          mark := i;
        }
        state := PartDataCR;
        lookbehind[0] := CR;
      } else if i == |buf| - 1 {
        events', halt := Raise(events', PartData(buf[mark..i + 1]), veto);
        if halt { move := Halt; }
      }
      assert events' + [] == events';
    }

    method AtTransition(c: Byte, events: seq<Event>, veto: seq<Event> -> bool)
      returns (move: Move, events': seq<Event>, ghost rest: seq<Event>)
      requires Valid() && (state.PartDataCR? || state.PartDataLF? || state.PartDataNewlineHyphen?)
      requires Unvetoed(veto, events, |events|)
      modifies this, lookbehind
      ensures Valid() && Heeded(veto, events', move.Halt?) && move != Refuse
      ensures move.Next? ==> !Collects(state)
      ensures Simulates(boundary, old(Core(state, index)), c, move, Core(state, index), events, events', rest)
    {
      hide Norm;
      move, events', rest := Next, events, [];
      var delta := if state.PartDataCR? then 0 else if state.PartDataLF? then 1 else 2;
      if c == TRANSITION[1 + delta] {
        if state.PartDataCR? {
          state := PartDataLF;
        } else if state.PartDataLF? {
          state := PartDataNewlineHyphen;
        } else {
          state := NextBoundary;
          index := 0;
        }
        lookbehind[1 + delta] := c;
        HeldGrows(boundary, old(Core(state, index)), Core(state, index));
        assert lookbehind[..2 + delta] == old(lookbehind[..1 + delta]) + [c];
        assert events + [] == events;
      } else {
        var halt;
        events', halt := Raise(events, PartData(lookbehind[..1 + delta]), veto);
        if halt {
          move, rest := Halt, StepPlainData(index, c).out;
          assert events + ([PartData(lookbehind[..1 + delta])] + rest) == events' + rest;
        } else {
          state := PartDataProceed;
          move := Reread;
        }
      }
    }

    /** Keeps a byte of the boundary in the lookbehind buffer. */
    method Hold(c: Byte)
      requires Valid() && state.NextBoundary? && boundary[index] == c
      modifies this`index, lookbehind
      ensures index == old(index) + 1 && (index < |boundary| ==> Valid())
    {
      lookbehind[4 + index] := c;
      index := index + 1;
      if index < |boundary| {
        HeldGrows(boundary, old(Core(state, index)), Core(state, index));
        assert lookbehind[..4 + index] == old(lookbehind[..4 + index]) + [c];
      }
    }

    method AtNextBoundary(c: Byte, events: seq<Event>, veto: seq<Event> -> bool)
      returns (move: Move, events': seq<Event>, ghost rest: seq<Event>)
      requires Valid() && state.NextBoundary?
      requires Unvetoed(veto, events, |events|)
      modifies this, lookbehind
      ensures move.Halt? || Valid()
      ensures Heeded(veto, events', move.Halt?) && move != Refuse
      ensures move.Next? ==> !Collects(state)
      ensures Simulates(boundary, old(Core(state, index)), c, move, Core(state, index), events, events', rest)
    {
      hide Norm;
      move, events', rest := Next, events, [];
      var halt;
      if boundary[index] != c {
        events', halt := Raise(events, PartData(lookbehind[..4 + index]), veto);
        if halt {
          move, rest := Halt, StepPlainData(index, c).out;
          assert events + ([PartData(lookbehind[..4 + index])] + rest) == events' + rest;
        } else {
          state := PartDataProceed;
          move := Reread;
        }
      } else {
        Hold(c);
        if index == |boundary| {
          events', halt := Raise(events, PartEnd, veto);
          if halt { move := Halt; } else { state := PartDataPossibleEnd; }
        }
        assert events + [] == events;
        assert events' + [] == events';
      }
    }

    method AtPunctuation(c: Byte, events: seq<Event>, veto: seq<Event> -> bool)
      returns (move: Move, events': seq<Event>)
      requires Valid()
      requires state in {HeadersPossibleEnd, HeaderValuePossibleEnd, PartDataPossibleEnd, PartDataEnd,
                         EntityPossibleEnd, EntityEnd}
      requires Unvetoed(veto, events, |events|)
      modifies this
      ensures Valid() && Heeded(veto, events', move.Halt?) && move != Reread
      ensures !Collects(state)
      ensures Simulates(boundary, old(Core(state, index)), c, move, Core(state, index), events, events', [])
    {
      hide Norm;
      move, events' := Refuse, events;
      var halt := false;
      match state {
        case HeadersPossibleEnd =>
          if c == LF { move, state := Next, PartDataStart; }
        case HeaderValuePossibleEnd =>
          if c == LF { move, state := Next, HeaderFieldStart; }
        case PartDataPossibleEnd =>
          if c == HYPHEN {
            move, state := Next, EntityPossibleEnd;
          } else if c == CR {
            move, state := Next, PartDataEnd;
          }
        case PartDataEnd =>
          if c == LF {
            move, state := Next, HeaderFieldStart;
            events', halt := Raise(events, PartBegin, veto);
          }
        case EntityPossibleEnd =>
          if c == HYPHEN {
            events', halt := Raise(events, BodyEnd, veto);
            if !halt { move, state := Next, EntityEnd; }
          }
        case EntityEnd =>
      }
      if halt { move := Halt; }
      assert events + [] == events;
      assert events' + [] == events';
    }

    /** The `switch` of the loop, for a byte that is not the first of the stream. */
    method Dispatch(buf: seq<Byte>, i: nat, start: nat, events: seq<Event>, veto: seq<Event> -> bool)
      returns (move: Move, events': seq<Event>, mark: nat, ghost rest: seq<Event>)
      requires Valid() && !state.EntityStart?
      requires start <= i < |buf|
      requires Unvetoed(veto, events, |events|)
      modifies this, lookbehind
      ensures Heeded(veto, events', move.Halt?) && mark <= i
      ensures move.Halt? || (Valid() && !state.EntityStart?)
      ensures Simulates(boundary, old(Core(state, index)), buf[i], move, Core(state, index),
                        Completed(events, old(state), Unsent(old(state), buf, start, i)),
                        if move.Next? then Completed(events', state, Unsent(state, buf, mark, i + 1))
                        else events', rest)
      ensures move.Reread? ==>
                && mark == i && !Collects(old(state))
                && HeldLen(Core(state, index)) < HeldLen(old(Core(state, index)))
      ensures CutsName(old(Core(state, index)), buf[i]) ==> events' == events + [NameDropped]
      ensures (old(state).HeaderFieldStart? || old(state).HeaderFieldProceed?) && move.Next?
              && state.HeaderFieldProceed? ==>
                mark == if old(state).HeaderFieldProceed? then start else i
    {
      hide Norm;
      mark, rest := start, [];
      match state {
        case InitialBoundary =>
          move, events' := AtInitialBoundary(buf[i], events, veto);
        case HeaderFieldStart | HeaderFieldProceed =>
          move, events', mark, rest := AtFieldName(buf, i, start, events, veto);
        case HeaderValueStart | HeaderValueProceed =>
          move, events', mark := AtFieldValue(buf, i, start, events, veto);
        case PartDataStart | PartDataProceed =>
          move, events', mark, rest := AtPlainData(buf, i, start, events, veto);
        case PartDataCR | PartDataLF | PartDataNewlineHyphen =>
          move, events', rest := AtTransition(buf[i], events, veto);
          if move.Reread? { mark := i; }
        case NextBoundary =>
          move, events', rest := AtNextBoundary(buf[i], events, veto);
          if move.Reread? { mark := i; }
        case HeadersPossibleEnd | HeaderValuePossibleEnd | PartDataPossibleEnd | PartDataEnd
           | EntityPossibleEnd | EntityEnd =>
          move, events' := AtPunctuation(buf[i], events, veto);
      }
    }

    /** Parses one piece of the stream; may be called again with the next piece. */
    method Execute(buf: seq<Byte>, veto: seq<Event> -> bool)
      returns (n: nat, events: seq<Event>, outcome: Outcome, ghost rest: seq<Event>)
      requires Valid()
      requires state.EntityStart? && |buf| > 0 && buf[0] == HYPHEN ==> |buf| > 1
      requires state.EntityStart? && |buf| > 1 && buf[0] == buf[1] == HYPHEN ==> |buf| > 2
      modifies this, lookbehind
      ensures outcome != Aborted ==> Valid()
      ensures Heeded(veto, events, outcome.Aborted?)
      ensures Executed(boundary, old(Core(state, index)), buf, n, events, outcome, rest, Core(state, index))
    {
      hide Norm, Step, Feed, Simulates, Tally, NameBytes, LostNames;
      ghost var start := Core(state, index);
      ghost var pre: seq<Event> := [];
      var i: int, mark: nat, go := 0, 0, true;
      n, events, outcome, rest := 0, [], Consumed, [];
      SyncedStart(boundary, start, buf);
      TallyStart(boundary, start, buf);
      while i < |buf| && go
        invariant 0 <= i <= |buf|
        invariant Reachable(boundary, start) && Valid()
        invariant state.EntityStart? && go ==> start == Core(EntityStart, 0) && i == 0 && events == []
        invariant Unvetoed(veto, events, |events|)
        invariant go ==> outcome.Consumed? && Synced(boundary, start, buf, i, Core(state, index), mark, events, pre)
        invariant go ==> NameBytes(pre) == 0 && Tally(boundary, start, buf, i, Core(state, index), mark, events)
        invariant !go ==> outcome.Rejected?
        invariant !go ==> Executed(boundary, start, buf, i, events, Rejected, [], Core(state, index))
        decreases |buf| - i, HeldLen(Core(state, index))
      {
        if state.EntityStart? && (buf[0] != HYPHEN || buf[1] != HYPHEN) {
          OpeningHyphens(boundary, buf);
          go, outcome := false, Rejected;
        } else {
          if state.EntityStart? {
            OpeningHyphens(boundary, buf);
            TallyOpening(boundary, buf);
            i := 2;
            index := 0;
            state := InitialBoundary;
            assert events + [] == events;
          }
          ghost var cur, mark0, events0 := Core(state, index), mark, events;
          var move;
          move, events, mark, rest := Dispatch(buf, i, mark, events, veto);
          ghost var cur' := Core(state, index);
          match move {
            case Next =>
              SyncedNext(boundary, start, buf, i, cur, mark0, events0, pre, cur', mark, events, rest);
              TallyNext(boundary, start, buf, i, cur, mark0, events0, pre, cur', mark, events, rest);
              pre := [];
              NoneLost(boundary, start);
            case Reread =>
              SyncedReread(boundary, start, buf, i, cur, mark0, events0, pre, cur', events, rest);
              TallyReread(boundary, start, buf, i, cur, mark0, events0, cur', events, rest);
              pre := [PartData(Held(boundary, cur))];
              i := i - 1;
            case Refuse =>
              SyncedRefuse(boundary, start, buf, i, cur, mark0, events0, pre, cur', events, rest);
              go, outcome := false, Rejected;
            case Halt =>
              SyncedHalt(boundary, start, buf, i, cur, mark0, events0, pre, cur', events, rest);
              n, outcome := i, Aborted;
              return;
          }
        }
        i := i + 1;
      }
      n := i;
      if go {
        assert buf[..i] == buf;
        assert Feed(boundary, start, buf).out + pre == Feed(boundary, start, buf).out;
        TallyEnd(boundary, start, buf, Core(state, index), mark, events);
      }
    }
  }

  function Flatten(pieces: seq<seq<Byte>>): seq<Byte> {
    if |pieces| == 0 then [] else Flatten(pieces[..|pieces| - 1]) + pieces[|pieces| - 1]
  }

  lemma FlattenUpTo(pieces: seq<seq<Byte>>, k: nat)
    requires k < |pieces|
    ensures Flatten(pieces[..k + 1]) == Flatten(pieces[..k]) + pieces[k]
  {
    assert pieces[..k + 1][..k] == pieces[..k];
  }

  lemma {:induction false} FlattenPrefix(pieces: seq<seq<Byte>>, k: nat)
    requires k <= |pieces|
    ensures exists z :: Flatten(pieces) == Flatten(pieces[..k]) + z
    decreases |pieces| - k
  {
    if k == |pieces| {
      assert pieces[..k] == pieces;
      assert Flatten(pieces) == Flatten(pieces[..k]) + [];
    } else {
      FlattenPrefix(pieces, k + 1);
      FlattenUpTo(pieces, k);
      var z :| Flatten(pieces) == Flatten(pieces[..k + 1]) + z;
      assert Flatten(pieces) == Flatten(pieces[..k]) + (pieces[k] + z);
    }
  }

  lemma RejectedPrefix(boundary: seq<Byte>, start: Core, pieces: seq<seq<Byte>>, k: nat)
    requires Reachable(boundary, start) && k <= |pieces|
    requires !Feed(boundary, start, Flatten(pieces[..k])).ok
    ensures Feed(boundary, start, Flatten(pieces)) == Feed(boundary, start, Flatten(pieces[..k]))
  {
    hide Step, Feed;
    FlattenPrefix(pieces, k);
    var s := Flatten(pieces);
    var n := |Flatten(pieces[..k])|;
    assert s[..n] == Flatten(pieces[..k]);
    FeedStopsAt(boundary, start, s, n);
  }

  ghost predicate Agrees(events: seq<Event>, r: FeedResult) {
    Same(false, events, r.out) && (r.ok && !r.cut ==> Same(true, events, r.out))
  }

  lemma AgreesResume(e1: seq<Event>, a: FeedResult, e2: seq<Event>, b: FeedResult)
    requires a.ok && Agrees(e1, a) && Agrees(e2, b)
    ensures Agrees(e1 + e2, Resume(a, b))
  {
    hide Norm;
    SameConcat(false, e1, a.out, e2, b.out);
    if b.ok && !a.cut && !b.cut {
      SameConcat(true, e1, a.out, e2, b.out);
    }
  }

  /**
   Chunk independence: however a stream is cut into pieces, the parser accepts it exactly when
   the automaton does, ends in the automaton's state, and makes the automaton's callbacks up to
   regrouping of adjacent data. Only of a field name that is dropped may more or less be reported.
   */
  method ExecutePieces(p: Parser, pieces: seq<seq<Byte>>) returns (events: seq<Event>, ok: bool)
    requires p.Valid()
    requires p.state.EntityStart? && |pieces| > 0 ==> |pieces[0]| >= 3
    modifies p, p.lookbehind
    ensures p.Valid()
    ensures var r := Feed(p.boundary, old(Core(p.state, p.index)), Flatten(pieces));
            && ok == r.ok && Agrees(events, r)
            && (ok ==> Core(p.state, p.index) == r.core)
  {
    hide Norm, Step, Feed;
    ghost var start := Core(p.state, p.index);
    events, ok := [], true;
    FeedEmpty(p.boundary, start);
    var k := 0;
    while k < |pieces| && ok
      invariant 0 <= k <= |pieces| && p.Valid() && Reachable(p.boundary, start)
      invariant p.state.EntityStart? && ok ==> k == 0
      invariant var r := Feed(p.boundary, start, Flatten(pieces[..k]));
                ok == r.ok && Agrees(events, r) && (ok ==> Core(p.state, p.index) == r.core)
    {
      var n, more, outcome, rest := p.Execute(pieces[k], _ => false);
      ok := outcome.Consumed?;
      ghost var a := Feed(p.boundary, start, Flatten(pieces[..k]));
      ghost var b := Feed(p.boundary, a.core, pieces[k]);
      FlattenUpTo(pieces, k);
      FeedConcat(p.boundary, start, Flatten(pieces[..k]), pieces[k]);
      AgreesResume(events, a, more, b);
      LeavesStart(p.boundary, a.core, pieces[k]);
      events := events + more;
      k := k + 1;
    }
    if ok {
      assert pieces[..k] == pieces;
    } else {
      RejectedPrefix(p.boundary, start, pieces, k);
    }
  }
}
