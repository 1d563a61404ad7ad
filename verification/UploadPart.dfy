/** The driver that reads a multipart entity in slices, and writes the part data to storage. */
module UploadPart {
  import opened Bytes
  import opened MultipartAutomaton
  import opened MultipartCounting
  import opened MultipartNames
  import opened MultipartParser
  import opened UploadReading

  /**
   The callbacks that return non-zero: part data that does not fit the write buffer, and the
   beginning of a second part. `parts` counts the parts begun before this call.
   */
  function CallbackError(capacity: nat, parts: nat): seq<Event> -> bool {
    (es: seq<Event>) =>
      |es| > 0 && (match es[|es| - 1]
                   case PartData(_) => |DataOf(es)| > capacity
                   case PartBegin => parts + Begins(es) > 1
                   case _ => false)
  }

  /** Whether the callback for `e` returns non-zero, `used` bytes being in a buffer of `capacity`. */
  predicate Refuses(e: Event, used: nat, capacity: nat, parts: nat) {
    match e
    case PartData(data) => used + |data| > capacity
    case PartBegin => parts > 0
    case _ => false
  }

  lemma ErrorUpTo(capacity: nat, parts: nat, events: seq<Event>, k: nat)
    requires k < |events|
    ensures CallbackError(capacity, parts)(events[..k + 1])
            <==> Refuses(events[k], |DataOf(events[..k])|, capacity, parts + Begins(events[..k]))
  {
    CountUpTo(events, k);
    hide DataOf, Begins, Late, Ended;
    assert events[..k + 1][k] == events[k];
  }

  class Upload {
    const boundary: seq<Byte>
    const entity: seq<Byte>
    const parser: Parser
    const wrBuf: array<Byte>
    var rdIdx: nat
    var wrIdx: nat
    var totFileSz: nat
    var numParts: nat
    var endFlag: bool
    /** Requests made to storage so far. */
    var written: seq<seq<Byte>>
    var closes: nat

    constructor (boundary: seq<Byte>, entity: seq<Byte>)
      requires |boundary| > 0 && |entity| >= 4
      ensures this.boundary == boundary && this.entity == entity
      ensures fresh(parser) && fresh(parser.lookbehind) && fresh(wrBuf)
      ensures Open([]) && written == []
    {
      this.boundary := boundary;
      this.entity := entity;
      var p := new Parser(boundary);
      this.parser := p;
      this.wrBuf := new Byte[SLICE + 4 + |boundary|];
      this.rdIdx, this.wrIdx, this.totFileSz, this.numParts, this.endFlag := 0, 0, 0, 0, false;
      this.written, this.closes := [], 0;
      new;
      hide Read;
      assert Writes([]) == [];
      NoWrites(ReadAll(boundary, entity));
    }

    ghost predicate Shape()
      reads this, parser
    {
      && |boundary| > 0 && |entity| >= 4 && parser.boundary == boundary
      && wrBuf != parser.lookbehind && wrBuf.Length == SLICE + 4 + |boundary| && wrIdx <= wrBuf.Length
      && (forall k :: 0 <= k < |written| ==> written[k] != [])
    }

    /** Between two slices; `extra` is data in the write buffer that storage has not been given. */
    ghost predicate Open(extra: seq<Byte>)
      reads this, parser, parser.lookbehind
    {
      && Shape() && parser.Valid() && !endFlag && closes == 0 && numParts <= 1 && rdIdx < |entity|
      && (parser.state.EntityStart? ==> rdIdx == 0) && !parser.state.EntityEnd?
      && totFileSz == |Flatten(written)|
      && ReadAll(boundary, entity)
         == Then(written + Writes(extra), Read(boundary, entity, rdIdx, Core(parser.state, parser.index), numParts))
    }

    /** The end of the body has been seen. */
    ghost predicate Ending(extra: seq<Byte>)
      reads this, parser
    {
      && Shape() && endFlag && closes == 0 && totFileSz == |Flatten(written)|
      && ReadAll(boundary, entity) == Reading(Closing, written + Writes(extra))
    }

    method OnPartData(data: seq<Byte>) returns (err: bool)
      requires wrIdx <= wrBuf.Length
      modifies this`wrIdx, wrBuf
      ensures err <==> old(wrIdx) + |data| > wrBuf.Length
      ensures wrIdx == (if err then old(wrIdx) else old(wrIdx) + |data|)
      ensures wrBuf[..wrIdx] == old(wrBuf[..wrIdx]) + if err then [] else data
    {
      err := wrIdx + |data| > wrBuf.Length;
      if !err {
        forall j | 0 <= j < |data| { wrBuf[wrIdx + j] := data[j]; }
        wrIdx := wrIdx + |data|;
      }
    }

    method OnPartDataBegin() returns (err: bool)
      modifies this`numParts
      ensures numParts == old(numParts) + 1 && (err <==> numParts > 1)
    {
      numParts := numParts + 1;
      err := numParts > 1;
    }

    method OnBodyEnd() returns (err: bool)
      modifies this`endFlag
      ensures endFlag && !err
    {
      endFlag, err := true, false;
    }

    /** Runs the callback for one event. */
    method Invoke(e: Event) returns (err: bool)
      requires wrIdx <= wrBuf.Length
      modifies this`wrIdx, this`numParts, this`endFlag, wrBuf
      ensures wrIdx <= wrBuf.Length && err == Refuses(e, old(wrIdx), wrBuf.Length, old(numParts))
      ensures wrBuf[..wrIdx] == old(wrBuf[..wrIdx]) + if e.PartData? && !err then e.data else []
      ensures numParts == old(numParts) + if e.PartBegin? then 1 else 0
      ensures endFlag == (old(endFlag) || e == BodyEnd)
    {
      err := false;
      match e {
        case PartData(data) => err := OnPartData(data);
        case PartBegin => err := OnPartDataBegin();
        case BodyEnd => err := OnBodyEnd();
        case _ =>
      }
    }

    /** Runs the callbacks of one call of the parser, in order; only the last one may fail. */
    method Deliver(events: seq<Event>)
      requires wrIdx == 0 && |DataOf(events)| <= wrBuf.Length
      requires forall k :: 0 < k < |events| ==> !CallbackError(wrBuf.Length, numParts)(events[..k])
      modifies this`wrIdx, this`numParts, this`endFlag, wrBuf
      ensures wrIdx == |DataOf(events)| && wrBuf[..wrIdx] == DataOf(events)
      ensures numParts == old(numParts) + Begins(events)
      ensures endFlag == (old(endFlag) || Ended(events))
    {
      hide DataOf, Begins, Late, Ended, CallbackError;
      var k, err := 0, false;
      CountEmpty();
      assert events[..0] == [];
      while k < |events|
        invariant 0 <= k <= |events| && wrIdx <= wrBuf.Length && wrBuf[..wrIdx] == DataOf(events[..k])
        invariant numParts == old(numParts) + Begins(events[..k])
        invariant endFlag == (old(endFlag) || Ended(events[..k]))
        invariant err <==> k > 0 && CallbackError(wrBuf.Length, old(numParts))(events[..k])
        invariant err ==> k == |events|
      {
        CountUpTo(events, k);
        ErrorUpTo(wrBuf.Length, old(numParts), events, k);
        err := Invoke(events[k]);
        k := k + 1;
      }
      assert events[..k] == events;
    }

    /** Bytes the next pass reads: never the last byte of the entity. */
    function NextSlice(): nat
      reads this
      requires rdIdx < |entity|
    {
      SliceLen(rdIdx, |entity|)
    }

    /** Parses the slice `buf` with the upload's callbacks. */
    method ParseSlice(buf: seq<Byte>)
      returns (n: nat, ghost events: seq<Event>, ghost outcome: MultipartParser.Outcome, ghost rest: seq<Event>)
      requires Shape() && parser.Valid() && wrIdx == 0 && !endFlag && |buf| <= SLICE && !parser.state.EntityEnd?
      requires parser.state.EntityStart? ==> |buf| >= 3
      modifies this`wrIdx, this`numParts, this`endFlag, parser, parser.lookbehind, wrBuf
      ensures Shape()
      ensures outcome.Aborted? || parser.Valid()
      ensures Heeded(CallbackError(wrBuf.Length, old(numParts)), events, outcome.Aborted?)
      ensures Reachable(boundary, old(Core(parser.state, parser.index)))
      ensures Executed(boundary, old(Core(parser.state, parser.index)), buf, n, events, outcome, rest,
                       Core(parser.state, parser.index))
      ensures wrBuf[..wrIdx] == DataOf(events) && endFlag == Ended(events)
      ensures numParts == old(numParts) + Begins(events)
    {
      hide Feed, DataOf, Begins, Late, Ended, Norm;
      ghost var start := Core(parser.state, parser.index);
      var es;
      n, es, outcome, rest := parser.Execute(buf, CallbackError(wrBuf.Length, numParts));
      events := es;
      NoOverflow(boundary, start, buf, n, events, outcome, rest, Core(parser.state, parser.index));
      Deliver(es);
    }

    /** One pass of the read loop: parse a slice and see whether to go on. */
    method ReadSlice() returns (go: bool)
      requires Open([]) && wrIdx == 0
      modifies this, parser, parser.lookbehind, wrBuf
      ensures Shape() && written == old(written) && closes == old(closes) && totFileSz == old(totFileSz)
      ensures go ==> rdIdx == old(rdIdx) + old(NextSlice())
      ensures go ==> if endFlag then Ending(wrBuf[..wrIdx]) else Open(wrBuf[..wrIdx])
      ensures !go ==> !endFlag && ReadAll(boundary, entity) == Reading(OsError, written)
      ensures go && old(NextSlice()) == 0 ==>
                !endFlag && wrIdx == 0 && ReadAll(boundary, entity) == Reading(Looping, written)
    {
      hide Feed, DataOf, Begins, Late, Ended, Norm, Executed, Heeded, HeldLen, Held, Flatten, Reachable, CallbackError,
           Read, Then, Writes;
      var exp := NextSlice();
      var buf := entity[rdIdx..rdIdx + exp];
      ghost var start, rd, parts := Core(parser.state, parser.index), rdIdx, numParts;
      var n, events, outcome, rest := ParseSlice(buf);
      go := n == exp || endFlag;
      ghost var end := Core(parser.state, parser.index);
      SliceReads(boundary, entity, rd, start, parts, wrBuf.Length, n, events, outcome, end, rest);
      Continue(written, DataOf(events), ReadAll(boundary, entity), Read(boundary, entity, rd, start, parts));
      if go {
        rdIdx := rdIdx + exp;
        assert exp == 0 ==> |wrBuf[..wrIdx]| == 0;
      }
    }

    /** Hands the write buffer to storage. */
    method SubmitWrite(accepts: nat -> bool) returns (o: Progress)
      requires wrIdx > 0 && Shape() && if endFlag then Ending(wrBuf[..wrIdx]) else Open(wrBuf[..wrIdx])
      modifies this`totFileSz, this`written
      ensures Shape() && totFileSz == |Flatten(written)| && written == old(written) + [wrBuf[..wrIdx]]
      ensures if endFlag then Ending([]) else Open([])
      ensures o == if accepts(|old(written)|) then Writing else StorageError
      ensures (forall k :: 0 <= k < |old(written)| ==> accepts(k)) ==> Reached(o, accepts)
    {
      hide Read, Reachable, Flatten, ReadAll, Then;
      totFileSz := totFileSz + wrIdx;
      o := if accepts(|written|) then Writing else StorageError;
      FlattenSnoc(written, wrBuf[..wrIdx]);
      written := written + [wrBuf[..wrIdx]];
      assert written + [] == written;
      WritesMade(written, ReadAll(boundary, entity));
    }

    /** Asks storage to close the file. */
    method SubmitClose(accepts: nat -> bool) returns (o: Progress)
      requires Ending([])
      modifies this`closes
      ensures Shape() && closes == 1 && ReadAll(boundary, entity) == Reading(Closing, written)
      ensures o == if accepts(|written|) then Closing else StorageError
      ensures (forall k :: 0 <= k < |written| ==> accepts(k)) ==> Reached(o, accepts)
    {
      hide Read, Flatten, ReadAll;
      closes := closes + 1;
      o := if accepts(|written|) then Closing else StorageError;
      assert written + [] == written;
    }

    /** The last request was refused, and it was one that the reading makes. */
    ghost predicate Refused(accepts: nat -> bool)
      reads this
      requires |boundary| > 0 && |entity| > 0
    {
      var all := ReadAll(boundary, entity);
      && closes <= 1 && |written| + closes > 0 && !accepts(|written| + closes - 1)
      && if closes == 1 then all == Reading(Closing, written) else written <= all.writes
    }

    /** What has come of the upload; all requests but a refused last one have been accepted. */
    ghost predicate Reached(o: Progress, accepts: nat -> bool)
      reads this, parser, parser.lookbehind
    {
      && Shape() && totFileSz == |Flatten(written)|
      && (forall k :: 0 <= k < |written| + closes - (if o == StorageError then 1 else 0) ==> accepts(k))
      && match o
         case Writing => if endFlag then Ending([]) else Open([])
         case Closing => closes == 1 && ReadAll(boundary, entity) == Reading(Closing, written)
         case Looping => closes == 0 && ReadAll(boundary, entity) == Reading(Looping, written)
         case OsError => closes == 0 && ReadAll(boundary, entity) == Reading(OsError, written)
         case DataError => false
         case StorageError => Refused(accepts)
    }

    /** Reads slices until there is something to write, the body ends, or something goes wrong. */
    method WriteStart(accepts: nat -> bool) returns (o: Progress)
      requires Open([]) && forall k :: 0 <= k < |written| ==> accepts(k)
      modifies this, parser, parser.lookbehind, wrBuf
      ensures Reached(o, accepts)
      ensures o.Writing? ==> wrIdx > 0 && written == old(written) + [wrBuf[..wrIdx]] && rdIdx > old(rdIdx)
      ensures !o.Writing? && !o.StorageError? ==> written == old(written)
    {
      hide Read, Reachable, Flatten, Held, HeldLen, ReadAll, Then;
      wrIdx := 0;
      while wrIdx == 0
        invariant Open([]) && wrIdx == 0 && rdIdx >= old(rdIdx) && written == old(written)
        decreases |entity| - rdIdx
      {
        if |entity| <= rdIdx {
          return DataError;
        }
        var still := NextSlice() == 0;
        var go := ReadSlice();
        if !go {
          return OsError;
        }
        if wrIdx > 0 {
          o := SubmitWrite(accepts);
          return;
        }
        assert wrBuf[..wrIdx] == [];
        if endFlag {
          o := SubmitClose(accepts);
          return;
        }
        if still {
          // The pass has changed nothing, so the next one is the same, and so on for ever.
          return Looping;
        }
      }
    }

    /**
     The whole upload, from the first slice to the closing of the file, against storage that
     accepts its k-th request if `accepts(k)`. If it accepts all requests of the reading, the outcome
     and the writes are those of the reading, and the file is closed once exactly if that ends in
     closing. Otherwise the requests of the reading are made up to the first refused one, and the
     upload ends in an error of storage.
     */
    method Run(accepts: nat -> bool) returns (o: Progress)
      requires Open([]) && written == []
      modifies this, parser, parser.lookbehind, wrBuf
      ensures forall k :: 0 <= k < |written| ==> written[k] != []
      ensures closes <= 1 && totFileSz == |Flatten(written)|
      ensures o == StorageError <==>
                exists k :: 0 <= k < Requests(ReadAll(boundary, entity)) && !accepts(k)
      ensures o != StorageError ==>
                && Reading(o, written) == ReadAll(boundary, entity) && closes == (if o == Closing then 1 else 0)
                && (forall k :: 0 <= k < |written| + closes ==> accepts(k))
      ensures o == StorageError ==>
                && |written| + closes > 0 && !accepts(|written| + closes - 1)
                && (forall k :: 0 <= k < |written| + closes - 1 ==> accepts(k))
                && written <= ReadAll(boundary, entity).writes
                && (closes == 1 ==> ReadAll(boundary, entity) == Reading(Closing, written))
    {
      hide Read, Reachable, Flatten, Held, HeldLen, ReadAll, Then;
      o := WriteStart(accepts);
      while o.Writing?
        invariant Reached(o, accepts)
        decreases o.Writing?, |entity| - rdIdx
      {
        if endFlag {
          o := SubmitClose(accepts);
        } else {
          o := WriteStart(accepts);
        }
      }
      if o == StorageError { assert !accepts(|written| + closes - 1); }
    }
  }

  lemma NoWrites(r: Reading)
    ensures Then([] + Writes([]), r) == r
  {
    assert [] + Writes([]) == [] && [] + r.writes == r.writes;
  }

  /** How many requests a reading makes of storage. */
  function Requests(r: Reading): nat {
    |r.writes| + if r.outcome == Closing then 1 else 0
  }

  /** While the reading goes on from what has been written, those are its first writes. */
  lemma WritesMade(written: seq<seq<Byte>>, all: Reading)
    requires (exists v :: all == Then(written + Writes([]), v)) || all == Reading(Closing, written + Writes([]))
    ensures written <= all.writes
  {
    assert written + Writes([]) == written;
  }

  /** The reading of the entity, given what has been written and the reading `v` of the rest. */
  lemma Continue(written: seq<seq<Byte>>, data: seq<Byte>, all: Reading, v: Reading)
    requires all == Then(written + Writes([]), v)
    ensures v.writes == [] ==> all == Reading(v.outcome, written)
    ensures v == Reading(v.outcome, Writes(data)) ==> all == Reading(v.outcome, written + Writes(data))
    ensures forall u :: v == Then(Writes(data), u) ==> all == Then(written + Writes(data), u)
  {
    assert written + Writes([]) == written && written + [] == written;
    forall u | v == Then(Writes(data), u) ensures all == Then(written + Writes(data), u) {
      ThenThen(written, Writes(data), u);
    }
  }

  // ---------- one slice, in terms of the whole entity ----------

  /** One call of the parser fills the write buffer with no more than it holds. */
  lemma NoOverflow(boundary: seq<Byte>, start: Core, buf: seq<Byte>, n: nat, events: seq<Event>,
                   outcome: MultipartParser.Outcome, rest: seq<Event>, end: Core)
    requires Reachable(boundary, start) && !start.state.EntityEnd?
    requires Executed(boundary, start, buf, n, events, outcome, rest, end)
    ensures |DataOf(events)| <= HeldLen(start) + |buf| <= |boundary| + 3 + |buf|
  {
    hide Feed, DataOf, Begins, Late, Ended, Norm;
    HeldBound(boundary, start);
    if outcome.Aborted? {
      FeedConserves(boundary, start, buf[..n + 1]);
      CountSame(false, events + rest, Feed(boundary, start, buf[..n + 1]).out);
      CountConcat(events, rest);
    } else {
      FeedConserves(boundary, start, buf);
      CountSame(false, events, Feed(boundary, start, buf).out);
    }
  }

  /** A call that a callback stopped was stopped by a second part, before the end of the body. */
  lemma AbortMeansSecondPart(boundary: seq<Byte>, start: Core, buf: seq<Byte>, n: nat, events: seq<Event>,
                             rest: seq<Event>, end: Core, capacity: nat, parts: nat)
    requires Reachable(boundary, start) && !start.state.EntityEnd?
    requires Executed(boundary, start, buf, n, events, Aborted, rest, end)
    requires FirstVeto(CallbackError(capacity, parts), events)
    requires |boundary| + 3 + |buf| <= capacity
    ensures !Ended(events) && parts + Begins(events) > 1
    ensures Begins(Feed(boundary, start, buf[..n + 1]).out) >= Begins(events)
  {
    hide Feed, DataOf, Begins, Late, Ended, Norm;
    NoOverflow(boundary, start, buf, n, events, Aborted, rest, end);
    var e, es := events[|events| - 1], events[..|events| - 1];
    assert e == PartBegin;
    FeedConserves(boundary, start, buf[..n + 1]);
    CountSame(false, events + rest, Feed(boundary, start, buf[..n + 1]).out);
    CountConcat(events, rest);
    assert events == es + [e];
    CountSnoc(es, e);
  }

  lemma {:induction false} AtMostOnePart(capacity: nat, parts: nat, events: seq<Event>, k: nat)
    requires parts <= 1 && k <= |events| && Unvetoed(CallbackError(capacity, parts), events, |events|)
    ensures parts + Begins(events[..k]) <= 1
  {
    if k == 0 {
      CountEmpty();
      assert events[..0] == [];
    } else {
      hide DataOf, Begins, Late, Ended;
      AtMostOnePart(capacity, parts, events, k - 1);
      CountUpTo(events, k - 1);
      assert !CallbackError(capacity, parts)(events[..k]);
    }
  }

  /** What the driver can rely on after any call on a slice. */
  lemma SliceFacts(boundary: seq<Byte>, start: Core, buf: seq<Byte>, n: nat, events: seq<Event>,
                   outcome: MultipartParser.Outcome, end: Core, rest: seq<Event>, capacity: nat, parts: nat)
    requires Reachable(boundary, start) && !start.state.EntityEnd? && parts <= 1
    requires start.state.EntityStart? ==> |buf| >= 3
    requires Executed(boundary, start, buf, n, events, outcome, rest, end)
    requires Heeded(CallbackError(capacity, parts), events, outcome.Aborted?) && |boundary| + 3 + |buf| <= capacity
    ensures outcome.Aborted? ==> n < |buf| && !Ended(events)
    ensures !outcome.Aborted? ==> parts + Begins(events) <= 1 && (!Ended(events) ==> !end.state.EntityEnd?)
    ensures !outcome.Aborted? && n == |buf| ==> !end.state.EntityStart?
    ensures outcome.Consumed? ==> n == |buf|
    ensures |buf| == 0 ==>
              outcome.Consumed? && end == start && DataOf(events) == [] && Begins(events) == 0 && !Ended(events)
  {
    hide DataOf, Begins, Late, Ended, Norm, Step;
    if outcome.Aborted? {
      AbortMeansSecondPart(boundary, start, buf, n, events, rest, end, capacity, parts);
    } else {
      AtMostOnePart(capacity, parts, events, |events|);
      assert events[..|events|] == events;
      FeedConserves(boundary, start, buf);
      CountSame(false, events, Feed(boundary, start, buf).out);
      LeavesStart(boundary, start, buf);
      CountEmpty();
    }
  }

  /** How a call of the parser on the next slice bears on the reading. */
  lemma SliceReads(boundary: seq<Byte>, entity: seq<Byte>, rd: nat, start: Core, parts: nat, capacity: nat, n: nat,
                   events: seq<Event>, outcome: MultipartParser.Outcome, end: Core, rest: seq<Event>)
    requires |boundary| > 0 && rd < |entity| && parts <= 1 && |boundary| + 3 + SLICE <= capacity
    requires Reachable(boundary, start) && !start.state.EntityEnd?
    requires start.state.EntityStart? ==> SliceLen(rd, |entity|) >= 3
    requires Executed(boundary, start, entity[rd..rd + SliceLen(rd, |entity|)], n, events, outcome, rest, end)
    requires Heeded(CallbackError(capacity, parts), events, outcome.Aborted?)
    ensures outcome.Aborted? || SliceLen(rd, |entity|) == 0 ==> !Ended(events)
    ensures var m, v := SliceLen(rd, |entity|), Read(boundary, entity, rd, start, parts);
            if Ended(events) then v == Reading(Closing, Writes(DataOf(events)))
            else if n != m then v == Reading(OsError, [])
            else
              && !outcome.Aborted? && parts + Begins(events) <= 1 && Reachable(boundary, end)
              && !end.state.EntityEnd? && (end.state.EntityStart? ==> rd + m == rd)
              && (m == 0 ==> v == Reading(Looping, []) && DataOf(events) == [] && end == start && Begins(events) == 0)
              && (m > 0 ==> v == Then(Writes(DataOf(events)),
                                      Read(boundary, entity, rd + m, end, parts + Begins(events))))
  {
    hide DataOf, Begins, Late, Ended, Norm, NameBytes, LostNames, Feed, Reachable, CallbackError, Unvetoed, FirstVeto;
    var m := SliceLen(rd, |entity|);
    var buf := entity[rd..rd + m];
    var r := Feed(boundary, start, buf);
    SliceFacts(boundary, start, buf, n, events, outcome, end, rest, capacity, parts);
    if outcome.Aborted? {
      AbortMeansSecondPart(boundary, start, buf, n, events, rest, end, capacity, parts);
      PrefixReports(boundary, start, buf, n + 1);
    } else {
      CountSame(false, events, r.out);
      RefusedAtStart(boundary, start, buf);
      LeavesStart(boundary, start, buf);
    }
  }

  /** A stream refused in the opening state is refused at one of its first two bytes. */
  lemma {:induction false} RefusedAtStart(boundary: seq<Byte>, start: Core, s: seq<Byte>)
    requires Reachable(boundary, start)
    ensures var r := Feed(boundary, start, s); !r.ok && r.core.state.EntityStart? ==> r.used <= 1
    decreases |s|
  {
    hide Step;
    if s != [] {
      var s', c := s[..|s| - 1], s[|s| - 1];
      RefusedAtStart(boundary, start, s');
      LeavesStart(boundary, start, s');
      StepLeavesStart(boundary, Feed(boundary, start, s').core, c);
    }
  }

  lemma CountUpTo(t: seq<Event>, k: nat)
    requires k < |t|
    ensures t[..k + 1][|t[..k + 1]| - 1] == t[k]
    ensures DataOf(t[..k + 1]) == DataOf(t[..k]) + (if t[k].PartData? then t[k].data else [])
    ensures Begins(t[..k + 1]) == Begins(t[..k]) + (if t[k].PartBegin? then 1 else 0)
    ensures Ended(t[..k + 1]) == (Ended(t[..k]) || t[k] == BodyEnd)
    ensures |DataOf(t[..k + 1])| <= |DataOf(t)|
  {
    hide DataOf, Begins, Late, Ended;
    assert t[..k + 1] == t[..k] + [t[k]];
    CountSnoc(t[..k], t[k]);
    assert t == t[..k + 1] + t[k + 1..];
    CountConcat(t[..k + 1], t[k + 1..]);
  }
}
