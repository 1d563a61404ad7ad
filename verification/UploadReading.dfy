/** What the upload driver makes of an entity, slice by slice, and how that compares with the automaton. */
module UploadReading {
  import opened Bytes
  import opened MultipartAutomaton
  import opened MultipartCounting
  import opened MultipartParser

  /** Size of a slice, APP_FILECHUNK_WR_BUF_SZ. */
  const SLICE: nat := 128

  /** What the driver has come to. `Looping` stands for a loop that repeats the same pass for ever. */
  datatype Progress = Writing | Closing | DataError | OsError | StorageError | Looping

  /** How the driver ends, and the writes it asks for on the way. */
  datatype Reading = Reading(outcome: Progress, writes: seq<seq<Byte>>)

  function SliceLen(rd: nat, len: nat): nat
    requires rd < len
  {
    if len - rd - 1 > SLICE then SLICE else len - rd - 1
  }

  /** Where a slice may end. */
  predicate Aligned(rd: nat, len: nat) {
    rd % SLICE == 0 || rd == len - 1
  }

  lemma AlignedNext(rd: nat, len: nat)
    requires Aligned(rd, len) && rd < len
    ensures Aligned(rd + SliceLen(rd, len), len)
  {
  }

  /** A write, unless there is nothing to write. */
  function Writes(data: seq<Byte>): seq<seq<Byte>> {
    if data == [] then [] else [data]
  }

  function Then(writes: seq<seq<Byte>>, r: Reading): Reading {
    r.(writes := writes + r.writes)
  }

  /**
   Reading from byte `rd` on, in the automaton's state `core` and with `parts` parts begun. A slice
   counts as read when all its bytes were taken, when only its last byte was refused, and when the
   body ended in it. The last byte of the entity is never read.
   */
  function Read(boundary: seq<Byte>, entity: seq<Byte>, rd: nat, core: Core, parts: nat): Reading
    requires |boundary| > 0 && rd < |entity| && Reachable(boundary, core)
    decreases |entity| - rd
  {
    var m := SliceLen(rd, |entity|);
    var r := Feed(boundary, core, entity[rd..rd + m]);
    if parts + Begins(r.out) > 1 then Reading(OsError, [])
    else if Ended(r.out) then Reading(Closing, Writes(DataOf(r.out)))
    else if !r.ok && r.used + 1 < m then Reading(OsError, [])
    else if m == 0 then Reading(Looping, [])
    else Then(Writes(DataOf(r.out)), Read(boundary, entity, rd + m, r.core, parts + Begins(r.out)))
  }

  /** The reading of a whole entity. */
  function ReadAll(boundary: seq<Byte>, entity: seq<Byte>): Reading
    requires |boundary| > 0 && |entity| > 0
  {
    Read(boundary, entity, 0, START, 0)
  }

  lemma ThenThen(a: seq<seq<Byte>>, b: seq<seq<Byte>>, r: Reading)
    ensures Then(a, Then(b, r)) == Then(a + b, r)
  {
    assert a + (b + r.writes) == a + b + r.writes;
  }

  lemma FlattenSnoc(pieces: seq<seq<Byte>>, piece: seq<Byte>)
    ensures Flatten(pieces + [piece]) == Flatten(pieces) + piece
  {
    assert (pieces + [piece])[..|pieces|] == pieces;
  }

  lemma {:induction false} FlattenConcat(a: seq<seq<Byte>>, b: seq<seq<Byte>>)
    ensures Flatten(a + b) == Flatten(a) + Flatten(b)
  {
    if b == [] {
      assert a + b == a && Flatten(a) + [] == Flatten(a);
    } else {
      hide Flatten;
      var n := |b| - 1;
      FlattenConcat(a, b[..n]);
      FlattenSnoc(a + b[..n], b[n]);
      FlattenSnoc(b[..n], b[n]);
      assert a + b[..n] + [b[n]] == a + b && b[..n] + [b[n]] == b;
      assert Flatten(a) + (Flatten(b[..n]) + b[n]) == Flatten(a) + Flatten(b[..n]) + b[n];
    }
  }

  lemma FlattenWrites(data: seq<Byte>)
    ensures Flatten(Writes(data)) == data
  {
    if data != [] {
      assert [data][..0] == [];
      assert [] + data == data;
    }
  }

  // ---------- the automaton on all bytes that may be read ----------

  /** The automaton's verdict on all bytes of the entity but the last. */
  function Whole(boundary: seq<Byte>, entity: seq<Byte>): (w: FeedResult)
    requires |boundary| > 0 && |entity| > 0
    ensures Reachable(boundary, w.core)
  {
    Feed(boundary, START, entity[..|entity| - 1])
  }

  /** A second part, or a refused byte before the end of the body. */
  predicate Fails(w: FeedResult) {
    Begins(w.out) > 1 || (!w.ok && !Ended(w.out))
  }

  /** Every byte but the last is acceptable, and the body does not end in them. */
  predicate Truncated(w: FeedResult) {
    w.ok && !Ended(w.out) && Begins(w.out) <= 1
  }

  /** Exactly one part, whose closing delimiter comes before the last byte. */
  predicate Complete(w: FeedResult) {
    Ended(w.out) && Begins(w.out) <= 1
  }

  /** The refused byte is the last of a slice. */
  predicate PassesOver(w: FeedResult, len: nat) {
    !w.ok && !Ended(w.out) && Begins(w.out) <= 1 && Aligned(w.used + 1, len)
  }

  /** Everything reported for a prefix is reported for the whole. */
  lemma PrefixReports(boundary: seq<Byte>, start: Core, s: seq<Byte>, k: nat)
    requires Reachable(boundary, start) && !start.state.EntityEnd? && k <= |s|
    ensures var a := Feed(boundary, start, s[..k]);
            var w := Feed(boundary, start, s);
            && Begins(a.out) <= Begins(w.out)
            && (Ended(a.out) || !a.ok ==> w.out == a.out && w.used == a.used)
            && (!a.ok ==> w == a)
  {
    hide Feed, DataOf, Begins, Late, Ended, Reachable;
    assert s == s[..k] + s[k..];
    FeedConcat(boundary, start, s[..k], s[k..]);
    var a := Feed(boundary, start, s[..k]);
    FeedConserves(boundary, start, s[..k]);
    if a.ok {
      CountConcat(a.out, Feed(boundary, a.core, s[k..]).out);
      if Ended(a.out) {
        EndIsFinal(boundary, a.core, s[k..]);
        assert a.out + [] == a.out;
      }
    }
  }

  /** The verdict after one more slice. */
  lemma SliceAdds(boundary: seq<Byte>, s: seq<Byte>, rd: nat, m: nat)
    requires |boundary| > 0 && rd <= m <= |s| && Feed(boundary, START, s[..rd]).ok
    ensures var a := Feed(boundary, START, s[..rd]);
            var b := Feed(boundary, a.core, s[rd..m]);
            var c := Feed(boundary, START, s[..m]);
            && c == Resume(a, b)
            && DataOf(c.out) == DataOf(a.out) + DataOf(b.out)
            && Begins(c.out) == Begins(a.out) + Begins(b.out)
            && Ended(c.out) == (Ended(a.out) || Ended(b.out))
  {
    hide Feed, DataOf, Begins, Late, Ended;
    assert s[..m] == s[..rd] + s[rd..m];
    FeedConcat(boundary, START, s[..rd], s[rd..m]);
    CountConcat(Feed(boundary, START, s[..rd]).out, Feed(boundary, Feed(boundary, START, s[..rd]).core, s[rd..m]).out);
  }

  /** The first `rd` bytes were taken without an end or a second part; their data is `data`. */
  ghost predicate Known(boundary: seq<Byte>, s: seq<Byte>, rd: nat, core: Core, data: seq<Byte>, parts: nat)
    requires |boundary| > 0 && rd <= |s|
  {
    var r := Feed(boundary, START, s[..rd]);
    r.ok && !Ended(r.out) && core == r.core && DataOf(r.out) == data && Begins(r.out) == parts
  }

  /** What a slice, fed with outcome `b`, tells about the whole stream `s`. */
  lemma SliceVerdict(boundary: seq<Byte>, s: seq<Byte>, rd: nat, m: nat, core: Core, data: seq<Byte>, parts: nat)
    requires |boundary| > 0 && rd <= m <= |s| && Known(boundary, s, rd, core, data, parts) && Reachable(boundary, core)
    ensures var b := Feed(boundary, core, s[rd..m]);
            var w := Feed(boundary, START, s);
            && Begins(w.out) >= parts + Begins(b.out)
            && (Ended(b.out) || !b.ok ==>
                  && DataOf(w.out) == data + DataOf(b.out) && Begins(w.out) == parts + Begins(b.out)
                  && Ended(w.out) == Ended(b.out) && w.used == rd + b.used)
            && (!b.ok ==> !w.ok && w.core == b.core)
            && (b.ok && !Ended(b.out) ==> Known(boundary, s, m, b.core, data + DataOf(b.out), parts + Begins(b.out)))
  {
    hide Feed, DataOf, Begins, Late, Ended;
    SliceAdds(boundary, s, rd, m);
    PrefixReports(boundary, START, s, m);
    FeedLength(boundary, START, s, rd);
  }

  lemma FeedLength(boundary: seq<Byte>, start: Core, s: seq<Byte>, rd: nat)
    requires Reachable(boundary, start) && rd <= |s| && Feed(boundary, start, s[..rd]).ok
    ensures Feed(boundary, start, s[..rd]).used == rd
  {
  }

  /** As `SliceVerdict`, for all bytes of the entity but the last. */
  lemma WholeVerdict(boundary: seq<Byte>, entity: seq<Byte>, rd: nat, m: nat, core: Core, data: seq<Byte>, parts: nat)
    requires |boundary| > 0 && rd <= m < |entity| && Known(boundary, entity, rd, core, data, parts)
    requires Reachable(boundary, core)
    ensures var b := Feed(boundary, core, entity[rd..m]);
            var w := Whole(boundary, entity);
            && Begins(w.out) >= parts + Begins(b.out)
            && (Ended(b.out) || !b.ok ==>
                  && DataOf(w.out) == data + DataOf(b.out) && Begins(w.out) == parts + Begins(b.out)
                  && Ended(w.out) == Ended(b.out) && w.used == rd + b.used)
            && (!b.ok ==> !w.ok && w.core == b.core)
            && (b.ok && !Ended(b.out) ==>
                  Known(boundary, entity, m, b.core, data + DataOf(b.out), parts + Begins(b.out)))
  {
    hide Feed, DataOf, Begins, Late, Ended, Reachable;
    var s := entity[..|entity| - 1];
    assert s[rd..m] == entity[rd..m] && s[..rd] == entity[..rd] && s[..m] == entity[..m];
    SliceVerdict(boundary, s, rd, m, core, data, parts);
  }

  /** What the reading from a known position comes to, by the automaton's verdict `w`. */
  ghost predicate Fits(v: Reading, w: FeedResult, data: seq<Byte>, len: nat) {
    && (Complete(w) ==> v.outcome == Closing && data + Flatten(v.writes) == DataOf(w.out))
    && (Truncated(w) ==> v.outcome == Looping && data + Flatten(v.writes) == DataOf(w.out))
    && (Fails(w) && !PassesOver(w, len) ==> v.outcome == OsError)
  }

  /** At the position behind a byte that is passed over, the reading goes on in the state of the refusal. */
  ghost predicate GoesOn(v: Reading, boundary: seq<Byte>, entity: seq<Byte>, data: seq<Byte>)
    requires |boundary| > 0 && |entity| > 0
  {
    var w := Whole(boundary, entity);
    PassesOver(w, |entity|) ==>
      w.used + 1 < |entity| &&
      exists ws :: v == Then(ws, Read(boundary, entity, w.used + 1, w.core, Begins(w.out)))
                   && data + Flatten(ws) == DataOf(w.out)
  }

  lemma Later(writes: seq<seq<Byte>>, v: Reading, w: FeedResult, data: seq<Byte>, more: seq<Byte>, len: nat)
    requires Fits(v, w, data + more, len) && writes == Writes(more)
    ensures Fits(Then(writes, v), w, data, len)
  {
    hide Complete, Truncated, Fails, PassesOver, DataOf, Flatten;
    FlattenConcat(writes, v.writes);
    FlattenWrites(more);
    assert data + more + Flatten(v.writes) == data + (more + Flatten(v.writes));
  }

  lemma LaterOn(boundary: seq<Byte>, entity: seq<Byte>, v: Reading, data: seq<Byte>, more: seq<Byte>)
    requires |boundary| > 0 && |entity| > 0 && GoesOn(v, boundary, entity, data + more)
    ensures GoesOn(Then(Writes(more), v), boundary, entity, data)
  {
    hide PassesOver, DataOf, Flatten, Whole, Read, Writes;
    var w := Whole(boundary, entity);
    if PassesOver(w, |entity|) {
      var rest := Read(boundary, entity, w.used + 1, w.core, Begins(w.out));
      var ws :| v == Then(ws, rest) && data + more + Flatten(ws) == DataOf(w.out);
      ThenThen(Writes(more), ws, rest);
      FlattenConcat(Writes(more), ws);
      FlattenWrites(more);
      assert data + more + Flatten(ws) == data + (more + Flatten(ws));
    }
  }

  /** One slice: its verdict settles the reading, or the reading goes on behind it. */
  lemma SliceSettles(boundary: seq<Byte>, entity: seq<Byte>, rd: nat, core: Core, data: seq<Byte>, parts: nat)
    requires |boundary| > 0 && rd < |entity| && Aligned(rd, |entity|) && parts <= 1
    requires Known(boundary, entity, rd, core, data, parts) && Reachable(boundary, core)
    ensures var m := SliceLen(rd, |entity|);
            var b := Feed(boundary, core, entity[rd..rd + m]);
            var v := Read(boundary, entity, rd, core, parts);
            var on := b.ok && !Ended(b.out) && parts + Begins(b.out) <= 1 && m > 0;
            && (on ==> v == Then(Writes(DataOf(b.out)), Read(boundary, entity, rd + m, b.core, parts + Begins(b.out))))
            && (!on ==> Fits(v, Whole(boundary, entity), data, |entity|) && GoesOn(v, boundary, entity, data))
  {
    hide Feed, DataOf, Begins, Late, Ended, Reachable, Whole;
    var m := SliceLen(rd, |entity|);
    var b := Feed(boundary, core, entity[rd..rd + m]);
    var w := Whole(boundary, entity);
    WholeVerdict(boundary, entity, rd, rd + m, core, data, parts);
    AlignedNext(rd, |entity|);
    hide Known;
    FlattenWrites(DataOf(b.out));
    if m == 0 {
      Standstill(boundary, entity, rd, core, data, parts);
    } else if !b.ok && !Ended(b.out) && parts + Begins(b.out) <= 1 {
      EndOfSlice(rd, |entity|, b.used);
    }
  }

  /** With nothing left to read but the last byte, the whole is known. */
  lemma Standstill(boundary: seq<Byte>, entity: seq<Byte>, rd: nat, core: Core, data: seq<Byte>, parts: nat)
    requires |boundary| > 0 && rd == |entity| - 1 && parts <= 1
    requires Known(boundary, entity, rd, core, data, parts) && Reachable(boundary, core)
    ensures Truncated(Whole(boundary, entity)) && DataOf(Whole(boundary, entity).out) == data
    ensures Read(boundary, entity, rd, core, parts) == Reading(Looping, [])
  {
    hide DataOf, Begins, Late, Reachable, Step;
    assert entity[rd..rd + SliceLen(rd, |entity|)] == [];
    CountEmpty();
  }

  /** A slice that is refused at its last byte ends at an aligned position, and at no other byte. */
  lemma EndOfSlice(rd: nat, len: nat, used: nat)
    requires rd < len && Aligned(rd, len) && used < SliceLen(rd, len)
    ensures Aligned(rd + used + 1, len) <==> used + 1 == SliceLen(rd, len)
  {
    AlignedNext(rd, len);
    if used + 1 < SLICE { NotAligned(rd, used + 1); }
  }

  lemma NotAligned(rd: nat, n: nat)
    requires rd % SLICE == 0 && 0 < n < SLICE
    ensures (rd + n) % SLICE == n
  {
    var q := rd / SLICE;
    assert rd + n == SLICE * q + n;
  }

  lemma {:induction false} ReadMeans(boundary: seq<Byte>, entity: seq<Byte>, rd: nat, core: Core, data: seq<Byte>,
                                     parts: nat)
    requires |boundary| > 0 && rd < |entity| && Aligned(rd, |entity|) && parts <= 1
    requires Known(boundary, entity, rd, core, data, parts) && Reachable(boundary, core)
    ensures Fits(Read(boundary, entity, rd, core, parts), Whole(boundary, entity), data, |entity|)
    ensures GoesOn(Read(boundary, entity, rd, core, parts), boundary, entity, data)
    decreases |entity| - rd
  {
    hide Feed, DataOf, Begins, Late, Ended, Known, Whole, Read, Fits, GoesOn, Then, Reachable;
    var m := SliceLen(rd, |entity|);
    var b := Feed(boundary, core, entity[rd..rd + m]);
    SliceSettles(boundary, entity, rd, core, data, parts);
    if b.ok && !Ended(b.out) && parts + Begins(b.out) <= 1 && m > 0 {
      WholeVerdict(boundary, entity, rd, rd + m, core, data, parts);
      AlignedNext(rd, |entity|);
      ReadMeans(boundary, entity, rd + m, b.core, data + DataOf(b.out), parts + Begins(b.out));
      var v := Read(boundary, entity, rd + m, b.core, parts + Begins(b.out));
      Later(Writes(DataOf(b.out)), v, Whole(boundary, entity), data, DataOf(b.out), |entity|);
      LaterOn(boundary, entity, v, data, DataOf(b.out));
    }
  }

  lemma KnownAtStart(boundary: seq<Byte>, entity: seq<Byte>)
    requires |boundary| > 0
    ensures Known(boundary, entity, 0, START, [], 0)
  {
    assert entity[..0] == [];
    CountEmpty();
  }

  /** The verdicts exclude each other and leave nothing out. */
  lemma OneVerdict(w: FeedResult)
    ensures Complete(w) || Truncated(w) || Fails(w)
    ensures !(Complete(w) && Truncated(w)) && !(Complete(w) && Fails(w)) && !(Truncated(w) && Fails(w))
  {
    hide Begins, Ended;
  }

  /**
   Without a byte that is passed over, the reading is the automaton's verdict: a complete single
   part is closed, a truncated one loops, a failing entity is reported, and each only then.
   */
  lemma Verdict(boundary: seq<Byte>, entity: seq<Byte>)
    requires |boundary| > 0 && |entity| > 0 && !PassesOver(Whole(boundary, entity), |entity|)
    ensures var w, v := Whole(boundary, entity), ReadAll(boundary, entity);
            && (v.outcome == Closing <==> Complete(w))
            && (v.outcome == Looping <==> Truncated(w))
            && (v.outcome == OsError <==> Fails(w))
            && (v.outcome != OsError ==> Flatten(v.writes) == DataOf(w.out))
  {
    hide Feed, DataOf, Begins, Late, Ended, Known, Whole, Read, Flatten, Complete, Truncated, Fails, PassesOver;
    KnownAtStart(boundary, entity);
    ReadMeans(boundary, entity, 0, START, [], 0);
    OneVerdict(Whole(boundary, entity));
    assert [] + Flatten(ReadAll(boundary, entity).writes) == Flatten(ReadAll(boundary, entity).writes);
  }

  /**
   With such a byte, the reading is that of the bytes behind it, begun in the state of the refusal:
   the data before it is written, and an error is reported exactly if one is reported from there.
   */
  lemma VerdictBehind(boundary: seq<Byte>, entity: seq<Byte>) returns (ws: seq<seq<Byte>>)
    requires |boundary| > 0 && |entity| > 0 && PassesOver(Whole(boundary, entity), |entity|)
    ensures var w := Whole(boundary, entity);
            && w.used + 1 < |entity|
            && ReadAll(boundary, entity) == Then(ws, Read(boundary, entity, w.used + 1, w.core, Begins(w.out)))
            && Flatten(ws) == DataOf(w.out)
  {
    hide Feed, DataOf, Begins, Late, Ended, Known, Whole, Read, Flatten, PassesOver;
    KnownAtStart(boundary, entity);
    ReadMeans(boundary, entity, 0, START, [], 0);
    var w := Whole(boundary, entity);
    ws :| ReadAll(boundary, entity) == Then(ws, Read(boundary, entity, w.used + 1, w.core, Begins(w.out)))
          && [] + Flatten(ws) == DataOf(w.out);
    assert [] + Flatten(ws) == Flatten(ws);
  }
}
