/** Entities with a byte that the automaton refuses and the upload driver passes over. */
module UploadPassedOver {
  import opened Bytes
  import opened MultipartAutomaton
  import opened MultipartCounting
  import opened MultipartMatching
  import opened MultipartParser
  import opened MultipartRoundTrip
  import opened UploadOfOnePart
  import opened UploadReading

  /** No byte of a field name, and none that ends one. */
  predicate Refused(c: Byte) {
    c != CR && c != COLON && c != HYPHEN && !IsLetter(c)
  }

  /** What stands in front of the refused byte. */
  function Front(boundary: seq<Byte>, name: seq<Byte>): seq<Byte> {
    Opening(boundary) + name
  }

  /** What stands behind it: the value of the header, the body and the closing delimiter. */
  function Behind(boundary: seq<Byte>, h: Header, body: seq<Byte>): seq<Byte> {
    [COLON] + Spaces(h.pad) + (h.value + [CR]) + [LF] + [CR] + [LF] + (body + Delimiter(boundary)) + [HYPHEN] + [HYPHEN]
  }

  lemma GoesFront(boundary: seq<Byte>, name: seq<Byte>)
    requires GoodBoundary(boundary) && IsName(name) && name != []
    ensures Goes(boundary, START, Front(boundary, name), Core(HeaderFieldProceed, 0), [PartBegin, HeaderField(name)])
  {
    hide Goes, Feed, Norm, Step, IsName, Opening;
    GoesOpening(boundary);
    GoesName(boundary, 0, name);
    GoesThen(boundary, START, Opening(boundary), Core(HeaderFieldStart, 0), [PartBegin], name,
             Core(HeaderFieldProceed, 0), [HeaderField(name)]);
    assert [PartBegin] + [HeaderField(name)] == [PartBegin, HeaderField(name)];
  }

  lemma GoesHeaderEnd(boundary: seq<Byte>, h: Header)
    requires |boundary| > 0 && GoodHeader(h)
    ensures Goes(boundary, Core(HeaderFieldProceed, 0), [COLON] + Spaces(h.pad) + (h.value + [CR]) + [LF],
                 Core(HeaderFieldStart, 0), [HeaderField([]), HeaderValue(h.value)])
  {
    hide Goes, Feed, Norm;
    var start, value := Core(HeaderFieldProceed, 0), Core(HeaderValueStart, 0);
    var f, v := [HeaderField([])], [HeaderValue(h.value)];
    var s := [COLON] + Spaces(h.pad);
    GoesByte(boundary, start, COLON);
    GoesSpaces(boundary, 0, h.pad);
    GoesThen(boundary, start, [COLON], value, f, Spaces(h.pad), value, []);
    assert f + [] == f;
    GoesValueCR(boundary, 0, h.value);
    GoesThen(boundary, start, s, value, f, h.value + [CR], Core(HeaderValuePossibleEnd, 0), v);
    GoesThenByte(boundary, start, s + (h.value + [CR]), Core(HeaderValuePossibleEnd, 0), f + v, LF);
    assert f + v + [] == [HeaderField([]), HeaderValue(h.value)];
  }

  lemma GoesBehind(boundary: seq<Byte>, h: Header, body: seq<Byte>)
    requires GoodBoundary(boundary) && GoodHeader(h) && !Occurs(Delimiter(boundary), body)
    ensures Goes(boundary, Core(HeaderFieldProceed, 0), Behind(boundary, h, body), Core(EntityEnd, |boundary|),
                 [HeaderField([]), HeaderValue(h.value)] + (DataTrace(body) + [PartEnd]) + [BodyEnd])
  {
    hide Goes, Feed, Norm, Occurs, GoodHeader, DataTrace, Delimiter;
    var start := Core(HeaderFieldProceed, 0);
    var s := [COLON] + Spaces(h.pad) + (h.value + [CR]) + [LF];
    var e, f := [HeaderField([]), HeaderValue(h.value)], DataTrace(body) + [PartEnd];
    GoesHeaderEnd(boundary, h);
    GoesThenByte(boundary, start, s, Core(HeaderFieldStart, 0), e, CR);
    assert e + [] == e;
    GoesThenByte(boundary, start, s + [CR], Core(HeadersPossibleEnd, 0), e, LF);
    GoesBody(boundary, 0, body);
    GoesThen(boundary, start, s + [CR] + [LF], Core(PartDataStart, 0), e, body + Delimiter(boundary),
             Core(PartDataPossibleEnd, |boundary|), f);
    var t := s + [CR] + [LF] + (body + Delimiter(boundary));
    GoesThenByte(boundary, start, t, Core(PartDataPossibleEnd, |boundary|), e + f, HYPHEN);
    assert e + f + [] == e + f;
    GoesThenByte(boundary, start, t + [HYPHEN], Core(EntityPossibleEnd, |boundary|), e + f, HYPHEN);
  }

  /** The first slice: everything but its last byte is taken. */
  lemma FirstSlice(boundary: seq<Byte>, name: seq<Byte>, c: Byte)
    requires GoodBoundary(boundary) && IsName(name) && name != [] && Refused(c)
    ensures var r := Feed(boundary, START, Front(boundary, name) + [c]);
            && !r.ok && r.used == |Front(boundary, name)| && r.core == Core(HeaderFieldProceed, 0)
            && Begins(r.out) == 1 && DataOf(r.out) == [] && !Ended(r.out)
  {
    hide Feed, Norm, DataOf, Begins, Late, Ended, Front;
    var s, e := Front(boundary, name), [PartBegin, HeaderField(name)];
    GoesFront(boundary, name);
    FeedSnoc(boundary, START, s, c);
    var r := Feed(boundary, START, s);
    CountSnoc(r.out, NameDropped);
    CountSame(true, r.out, e);
    CountEmpty();
    CountSnoc([], PartBegin);
    CountSnoc([PartBegin], HeaderField(name));
    assert [] + [PartBegin] == [PartBegin] && [PartBegin] + [HeaderField(name)] == e;
    NotEndedYet();
  }

  lemma NotEndedYet()
    ensures !Ended([])
  {
  }

  /** The second slice: the body ends in it. */
  lemma SecondSlice(boundary: seq<Byte>, h: Header, body: seq<Byte>, z: seq<Byte>)
    requires GoodBoundary(boundary) && GoodHeader(h) && !Occurs(Delimiter(boundary), body)
    ensures var r := Feed(boundary, Core(HeaderFieldProceed, 0), Behind(boundary, h, body) + z);
            Begins(r.out) == 0 && DataOf(r.out) == body && Ended(r.out)
  {
    hide Feed, Norm, DataOf, Begins, Late, Ended, Behind, Occurs, GoodHeader, DataTrace, Delimiter;
    var start, s := Core(HeaderFieldProceed, 0), Behind(boundary, h, body);
    var e, f := [HeaderField([]), HeaderValue(h.value)], DataTrace(body) + [PartEnd];
    GoesBehind(boundary, h, body);
    var r := Feed(boundary, start, s);
    CountSame(true, r.out, e + f + [BodyEnd]);
    DataTraceCount(body);
    TwoHeaderEvents(h.value);
    CountConcat(e, f);
    CountSnoc(e + f, BodyEnd);
    FeedConcat(boundary, start, s, z);
    EndIsFinal(boundary, r.core, z);
    assert r.out + [] == r.out;
  }

  lemma TwoHeaderEvents(value: seq<Byte>)
    ensures var e := [HeaderField([]), HeaderValue(value)]; DataOf(e) == [] && Begins(e) == 0 && !Ended(e)
  {
    hide DataOf, Begins, Late;
    CountEmpty();
    CountSnoc([], HeaderField([]));
    CountSnoc([HeaderField([])], HeaderValue(value));
    assert [] + [HeaderField([])] == [HeaderField([])];
    assert [HeaderField([])] + [HeaderValue(value)] == [HeaderField([]), HeaderValue(value)];
  }

  /**
   A field name that runs to the end of the first slice and ends there in a byte no name may have:
   the automaton refuses the entity, and the driver stores its body and closes the file.
   */
  lemma RefusedYetStored(boundary: seq<Byte>, name: seq<Byte>, c: Byte, h: Header, body: seq<Byte>, tail: seq<Byte>)
    requires GoodBoundary(boundary) && IsName(name) && name != [] && Refused(c) && |Front(boundary, name)| + 1 == SLICE
    requires GoodHeader(h) && !Occurs(Delimiter(boundary), body)
    requires 0 < |tail| && |Behind(boundary, h, body)| + |tail| <= SLICE + 1
    ensures var entity := Front(boundary, name) + [c] + Behind(boundary, h, body) + tail;
            var w := Whole(boundary, entity);
            && Fails(w) && PassesOver(w, |entity|)
            && ReadAll(boundary, entity) == Reading(Closing, Writes(body))
  {
    hide Feed, Norm, DataOf, Begins, Late, Ended, Front, Behind, Occurs, GoodHeader, Delimiter, Refused, IsName;
    var first, second, z := Front(boundary, name) + [c], Behind(boundary, h, body), tail[..|tail| - 1];
    var entity := first + second + tail;
    FirstSlice(boundary, name, c);
    SecondSlice(boundary, h, body, z);
    assert entity[0..SLICE] == first && entity[SLICE..|entity| - 1] == second + z;
    assert entity[..|entity| - 1][..SLICE] == first;
    FeedStopsAt(boundary, START, entity[..|entity| - 1], SLICE);
    assert Read(boundary, entity, SLICE, Core(HeaderFieldProceed, 0), 1) == Reading(Closing, Writes(body));
    assert Writes([]) + Writes(body) == Writes(body);
  }

  /** Such an entity: the boundary `b`, a name of 122 letters and the digit 1, one header and a short body. */
  lemma SuchAnEntity() returns (entity: seq<Byte>)
    ensures |entity| > 0
    ensures Fails(Whole([98], entity)) && ReadAll([98], entity) == Reading(Closing, [[98, 111, 100, 121]])
  {
    var name := seq(122, _ => 65);
    var h, body, tail := Header([65], 1, [120]), [98, 111, 100, 121], CRLF;
    assert |Spaces(1)| == 1;
    assert !Occurs(Delimiter([98]), body);
    RefusedYetStored([98], name, 49, h, body, tail);
    entity := Front([98], name) + [49] + Behind([98], h, body) + tail;
  }
}
