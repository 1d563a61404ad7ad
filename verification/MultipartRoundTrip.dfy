/** Rendering a list of parts as section 5.1.1 of RFC 2046 prescribes, and parsing it back. */
module MultipartRoundTrip {
  import opened Bytes
  import opened MultipartAutomaton
  import opened MultipartMatching
  import opened MultipartParser

  /** A MIME header; `pad` is the number of spaces after the colon. */
  datatype Header = Header(name: seq<Byte>, pad: nat, value: seq<Byte>)
  datatype Part = Part(headers: seq<Header>, body: seq<Byte>)

  predicate IsName(name: seq<Byte>) {
    forall i :: 0 <= i < |name| ==> name[i] == HYPHEN || IsLetter(name[i])
  }

  predicate GoodHeader(h: Header) {
    IsName(h.name) && CR !in h.value && (|h.value| > 0 ==> h.value[0] != SPACE)
  }

  predicate GoodPart(boundary: seq<Byte>, p: Part) {
    (forall i :: 0 <= i < |p.headers| ==> GoodHeader(p.headers[i])) && !Occurs(Delimiter(boundary), p.body)
  }

  predicate GoodBoundary(boundary: seq<Byte>) {
    |boundary| > 0 && CR !in boundary
  }

  function Spaces(n: nat): (s: seq<Byte>)
    ensures |s| == n
  {
    if n == 0 then [] else Spaces(n - 1) + [SPACE]
  }

  function RenderHeader(h: Header): seq<Byte> {
    h.name + [COLON] + Spaces(h.pad) + (h.value + [CR]) + [LF]
  }

  function RenderHeaders(hs: seq<Header>): seq<Byte> {
    if |hs| == 0 then [] else RenderHeaders(hs[..|hs| - 1]) + RenderHeader(hs[|hs| - 1])
  }

  lemma RenderSnoc(hs: seq<Header>, h: Header)
    ensures RenderHeaders(hs + [h]) == RenderHeaders(hs) + RenderHeader(h)
  {
    hide RenderHeader;
    assert (hs + [h])[..|hs|] == hs;
  }

  /** Headers, a blank line, the body and the delimiter that follows it. */
  function RenderPart(boundary: seq<Byte>, p: Part): seq<Byte> {
    RenderHeaders(p.headers) + CRLF + (p.body + Delimiter(boundary))
  }

  function RenderParts(boundary: seq<Byte>, parts: seq<Part>): seq<Byte>
    requires |parts| > 0
  {
    if |parts| == 1 then RenderPart(boundary, parts[0])
    else RenderParts(boundary, parts[..|parts| - 1]) + CRLF + RenderPart(boundary, parts[|parts| - 1])
  }

  function Opening(boundary: seq<Byte>): seq<Byte> {
    [HYPHEN, HYPHEN] + boundary + CRLF
  }

  function Render(boundary: seq<Byte>, parts: seq<Part>): seq<Byte>
    requires |parts| > 0
  {
    Opening(boundary) + RenderParts(boundary, parts) + [HYPHEN, HYPHEN]
  }

  // ---------- the callbacks a consumer should see ----------

  function HeaderEvents(hs: seq<Header>): seq<Event> {
    if |hs| == 0 then []
    else HeaderEvents(hs[..|hs| - 1]) + [HeaderField(hs[|hs| - 1].name), HeaderValue(hs[|hs| - 1].value)]
  }

  function PartEvents(p: Part): seq<Event> {
    [PartBegin] + HeaderEvents(p.headers) + (DataTrace(p.body) + [PartEnd])
  }

  function PartsEvents(parts: seq<Part>): seq<Event> {
    if |parts| == 0 then [] else PartsEvents(parts[..|parts| - 1]) + PartEvents(parts[|parts| - 1])
  }

  function EntityEvents(parts: seq<Part>): seq<Event> {
    PartsEvents(parts) + [BodyEnd]
  }

  // ---------- composing runs of the automaton ----------

  /** From `core`, the automaton accepts `s`, ends in `core'` and calls back with `events`. */
  ghost predicate Goes(boundary: seq<Byte>, core: Core, s: seq<Byte>, core': Core, events: seq<Event>) {
    && Reachable(boundary, core) && Reachable(boundary, core')
    && var r := Feed(boundary, core, s);
    r.ok && !r.cut && r.core == core' && Same(true, r.out, events)
  }

  lemma GoesThen(boundary: seq<Byte>, core: Core, s: seq<Byte>, mid: Core, e: seq<Event>, t: seq<Byte>, core': Core,
                 f: seq<Event>)
    requires Goes(boundary, core, s, mid, e) && Goes(boundary, mid, t, core', f)
    ensures Goes(boundary, core, s + t, core', e + f)
  {
    hide Feed, Norm, Reachable;
    FeedConcat(boundary, core, s, t);
    SameConcat(true, Feed(boundary, core, s).out, e, Feed(boundary, mid, t).out, f);
  }

  lemma GoesNowhere(boundary: seq<Byte>, core: Core)
    requires Reachable(boundary, core)
    ensures Goes(boundary, core, [], core, [])
  {
  }

  lemma GoesByte(boundary: seq<Byte>, core: Core, c: Byte)
    requires Reachable(boundary, core) && Step(boundary, core, c).ok && !CutsName(core, c)
    ensures Goes(boundary, core, [c], Step(boundary, core, c).core, Step(boundary, core, c).out)
  {
    hide Feed, Step;
    FeedOne(boundary, core, c);
  }

  /** As `GoesThen` for a single further byte. */
  lemma GoesThenByte(boundary: seq<Byte>, core: Core, s: seq<Byte>, mid: Core, e: seq<Event>, c: Byte)
    requires Goes(boundary, core, s, mid, e)
    requires Step(boundary, mid, c).ok && !CutsName(mid, c)
    ensures Goes(boundary, core, s + [c], Step(boundary, mid, c).core, e + Step(boundary, mid, c).out)
  {
    hide Feed, Step, Goes;
    assert Reachable(boundary, mid) by { GoesReachable(boundary, core, s, mid, e); }
    GoesByte(boundary, mid, c);
    GoesThen(boundary, core, s, mid, e, [c], Step(boundary, mid, c).core, Step(boundary, mid, c).out);
  }

  lemma GoesReachable(boundary: seq<Byte>, core: Core, s: seq<Byte>, mid: Core, e: seq<Event>)
    requires Goes(boundary, core, s, mid, e)
    ensures Reachable(boundary, core) && Reachable(boundary, mid)
  {
  }

  lemma GoesSame(boundary: seq<Byte>, core: Core, s: seq<Byte>, core': Core, e: seq<Event>, f: seq<Event>)
    requires Goes(boundary, core, s, core', e) && Same(true, e, f)
    ensures Goes(boundary, core, s, core', f)
  {
  }

  // ---------- the grammar, production by production ----------

  lemma {:induction false} GoesBoundary(boundary: seq<Byte>, k: nat)
    requires GoodBoundary(boundary) && k <= |boundary|
    ensures Goes(boundary, Core(InitialBoundary, 0), boundary[..k], Core(InitialBoundary, k), [])
    decreases k
  {
    if k == 0 {
      assert boundary[..0] == [];
      GoesNowhere(boundary, Core(InitialBoundary, 0));
    } else {
      hide Goes, Feed;
      GoesBoundary(boundary, k - 1);
      GoesThenByte(boundary, Core(InitialBoundary, 0), boundary[..k - 1], Core(InitialBoundary, k - 1), [],
                   boundary[k - 1]);
      assert boundary[..k - 1] + [boundary[k - 1]] == boundary[..k];
    }
  }

  lemma GoesOpening(boundary: seq<Byte>)
    requires GoodBoundary(boundary)
    ensures Goes(boundary, Core(EntityStart, 0), Opening(boundary), Core(HeaderFieldStart, 0), [PartBegin])
  {
    hide Goes, Feed;
    var start := Core(EntityStart, 0);
    var none: seq<Event> := [];
    assert none + none == none;
    GoesByte(boundary, start, HYPHEN);
    GoesThenByte(boundary, start, [HYPHEN], Core(EntityStart, 1), [], HYPHEN);
    assert [HYPHEN] + [HYPHEN] == [HYPHEN, HYPHEN];
    GoesBoundary(boundary, |boundary|);
    assert boundary[..|boundary|] == boundary;
    var s := [HYPHEN, HYPHEN] + boundary;
    GoesThen(boundary, start, [HYPHEN, HYPHEN], Core(InitialBoundary, 0), [], boundary,
             Core(InitialBoundary, |boundary|), []);
    assert Goes(boundary, start, s, Core(InitialBoundary, |boundary|), []);
    GoesThenByte(boundary, start, s, Core(InitialBoundary, |boundary|), [], CR);
    GoesThenByte(boundary, start, s + [CR], Core(InitialBoundary, |boundary| + 1), [], LF);
    assert s + [CR] + [LF] == Opening(boundary);
    assert [] + [PartBegin] == [PartBegin];
  }

  lemma {:induction false} GoesName(boundary: seq<Byte>, index: nat, name: seq<Byte>)
    requires |boundary| > 0 && IsName(name)
    ensures Goes(boundary, Core(HeaderFieldStart, index), name,
                 Core(if name == [] then HeaderFieldStart else HeaderFieldProceed, index),
                 if name == [] then [] else [HeaderField(name)])
  {
    var start := Core(HeaderFieldStart, index);
    if name == [] {
      GoesNowhere(boundary, start);
    } else {
      hide Goes, Feed, Norm, Step;
      var init, c := name[..|name| - 1], name[|name| - 1];
      GoesName(boundary, index, init);
      var mid := Core(if init == [] then HeaderFieldStart else HeaderFieldProceed, index);
      var e := if init == [] then [] else [HeaderField(init)];
      StepInName(boundary, mid, c);
      GoesThenByte(boundary, start, init, mid, e, c);
      assert init + [c] == name;
      JoinOnto(e, HeaderField(init), HeaderField([c]));
      GoesSame(boundary, start, name, Core(HeaderFieldProceed, index), e + [HeaderField([c])], [HeaderField(name)]);
    }
  }

  lemma StepInName(boundary: seq<Byte>, core: Core, c: Byte)
    requires |boundary| > 0 && (core.state.HeaderFieldStart? || core.state.HeaderFieldProceed?)
    requires c == HYPHEN || IsLetter(c)
    ensures Step(boundary, core, c) == Accept(HeaderFieldProceed, core.index, [HeaderField([c])])
    ensures !CutsName(core, c)
  {
  }

  lemma StepInValue(boundary: seq<Byte>, core: Core, c: Byte)
    requires |boundary| > 0 && (core.state.HeaderValueStart? || core.state.HeaderValueProceed?)
    requires c != CR && (core.state.HeaderValueStart? ==> c != SPACE)
    ensures Step(boundary, core, c) == Accept(HeaderValueProceed, core.index, [HeaderValue([c])])
    ensures !CutsName(core, c)
  {
  }

  /** An accumulated callback, absent while it is empty, takes one more piece. */
  lemma JoinOnto(e: seq<Event>, a: Event, b: Event)
    requires SameKind(a, b)
    requires e == if a.data == [] then [] else [a]
    ensures Same(true, e + [b], [Join(a, b)])
  {
    if a.data == [] {
      assert a.data + b.data == b.data;
      assert e + [b] == [b];
    } else {
      SameJoin(true, [], a, b);
      assert [] + [a] + [b] == e + [b];
      assert [] + [Join(a, b)] == [Join(a, b)];
    }
  }

  lemma {:induction false} GoesSpaces(boundary: seq<Byte>, index: nat, n: nat)
    requires |boundary| > 0
    ensures Goes(boundary, Core(HeaderValueStart, index), Spaces(n), Core(HeaderValueStart, index), [])
  {
    var start := Core(HeaderValueStart, index);
    if n == 0 {
      GoesNowhere(boundary, start);
    } else {
      hide Goes, Feed;
      GoesSpaces(boundary, index, n - 1);
      GoesThenByte(boundary, start, Spaces(n - 1), start, [], SPACE);
    }
  }

  lemma {:induction false} GoesValue(boundary: seq<Byte>, index: nat, value: seq<Byte>)
    requires |boundary| > 0
    requires CR !in value && (|value| > 0 ==> value[0] != SPACE)
    ensures Goes(boundary, Core(HeaderValueStart, index), value,
                 Core(if value == [] then HeaderValueStart else HeaderValueProceed, index),
                 if value == [] then [] else [HeaderValue(value)])
  {
    var start := Core(HeaderValueStart, index);
    if value == [] {
      GoesNowhere(boundary, start);
    } else {
      hide Goes, Feed, Norm, Step;
      var init, c := value[..|value| - 1], value[|value| - 1];
      assert init != [] ==> init[0] == value[0];
      assert init == [] ==> c == value[0];
      GoesValue(boundary, index, init);
      var mid := Core(if init == [] then HeaderValueStart else HeaderValueProceed, index);
      var e := if init == [] then [] else [HeaderValue(init)];
      StepInValue(boundary, mid, c);
      GoesThenByte(boundary, start, init, mid, e, c);
      assert init + [c] == value;
      JoinOnto(e, HeaderValue(init), HeaderValue([c]));
      GoesSame(boundary, start, value, Core(HeaderValueProceed, index), e + [HeaderValue([c])], [HeaderValue(value)]);
    }
  }

  lemma GoesNameColon(boundary: seq<Byte>, index: nat, name: seq<Byte>)
    requires |boundary| > 0 && IsName(name)
    ensures Goes(boundary, Core(HeaderFieldStart, index), name + [COLON], Core(HeaderValueStart, index),
                 [HeaderField(name)])
  {
    hide Goes, Feed, Norm;
    GoesName(boundary, index, name);
    var e := if name == [] then [] else [HeaderField(name)];
    GoesThenByte(boundary, Core(HeaderFieldStart, index), name,
                 Core(if name == [] then HeaderFieldStart else HeaderFieldProceed, index), e, COLON);
    JoinOnto(e, HeaderField(name), HeaderField([]));
    assert name + [] == name;
    GoesSame(boundary, Core(HeaderFieldStart, index), name + [COLON], Core(HeaderValueStart, index),
             e + [HeaderField([])], [HeaderField(name)]);
  }

  lemma GoesValueCR(boundary: seq<Byte>, index: nat, value: seq<Byte>)
    requires |boundary| > 0
    requires CR !in value && (|value| > 0 ==> value[0] != SPACE)
    ensures Goes(boundary, Core(HeaderValueStart, index), value + [CR], Core(HeaderValuePossibleEnd, index),
                 [HeaderValue(value)])
  {
    hide Goes, Feed, Norm;
    GoesValue(boundary, index, value);
    var e := if value == [] then [] else [HeaderValue(value)];
    GoesThenByte(boundary, Core(HeaderValueStart, index), value,
                 Core(if value == [] then HeaderValueStart else HeaderValueProceed, index), e, CR);
    JoinOnto(e, HeaderValue(value), HeaderValue([]));
    assert value + [] == value;
    GoesSame(boundary, Core(HeaderValueStart, index), value + [CR], Core(HeaderValuePossibleEnd, index),
             e + [HeaderValue([])], [HeaderValue(value)]);
  }

  lemma GoesHeader(boundary: seq<Byte>, index: nat, h: Header)
    requires |boundary| > 0 && GoodHeader(h)
    ensures Goes(boundary, Core(HeaderFieldStart, index), RenderHeader(h), Core(HeaderFieldStart, index),
                 [HeaderField(h.name), HeaderValue(h.value)])
  {
    hide Goes, Feed, Norm;
    var start, valueStart := Core(HeaderFieldStart, index), Core(HeaderValueStart, index);
    var f, v := [HeaderField(h.name)], [HeaderValue(h.value)];
    GoesNameColon(boundary, index, h.name);
    GoesSpaces(boundary, index, h.pad);
    GoesThen(boundary, start, h.name + [COLON], valueStart, f, Spaces(h.pad), valueStart, []);
    assert f + [] == f;
    GoesValueCR(boundary, index, h.value);
    GoesThen(boundary, start, h.name + [COLON] + Spaces(h.pad), valueStart, f, h.value + [CR],
             Core(HeaderValuePossibleEnd, index), v);
    GoesThenByte(boundary, start, h.name + [COLON] + Spaces(h.pad) + (h.value + [CR]),
                 Core(HeaderValuePossibleEnd, index), f + v, LF);
    assert f + v + [] == [HeaderField(h.name), HeaderValue(h.value)];
  }

  lemma {:induction false} GoesHeaders(boundary: seq<Byte>, index: nat, hs: seq<Header>)
    requires |boundary| > 0 && forall i :: 0 <= i < |hs| ==> GoodHeader(hs[i])
    ensures Goes(boundary, Core(HeaderFieldStart, index), RenderHeaders(hs), Core(HeaderFieldStart, index),
                 HeaderEvents(hs))
  {
    var start := Core(HeaderFieldStart, index);
    if |hs| == 0 {
      GoesNowhere(boundary, start);
    } else {
      hide Goes, Feed, Norm;
      var init, h := hs[..|hs| - 1], hs[|hs| - 1];
      GoesHeaders(boundary, index, init);
      GoesHeader(boundary, index, h);
      GoesThen(boundary, start, RenderHeaders(init), start, HeaderEvents(init), RenderHeader(h), start,
               [HeaderField(h.name), HeaderValue(h.value)]);
    }
  }

  /** A body free of the delimiter is followed by its leftmost occurrence. */
  lemma DelimiterAfterBody(boundary: seq<Byte>, body: seq<Byte>)
    requires GoodBoundary(boundary) && !Occurs(Delimiter(boundary), body)
    ensures FirstAt(Delimiter(boundary), body + Delimiter(boundary), |body|)
  {
    var d := Delimiter(boundary);
    var s := body + d;
    assert s[|body|..|body| + |d|] == d;
    forall j | 0 <= j < |body| ensures !OccursAt(d, s, j) {
      if j + |d| <= |body| {
        assert s[j..j + |d|] == body[j..j + |d|];
        assert !OccursAt(d, body, j);
      } else {
        var k := |body| - j;
        assert s[j..j + |d|][k] == d[0] == CR;
        assert d[k] != CR;
      }
    }
  }

  lemma GoesBody(boundary: seq<Byte>, index: nat, body: seq<Byte>)
    requires GoodBoundary(boundary) && !Occurs(Delimiter(boundary), body)
    ensures Goes(boundary, Core(PartDataStart, index), body + Delimiter(boundary),
                 Core(PartDataPossibleEnd, |boundary|), DataTrace(body) + [PartEnd])
  {
    hide Feed, Norm;
    var d := Delimiter(boundary);
    var s := body + d;
    DelimiterAfterBody(boundary, body);
    DelimiterFound(boundary, index, s, |body|);
    assert s[..|body| + |d|] == s && s[..|body|] == body;
    DataTraceIsNormal(body);
  }

  lemma DataTraceIsNormal(body: seq<Byte>)
    ensures Norm(true, DataTrace(body) + [PartEnd]) == DataTrace(body) + [PartEnd]
  {
    NormOfPair(body);
    NormSnoc(true, DataTrace(body), PartEnd);
  }

  lemma GoesPart(boundary: seq<Byte>, index: nat, p: Part)
    requires GoodBoundary(boundary) && GoodPart(boundary, p)
    ensures Goes(boundary, Core(HeaderFieldStart, index), RenderPart(boundary, p),
                 Core(PartDataPossibleEnd, |boundary|), HeaderEvents(p.headers) + (DataTrace(p.body) + [PartEnd]))
  {
    hide Goes, Feed, Norm;
    var start := Core(HeaderFieldStart, index);
    var hs, e := RenderHeaders(p.headers), HeaderEvents(p.headers);
    GoesHeaders(boundary, index, p.headers);
    GoesThenByte(boundary, start, hs, start, e, CR);
    assert e + [] == e;
    GoesThenByte(boundary, start, hs + [CR], Core(HeadersPossibleEnd, index), e, LF);
    assert hs + [CR] + [LF] == hs + CRLF;
    GoesBody(boundary, index, p.body);
    GoesThen(boundary, start, hs + CRLF, Core(PartDataStart, index), e, p.body + Delimiter(boundary),
             Core(PartDataPossibleEnd, |boundary|), DataTrace(p.body) + [PartEnd]);
  }

  /** Between two parts: the rest of the delimiter line. */
  lemma GoesNextPart(boundary: seq<Byte>, s: seq<Byte>, e: seq<Event>)
    requires Goes(boundary, Core(HeaderFieldStart, 0), s, Core(PartDataPossibleEnd, |boundary|), e)
    ensures Goes(boundary, Core(HeaderFieldStart, 0), s + CRLF, Core(HeaderFieldStart, |boundary|), e + [PartBegin])
  {
    hide Feed, Norm;
    GoesThenByte(boundary, Core(HeaderFieldStart, 0), s, Core(PartDataPossibleEnd, |boundary|), e, CR);
    hide Goes;
    assert e + [] == e;
    GoesThenByte(boundary, Core(HeaderFieldStart, 0), s + [CR], Core(PartDataEnd, |boundary|), e, LF);
    assert s + [CR] + [LF] == s + CRLF;
  }

  lemma {:induction false} GoesParts(boundary: seq<Byte>, parts: seq<Part>)
    requires GoodBoundary(boundary) && |parts| > 0
    requires forall i :: 0 <= i < |parts| ==> GoodPart(boundary, parts[i])
    ensures PartsEvents(parts) != [] && PartsEvents(parts)[0] == PartBegin
    ensures Goes(boundary, Core(HeaderFieldStart, 0), RenderParts(boundary, parts),
                 Core(PartDataPossibleEnd, |boundary|), PartsEvents(parts)[1..])
  {
    hide Goes, Feed, Norm;
    var init, p := parts[..|parts| - 1], parts[|parts| - 1];
    var e := HeaderEvents(p.headers) + (DataTrace(p.body) + [PartEnd]);
    assert PartEvents(p) == [PartBegin] + e;
    if |parts| == 1 {
      GoesPart(boundary, 0, p);
      assert PartsEvents(init) == [];
      assert PartsEvents(parts)[1..] == e;
    } else {
      GoesParts(boundary, init);
      var s, f := RenderParts(boundary, init), PartsEvents(init)[1..];
      GoesNextPart(boundary, s, f);
      GoesPart(boundary, |boundary|, p);
      GoesThen(boundary, Core(HeaderFieldStart, 0), s + CRLF, Core(HeaderFieldStart, |boundary|), f + [PartBegin],
               RenderPart(boundary, p), Core(PartDataPossibleEnd, |boundary|), e);
      assert f + [PartBegin] + e == PartsEvents(parts)[1..];
    }
  }

  lemma GoesUpToLast(boundary: seq<Byte>, parts: seq<Part>)
    requires GoodBoundary(boundary) && |parts| > 0
    requires forall i :: 0 <= i < |parts| ==> GoodPart(boundary, parts[i])
    ensures Goes(boundary, Core(EntityStart, 0), Opening(boundary) + RenderParts(boundary, parts),
                 Core(PartDataPossibleEnd, |boundary|), PartsEvents(parts))
  {
    hide *;
    GoesOpening(boundary);
    GoesParts(boundary, parts);
    GoesThen(boundary, Core(EntityStart, 0), Opening(boundary), Core(HeaderFieldStart, 0), [PartBegin],
             RenderParts(boundary, parts), Core(PartDataPossibleEnd, |boundary|), PartsEvents(parts)[1..]);
    assert [PartBegin] + PartsEvents(parts)[1..] == PartsEvents(parts);
  }

  /** The closing delimiter: after its first hyphen, and after its second. */
  lemma GoesClosing(boundary: seq<Byte>, s: seq<Byte>, e: seq<Event>)
    requires |boundary| > 0
    requires Goes(boundary, Core(EntityStart, 0), s, Core(PartDataPossibleEnd, |boundary|), e)
    ensures Goes(boundary, Core(EntityStart, 0), s + [HYPHEN], Core(EntityPossibleEnd, |boundary|), e)
    ensures Goes(boundary, Core(EntityStart, 0), s + [HYPHEN, HYPHEN], Core(EntityEnd, |boundary|), e + [BodyEnd])
  {
    hide Goes, Feed, Norm;
    GoesThenByte(boundary, Core(EntityStart, 0), s, Core(PartDataPossibleEnd, |boundary|), e, HYPHEN);
    assert e + [] == e;
    GoesThenByte(boundary, Core(EntityStart, 0), s + [HYPHEN], Core(EntityPossibleEnd, |boundary|), e, HYPHEN);
    assert s + [HYPHEN] + [HYPHEN] == s + [HYPHEN, HYPHEN];
  }

  /** Parsing a rendered entity reports its parts, headers and bodies, and its end, in order. */
  lemma GoesEntity(boundary: seq<Byte>, parts: seq<Part>)
    requires GoodBoundary(boundary) && |parts| > 0
    requires forall i :: 0 <= i < |parts| ==> GoodPart(boundary, parts[i])
    ensures Goes(boundary, Core(EntityStart, 0), Render(boundary, parts), Core(EntityEnd, |boundary|),
                 EntityEvents(parts))
  {
    hide Goes, Feed, Norm, RenderParts, PartsEvents, Opening, GoodPart;
    GoesUpToLast(boundary, parts);
    GoesClosing(boundary, Opening(boundary) + RenderParts(boundary, parts), PartsEvents(parts));
  }

  // ---------- reading the callbacks back ----------

  /** A consumer of normalised callbacks that rebuilds the parts. */
  function AddEvent(ps: seq<Part>, e: Event): seq<Part> {
    if e.PartBegin? then ps + [Part([], [])]
    else if |ps| == 0 then ps
    else
      var p := ps[|ps| - 1];
      var hs := p.headers;
      ps[..|ps| - 1] + [
        match e
        case HeaderField(name) => p.(headers := hs + [Header(name, 0, [])])
        case HeaderValue(value) =>
          if |hs| == 0 then p
          else p.(headers := hs[..|hs| - 1] + [hs[|hs| - 1].(value := hs[|hs| - 1].value + value)])
        case PartData(data) => p.(body := p.body + data)
        case _ => p
      ]
  }

  function AddEvents(ps: seq<Part>, t: seq<Event>): seq<Part> {
    if |t| == 0 then ps else AddEvent(AddEvents(ps, t[..|t| - 1]), t[|t| - 1])
  }

  function Collect(events: seq<Event>): seq<Part> {
    AddEvents([], Norm(true, events))
  }

  lemma {:induction false} AddEventsConcat(ps: seq<Part>, t: seq<Event>, u: seq<Event>)
    ensures AddEvents(ps, t + u) == AddEvents(AddEvents(ps, t), u)
    decreases |u|
  {
    if |u| == 0 {
      assert t + u == t;
    } else {
      assert (t + u)[..|t + u| - 1] == t + u[..|u| - 1];
      AddEventsConcat(ps, t, u[..|u| - 1]);
    }
  }

  lemma AddEventsOne(ps: seq<Part>, e: Event)
    ensures AddEvents(ps, [e]) == AddEvent(ps, e)
  {
    assert [e][..0] == [];
  }

  /** What survives the trip: the number of spaces after a colon does not. */
  function Unpadded(hs: seq<Header>): seq<Header> {
    seq(|hs|, i requires 0 <= i < |hs| => hs[i].(pad := 0))
  }

  function Canonical(parts: seq<Part>): seq<Part> {
    seq(|parts|, i requires 0 <= i < |parts| => Part(Unpadded(parts[i].headers), parts[i].body))
  }

  lemma {:induction false} AddHeaders(ps: seq<Part>, hs: seq<Header>)
    ensures AddEvents(ps + [Part([], [])], HeaderEvents(hs)) == ps + [Part(Unpadded(hs), [])]
  {
    if |hs| == 0 {
      assert Unpadded(hs) == [];
    } else {
      var init, h := hs[..|hs| - 1], hs[|hs| - 1];
      AddHeaders(ps, init);
      var f, v := HeaderField(h.name), HeaderValue(h.value);
      var before := ps + [Part(Unpadded(init), [])];
      var mid := ps + [Part(Unpadded(init) + [Header(h.name, 0, [])], [])];
      assert [f, v] == [f] + [v];
      AddEventsConcat(ps + [Part([], [])], HeaderEvents(init), [f, v]);
      AddEventsConcat(before, [f], [v]);
      AddEventsOne(before, f);
      AddEventsOne(mid, v);
      assert AddEvent(before, f) == mid;
      assert [] + h.value == h.value;
      assert Unpadded(hs) == Unpadded(init) + [Header(h.name, 0, h.value)];
      assert AddEvent(mid, v) == ps + [Part(Unpadded(hs), [])];
    }
  }

  lemma AddBody(ps: seq<Part>, hs: seq<Header>, body: seq<Byte>)
    ensures AddEvents(ps + [Part(hs, [])], DataTrace(body) + [PartEnd]) == ps + [Part(hs, body)]
  {
    var before, after := ps + [Part(hs, [])], ps + [Part(hs, body)];
    AddEventsConcat(before, DataTrace(body), [PartEnd]);
    AddEventsOne(after, PartEnd);
    AddEventsOne(before, HeadersComplete);
    assert AddEvent(after, PartEnd) == after;
    assert AddEvent(before, HeadersComplete) == before;
    if body != [] {
      assert DataTrace(body) == [HeadersComplete] + [PartData(body)];
      AddEventsConcat(before, [HeadersComplete], [PartData(body)]);
      AddEventsOne(before, PartData(body));
      assert [] + body == body;
    }
  }

  lemma AddPart(ps: seq<Part>, p: Part)
    ensures AddEvents(ps, PartEvents(p)) == ps + [Part(Unpadded(p.headers), p.body)]
  {
    hide AddEvents;
    var e, f := HeaderEvents(p.headers), DataTrace(p.body) + [PartEnd];
    AddEventsConcat(ps, [PartBegin] + e, f);
    AddEventsConcat(ps, [PartBegin], e);
    AddEventsOne(ps, PartBegin);
    AddHeaders(ps, p.headers);
    AddBody(ps, Unpadded(p.headers), p.body);
  }

  lemma CanonicalSnoc(init: seq<Part>, p: Part)
    ensures Canonical(init + [p]) == Canonical(init) + [Part(Unpadded(p.headers), p.body)]
  {
    hide Unpadded;
  }

  lemma PartsEventsSnoc(init: seq<Part>, p: Part)
    ensures PartsEvents(init + [p]) == PartsEvents(init) + PartEvents(p)
  {
    hide PartEvents;
    assert (init + [p])[..|init|] == init;
  }

  lemma AddPartsSnoc(init: seq<Part>, p: Part)
    requires AddEvents([], PartsEvents(init)) == Canonical(init)
    ensures AddEvents([], PartsEvents(init + [p])) == Canonical(init + [p])
  {
    hide *;
    PartsEventsSnoc(init, p);
    AddEventsConcat([], PartsEvents(init), PartEvents(p));
    AddPart(Canonical(init), p);
    CanonicalSnoc(init, p);
  }

  lemma {:induction false} AddParts(parts: seq<Part>)
    ensures AddEvents([], PartsEvents(parts)) == Canonical(parts)
  {
    if |parts| == 0 {
      assert PartsEvents(parts) == [];
      assert Canonical(parts) == [];
    } else {
      hide *;
      assert parts == parts[..|parts| - 1] + [parts[|parts| - 1]];
      AddParts(parts[..|parts| - 1]);
      AddPartsSnoc(parts[..|parts| - 1], parts[|parts| - 1]);
    }
  }

  // ---------- the expected callbacks are already in normal form ----------

  predicate IsNormal(t: seq<Event>) {
    forall i :: 0 < i < |t| ==> !SameKind(t[i - 1], t[i])
  }

  lemma {:induction false} NormOfNormal(t: seq<Event>)
    requires IsNormal(t)
    ensures Norm(true, t) == t
  {
    if |t| > 0 {
      NormOfNormal(t[..|t| - 1]);
    }
  }

  lemma NormalConcat(t: seq<Event>, u: seq<Event>)
    requires IsNormal(t) && IsNormal(u)
    requires |t| > 0 && |u| > 0 ==> !SameKind(t[|t| - 1], u[0])
    ensures IsNormal(t + u)
  {
  }

  lemma {:induction false} HeaderEventsNormal(hs: seq<Header>)
    ensures IsNormal(HeaderEvents(hs)) && BodyEnd !in HeaderEvents(hs)
    ensures |hs| > 0 ==> HeaderEvents(hs) != [] && HeaderEvents(hs)[|HeaderEvents(hs)| - 1].HeaderValue?
    ensures |hs| > 0 ==> HeaderEvents(hs)[0].HeaderField?
    ensures |hs| == 0 ==> HeaderEvents(hs) == []
  {
    if |hs| > 0 {
      HeaderEventsNormal(hs[..|hs| - 1]);
    }
  }

  lemma PartEventsNormal(p: Part)
    ensures IsNormal(PartEvents(p)) && BodyEnd !in PartEvents(p)
    ensures PartEvents(p) != [] && PartEvents(p)[0].PartBegin? && PartEvents(p)[|PartEvents(p)| - 1].PartEnd?
  {
    hide IsNormal, HeaderEvents;
    HeaderEventsNormal(p.headers);
    BodyNormal(p.body);
    OneNormal(PartBegin);
    NormalConcat([PartBegin], HeaderEvents(p.headers));
    NormalConcat([PartBegin] + HeaderEvents(p.headers), DataTrace(p.body) + [PartEnd]);
  }

  lemma OneNormal(e: Event)
    ensures IsNormal([e])
  {
  }

  lemma BodyNormal(body: seq<Byte>)
    ensures IsNormal(DataTrace(body) + [PartEnd])
  {
  }

  lemma {:induction false} PartsEventsNormal(parts: seq<Part>)
    ensures IsNormal(PartsEvents(parts)) && BodyEnd !in PartsEvents(parts)
    ensures PartsEvents(parts) != [] ==> PartsEvents(parts)[|PartsEvents(parts)| - 1].PartEnd?
  {
    if |parts| > 0 {
      hide IsNormal, PartEvents;
      PartsEventsNormal(parts[..|parts| - 1]);
      PartEventsNormal(parts[|parts| - 1]);
      NormalConcat(PartsEvents(parts[..|parts| - 1]), PartEvents(parts[|parts| - 1]));
    }
  }

  lemma EntityEventsNormal(parts: seq<Part>)
    ensures Norm(true, EntityEvents(parts)) == EntityEvents(parts)
    ensures BodyEnd !in PartsEvents(parts)
  {
    PartsEventsNormal(parts);
    NormalConcat(PartsEvents(parts), [BodyEnd]);
    NormOfNormal(EntityEvents(parts));
  }

  /**
   Round trip: whatever callbacks the parser makes for a rendered entity, it is accepted, and they
   give back the parts, headers and bodies, then end once.
   */
  lemma RoundTrip(boundary: seq<Byte>, parts: seq<Part>, events: seq<Event>)
    requires GoodBoundary(boundary) && |parts| > 0
    requires forall i :: 0 <= i < |parts| ==> GoodPart(boundary, parts[i])
    requires Agrees(events, Feed(boundary, START, Render(boundary, parts)))
    ensures Feed(boundary, START, Render(boundary, parts)).ok
    ensures Collect(events) == Canonical(parts)
    ensures Norm(true, events) == PartsEvents(parts) + [BodyEnd] && BodyEnd !in PartsEvents(parts)
  {
    hide Feed, Norm, AddEvents, GoodPart;
    GoesEntity(boundary, parts);
    EntityEventsNormal(parts);
    AddParts(parts);
    AddEventsConcat([], PartsEvents(parts), [BodyEnd]);
    AddEventsOne(Canonical(parts), BodyEnd);
    assert AddEvent(Canonical(parts), BodyEnd) == Canonical(parts);
  }

  /** The parser on such an entity, delivered in any pieces of which the first has three bytes. */
  method ParseRendered(boundary: seq<Byte>, ghost parts: seq<Part>, pieces: seq<seq<Byte>>)
    returns (got: seq<Part>, events: seq<Event>, ok: bool)
    requires GoodBoundary(boundary) && |parts| > 0
    requires forall i :: 0 <= i < |parts| ==> GoodPart(boundary, parts[i])
    requires Flatten(pieces) == Render(boundary, parts) && |pieces| > 0 && |pieces[0]| >= 3
    ensures ok && got == Canonical(parts)
    ensures Norm(true, events) == PartsEvents(parts) + [BodyEnd] && BodyEnd !in PartsEvents(parts)
  {
    hide Feed, Norm, AddEvents, GoodPart, Render;
    var p := new Parser(boundary);
    events, ok := ExecutePieces(p, pieces);
    RoundTrip(boundary, parts, events);
    got := Collect(events);
  }
}
