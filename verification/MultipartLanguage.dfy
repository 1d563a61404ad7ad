/** The language of the automaton: it accepts the beginnings of entities, and no other stream. */
module MultipartLanguage {
  import opened Bytes
  import opened MultipartAutomaton
  import opened MultipartGrammar
  import opened MultipartMatching
  import opened MultipartParser
  import opened MultipartRoundTrip
  import opened Sequences

  // ---- What has been read in each state ----

  /** How an accepted stream falls into whole parts and what has been read of the next. */
  datatype Parse = Parse(
    done: seq<Piece>, headers: seq<Header>, name: seq<Byte>, pad: nat, value: seq<Byte>, body: seq<Byte>, index: nat)

  function Lines(boundary: seq<Byte>, w: Parse): seq<Byte> {
    Before(boundary, w.done) + RenderHeaders(w.headers)
  }

  function Named(boundary: seq<Byte>, w: Parse): seq<Byte> {
    Lines(boundary, w) + w.name + [COLON] + Spaces(w.pad)
  }

  function Blank(boundary: seq<Byte>, w: Parse): seq<Byte> {
    Lines(boundary, w) + w.name + CRLF
  }

  predicate GoodValue(value: seq<Byte>) {
    CR !in value && (|value| > 0 ==> value[0] != SPACE)
  }

  predicate ParsedOpening(boundary: seq<Byte>, s: seq<Byte>, core: Core) {
    && |boundary| > 0
    && if core.state.EntityStart? then core.index <= 1 && s == Opening(boundary)[..core.index]
       else core.index <= |boundary| + 1 && s == Opening(boundary)[..2 + core.index]
  }

  predicate ParsedHeader(boundary: seq<Byte>, s: seq<Byte>, core: Core, w: Parse) {
    && IsName(w.name)
    && match core.state
       case HeaderFieldStart => s == Lines(boundary, w)
       case HeaderFieldProceed => s == Lines(boundary, w) + w.name
       case HeaderValueStart => s == Named(boundary, w)
       case HeaderValueProceed => s == Named(boundary, w) + w.value && w.value != [] && GoodValue(w.value)
       case HeaderValuePossibleEnd => s == Named(boundary, w) + (w.value + [CR]) && GoodValue(w.value)
       case HeadersPossibleEnd => s == Lines(boundary, w) + w.name + [CR]
       case _ => s == Blank(boundary, w)
  }

  predicate ParsedBody(boundary: seq<Byte>, s: seq<Byte>, w: Parse) {
    && IsName(w.name) && w.body != [] && !Occurs(Delimiter(boundary), w.body)
    && s == Blank(boundary, w) + w.body && |boundary| > 0
    && Feed(boundary, START, Blank(boundary, w)).ok
    && Feed(boundary, START, Blank(boundary, w)).core == Core(PartDataStart, w.index)
  }

  predicate ParsedClose(boundary: seq<Byte>, s: seq<Byte>, core: Core, w: Parse) {
    && w.done != []
    && var t := Closed(boundary, w.done);
    match core.state
    case PartDataPossibleEnd => s == t
    case PartDataEnd => s == t + [CR]
    case EntityPossibleEnd => s == t + [HYPHEN]
    case _ => s == t + [HYPHEN, HYPHEN]
  }

  predicate InOpening(st: State) {
    st.EntityStart? || st.InitialBoundary?
  }

  predicate InHeader(st: State) {
    || st.HeaderFieldStart? || st.HeaderFieldProceed? || st.HeaderValueStart? || st.HeaderValueProceed?
    || st.HeaderValuePossibleEnd? || st.HeadersPossibleEnd? || st.PartDataStart?
  }

  predicate Parsed(boundary: seq<Byte>, s: seq<Byte>, core: Core, w: Parse) {
    && GoodPieces(boundary, w.done) && GoodHeaders(w.headers)
    && if InOpening(core.state) then ParsedOpening(boundary, s, core)
       else if InHeader(core.state) then ParsedHeader(boundary, s, core, w)
       else if InData(core) then ParsedBody(boundary, s, w)
       else ParsedClose(boundary, s, core, w)
  }

  const NOTHING := Parse([], [], [], 0, [], [], 0)

  lemma OpeningStep(boundary: seq<Byte>, s: seq<Byte>, core: Core, w: Parse, c: Byte) returns (v: Parse)
    requires Parsed(boundary, s, core, w) && InOpening(core.state)
    requires Reachable(boundary, core) && Step(boundary, core, c).ok
    ensures Parsed(boundary, s + [c], Step(boundary, core, c).core, v)
  {
    hide Occurs, GoodHeader, GoodPiece;
    v := NOTHING;
    assert Lines(boundary, v) == Opening(boundary);
  }

  lemma NameStep(boundary: seq<Byte>, s: seq<Byte>, core: Core, w: Parse, c: Byte) returns (v: Parse)
    requires Parsed(boundary, s, core, w) && (core.state.HeaderFieldStart? || core.state.HeaderFieldProceed?)
    requires Reachable(boundary, core) && Step(boundary, core, c).ok
    ensures Parsed(boundary, s + [c], Step(boundary, core, c).core, v)
  {
    hide Occurs, GoodHeader, GoodPiece, Lines;
    var name := if core.state.HeaderFieldStart? then [] else w.name;
    var at := Lines(boundary, w);
    assert s == at + name;
    if c == CR {
      v := w.(name := name);
    } else if c == COLON {
      v := w.(name := name, pad := 0);
      assert s + [c] == at + name + [COLON] + [];
    } else {
      v := w.(name := name + [c]);
      assert s + [c] == at + (name + [c]);
    }
    SameLines(boundary, w, v);
  }

  lemma SameLines(boundary: seq<Byte>, w: Parse, v: Parse)
    requires v.done == w.done && v.headers == w.headers
    ensures Lines(boundary, v) == Lines(boundary, w)
  {
  }

  lemma ValueStep(boundary: seq<Byte>, s: seq<Byte>, core: Core, w: Parse, c: Byte) returns (v: Parse)
    requires Parsed(boundary, s, core, w) && (core.state.HeaderValueStart? || core.state.HeaderValueProceed?)
    requires Reachable(boundary, core) && Step(boundary, core, c).ok
    ensures Parsed(boundary, s + [c], Step(boundary, core, c).core, v)
  {
    hide Occurs, GoodHeader, GoodPiece, Lines;
    var value := if core.state.HeaderValueStart? then [] else w.value;
    assert s == Named(boundary, w) + value;
    if c == SPACE && core.state.HeaderValueStart? {
      v := w.(pad := w.pad + 1);
      SameLines(boundary, w, v);
      assert s + [c] == Lines(boundary, w) + w.name + [COLON] + (Spaces(w.pad) + [SPACE]);
    } else if c == CR {
      v := w.(value := value);
      SameLines(boundary, w, v);
      assert s + [c] == Named(boundary, w) + (value + [CR]);
    } else {
      v := w.(value := value + [c]);
      SameLines(boundary, w, v);
      assert s + [c] == Named(boundary, w) + (value + [c]);
    }
  }

  lemma HeadersSnoc(boundary: seq<Byte>, w: Parse, v: Parse)
    requires v.done == w.done && v.headers == w.headers + [Header(w.name, w.pad, w.value)]
    requires IsName(w.name) && GoodValue(w.value) && GoodHeaders(w.headers)
    ensures Lines(boundary, v) == Named(boundary, w) + (w.value + [CR]) + [LF] && GoodHeaders(v.headers)
  {
    hide Before, Spaces, IsName, GoodHeader;
    var h := Header(w.name, w.pad, w.value);
    assert GoodHeader(h) by { GoodOne(h); }
    RenderSnoc(w.headers, h);
    var at, hs := Before(boundary, w.done), RenderHeaders(w.headers);
    assert at + (hs + RenderHeader(h)) == at + hs + RenderHeader(h);
    HeaderLine(Lines(boundary, w), h);
  }

  lemma GoodOne(h: Header)
    requires IsName(h.name) && GoodValue(h.value)
    ensures GoodHeader(h)
  {
  }

  lemma HeaderLine(s: seq<Byte>, h: Header)
    ensures s + RenderHeader(h) == s + h.name + [COLON] + Spaces(h.pad) + (h.value + [CR]) + [LF]
  {
    hide Spaces;
    var t := h.name + [COLON] + Spaces(h.pad) + (h.value + [CR]);
    assert s + (t + [LF]) == s + t + [LF];
  }

  lemma LineStep(boundary: seq<Byte>, s: seq<Byte>, core: Core, w: Parse, c: Byte) returns (v: Parse)
    requires Parsed(boundary, s, core, w) && (core.state.HeaderValuePossibleEnd? || core.state.HeadersPossibleEnd?)
    requires Reachable(boundary, core) && Step(boundary, core, c).ok
    ensures Parsed(boundary, s + [c], Step(boundary, core, c).core, v)
  {
    hide Occurs, GoodPiece, Lines;
    if core.state.HeadersPossibleEnd? {
      v := w;
      assert s + [c] == Lines(boundary, w) + w.name + CRLF;
    } else {
      v := w.(headers := w.headers + [Header(w.name, w.pad, w.value)]);
      HeadersSnoc(boundary, w, v);
    }
  }

  /** A delimiter that was not there before the last byte ends with it. */
  lemma LastByteCompletes(d: seq<Byte>, body: seq<Byte>, c: Byte) returns (k: nat)
    requires |d| > 0 && !Occurs(d, body) && Occurs(d, body + [c])
    ensures FirstAt(d, body + [c], k) && body + [c] == body[..k] + d && k <= |body|
  {
    var s := body + [c];
    k :| 0 <= k <= |s| && OccursAt(d, s, k);
    forall j | 0 <= j && j + |d| <= |body| ensures !OccursAt(d, s, j) {
      assert !OccursAt(d, body, j);
      assert s[j..j + |d|] == body[j..j + |d|];
    }
    assert k + |d| == |s|;
    assert s == s[..k] + s[k..k + |d|] && s[..k] == body[..k];
  }

  /** One more byte of part data. */
  lemma BodyStep(boundary: seq<Byte>, head: seq<Byte>, index: nat, body: seq<Byte>, c: Byte)
    returns (k: nat)
    requires GoodBoundary(boundary) && !Occurs(Delimiter(boundary), body)
    requires Feed(boundary, START, head).ok && Feed(boundary, START, head).core == Core(PartDataStart, index)
    ensures var core := Feed(boundary, START, head + (body + [c])).core;
            if Occurs(Delimiter(boundary), body + [c]) then
              && k <= |body| && body + [c] == body[..k] + Delimiter(boundary)
              && core == Core(PartDataPossibleEnd, |boundary|)
            else InData(core)
  {
    hide Feed, Occurs;
    var d, s := Delimiter(boundary), body + [c];
    FeedConcat(boundary, START, head, s);
    k := 0;
    if Occurs(d, s) {
      k := LastByteCompletes(d, body, c);
      DelimiterFound(boundary, index, s, k);
      assert s[..k + |d|] == s;
    } else {
      NoDelimiterYet(boundary, index, s);
    }
  }

  lemma DataStep(boundary: seq<Byte>, s: seq<Byte>, core: Core, w: Parse, c: Byte) returns (v: Parse)
    requires GoodBoundary(boundary) && Parsed(boundary, s, core, w) && (core.state.PartDataStart? || InData(core))
    requires Feed(boundary, START, s).ok && core == Feed(boundary, START, s).core
    ensures Parsed(boundary, s + [c], Feed(boundary, START, s + [c]).core, v)
  {
    hide Feed, Occurs, GoodHeaders, GoodPieces, IsName, Delimiter, Blank, NOTHING, InHeader, InOpening;
    var head := Blank(boundary, w);
    var body, index := if InData(core) then w.body else [], if InData(core) then w.index else core.index;
    AtData(boundary, s, core, w);
    assert s + [c] == head + (body + [c]);
    var k := BodyStep(boundary, head, index, body, c);
    if Occurs(Delimiter(boundary), body + [c]) {
      v := PieceDone(boundary, w, body, k);
      ClosedIsParsed(boundary, head + (body + [c]), v);
    } else {
      v := w.(body := body + [c], index := index);
      SameBlank(boundary, w, v);
      BodyIsParsed(boundary, s + [c], Feed(boundary, START, s + [c]).core, v);
    }
  }

  /** What has been read when part data may come. */
  lemma AtData(boundary: seq<Byte>, s: seq<Byte>, core: Core, w: Parse)
    requires |boundary| > 0 && Parsed(boundary, s, core, w) && (core.state.PartDataStart? || InData(core))
    requires Feed(boundary, START, s).ok && core == Feed(boundary, START, s).core
    ensures var body, index := if InData(core) then w.body else [], if InData(core) then w.index else core.index;
            && s == Blank(boundary, w) + body && !Occurs(Delimiter(boundary), body)
            && IsName(w.name) && GoodHeaders(w.headers) && GoodPieces(boundary, w.done)
            && Feed(boundary, START, Blank(boundary, w)).ok
            && Feed(boundary, START, Blank(boundary, w)).core == Core(PartDataStart, index)
  {
    hide Feed, Occurs, GoodHeaders, GoodPieces, IsName, Delimiter, Blank;
    NothingOccurs(boundary);
    if !InData(core) { assert s + [] == s; }
  }

  lemma SameBlank(boundary: seq<Byte>, w: Parse, v: Parse)
    requires v.done == w.done && v.headers == w.headers && v.name == w.name
    ensures Blank(boundary, v) == Blank(boundary, w)
  {
  }

  lemma BodyIsParsed(boundary: seq<Byte>, s: seq<Byte>, core: Core, w: Parse)
    requires GoodPieces(boundary, w.done) && GoodHeaders(w.headers) && InData(core) && ParsedBody(boundary, s, w)
    ensures Parsed(boundary, s, core, w)
  {
    hide ParsedBody, GoodPieces, GoodHeaders;
  }

  lemma ClosedIsParsed(boundary: seq<Byte>, s: seq<Byte>, w: Parse)
    requires GoodPieces(boundary, w.done) && GoodHeaders(w.headers) && w.done != [] && s == Closed(boundary, w.done)
    ensures Parsed(boundary, s, Core(PartDataPossibleEnd, |boundary|), w)
  {
    hide GoodPieces, GoodHeaders, Closed;
  }

  lemma PieceDone(boundary: seq<Byte>, w: Parse, body: seq<Byte>, k: nat) returns (v: Parse)
    requires GoodPieces(boundary, w.done) && GoodHeaders(w.headers) && IsName(w.name)
    requires !Occurs(Delimiter(boundary), body) && k <= |body|
    ensures v.done != [] && GoodPieces(boundary, v.done) && GoodHeaders(v.headers)
    ensures Closed(boundary, v.done) == Blank(boundary, w) + (body[..k] + Delimiter(boundary))
  {
    hide Occurs, Delimiter, Before, GoodHeader, IsName;
    var p := Piece(w.headers, w.name, body[..k]);
    v := NOTHING.(done := w.done + [p]);
    OccursPrefix(Delimiter(boundary), body, k);
    ClosedSnoc(boundary, w.done, p);
    assert Blank(boundary, w) == Before(boundary, w.done) + Head(p);
  }

  lemma NothingOccurs(boundary: seq<Byte>)
    ensures !Occurs(Delimiter(boundary), [])
  {
  }

  lemma NoHeaders()
    ensures GoodHeaders([])
  {
  }

  lemma CloseStep(boundary: seq<Byte>, s: seq<Byte>, core: Core, w: Parse, c: Byte) returns (v: Parse)
    requires Parsed(boundary, s, core, w) && !InOpening(core.state) && !InHeader(core.state) && !InData(core)
    requires Reachable(boundary, core) && Step(boundary, core, c).ok
    ensures Parsed(boundary, s + [c], Step(boundary, core, c).core, v)
  {
    hide Occurs, GoodHeader, GoodPiece, Closed;
    v := NOTHING.(done := w.done);
    var t := Closed(boundary, w.done);
    assert t + [CR] + [LF] == t + CRLF && t + [HYPHEN] + [HYPHEN] == t + [HYPHEN, HYPHEN];
    assert Lines(boundary, v) == t + CRLF;
  }

  /** Every accepted stream falls into parts and a part under way, as its state says. */
  lemma {:induction false} AcceptedParses(boundary: seq<Byte>, s: seq<Byte>) returns (w: Parse)
    requires GoodBoundary(boundary) && Feed(boundary, START, s).ok
    ensures Parsed(boundary, s, Feed(boundary, START, s).core, w)
  {
    if s == [] {
      w := NOTHING;
      FeedEmpty(boundary, START);
    } else {
      var n := |s| - 1;
      var t, c := s[..n], s[n];
      assert s == t + [c];
      FeedSnoc(boundary, START, t, c);
      var core := Feed(boundary, START, t).core;
      hide Feed, Parsed, Step;
      w := AcceptedParses(boundary, t);
      if InOpening(core.state) {
        w := OpeningStep(boundary, t, core, w, c);
      } else if core.state.HeaderFieldStart? || core.state.HeaderFieldProceed? {
        w := NameStep(boundary, t, core, w, c);
      } else if core.state.HeaderValueStart? || core.state.HeaderValueProceed? {
        w := ValueStep(boundary, t, core, w, c);
      } else if core.state.HeaderValuePossibleEnd? || core.state.HeadersPossibleEnd? {
        w := LineStep(boundary, t, core, w, c);
      } else if core.state.PartDataStart? || InData(core) {
        w := DataStep(boundary, t, core, w, c);
      } else {
        w := CloseStep(boundary, t, core, w, c);
      }
    }
  }

  // ---- Every accepted stream can be completed ----

  /** What may follow the headers: a blank line, no body, and the closing delimiter. */
  function Ending(boundary: seq<Byte>): seq<Byte> {
    Delimiter(boundary) + [HYPHEN, HYPHEN]
  }

  lemma Finishes(boundary: seq<Byte>, done: seq<Piece>, p: Piece, s: seq<Byte>)
    requires GoodPieces(boundary, done) && GoodPiece(boundary, p)
    requires s == Before(boundary, done) + Head(p) + p.body
    ensures IsEntity(boundary, s + Ending(boundary), done + [p])
  {
    ClosedSnoc(boundary, done, p);
    hide GoodPieces, GoodPiece, Before, Head, Delimiter, Closed;
    Regroup(Before(boundary, done) + Head(p), p.body, Delimiter(boundary), [HYPHEN, HYPHEN]);
  }

  lemma Regroup(a: seq<Byte>, b: seq<Byte>, c: seq<Byte>, d: seq<Byte>)
    ensures a + (b + c) + d == a + b + (c + d)
  {
  }

  lemma OpeningEnds(boundary: seq<Byte>, s: seq<Byte>, core: Core, w: Parse) returns (t: seq<Byte>, ps: seq<Piece>)
    requires Parsed(boundary, s, core, w) && InOpening(core.state)
    ensures IsEntity(boundary, s + t, ps)
  {
    var o := Opening(boundary);
    assert s <= o;
    hide Parsed, Opening, Ending, IsEntity;
    NoName();
    NoHeaders();
    assert Lines(boundary, NOTHING) + [] + CRLF == o + CRLF by { OpeningLines(boundary); }
    t := o[|s|..] + CRLF + Ending(boundary);
    ps := NamesEnd(boundary, NOTHING, [], o + CRLF);
    assert s + o[|s|..] == o;
    assert s + t == s + o[|s|..] + CRLF + Ending(boundary);
  }

  lemma OpeningLines(boundary: seq<Byte>)
    ensures Lines(boundary, NOTHING) + [] + CRLF == Opening(boundary) + CRLF
  {
    hide Opening;
  }

  lemma NamesEnd(boundary: seq<Byte>, w: Parse, name: seq<Byte>, s: seq<Byte>) returns (ps: seq<Piece>)
    requires GoodPieces(boundary, w.done) && GoodHeaders(w.headers) && IsName(name)
    requires s == Lines(boundary, w) + name + CRLF
    ensures IsEntity(boundary, s + Ending(boundary), ps)
  {
    hide GoodPieces, GoodHeaders, IsName, Before, Ending, Occurs;
    var p := Piece(w.headers, name, []);
    NothingOccurs(boundary);
    ps := w.done + [p];
    assert s == Before(boundary, w.done) + Head(p) + [];
    Finishes(boundary, w.done, p, s);
  }

  lemma HeaderEnds(boundary: seq<Byte>, s: seq<Byte>, core: Core, w: Parse) returns (t: seq<Byte>, ps: seq<Piece>)
    requires Parsed(boundary, s, core, w) && InHeader(core.state)
    ensures IsEntity(boundary, s + t, ps)
  {
    hide GoodPieces, GoodHeaders, IsName, Lines, Ending, IsEntity, Spaces;
    var e := Ending(boundary);
    match core.state
    case HeaderFieldStart =>
      assert s + CRLF == Lines(boundary, w) + [] + CRLF && s + (CRLF + e) == s + CRLF + e;
      NoName();
      t := CRLF + e;
      ps := NamesEnd(boundary, w, [], s + CRLF);
    case HeaderFieldProceed =>
      assert s + (CRLF + e) == s + CRLF + e;
      t := CRLF + e;
      ps := NamesEnd(boundary, w, w.name, s + CRLF);
    case HeadersPossibleEnd =>
      assert s + [LF] == Lines(boundary, w) + w.name + CRLF && s + ([LF] + e) == s + [LF] + e;
      t := [LF] + e;
      ps := NamesEnd(boundary, w, w.name, s + [LF]);
    case PartDataStart =>
      t := e;
      ps := NamesEnd(boundary, w, w.name, s);
    case HeaderValueStart =>
      assert s + CRLF == s + ([] + [CR]) + [LF] && s + (CRLF + CRLF + e) == s + CRLF + CRLF + e;
      t := CRLF + CRLF + e;
      SameLines(boundary, w, w.(value := []));
      ps := ValueEnds(boundary, w.(value := []), s + CRLF);
    case HeaderValueProceed =>
      assert s + CRLF == Named(boundary, w) + (w.value + [CR]) + [LF];
      assert s + (CRLF + CRLF + e) == s + CRLF + CRLF + e;
      t := CRLF + CRLF + e;
      ps := ValueEnds(boundary, w, s + CRLF);
    case HeaderValuePossibleEnd =>
      assert s + ([LF] + CRLF + e) == s + [LF] + CRLF + e;
      t := [LF] + CRLF + e;
      ps := ValueEnds(boundary, w, s + [LF]);
  }

  lemma NoName()
    ensures IsName([])
  {
  }

  lemma ValueEnds(boundary: seq<Byte>, w: Parse, s: seq<Byte>) returns (ps: seq<Piece>)
    requires GoodPieces(boundary, w.done) && GoodHeaders(w.headers) && IsName(w.name) && GoodValue(w.value)
    requires s == Named(boundary, w) + (w.value + [CR]) + [LF]
    ensures IsEntity(boundary, s + CRLF + Ending(boundary), ps)
  {
    hide GoodPieces, GoodHeaders, IsName, Lines, Ending, IsEntity, Named;
    var v := w.(headers := w.headers + [Header(w.name, w.pad, w.value)]);
    HeadersSnoc(boundary, w, v);
    NoName();
    assert s + CRLF == Lines(boundary, v) + [] + CRLF;
    ps := NamesEnd(boundary, v, [], s + CRLF);
  }

  lemma BodyEnds(boundary: seq<Byte>, s: seq<Byte>, core: Core, w: Parse) returns (t: seq<Byte>, ps: seq<Piece>)
    requires Parsed(boundary, s, core, w) && InData(core)
    ensures IsEntity(boundary, s + t, ps)
  {
    hide GoodPieces, GoodHeaders, IsName, Ending, IsEntity, Occurs, Feed, Before, Delimiter;
    var p := Piece(w.headers, w.name, w.body);
    t, ps := Ending(boundary), w.done + [p];
    assert Blank(boundary, w) == Before(boundary, w.done) + Head(p);
    Finishes(boundary, w.done, p, s);
  }

  lemma CloseEnds(boundary: seq<Byte>, s: seq<Byte>, core: Core, w: Parse) returns (t: seq<Byte>, ps: seq<Piece>)
    requires Parsed(boundary, s, core, w) && !InOpening(core.state) && !InHeader(core.state) && !InData(core)
    ensures IsEntity(boundary, s + t, ps)
    ensures core.state.EntityEnd? ==> t == []
  {
    hide GoodPieces, GoodHeaders, Closed, Ending, Feed;
    var c := Closed(boundary, w.done);
    t, ps := [], w.done;
    assert s + [] == s;
    match core.state
    case PartDataPossibleEnd => t := [HYPHEN, HYPHEN];
    case EntityPossibleEnd =>
      t := [HYPHEN];
      assert c + [HYPHEN] + [HYPHEN] == c + [HYPHEN, HYPHEN];
    case PartDataEnd =>
      t := [LF] + CRLF + Ending(boundary);
      var v := NOTHING.(done := w.done);
      NoName();
      NoHeaders();
      assert s + [LF] + CRLF == c + CRLF + [] + [] + CRLF == Lines(boundary, v) + [] + CRLF;
      hide IsEntity;
      ps := NamesEnd(boundary, v, [], s + [LF] + CRLF);
      assert s + t == s + [LF] + CRLF + Ending(boundary);
    case _ =>
  }

  /** Whatever has been accepted, some continuation makes it an entity; behind its end there is nothing to add. */
  lemma Completes(boundary: seq<Byte>, s: seq<Byte>) returns (t: seq<Byte>, ps: seq<Piece>)
    requires GoodBoundary(boundary) && Feed(boundary, START, s).ok
    ensures IsEntity(boundary, s + t, ps)
    ensures Feed(boundary, START, s).core.state.EntityEnd? ==> t == []
  {
    hide Feed, Parsed, IsEntity;
    var core := Feed(boundary, START, s).core;
    var w := AcceptedParses(boundary, s);
    if InOpening(core.state) {
      t, ps := OpeningEnds(boundary, s, core, w);
    } else if InHeader(core.state) {
      t, ps := HeaderEnds(boundary, s, core, w);
    } else if InData(core) {
      t, ps := BodyEnds(boundary, s, core, w);
    } else {
      t, ps := CloseEnds(boundary, s, core, w);
    }
  }

  // ---- The theorems ----

  lemma PrefixAccepted(boundary: seq<Byte>, s: seq<Byte>, t: seq<Byte>)
    requires |boundary| > 0 && Feed(boundary, START, s + t).ok
    ensures Feed(boundary, START, s).ok
  {
    hide Feed;
    FeedConcat(boundary, START, s, t);
  }

  /** The automaton accepts a stream exactly if it is the beginning of an entity. */
  lemma AcceptedIff(boundary: seq<Byte>, s: seq<Byte>)
    requires GoodBoundary(boundary)
    ensures Feed(boundary, START, s).ok <==> exists t, ps :: IsEntity(boundary, s + t, ps)
  {
    if Feed(boundary, START, s).ok {
      var t, ps := Completes(boundary, s);
    } else if t, ps :| IsEntity(boundary, s + t, ps) {
      ReachesEntity(boundary, ps);
      PrefixAccepted(boundary, s, t);
    }
  }

  /** It is in its final state exactly behind a whole entity, and a name was cut exactly if one is dropped. */
  lemma EndedIff(boundary: seq<Byte>, s: seq<Byte>)
    requires GoodBoundary(boundary)
    ensures Feed(boundary, START, s).ok && Feed(boundary, START, s).core.state.EntityEnd? <==>
              exists ps :: IsEntity(boundary, s, ps)
    ensures forall ps :: IsEntity(boundary, s, ps) ==> Feed(boundary, START, s).cut == Drops(ps)
  {
    forall ps | IsEntity(boundary, s, ps)
      ensures Reaches(boundary, START, s, Core(EntityEnd, |boundary|), Drops(ps))
    {
      ReachesEntity(boundary, ps);
    }
    if Feed(boundary, START, s).ok && Feed(boundary, START, s).core.state.EntityEnd? {
      var t, ps := Completes(boundary, s);
      assert s + t == s;
    }
  }

  function PartsOf(ps: seq<Piece>): seq<Part> {
    seq(|ps|, i requires 0 <= i < |ps| => Part(ps[i].headers, ps[i].body))
  }

  lemma {:induction false} ClosedRenders(boundary: seq<Byte>, ps: seq<Piece>)
    requires ps != [] && !Drops(ps)
    ensures Closed(boundary, ps) == Opening(boundary) + RenderParts(boundary, PartsOf(ps))
  {
    hide Opening, RenderHeaders, Delimiter;
    var n := |ps| - 1;
    var p, part := ps[n], Part(ps[n].headers, ps[n].body);
    assert p.dropped == [];
    PieceRenders(boundary, p);
    if n == 0 {
      hide Head, RenderPart;
      assert RenderParts(boundary, PartsOf(ps)) == RenderPart(boundary, part);
    } else {
      hide Head, RenderPart, RenderParts, Closed, Drops;
      ClosedSnoc(boundary, ps[..n], p);
      assert ps[..n] + [p] == ps && PartsOf(ps)[..n] == PartsOf(ps[..n]);
      NoDropsBefore(ps);
      ClosedRenders(boundary, ps[..n]);
      MoreParts(boundary, PartsOf(ps));
      var o, r := Opening(boundary), RenderParts(boundary, PartsOf(ps[..n]));
      Associates(Before(boundary, ps[..n]), Head(p), p.body + Delimiter(boundary));
      Associates(o, r, CRLF);
      Associates(o, r + CRLF, RenderPart(boundary, part));
    }
  }

  lemma NoDropsBefore(ps: seq<Piece>)
    requires ps != [] && !Drops(ps)
    ensures !Drops(ps[..|ps| - 1])
  {
    DropsSnoc(ps);
  }

  lemma MoreParts(boundary: seq<Byte>, parts: seq<Part>)
    requires |parts| > 1
    ensures var n := |parts| - 1;
            RenderParts(boundary, parts) == RenderParts(boundary, parts[..n]) + CRLF + RenderPart(boundary, parts[n])
  {
    hide RenderPart;
  }

  lemma PieceRenders(boundary: seq<Byte>, p: Piece)
    requires p.dropped == []
    ensures Head(p) + (p.body + Delimiter(boundary)) == RenderPart(boundary, Part(p.headers, p.body))
  {
    hide RenderHeaders, Delimiter;
    assert RenderHeaders(p.headers) + [] == RenderHeaders(p.headers);
  }

  /** Without a cut name the final state is reached exactly behind a rendered list of parts. */
  lemma RenderedIff(boundary: seq<Byte>, s: seq<Byte>)
    requires GoodBoundary(boundary)
    ensures var r := Feed(boundary, START, s);
            r.ok && r.core.state.EntityEnd? && !r.cut <==> exists parts :: IsRendered(boundary, s, parts)
  {
    hide Feed, IsEntity, IsRendered;
    EndedIff(boundary, s);
    var r := Feed(boundary, START, s);
    if r.ok && r.core.state.EntityEnd? && !r.cut {
      var ps :| IsEntity(boundary, s, ps);
      EntityRenders(boundary, s, ps);
    }
    if parts :| IsRendered(boundary, s, parts) {
      RenderedEnds(boundary, s, parts);
    }
  }

  lemma EntityRenders(boundary: seq<Byte>, s: seq<Byte>, ps: seq<Piece>)
    requires IsEntity(boundary, s, ps) && !Drops(ps)
    ensures IsRendered(boundary, s, PartsOf(ps))
  {
    ClosedRenders(boundary, ps);
    hide Closed, RenderParts, Opening, Occurs, Drops;
  }

  lemma RenderedEnds(boundary: seq<Byte>, s: seq<Byte>, parts: seq<Part>)
    requires GoodBoundary(boundary) && IsRendered(boundary, s, parts)
    ensures var r := Feed(boundary, START, s); r.ok && r.core.state.EntityEnd? && !r.cut
  {
    hide Render, GoodPart, Feed;
    GoesEntity(boundary, parts);
  }

  predicate IsRendered(boundary: seq<Byte>, s: seq<Byte>, parts: seq<Part>) {
    && |parts| > 0 && (forall i :: 0 <= i < |parts| ==> GoodPart(boundary, parts[i]))
    && s == Render(boundary, parts)
  }

  /** Whatever the boundary, an accepted stream begins with the opening line or is a beginning of it. */
  lemma {:induction false} OpeningFirst(boundary: seq<Byte>, s: seq<Byte>)
    requires |boundary| > 0 && Feed(boundary, START, s).ok
    ensures var core := Feed(boundary, START, s).core;
            if InOpening(core.state) then ParsedOpening(boundary, s, core) && s < Opening(boundary)
            else Opening(boundary) <= s
  {
    hide Feed, Step, Opening, ParsedOpening, InOpening;
    if s == [] {
      NothingRead(boundary);
      assert s == [];
    } else {
      var n := |s| - 1;
      FeedSnoc(boundary, START, s[..n], s[n]);
      assert s == s[..n] + [s[n]];
      OpeningFirst(boundary, s[..n]);
      OpeningGrows(boundary, s[..n], Feed(boundary, START, s[..n]).core, s[n]);
    }
  }

  lemma NothingRead(boundary: seq<Byte>)
    requires |boundary| > 0
    ensures Feed(boundary, START, []).core == START && InOpening(START.state)
    ensures ParsedOpening(boundary, [], START) && [] < Opening(boundary)
  {
    FeedEmpty(boundary, START);
  }

  lemma OpeningGrows(boundary: seq<Byte>, s: seq<Byte>, core: Core, c: Byte)
    requires Reachable(boundary, core) && Step(boundary, core, c).ok
    requires if InOpening(core.state) then ParsedOpening(boundary, s, core) else Opening(boundary) <= s
    ensures var core' := Step(boundary, core, c).core;
            if InOpening(core'.state) then ParsedOpening(boundary, s + [c], core') && s + [c] < Opening(boundary)
            else Opening(boundary) <= s + [c]
  {
  }

  // ---- A refused byte ----

  /** The state may note that a name has begun; nothing else changes. */
  predicate Unmoved(before: Core, after: Core) {
    && after.index == before.index
    && (after.state == before.state || (before.state.HeaderFieldStart? && after.state.HeaderFieldProceed?))
  }

  lemma StepRefuses(boundary: seq<Byte>, core: Core, c: Byte)
    requires Reachable(boundary, core) && !Step(boundary, core, c).ok
    ensures var r := Step(boundary, core, c);
            Unmoved(core, r.core) && (r.out == [] || r.out == [NameDropped]) && !CutsName(core, c)
  {
  }

  /** A refused stream reports what its accepted bytes report, and the refused one leaves the state alone. */
  lemma {:induction false} RefusedAt(boundary: seq<Byte>, s: seq<Byte>)
    requires |boundary| > 0 && !Feed(boundary, START, s).ok
    ensures var r := Feed(boundary, START, s);
            r.used < |s|
            && var p := Feed(boundary, START, s[..r.used]);
            && p.ok && Unmoved(p.core, r.core) && r.cut == p.cut
            && (r.out == p.out || r.out == p.out + [NameDropped])
  {
    hide Step, CutsName;
    var n := |s| - 1;
    var p := Feed(boundary, START, s[..n]);
    if p.ok {
      StepRefuses(boundary, p.core, s[n]);
      assert p.out + [] == p.out;
    } else {
      RefusedAt(boundary, s[..n]);
      assert s[..n][..p.used] == s[..p.used];
    }
  }
}
