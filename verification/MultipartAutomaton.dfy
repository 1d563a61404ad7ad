/**
 The multipart grammar as an automaton that consumes one byte at a time. It has no
 buffer, no resume mark and no re-read: those belong to the parser, which is proved
 to produce what this automaton produces.
 */
module MultipartAutomaton {
  import opened Bytes

  datatype State =
    | EntityStart
    | InitialBoundary
    | HeaderFieldStart
    | HeaderFieldProceed
    | HeadersPossibleEnd
    | HeaderValueStart
    | HeaderValueProceed
    | HeaderValuePossibleEnd
    | PartDataStart
    | PartDataProceed
    | PartDataCR
    | PartDataLF
    | PartDataNewlineHyphen
    | NextBoundary
    | PartDataPossibleEnd
    | PartDataEnd
    | EntityPossibleEnd
    | EntityEnd

  datatype Core = Core(state: State, index: nat)

  /** Where the parser begins. */
  const START: Core := Core(EntityStart, 0)

  /**
   A callback invocation; the three data callbacks carry the bytes handed over. `NameDropped` is none:
   it marks where the field name being read ends without a value.
   */
  datatype Event =
    | PartBegin
    | HeaderField(data: seq<Byte>)
    | HeaderValue(data: seq<Byte>)
    | HeadersComplete
    | PartData(data: seq<Byte>)
    | PartEnd
    | BodyEnd
    | NameDropped

  /** CRLF and two hyphens, which precede the boundary in every delimiter but the first. */
  const TRANSITION: seq<Byte> := [CR, LF, HYPHEN, HYPHEN]

  function Delimiter(boundary: seq<Byte>): seq<Byte> {
    TRANSITION + boundary
  }

  /** Number of bytes that may still turn out to be part data. */
  function HeldLen(core: Core): nat {
    match core.state
    case PartDataCR => 1
    case PartDataLF => 2
    case PartDataNewlineHyphen => 3
    case NextBoundary => 4 + core.index
    case _ => 0
  }

  predicate Reachable(boundary: seq<Byte>, core: Core) {
    && |boundary| > 0
    && (core.state.EntityStart? ==> core.index <= 1)
    && (core.state.InitialBoundary? ==> core.index <= |boundary| + 1)
    && (core.state.NextBoundary? ==> core.index < |boundary|)
  }

  function Held(boundary: seq<Byte>, core: Core): (held: seq<Byte>)
    requires Reachable(boundary, core)
    ensures |held| == HeldLen(core) < |Delimiter(boundary)|
  {
    Delimiter(boundary)[..HeldLen(core)]
  }

  lemma HeldGrows(boundary: seq<Byte>, core: Core, core': Core)
    requires Reachable(boundary, core) && Reachable(boundary, core')
    requires HeldLen(core') == HeldLen(core) + 1
    ensures Held(boundary, core') == Held(boundary, core) + [Delimiter(boundary)[HeldLen(core)]]
  {
  }

  datatype StepResult = StepResult(core: Core, out: seq<Event>, ok: bool)

  function Accept(state: State, index: nat, out: seq<Event>): StepResult {
    StepResult(Core(state, index), out, true)
  }

  function Reject(state: State, index: nat): StepResult {
    StepResult(Core(state, index), [], false)
  }

  function StepFieldName(state: State, index: nat, c: Byte): StepResult {
    if c == CR then Accept(HeadersPossibleEnd, index, if state.HeaderFieldProceed? then [NameDropped] else [])
    else if c == COLON then Accept(HeaderValueStart, index, [HeaderField([])])
    else if c == HYPHEN || IsLetter(c) then Accept(HeaderFieldProceed, index, [HeaderField([c])])
    else StepResult(Core(HeaderFieldProceed, index), [NameDropped], false)
  }

  function StepFieldValue(index: nat, c: Byte): StepResult {
    if c == CR then Accept(HeaderValuePossibleEnd, index, [HeaderValue([])])
    else Accept(HeaderValueProceed, index, [HeaderValue([c])])
  }

  function StepPlainData(index: nat, c: Byte): StepResult {
    if c == CR then Accept(PartDataCR, index, [])
    else Accept(PartDataProceed, index, [PartData([c])])
  }

  function Prepend(out: seq<Event>, r: StepResult): StepResult {
    r.(out := out + r.out)
  }

  /** What one byte does: the next state, the callbacks it causes, and whether it is accepted. */
  function Step(boundary: seq<Byte>, core: Core, c: Byte): (r: StepResult)
    requires Reachable(boundary, core)
    ensures Reachable(boundary, r.core)
  {
    var index := core.index;
    match core.state
    case EntityStart =>
      if c != HYPHEN then Reject(EntityStart, index)
      else if index == 0 then Accept(EntityStart, 1, [])
      else Accept(InitialBoundary, 0, [])
    case InitialBoundary =>
      if index == |boundary| then
        if c == CR then Accept(InitialBoundary, index + 1, []) else Reject(InitialBoundary, index)
      else if index == |boundary| + 1 then
        if c == LF then Accept(HeaderFieldStart, 0, [PartBegin]) else Reject(InitialBoundary, index)
      else
        if c == boundary[index] then Accept(InitialBoundary, index + 1, []) else Reject(InitialBoundary, index)
    case HeaderFieldStart => StepFieldName(HeaderFieldStart, index, c)
    case HeaderFieldProceed => StepFieldName(HeaderFieldProceed, index, c)
    case HeadersPossibleEnd =>
      if c == LF then Accept(PartDataStart, index, []) else Reject(HeadersPossibleEnd, index)
    case HeaderValueStart =>
      if c == SPACE then Accept(HeaderValueStart, index, []) else StepFieldValue(index, c)
    case HeaderValueProceed => StepFieldValue(index, c)
    case HeaderValuePossibleEnd =>
      if c == LF then Accept(HeaderFieldStart, index, []) else Reject(HeaderValuePossibleEnd, index)
    case PartDataStart => Prepend([HeadersComplete], StepPlainData(index, c))
    case PartDataProceed => StepPlainData(index, c)
    case PartDataCR =>
      if c == LF then Accept(PartDataLF, index, [])
      else Prepend([PartData(Held(boundary, core))], StepPlainData(index, c))
    case PartDataLF =>
      if c == HYPHEN then Accept(PartDataNewlineHyphen, index, [])
      else Prepend([PartData(Held(boundary, core))], StepPlainData(index, c))
    case PartDataNewlineHyphen =>
      if c == HYPHEN then Accept(NextBoundary, 0, [])
      else Prepend([PartData(Held(boundary, core))], StepPlainData(index, c))
    case NextBoundary =>
      if c != boundary[index] then Prepend([PartData(Held(boundary, core))], StepPlainData(index, c))
      else if index + 1 == |boundary| then Accept(PartDataPossibleEnd, index + 1, [PartEnd])
      else Accept(NextBoundary, index + 1, [])
    case PartDataPossibleEnd =>
      if c == HYPHEN then Accept(EntityPossibleEnd, index, [])
      else if c == CR then Accept(PartDataEnd, index, [])
      else Reject(PartDataPossibleEnd, index)
    case PartDataEnd =>
      if c == LF then Accept(HeaderFieldStart, index, [PartBegin]) else Reject(PartDataEnd, index)
    case EntityPossibleEnd =>
      if c == HYPHEN then Accept(EntityEnd, index, [BodyEnd]) else Reject(EntityPossibleEnd, index)
    case EntityEnd => Reject(EntityEnd, index)
  }

  /** A carriage return that ends the headers in the middle of a field name. */
  predicate CutsName(core: Core, c: Byte) {
    core.state.HeaderFieldProceed? && c == CR
  }

  /**
   Outcome of a stream: the state after it, the callbacks in order, whether every byte was
   accepted, the number of accepted bytes and whether some field name was cut short.
   */
  datatype FeedResult = FeedResult(core: Core, out: seq<Event>, ok: bool, used: nat, cut: bool)

  function Feed(boundary: seq<Byte>, core: Core, s: seq<Byte>): (r: FeedResult)
    requires Reachable(boundary, core)
    ensures Reachable(boundary, r.core)
    ensures r.used <= |s| && (r.ok <==> r.used == |s|)
  {
    if |s| == 0 then
      FeedResult(core, [], true, 0, false)
    else
      Extend(boundary, Feed(boundary, core, s[..|s| - 1]), s[|s| - 1])
  }

  /** Outcome of one more byte after a stream with outcome `r`. */
  function Extend(boundary: seq<Byte>, r: FeedResult, c: Byte): FeedResult
    requires Reachable(boundary, r.core)
  {
    if !r.ok then r else
    var t := Step(boundary, r.core, c);
    FeedResult(t.core, r.out + t.out, t.ok, if t.ok then r.used + 1 else r.used, r.cut || CutsName(r.core, c))
  }

  lemma FeedSnoc(boundary: seq<Byte>, core: Core, s: seq<Byte>, c: Byte)
    requires Reachable(boundary, core)
    ensures Feed(boundary, core, s + [c]) == Extend(boundary, Feed(boundary, core, s), c)
  {
    hide Step, Extend;
    assert (s + [c])[..|s|] == s;
  }

  lemma FeedOne(boundary: seq<Byte>, core: Core, c: Byte)
    requires Reachable(boundary, core)
    ensures Feed(boundary, core, [c]) ==
            var t := Step(boundary, core, c);
            FeedResult(t.core, t.out, t.ok, if t.ok then 1 else 0, CutsName(core, c))
  {
    hide Step;
    assert [] + [c] == [c];
    FeedSnoc(boundary, core, [], c);
    var t := Step(boundary, core, c);
    assert [] + t.out == t.out;
  }

  /** Outcome of a stream with outcome `b` that resumes after one with outcome `a`. */
  function Resume(a: FeedResult, b: FeedResult): FeedResult {
    if !a.ok then a else FeedResult(b.core, a.out + b.out, b.ok, a.used + b.used, a.cut || b.cut)
  }

  lemma ResumeExtend(boundary: seq<Byte>, a: FeedResult, b: FeedResult, c: Byte)
    requires Reachable(boundary, a.core) && Reachable(boundary, b.core)
    requires a.ok
    ensures Extend(boundary, Resume(a, b), c) == Resume(a, Extend(boundary, b, c))
  {
    if b.ok {
      var t := Step(boundary, b.core, c);
      assert a.out + b.out + t.out == a.out + (b.out + t.out);
    }
  }

  /** Resuming: feeding two pieces one after the other is feeding their concatenation. */
  lemma {:induction false} FeedConcat(boundary: seq<Byte>, core: Core, s: seq<Byte>, t: seq<Byte>)
    requires Reachable(boundary, core)
    ensures var a := Feed(boundary, core, s);
            Feed(boundary, core, s + t) == Resume(a, Feed(boundary, a.core, t))
    decreases |t|
  {
    hide Step;
    var a := Feed(boundary, core, s);
    if |t| == 0 {
      assert s + t == s;
      assert a.out + [] == a.out;
    } else {
      var t' := t[..|t| - 1];
      var c := t[|t| - 1];
      assert (s + t)[..|s + t| - 1] == s + t';
      FeedConcat(boundary, core, s, t');
      if a.ok {
        ResumeExtend(boundary, a, Feed(boundary, a.core, t'), c);
      }
    }
  }

  lemma StepLeavesStart(boundary: seq<Byte>, core: Core, c: Byte)
    requires Reachable(boundary, core)
    ensures var t := Step(boundary, core, c);
            t.core.state.EntityStart? ==>
              core.state.EntityStart? && (t.ok ==> core == Core(EntityStart, 0) && t.core.index == 1)
  {
  }

  /** Only the first two bytes of a stream are read in the opening state. */
  lemma {:induction false} LeavesStart(boundary: seq<Byte>, start: Core, s: seq<Byte>)
    requires Reachable(boundary, start)
    ensures var r := Feed(boundary, start, s);
            r.core.state.EntityStart? ==> start.state.EntityStart? && (r.ok ==> r.core.index == start.index + |s|)
    decreases |s|
  {
    hide Step;
    if |s| > 0 {
      LeavesStart(boundary, start, s[..|s| - 1]);
      StepLeavesStart(boundary, Feed(boundary, start, s[..|s| - 1]).core, s[|s| - 1]);
    }
  }

  // ---------- normal form of a callback trace ----------

  predicate SameKind(a: Event, b: Event) {
    || (a.HeaderField? && b.HeaderField?)
    || (a.HeaderValue? && b.HeaderValue?)
    || (a.PartData? && b.PartData?)
  }

  function Join(a: Event, b: Event): Event
    requires SameKind(a, b)
  {
    a.(data := a.data + b.data)
  }

  function Merge(t: seq<Event>, e: Event): seq<Event> {
    if |t| > 0 && SameKind(t[|t| - 1], e) then t[..|t| - 1] + [Join(t[|t| - 1], e)] else t + [e]
  }

  /** Without the field name at the end, if there is one. */
  function Forget(t: seq<Event>): seq<Event> {
    if |t| > 0 && t[|t| - 1].HeaderField? then t[..|t| - 1] else t
  }

  /** One more event; with `names` unset, what was reported of a dropped name is forgotten. */
  function Absorb(names: bool, t: seq<Event>, e: Event): seq<Event> {
    if e.NameDropped? && !names then Forget(t) + [e] else Merge(t, e)
  }

  /**
   What a consumer sees that appends each data callback to the preceding one of the same
   kind. With `names` unset it uses a field name only together with its value.
   */
  function Norm(names: bool, t: seq<Event>): seq<Event> {
    if |t| == 0 then [] else Absorb(names, Norm(names, t[..|t| - 1]), t[|t| - 1])
  }

  predicate Same(names: bool, t: seq<Event>, u: seq<Event>) {
    Norm(names, t) == Norm(names, u)
  }

  predicate SameAll(t: seq<Event>, u: seq<Event>) {
    Same(true, t, u) && Same(false, t, u)
  }

  lemma NormSnoc(names: bool, t: seq<Event>, e: Event)
    ensures Norm(names, t + [e]) == Absorb(names, Norm(names, t), e)
  {
    assert (t + [e])[..|t|] == t;
  }

  lemma {:induction false} SameAppend(names: bool, t: seq<Event>, u: seq<Event>, v: seq<Event>)
    requires Same(names, t, u)
    ensures Same(names, t + v, u + v)
    decreases |v|
  {
    hide Norm, Absorb;
    if |v| == 0 {
      assert t + v == t && u + v == u;
    } else {
      var v', e := v[..|v| - 1], v[|v| - 1];
      assert t + v == t + v' + [e] && u + v == u + v' + [e];
      SameAppend(names, t, u, v');
      NormSnoc(names, t + v', e);
      NormSnoc(names, u + v', e);
    }
  }

  lemma MergeLast(m: seq<Event>, l: Event, e: Event)
    requires SameKind(l, e)
    ensures Merge(m + [l], e) == m + [Join(l, e)]
  {
    assert (m + [l])[..|m|] == m;
  }

  lemma JoinJoin(l: Event, a: Event, b: Event)
    requires SameKind(l, a) && SameKind(a, b)
    ensures SameKind(Join(l, a), b) && SameKind(l, Join(a, b)) && Join(Join(l, a), b) == Join(l, Join(a, b))
  {
    assert l.data + a.data + b.data == l.data + (a.data + b.data);
  }

  lemma MergeJoin(n: seq<Event>, a: Event, b: Event)
    requires SameKind(a, b)
    ensures Merge(Merge(n, a), b) == Merge(n, Join(a, b))
  {
    if |n| > 0 && SameKind(n[|n| - 1], a) {
      hide Merge, Join, SameKind;
      var m, l := n[..|n| - 1], n[|n| - 1];
      assert n == m + [l];
      JoinJoin(l, a, b);
      MergeLast(m, l, a);
      MergeLast(m, Join(l, a), b);
      MergeLast(m, l, Join(a, b));
    } else {
      MergeLast(n, a, b);
    }
  }

  /** Two adjacent data callbacks of one kind look like one. */
  lemma SameJoin(names: bool, t: seq<Event>, a: Event, b: Event)
    requires SameKind(a, b)
    ensures Same(names, t + [a] + [b], t + [Join(a, b)])
  {
    hide Norm, Merge;
    NormSnoc(names, t, a);
    NormSnoc(names, t + [a], b);
    NormSnoc(names, t, Join(a, b));
    MergeJoin(Norm(names, t), a, b);
  }

  /** What was reported of a dropped name may be forgotten at once. */
  lemma SameForget(t: seq<Event>, e: Event)
    requires e.HeaderField?
    ensures Same(false, t + [e] + [NameDropped], t + [NameDropped])
  {
    hide Norm;
    NormSnoc(false, t, e);
    NormSnoc(false, t + [e], NameDropped);
    NormSnoc(false, t, NameDropped);
    var n := Norm(false, t);
    assert |n| > 0 && n[|n| - 1].HeaderField? ==> Merge(n, e)[..|n| - 1] == n[..|n| - 1];
    assert (n + [e])[..|n|] == n;
  }

  lemma SameAbsorb(names: bool, v: seq<Event>, n: seq<Event>, e: Event)
    ensures Same(names, v + n + [e], v + Absorb(names, n, e))
  {
    hide Norm;
    if e.NameDropped? && !names {
      if |n| > 0 && n[|n| - 1].HeaderField? {
        var m, l := n[..|n| - 1], n[|n| - 1];
        assert v + n + [e] == v + m + [l] + [e];
        SameForget(v + m, l);
        assert v + (m + [e]) == v + m + [e];
      } else {
        assert v + (n + [e]) == v + n + [e];
      }
    } else if |n| > 0 && SameKind(n[|n| - 1], e) {
      var m, l := n[..|n| - 1], n[|n| - 1];
      assert v + n + [e] == v + m + [l] + [e];
      SameJoin(names, v + m, l, e);
      assert v + (m + [Join(l, e)]) == v + m + [Join(l, e)];
    } else {
      assert v + (n + [e]) == v + n + [e];
    }
  }

  /** Normalising a suffix first changes nothing. */
  lemma {:induction false} NormOfSuffix(names: bool, v: seq<Event>, t: seq<Event>)
    ensures Same(names, v + t, v + Norm(names, t))
  {
    if |t| == 0 {
      assert v + t == v + Norm(names, t);
    } else {
      hide Norm, Absorb;
      var t', e := t[..|t| - 1], t[|t| - 1];
      var n := Norm(names, t');
      assert v + t == v + t' + [e] && t == t' + [e];
      NormOfSuffix(names, v, t');
      SameAppend(names, v + t', v + n, [e]);
      NormSnoc(names, t', e);
      NormSnoc(names, v + n, e);
      SameAbsorb(names, v, n, e);
    }
  }

  lemma SamePrepend(names: bool, v: seq<Event>, t: seq<Event>, u: seq<Event>)
    requires Same(names, t, u)
    ensures Same(names, v + t, v + u)
  {
    NormOfSuffix(names, v, t);
    NormOfSuffix(names, v, u);
  }

  lemma SameConcat(names: bool, t: seq<Event>, u: seq<Event>, t': seq<Event>, u': seq<Event>)
    requires Same(names, t, u) && Same(names, t', u')
    ensures Same(names, t + t', u + u')
  {
    hide Norm;
    SameAppend(names, t, u, t');
    SamePrepend(names, u, t', u');
  }
}
