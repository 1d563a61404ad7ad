/** Quantities of a callback trace that regrouping of data leaves alone, and how much data a piece can release. */
module MultipartCounting {
  import opened Bytes
  import opened MultipartAutomaton

  function DataOf(t: seq<Event>): seq<Byte> {
    if |t| == 0 then []
    else DataOf(t[..|t| - 1]) + (if t[|t| - 1].PartData? then t[|t| - 1].data else [])
  }

  function Begins(t: seq<Event>): nat {
    if |t| == 0 then 0 else Begins(t[..|t| - 1]) + (if t[|t| - 1].PartBegin? then 1 else 0)
  }

  predicate Ended(t: seq<Event>) {
    BodyEnd in t
  }

  /** Parts that begin after the body has ended. */
  function Late(t: seq<Event>): nat {
    if |t| == 0 then 0
    else Late(t[..|t| - 1]) + (if t[|t| - 1].PartBegin? && Ended(t[..|t| - 1]) then 1 else 0)
  }

  lemma CountSnoc(t: seq<Event>, e: Event)
    ensures DataOf(t + [e]) == DataOf(t) + (if e.PartData? then e.data else [])
    ensures Begins(t + [e]) == Begins(t) + (if e.PartBegin? then 1 else 0)
    ensures Ended(t + [e]) == (Ended(t) || e == BodyEnd)
    ensures Late(t + [e]) == Late(t) + (if e.PartBegin? && Ended(t) then 1 else 0)
  {
    assert (t + [e])[..|t|] == t;
  }

  lemma {:induction false} CountConcat(t: seq<Event>, u: seq<Event>)
    ensures DataOf(t + u) == DataOf(t) + DataOf(u)
    ensures Begins(t + u) == Begins(t) + Begins(u)
    ensures Ended(t + u) == (Ended(t) || Ended(u))
    ensures Late(t + u) >= Late(t)
    decreases |u|
  {
    if |u| == 0 {
      CountEmpty();
      hide DataOf, Begins, Late, Ended;
      assert u == [] && t + u == t;
    } else {
      hide DataOf, Begins, Late, Ended;
      var u', e := u[..|u| - 1], u[|u| - 1];
      assert u == u' + [e];
      assert t + u == t + u' + [e];
      CountConcat(t, u');
      CountSnoc(t + u', e);
      CountSnoc(u', e);
    }
  }

  lemma CountMerge(n: seq<Event>, e: Event)
    ensures DataOf(Merge(n, e)) == DataOf(n + [e])
    ensures Begins(Merge(n, e)) == Begins(n + [e])
    ensures Ended(Merge(n, e)) == Ended(n + [e])
    ensures Late(Merge(n, e)) == Late(n + [e])
  {
    if |n| > 0 && SameKind(n[|n| - 1], e) {
      hide DataOf, Begins, Late, Ended, Merge, SameKind, Join;
      var m, l := n[..|n| - 1], n[|n| - 1];
      assert n == m + [l];
      MergeLast(m, l, e);
      CountSnoc(m, l);
      CountSnoc(n, e);
      CountSnoc(m, Join(l, e));
      CountJoin(l, e);
      assert DataOf(m) + l.data + e.data == DataOf(m) + (l.data + e.data);
    }
  }

  lemma CountJoin(l: Event, e: Event)
    requires SameKind(l, e)
    ensures var j := Join(l, e);
            && !j.PartBegin? && !l.PartBegin? && !e.PartBegin? && j != BodyEnd && l != BodyEnd && e != BodyEnd
            && (l.HeaderField? || l.HeaderValue? || l.PartData?) && (e.HeaderField? || e.HeaderValue? || e.PartData?)
            && (j.PartData? <==> l.PartData?) && (e.PartData? <==> l.PartData?)
            && (j.HeaderField? || j.HeaderValue? || j.PartData?) && j.data == l.data + e.data
  {
  }

  lemma CountForget(n: seq<Event>)
    ensures DataOf(Forget(n)) == DataOf(n) && Begins(Forget(n)) == Begins(n)
    ensures Ended(Forget(n)) == Ended(n) && Late(Forget(n)) == Late(n)
  {
    if |n| > 0 && n[|n| - 1].HeaderField? {
      hide DataOf, Begins, Late, Ended;
      assert n == n[..|n| - 1] + [n[|n| - 1]];
      CountSnoc(n[..|n| - 1], n[|n| - 1]);
    }
  }

  lemma CountAbsorb(names: bool, n: seq<Event>, e: Event)
    ensures var r := Absorb(names, n, e);
            && DataOf(r) == DataOf(n + [e]) && Begins(r) == Begins(n + [e])
            && Ended(r) == Ended(n + [e]) && Late(r) == Late(n + [e])
  {
    hide DataOf, Begins, Late, Ended, Merge, Forget;
    if e.NameDropped? && !names {
      CountForget(n);
      CountSnoc(Forget(n), e);
      CountSnoc(n, e);
    } else {
      CountMerge(n, e);
    }
  }

  /** Normalising keeps all four. */
  lemma {:induction false} CountNorm(names: bool, t: seq<Event>)
    ensures DataOf(Norm(names, t)) == DataOf(t) && Begins(Norm(names, t)) == Begins(t)
    ensures Ended(Norm(names, t)) == Ended(t) && Late(Norm(names, t)) == Late(t)
  {
    if |t| > 0 {
      hide DataOf, Begins, Late, Ended, Norm, Absorb;
      var t', e := t[..|t| - 1], t[|t| - 1];
      assert t == t' + [e];
      CountNorm(names, t');
      CountSnoc(t', e);
      CountSnoc(Norm(names, t'), e);
      CountAbsorb(names, Norm(names, t'), e);
      NormSnoc(names, t', e);
    }
  }

  lemma CountSame(names: bool, t: seq<Event>, u: seq<Event>)
    requires Same(names, t, u)
    ensures DataOf(t) == DataOf(u) && Begins(t) == Begins(u) && Ended(t) == Ended(u) && Late(t) == Late(u)
  {
    hide DataOf, Begins, Late, Norm;
    CountNorm(names, t);
    CountNorm(names, u);
  }

  // ---------- the automaton ----------

  lemma HeldBound(boundary: seq<Byte>, core: Core)
    requires Reachable(boundary, core)
    ensures HeldLen(core) <= |boundary| + 3
  {
  }

  function Size(e: Event): nat {
    if e.PartData? then |e.data| else 0
  }

  lemma CountShort(t: seq<Event>)
    requires |t| <= 2
    ensures |DataOf(t)| == (if |t| > 0 then Size(t[0]) else 0) + (if |t| > 1 then Size(t[1]) else 0)
    ensures Late(t) > 0 ==> |t| == 2 && t[0] == BodyEnd
    decreases |t|
  {
    hide DataOf, Late, Begins;
    if |t| == 0 {
      CountEmpty();
    } else if |t| == 1 {
      CountEmpty();
      CountSnoc([], t[0]);
      assert t == [] + [t[0]];
    } else {
      CountShort([t[0]]);
      CountSnoc([t[0]], t[1]);
      assert t == [t[0]] + [t[1]];
    }
  }

  lemma CountEmpty()
    ensures DataOf([]) == [] && Begins([]) == 0 && Late([]) == 0 && !Ended([])
  {
  }

  /** What a step may emit, and where the body ends. */
  predicate Shapely(core: Core, t: StepResult) {
    && |t.out| <= 2
    && (if |t.out| > 0 then Size(t.out[0]) else 0) + (if |t.out| > 1 then Size(t.out[1]) else 0) + HeldLen(t.core)
       <= HeldLen(core) + 1
    && (BodyEnd in t.out ==> |t.out| == 1 && t.ok && t.core.state.EntityEnd?)
    && (t.core.state.EntityEnd? ==> BodyEnd in t.out || core.state.EntityEnd?)
    && (core.state.EntityEnd? ==> !t.ok && t.core == core && t.out == [])
  }

  /** Held bytes are handed over in front of plain data. */
  lemma ReleaseShape(boundary: seq<Byte>, core: Core, c: Byte)
    requires Reachable(boundary, core) && HeldLen(core) > 0
    ensures Shapely(core, Prepend([PartData(Held(boundary, core))], StepPlainData(core.index, c)))
  {
  }

  lemma MatchShape(boundary: seq<Byte>, core: Core, c: Byte)
    requires Reachable(boundary, core) && HeldLen(core) > 0
    ensures Shapely(core, Step(boundary, core, c))
  {
    ReleaseShape(boundary, core, c);
    hide StepPlainData, Held, Prepend;
  }

  lemma HeaderShape(boundary: seq<Byte>, core: Core, c: Byte)
    requires Reachable(boundary, core) && HeldLen(core) == 0
    requires core.state.HeaderFieldStart? || core.state.HeaderFieldProceed? || core.state.HeadersPossibleEnd?
             || core.state.HeaderValueStart? || core.state.HeaderValueProceed? || core.state.HeaderValuePossibleEnd?
    ensures Shapely(core, Step(boundary, core, c))
  {
  }

  lemma OtherShape(boundary: seq<Byte>, core: Core, c: Byte)
    requires Reachable(boundary, core)
    requires core.state.EntityStart? || core.state.InitialBoundary? || core.state.PartDataStart?
             || core.state.PartDataProceed? || core.state.PartDataPossibleEnd? || core.state.PartDataEnd?
             || core.state.EntityPossibleEnd? || core.state.EntityEnd?
    ensures Shapely(core, Step(boundary, core, c))
  {
  }

  lemma StepShape(boundary: seq<Byte>, core: Core, c: Byte)
    requires Reachable(boundary, core)
    ensures Shapely(core, Step(boundary, core, c))
  {
    hide Shapely, Step;
    match core.state
    case PartDataCR | PartDataLF | PartDataNewlineHyphen | NextBoundary => MatchShape(boundary, core, c);
    case HeaderFieldStart | HeaderFieldProceed | HeadersPossibleEnd => HeaderShape(boundary, core, c);
    case HeaderValueStart | HeaderValueProceed | HeaderValuePossibleEnd => HeaderShape(boundary, core, c);
    case _ => OtherShape(boundary, core, c);
  }

  /** One byte releases no more part data than was held plus that byte. */
  lemma StepConserves(boundary: seq<Byte>, core: Core, c: Byte)
    requires Reachable(boundary, core)
    ensures var t := Step(boundary, core, c);
            && |DataOf(t.out)| + HeldLen(t.core) <= HeldLen(core) + 1
            && Late(t.out) == 0
  {
    hide DataOf, Late, Step;
    StepShape(boundary, core, c);
    CountShort(Step(boundary, core, c).out);
  }

  ghost predicate Conserved(core: Core, n: nat, r: FeedResult) {
    && |DataOf(r.out)| + HeldLen(r.core) <= HeldLen(core) + n
    && (Ended(r.out) <==> r.core.state.EntityEnd?)
    && Late(r.out) == 0
  }

  lemma ExtendConserves(boundary: seq<Byte>, core: Core, n: nat, r: FeedResult, c: Byte)
    requires Reachable(boundary, r.core) && Conserved(core, n, r)
    ensures Conserved(core, n + 1, Extend(boundary, r, c))
  {
    hide DataOf, Late, Begins, Step;
    if r.ok {
      var t := Step(boundary, r.core, c);
      StepShape(boundary, r.core, c);
      StepConserves(boundary, r.core, c);
      LateConcat(r.out, t.out);
      CountConcat(r.out, t.out);
    }
  }

  /**
   Conservation over a piece: the data released and the bytes still held never exceed the
   bytes held before plus the bytes of the piece. The body ends only in the final state.
   */
  lemma {:induction false} FeedConserves(boundary: seq<Byte>, core: Core, s: seq<Byte>)
    requires Reachable(boundary, core) && !core.state.EntityEnd?
    ensures Conserved(core, |s|, Feed(boundary, core, s))
    decreases |s|
  {
    if |s| == 0 {
      CountEmpty();
    } else {
      hide Conserved, Extend;
      FeedConserves(boundary, core, s[..|s| - 1]);
      ExtendConserves(boundary, core, |s| - 1, Feed(boundary, core, s[..|s| - 1]), s[|s| - 1]);
    }
  }

  lemma {:induction false} LateConcat(t: seq<Event>, u: seq<Event>)
    requires !Ended(t) || u == []
    ensures Late(t + u) == Late(t) + Late(u)
    decreases |u|
  {
    if |u| == 0 {
      CountEmpty();
      hide DataOf, Begins, Late, Ended;
      assert u == [] && t + u == t;
    } else {
      hide DataOf, Begins, Late, Ended;
      var u', e := u[..|u| - 1], u[|u| - 1];
      assert u == u' + [e];
      assert t + u == t + u' + [e];
      LateConcat(t, u');
      CountConcat(t, u');
      CountSnoc(t + u', e);
      CountSnoc(u', e);
    }
  }

  /** Nothing is accepted or reported after the end of the body. */
  lemma {:induction false} EndIsFinal(boundary: seq<Byte>, core: Core, s: seq<Byte>)
    requires Reachable(boundary, core) && core.state.EntityEnd?
    ensures var r := Feed(boundary, core, s); r.out == [] && r.core == core && r.used == 0 && (r.ok <==> s == [])
  {
    if |s| > 0 {
      hide Step;
      EndIsFinal(boundary, core, s[..|s| - 1]);
      StepShape(boundary, core, s[|s| - 1]);
    }
  }
}
