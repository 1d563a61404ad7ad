/** When the callbacks of a stream depend on how it is cut into pieces. */
module MultipartChunks {
  import opened Bytes
  import opened MultipartAutomaton
  import opened MultipartNames
  import opened MultipartParser

  /** However the stream is cut, a consumer sees the same callbacks but for those of a name that a CR cuts short. */
  method SplitAgrees(boundary: seq<Byte>, pieces: seq<seq<Byte>>, others: seq<seq<Byte>>)
    returns (events: seq<Event>, ok: bool, events2: seq<Event>, ok2: bool)
    requires |boundary| > 0 && Flatten(pieces) == Flatten(others)
    requires |pieces| > 0 ==> |pieces[0]| >= 3
    requires |others| > 0 ==> |others[0]| >= 3
    ensures var r := Feed(boundary, START, Flatten(pieces));
            && ok == ok2 == r.ok && Agrees(events, r) && Agrees(events2, r)
            && Same(false, events, events2) && (ok && !r.cut ==> Same(true, events, events2))
  {
    hide Feed, Norm;
    var p := new Parser(boundary);
    events, ok := ExecutePieces(p, pieces);
    var q := new Parser(boundary);
    events2, ok2 := ExecutePieces(q, others);
  }

  /** There is a CR that cuts a name whenever the automaton says so. */
  lemma {:induction false} FindCut(boundary: seq<Byte>, start: Core, s: seq<Byte>) returns (j: nat)
    requires Reachable(boundary, start) && Feed(boundary, start, s).cut
    ensures j < |s| && Feed(boundary, start, s[..j]).ok && CutsName(Feed(boundary, start, s[..j]).core, s[j])
  {
    hide Step;
    var n := |s| - 1;
    if Feed(boundary, start, s[..n]).cut {
      j := FindCut(boundary, start, s[..n]);
      assert s[..n][..j] == s[..j];
    } else {
      j := n;
    }
  }

  lemma NotNamed(boundary: seq<Byte>, start: Core, a: seq<Byte>)
    requires Reachable(boundary, start) && !Feed(boundary, start, a).core.state.HeaderFieldProceed?
    ensures NameRun(boundary, start, a) == 0
  {
  }

  /** Outside field names, a call can be continued by another without changing what is lost. */
  lemma {:induction false} LostConcat(boundary: seq<Byte>, start: Core, a: seq<Byte>, b: seq<Byte>)
    requires Reachable(boundary, start)
    requires Feed(boundary, start, a).ok && !Feed(boundary, start, a).core.state.HeaderFieldProceed?
    ensures var core := Feed(boundary, start, a).core;
            && NameRun(boundary, start, a + b) == NameRun(boundary, core, b)
            && LostNames(boundary, start, a + b) == LostNames(boundary, start, a) + LostNames(boundary, core, b)
    decreases |b|
  {
    hide Feed, NameRun, LostNames;
    var core := Feed(boundary, start, a).core;
    if b == [] {
      assert a + b == a;
      NotNamed(boundary, start, a);
      NoneLost(boundary, core);
    } else {
      var b', c := b[..|b| - 1], b[|b| - 1];
      assert b == b' + [c] && a + b == a + b' + [c];
      LostConcat(boundary, start, a, b');
      FeedConcat(boundary, start, a, b');
      FeedConcat(boundary, start, a, b);
      RunSnoc(boundary, start, a + b', c);
      RunSnoc(boundary, core, b', c);
    }
  }

  /** What is lost at a CR that cuts a name. */
  lemma LostThrough(boundary: seq<Byte>, start: Core, a: seq<Byte>, b: seq<Byte>)
    requires Reachable(boundary, start) && Feed(boundary, start, a).ok && CutsName(Feed(boundary, start, a).core, CR)
    ensures LostNames(boundary, start, a + [CR] + b)
            == LostNames(boundary, start, a) + NameRun(boundary, start, a)
               + LostNames(boundary, Core(HeadersPossibleEnd, Feed(boundary, start, a).core.index), b)
  {
    hide Feed, NameRun, LostNames, Reachable;
    RunSnoc(boundary, start, a, CR);
    AfterCut(boundary, start, a);
    LostConcat(boundary, start, a + [CR], b);
  }

  lemma LostOnward(boundary: seq<Byte>, core: Core, b: seq<Byte>)
    requires Reachable(boundary, core) && CutsName(core, CR)
    ensures LostNames(boundary, core, [CR] + b) == LostNames(boundary, Core(HeadersPossibleEnd, core.index), b)
  {
    hide Feed, NameRun, LostNames;
    FeedEmpty(boundary, core);
    NoneLost(boundary, core);
    LostThrough(boundary, core, [], b);
    assert [] + [CR] + b == [CR] + b;
  }

  /** The names lost in one call, against those lost when the stream is cut before the CR. */
  lemma LostAtCut(boundary: seq<Byte>, start: Core, a: seq<Byte>, b: seq<Byte>)
    requires Reachable(boundary, start) && Feed(boundary, start, a).ok && CutsName(Feed(boundary, start, a).core, CR)
    ensures LostNames(boundary, start, a + [CR] + b)
            == LostNames(boundary, start, a) + NameRun(boundary, start, a)
               + LostNames(boundary, Feed(boundary, start, a).core, [CR] + b)
  {
    hide Feed, NameRun, LostNames, Reachable;
    LostThrough(boundary, start, a, b);
    LostOnward(boundary, Feed(boundary, start, a).core, b);
  }

  lemma AfterCut(boundary: seq<Byte>, start: Core, s: seq<Byte>)
    requires Reachable(boundary, start) && Feed(boundary, start, s).ok && CutsName(Feed(boundary, start, s).core, CR)
    ensures var r := Feed(boundary, start, s + [CR]);
            r.ok && r.core == Core(HeadersPossibleEnd, Feed(boundary, start, s).core.index)
  {
    FeedSnoc(boundary, start, s, CR);
  }

  /** The first two bytes do not reach the headers. */
  lemma Early(boundary: seq<Byte>, s: seq<Byte>)
    requires |boundary| > 0 && |s| <= 2
    ensures !Feed(boundary, START, s).core.state.HeaderFieldProceed?
  {
    FeedEmpty(boundary, START);
    if |s| == 1 {
      assert s == [s[0]];
      FeedOne(boundary, START, s[0]);
    } else if |s| == 2 {
      assert s == [s[0]] + [s[1]];
      FeedOne(boundary, START, s[0]);
      FeedSnoc(boundary, START, [s[0]], s[1]);
    }
  }

  lemma NotSoEarly(boundary: seq<Byte>, s: seq<Byte>)
    requires |boundary| > 0 && Feed(boundary, START, s).core.state.HeaderFieldProceed?
    ensures |s| >= 3 && NameRun(boundary, START, s) > 0
  {
    hide Feed;
    if |s| <= 2 { Early(boundary, s); }
  }

  /**
   Wherever a CR cuts a field name short, cutting the stream there as well makes a difference,
   whatever callbacks the parser makes: the bytes of the name before the CR are reported, and in one
   call they are not.
   */
  lemma CutShows(boundary: seq<Byte>, s: seq<Byte>, j: nat, whole: seq<Event>, first: seq<Event>, second: seq<Event>,
                 end: Core, middle: Core, end2: Core)
    requires |boundary| > 0 && j < |s| && CutsName(Feed(boundary, START, s[..j]).core, s[j])
    requires Executed(boundary, START, s, |s|, whole, Consumed, [], end)
    requires Executed(boundary, START, s[..j], j, first, Consumed, [], middle)
    requires Executed(boundary, middle, s[j..], |s| - j, second, Consumed, [], end2)
    ensures NameBytes(whole) < NameBytes(first + second) && !Same(true, whole, first + second)
  {
    hide Feed, Norm, NameBytes, LostNames, NameRun, CutsName;
    var a := Feed(boundary, START, s[..j]);
    Cutting(a.core, s[j]);
    NotSoEarly(boundary, s[..j]);
    assert s == s[..j] + s[j..];
    FeedConcat(boundary, START, s[..j], s[j..]);
    assert s == s[..j] + [CR] + s[j + 1..] && s[j..] == [CR] + s[j + 1..];
    LostAtCut(boundary, START, s[..j], s[j + 1..]);
    NameConcat(first, second);
    NameConcat(a.out, Feed(boundary, a.core, s[j..]).out);
    if Same(true, whole, first + second) { NameSame(whole, first + second); }
  }

  /** The parser on such a stream, in one call and in two. */
  method SplitDiffers(boundary: seq<Byte>, s: seq<Byte>, j: nat)
    returns (whole: seq<Event>, first: seq<Event>, second: seq<Event>)
    requires |boundary| > 0 && j < |s| && Feed(boundary, START, s).ok
    requires CutsName(Feed(boundary, START, s[..j]).core, s[j])
    ensures var middle, end := Feed(boundary, START, s[..j]).core, Feed(boundary, START, s).core;
            && Executed(boundary, START, s, |s|, whole, Consumed, [], end)
            && Executed(boundary, START, s[..j], j, first, Consumed, [], middle)
            && Executed(boundary, middle, s[j..], |s| - j, second, Consumed, [], end)
    ensures NameBytes(whole) < NameBytes(first + second) && !Same(true, whole, first + second)
  {
    hide Feed, Norm, NameBytes, LostNames, NameRun, CutsName;
    assert s == s[..j] + s[j..];
    FeedConcat(boundary, START, s[..j], s[j..]);
    FeedOkPrefix(boundary, START, s, j);
    Cutting(Feed(boundary, START, s[..j]).core, s[j]);
    NotSoEarly(boundary, s[..j]);
    var p := new Parser(boundary);
    var n, outcome;
    ghost var rest;
    n, whole, outcome, rest := p.Execute(s, _ => false);
    var q := new Parser(boundary);
    n, first, outcome, rest := q.Execute(s[..j], _ => false);
    n, second, outcome, rest := q.Execute(s[j..], _ => false);
    ghost var end := Feed(boundary, START, s).core;
    CutShows(boundary, s, j, whole, first, second, end, Feed(boundary, START, s[..j]).core, end);
  }

  /** There is such a stream: the opening boundary `b`, then the letter `A` and a CR. */
  lemma CutHappens()
    ensures var boundary: seq<Byte>, s: seq<Byte> := [98], [HYPHEN, HYPHEN, 98, CR, LF, 65, CR];
            && Feed(boundary, START, s).ok && Feed(boundary, START, s).cut
            && CutsName(Feed(boundary, START, s[..6]).core, s[6])
  {
    hide Feed;
    var boundary: seq<Byte>, s: seq<Byte> := [98], [HYPHEN, HYPHEN, 98, CR, LF, 65, CR];
    FeedEmpty(boundary, START);
    assert s[..0] == [] && s == s[..6] + [s[6]];
    for i := 0 to 6
      invariant var r := Feed(boundary, START, s[..i]);
                && r.ok && !r.cut
                && r.core == [START, Core(EntityStart, 1), Core(InitialBoundary, 0), Core(InitialBoundary, 1),
                              Core(InitialBoundary, 2), Core(HeaderFieldStart, 0), Core(HeaderFieldProceed, 0)][i]
    {
      assert s[..i + 1] == s[..i] + [s[i]];
      FeedSnoc(boundary, START, s[..i], s[i]);
    }
    FeedSnoc(boundary, START, s[..6], s[6]);
  }

  lemma Cutting(core: Core, c: Byte)
    requires CutsName(core, c)
    ensures core.state.HeaderFieldProceed? && c == CR
  {
  }

  lemma FeedOkPrefix(boundary: seq<Byte>, start: Core, s: seq<Byte>, j: nat)
    requires Reachable(boundary, start) && Feed(boundary, start, s).ok && j <= |s|
    ensures Feed(boundary, start, s[..j]).ok
  {
    hide Feed, Reachable;
    if !Feed(boundary, start, s[..j]).ok { FeedStopsAt(boundary, start, s, j); }
  }
}
