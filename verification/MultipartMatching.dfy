/** The delimiter matcher of the parser against naive substring search. */
module MultipartMatching {
  import opened Bytes
  import opened MultipartAutomaton

  predicate OccursAt(d: seq<Byte>, s: seq<Byte>, k: nat) {
    k + |d| <= |s| && s[k..k + |d|] == d
  }

  predicate Occurs(d: seq<Byte>, s: seq<Byte>) {
    exists k :: 0 <= k <= |s| && OccursAt(d, s, k)
  }

  /** `k` is where the leftmost occurrence of `d` in `s` starts. */
  predicate FirstAt(d: seq<Byte>, s: seq<Byte>, k: nat) {
    OccursAt(d, s, k) && forall j :: 0 <= j < k ==> !OccursAt(d, s, j)
  }

  /** The callbacks of a part's body, once normalised. */
  function DataTrace(data: seq<Byte>): seq<Event> {
    if data == [] then [HeadersComplete] else [HeadersComplete, PartData(data)]
  }

  predicate InData(core: Core) {
    core.state.PartDataProceed? || HeldLen(core) > 0
  }

  /** The last `h` bytes of `s` are the first `h` of the delimiter. */
  predicate Overlap(d: seq<Byte>, s: seq<Byte>, h: nat) {
    h <= |d| && h <= |s| && s[|s| - h..] == d[..h]
  }

  /** `h` is the longest partial delimiter at the end of `s`. */
  predicate LongestOverlap(d: seq<Byte>, s: seq<Byte>, h: nat) {
    Overlap(d, s, h) && forall j :: h < j < |d| ==> !Overlap(d, s, j)
  }

  /** What the matcher does with `c` when it holds the first `h` bytes of the delimiter. */
  function Advance(d: seq<Byte>, h: nat, c: Byte): nat
    requires h < |d|
  {
    if c == d[h] then h + 1 else if c == CR then 1 else 0
  }

  /** One byte in part data: either the delimiter completes, or nothing held or emitted is lost. */
  lemma StepInData(boundary: seq<Byte>, core: Core, c: Byte)
    requires Reachable(boundary, core) && InData(core)
    ensures var t := Step(boundary, core, c);
            var d := Delimiter(boundary);
            var h := HeldLen(core);
            && t.ok
            && if Advance(d, h, c) == |d| then t.core == Core(PartDataPossibleEnd, |boundary|) && t.out == [PartEnd]
               else
                 && InData(t.core) && HeldLen(t.core) == Advance(d, h, c)
                 && t.out == (if c == d[h] then []
                              else (if h == 0 then [] else [PartData(d[..h])])
                                     + (if c == CR then [] else [PartData([c])]))
  {
    var d := Delimiter(boundary);
    assert d[0] == CR && d[1] == LF && d[2] == HYPHEN && d[3] == HYPHEN;
    if core.state.NextBoundary? {
      assert d[4 + core.index] == boundary[core.index];
    }
    var t := Step(boundary, core, c);
    assert [PartData(d[..HeldLen(core)])] + [] == [PartData(d[..HeldLen(core)])];
  }

  /** With a CR-free boundary the delimiter overlaps itself nowhere. */
  lemma NoBorder(boundary: seq<Byte>, h: nat, j: nat)
    requires CR !in boundary
    requires 0 < j < h <= |Delimiter(boundary)|
    ensures Delimiter(boundary)[..h][h - j..] != Delimiter(boundary)[..j]
  {
    var d := Delimiter(boundary);
    assert d[..h][h - j..][0] == d[h - j];
    assert d[h - j] != CR;
    assert d[..j][0] == CR;
  }

  lemma OverlapInit(d: seq<Byte>, s: seq<Byte>, c: Byte, j: nat)
    requires Overlap(d, s + [c], j) && j > 0
    ensures Overlap(d, s, j - 1) && d[j - 1] == c
  {
    var x := (s + [c])[|s| + 1 - j..];
    assert x == d[..j];
    assert x[j - 1] == c;
    assert s[|s| - (j - 1)..] == x[..j - 1];
    assert d[..j][..j - 1] == d[..j - 1];
  }

  lemma OverlapSnoc(d: seq<Byte>, s: seq<Byte>, c: Byte, h: nat)
    requires Overlap(d, s, h) && h < |d| && d[h] == c
    ensures Overlap(d, s + [c], h + 1)
  {
    assert (s + [c])[|s| - h..] == s[|s| - h..] + [c];
    assert d[..h + 1] == d[..h] + [c];
  }

  /** The matcher's bookkeeping keeps the longest overlap. */
  lemma LongestOverlapStep(boundary: seq<Byte>, s: seq<Byte>, c: Byte, h: nat)
    requires |boundary| > 0 && CR !in boundary
    requires h < |Delimiter(boundary)| && LongestOverlap(Delimiter(boundary), s, h)
    ensures LongestOverlap(Delimiter(boundary), s + [c], Advance(Delimiter(boundary), h, c))
  {
    var d := Delimiter(boundary);
    var h' := Advance(d, h, c);
    if c == d[h] {
      OverlapSnoc(d, s, c, h);
    } else if c == CR {
      assert Overlap(d, s, 0);
      OverlapSnoc(d, s, c, 0);
    } else {
      assert (s + [c])[|s| + 1..] == [] == d[..0];
    }
    forall j | h' < j < |d| ensures !Overlap(d, s + [c], j) {
      if Overlap(d, s + [c], j) {
        OverlapInit(d, s, c, j);
        assert j - 1 <= h;
        assert j - 1 != h;
        if j - 1 > 0 {
          assert s[|s| - h..][h - (j - 1)..] == s[|s| - (j - 1)..];
          NoBorder(boundary, h, j - 1);
        }
      }
    }
  }

  lemma NormDataSnoc(t: seq<Event>, data: seq<Byte>, more: seq<Byte>)
    requires Norm(true, t) == DataTrace(data) && more != []
    ensures Norm(true, t + [PartData(more)]) == DataTrace(data + more)
  {
    NormSnoc(true, t, PartData(more));
    assert data == [] ==> data + more == more;
  }

  lemma OccursPrefix(d: seq<Byte>, s: seq<Byte>, n: nat)
    requires n <= |s| && !Occurs(d, s)
    ensures !Occurs(d, s[..n])
  {
    forall k | 0 <= k <= n ensures !OccursAt(d, s[..n], k) {
      if k + |d| <= n {
        SliceOfPrefix(s, n, k, k + |d|);
        assert !OccursAt(d, s, k);
      }
    }
  }

  ghost predicate Matched(boundary: seq<Byte>, s: seq<Byte>, r: FeedResult) {
    && r.ok && InData(r.core) && Reachable(boundary, r.core) && !r.cut
    && LongestOverlap(Delimiter(boundary), s, HeldLen(r.core))
    && Norm(true, r.out) == DataTrace(s[..|s| - HeldLen(r.core)])
  }

  lemma OverlapOfOne(d: seq<Byte>, c: Byte)
    requires |d| > 1
    ensures LongestOverlap(d, [c], if c == d[0] then 1 else 0)
  {
    var s := [c];
    var h := if c == d[0] then 1 else 0;
    assert Overlap(d, s, h) by {
      assert s[|s| - h..] == d[..h];
    }
    forall j | h < j < |d| ensures !Overlap(d, s, j) {
      if j == 1 {
        assert s[0..][0] != d[..1][0];
      }
    }
  }

  lemma NormOfPair(data: seq<Byte>)
    ensures Norm(true, DataTrace(data)) == DataTrace(data)
  {
    NormSnoc(true, [], HeadersComplete);
    assert [] + [HeadersComplete] == [HeadersComplete];
    if data != [] {
      NormSnoc(true, [HeadersComplete], PartData(data));
      assert [HeadersComplete] + [PartData(data)] == DataTrace(data);
    }
  }

  lemma StepFirst(boundary: seq<Byte>, index: nat, c: Byte)
    requires |boundary| > 0
    ensures Step(boundary, Core(PartDataStart, index), c) ==
            if c == CR then Accept(PartDataCR, index, DataTrace([])) else Accept(PartDataProceed, index, DataTrace([c]))
  {
  }

  lemma MatchedFirst(boundary: seq<Byte>, index: nat, c: Byte)
    requires |boundary| > 0
    ensures Matched(boundary, [c], Feed(boundary, Core(PartDataStart, index), [c]))
  {
    hide Norm, LongestOverlap, Feed, Step, Held, DataTrace, CutsName;
    FeedOne(boundary, Core(PartDataStart, index), c);
    StepFirst(boundary, index, c);
    DelimiterHead(boundary);
    OverlapOfOne(Delimiter(boundary), c);
    hide Delimiter;
    assert !CutsName(Core(PartDataStart, index), c) by { NeverCuts(index, c); }
    if c == CR {
      NormOfPair([]);
      assert [c][..|[c]| - 1] == [];
    } else {
      NormOfPair([c]);
      assert [c][..|[c]| - 0] == [c];
    }
  }

  lemma DelimiterHead(boundary: seq<Byte>)
    ensures |Delimiter(boundary)| >= 4 && Delimiter(boundary)[0] == CR
  {
  }

  lemma NeverCuts(index: nat, c: Byte)
    ensures !CutsName(Core(PartDataStart, index), c)
  {
  }

  lemma FullOverlapOccurs(d: seq<Byte>, s: seq<Byte>)
    ensures Overlap(d, s, |d|) ==> Occurs(d, s)
  {
    if Overlap(d, s, |d|) {
      assert s[|s| - |d|..] == s[|s| - |d|..|s| - |d| + |d|] && d[..|d|] == d;
      assert OccursAt(d, s, |s| - |d|);
    }
  }

  /** What a mismatch hands over: the held bytes and, unless it is a CR, the byte itself. */
  lemma NormFlush(t: seq<Event>, data: seq<Byte>, held: seq<Byte>, tail: seq<Byte>)
    requires Norm(true, t) == DataTrace(data)
    ensures Norm(true, t + ((if held == [] then [] else [PartData(held)])
                              + (if tail == [] then [] else [PartData(tail)])))
         == DataTrace(data + held + tail)
  {
    hide Norm;
    var t1 := if held == [] then t else t + [PartData(held)];
    if held != [] {
      NormDataSnoc(t, data, held);
    } else {
      assert data + held == data;
    }
    if tail != [] {
      NormDataSnoc(t1, data + held, tail);
    } else {
      assert data + held + tail == data + held;
    }
    assert t + ((if held == [] then [] else [PartData(held)]) + (if tail == [] then [] else [PartData(tail)]))
        == if tail == [] then t1 else t1 + [PartData(tail)];
  }

  lemma MatchedSnoc(boundary: seq<Byte>, s: seq<Byte>, r: FeedResult, c: Byte)
    requires |boundary| > 0 && CR !in boundary
    requires Matched(boundary, s, r) && !Occurs(Delimiter(boundary), s + [c])
    ensures Matched(boundary, s + [c], Extend(boundary, r, c))
  {
    hide Norm, Step, Occurs;
    var d := Delimiter(boundary);
    var h := HeldLen(r.core);
    var h' := Advance(d, h, c);
    var s' := s + [c];
    StepInData(boundary, r.core, c);
    LongestOverlapStep(boundary, s, c, h);
    FullOverlapOccurs(d, s');
    hide LongestOverlap, Reachable, Delimiter;
    var t := Step(boundary, r.core, c);
    var data := s[..|s| - h];
    assert s == data + d[..h];
    if c == d[h] {
      assert r.out + t.out == r.out;
      assert s'[..|s'| - h'] == data;
    } else {
      var tail := if c == CR then [] else [c];
      NormFlush(r.out, data, d[..h], tail);
      assert s'[..|s'| - h'] == data + d[..h] + tail;
    }
  }

  /** Without a delimiter, everything is handed over but the longest partial delimiter at the end. */
  lemma {:induction false} NoDelimiterYet(boundary: seq<Byte>, index: nat, s: seq<Byte>)
    requires |boundary| > 0 && CR !in boundary
    requires s != [] && !Occurs(Delimiter(boundary), s)
    ensures Matched(boundary, s, Feed(boundary, Core(PartDataStart, index), s))
    decreases |s|
  {
    if |s| == 1 {
      assert s == [s[0]];
      MatchedFirst(boundary, index, s[0]);
    } else {
      var s', c := s[..|s| - 1], s[|s| - 1];
      assert s == s' + [c];
      OccursPrefix(Delimiter(boundary), s, |s| - 1);
      NoDelimiterYet(boundary, index, s');
      MatchedSnoc(boundary, s', Feed(boundary, Core(PartDataStart, index), s'), c);
    }
  }

  lemma SliceOfPrefix(s: seq<Byte>, n: nat, i: nat, j: nat)
    requires i <= j <= n <= |s|
    ensures s[..n][i..j] == s[i..j]
  {
  }

  lemma BeforeFirst(d: seq<Byte>, s: seq<Byte>, k: nat)
    requires |d| > 0 && FirstAt(d, s, k)
    ensures !Occurs(d, s[..k + |d| - 1]) && Overlap(d, s[..k + |d| - 1], |d| - 1) && s[k + |d| - 1] == d[|d| - 1]
  {
    var n := k + |d| - 1;
    var p := s[..n];
    assert s[n] == s[k..k + |d|][|d| - 1];
    assert p[|p| - (|d| - 1)..] == s[k..k + |d|][..|d| - 1];
    forall j | 0 <= j <= n ensures !OccursAt(d, p, j) {
      if j + |d| <= n {
        SliceOfPrefix(s, n, j, j + |d|);
        assert !OccursAt(d, s, j);
      }
    }
  }

  /** The byte that completes the delimiter. */
  lemma PartEnds(boundary: seq<Byte>, p: seq<Byte>, r: FeedResult)
    requires |boundary| > 0 && Matched(boundary, p, r)
    requires Overlap(Delimiter(boundary), p, |Delimiter(boundary)| - 1)
    ensures var d := Delimiter(boundary);
            var x := Extend(boundary, r, d[|d| - 1]);
            && x.ok && !x.cut && x.core == Core(PartDataPossibleEnd, |boundary|)
            && Norm(true, x.out) == DataTrace(p[..|p| - (|d| - 1)]) + [PartEnd]
  {
    hide Norm, Step;
    var d := Delimiter(boundary);
    assert HeldLen(r.core) == |d| - 1;
    StepInData(boundary, r.core, d[|d| - 1]);
    NormSnoc(true, r.out, PartEnd);
  }

  /** At the leftmost delimiter the part ends, and exactly the bytes before it were handed over. */
  lemma DelimiterFound(boundary: seq<Byte>, index: nat, s: seq<Byte>, k: nat)
    requires |boundary| > 0 && CR !in boundary
    requires FirstAt(Delimiter(boundary), s, k)
    ensures var r := Feed(boundary, Core(PartDataStart, index), s[..k + |Delimiter(boundary)|]);
            && r.ok && !r.cut && r.core == Core(PartDataPossibleEnd, |boundary|)
            && Norm(true, r.out) == DataTrace(s[..k]) + [PartEnd]
  {
    hide Norm, Step, Feed, Extend, Matched;
    var d := Delimiter(boundary);
    var n := k + |d| - 1;
    var p := s[..n];
    BeforeFirst(d, s, k);
    NoDelimiterYet(boundary, index, p);
    PartEnds(boundary, p, Feed(boundary, Core(PartDataStart, index), p));
    assert s[..k + |d|] == p + [d[|d| - 1]];
    FeedSnoc(boundary, Core(PartDataStart, index), p, d[|d| - 1]);
    assert p[..|p| - (|d| - 1)] == s[..k];
  }
}
