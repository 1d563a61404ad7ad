/** The upload driver and the quota estimate on a well-formed entity with one part. */
module UploadOfOnePart {
  import opened Bytes
  import opened MultipartAutomaton
  import opened MultipartCounting
  import opened MultipartMatching
  import opened MultipartParser
  import opened MultipartRoundTrip
  import opened UploadPart
  import opened UploadReading

  lemma {:induction false} HeaderEventsCount(hs: seq<Header>)
    ensures DataOf(HeaderEvents(hs)) == [] && Begins(HeaderEvents(hs)) == 0 && !Ended(HeaderEvents(hs))
  {
    if |hs| == 0 {
      CountEmpty();
    } else {
      hide DataOf, Begins, Late;
      var h, init := hs[|hs| - 1], HeaderEvents(hs[..|hs| - 1]);
      HeaderEventsCount(hs[..|hs| - 1]);
      CountSnoc(init, HeaderField(h.name));
      CountSnoc(init + [HeaderField(h.name)], HeaderValue(h.value));
      assert init + [HeaderField(h.name), HeaderValue(h.value)]
               == init + [HeaderField(h.name)] + [HeaderValue(h.value)];
    }
  }

  lemma DataTraceCount(body: seq<Byte>)
    ensures DataOf(DataTrace(body) + [PartEnd]) == body && Begins(DataTrace(body) + [PartEnd]) == 0
    ensures !Ended(DataTrace(body) + [PartEnd])
  {
    hide DataOf, Begins, Late;
    CountEmpty();
    CountSnoc([], HeadersComplete);
    assert [] + [HeadersComplete] == [HeadersComplete];
    if body != [] {
      CountSnoc([HeadersComplete], PartData(body));
      assert [HeadersComplete] + [PartData(body)] == DataTrace(body);
    }
    CountSnoc(DataTrace(body), PartEnd);
  }

  lemma PartEventsCount(p: Part)
    ensures DataOf(PartsEvents([p])) == p.body && Begins(PartsEvents([p])) == 1 && !Ended(PartsEvents([p]))
  {
    hide DataOf, Begins, Late;
    var e, f := HeaderEvents(p.headers), DataTrace(p.body) + [PartEnd];
    assert [p][..0] == [];
    assert PartsEvents([p]) == [] + PartEvents(p) == [PartBegin] + e + f;
    HeaderEventsCount(p.headers);
    DataTraceCount(p.body);
    CountEmpty();
    CountSnoc([], PartBegin);
    assert [] + [PartBegin] == [PartBegin];
    CountConcat([PartBegin], e);
    CountConcat([PartBegin] + e, f);
  }

  /** The automaton on all bytes but the last of a rendered part followed by `tail`. */
  lemma VerdictOnRendered(boundary: seq<Byte>, p: Part, tail: seq<Byte>)
    requires GoodBoundary(boundary) && GoodPart(boundary, p)
    ensures var w := Whole(boundary, Render(boundary, [p]) + tail);
            && DataOf(w.out) == p.body && Begins(w.out) == 1
            && Ended(w.out) == (tail != []) && (tail == [] ==> w.ok)
  {
    hide Feed, Norm, DataOf, Begins, Late, Ended, GoodPart, PartsEvents;
    var s := Render(boundary, [p]) + tail;
    var e := PartsEvents([p]);
    var body := Opening(boundary) + RenderParts(boundary, [p]);
    PartEventsCount(p);
    GoesUpToLast(boundary, [p]);
    GoesClosing(boundary, body, e);
    if tail == [] {
      assert s[..|s| - 1] == body + [HYPHEN];
      CountSame(true, Feed(boundary, START, body + [HYPHEN]).out, e);
    } else {
      var x, z := body + [HYPHEN, HYPHEN], tail[..|tail| - 1];
      assert s[..|s| - 1] == x + z;
      var r := Feed(boundary, START, x);
      CountSame(true, r.out, e + [BodyEnd]);
      CountSnoc(e, BodyEnd);
      FeedConcat(boundary, START, x, z);
      EndIsFinal(boundary, r.core, z);
      assert r.out + [] == r.out;
    }
  }

  /**
   Uploading a rendered part followed by `tail`, with storage that accepts every request: if at
   least one byte follows the closing delimiter, the non-empty writes concatenate to the body,
   the file is closed once and the recorded size is that of the body; if none does, the driver
   repeats an empty read for ever.
   */
  method StorePart(boundary: seq<Byte>, p: Part, tail: seq<Byte>, accepts: nat -> bool)
    returns (o: Progress, written: seq<seq<Byte>>, closes: nat, size: nat)
    requires GoodBoundary(boundary) && GoodPart(boundary, p)
    ensures forall k :: 0 <= k < |written| ==> written[k] != []
    ensures closes <= 1
    ensures (forall k :: accepts(k)) ==>
              if tail == [] then o == Looping
              else o == Closing && closes == 1 && Flatten(written) == p.body && size == |p.body|
  {
    hide Feed, Norm, DataOf, Begins, Late, Ended, Flatten, ReadAll, Whole, Render;
    var entity := Render(boundary, [p]) + tail;
    Long(boundary, p);
    var u := new Upload(boundary, entity);
    o := u.Run(accepts);
    VerdictOnRendered(boundary, p, tail);
    Verdict(boundary, entity);
    written, closes, size := u.written, u.closes, u.totFileSz;
  }

  lemma Long(boundary: seq<Byte>, p: Part)
    requires |boundary| > 0
    ensures |Render(boundary, [p])| >= 4
  {
    assert |Opening(boundary)| >= 4;
  }

  // ---------- quota estimate ----------

  const BLANK_LINE: seq<Byte> := [CR, LF, CR, LF]
  const SIZE_LIMIT: nat := 0x1_0000_0000_0000_0000

  /** The bytes a C string function sees: up to the first NUL. */
  function AsCString(s: seq<Byte>): seq<Byte> {
    if |s| == 0 || s[0] == 0 then [] else [s[0]] + AsCString(s[1..])
  }

  /** Bytes assumed to be file content when the blank line is found at `k`; size_t arithmetic wraps. */
  function EstimatedSize(len: nat, k: nat, boundaryLen: nat): nat {
    (len - (k + (8 + boundaryLen))) % SIZE_LIMIT
  }

  lemma {:induction false} AsCStringPrefix(s: seq<Byte>, t: seq<Byte>)
    requires 0 !in s
    ensures AsCString(s + t) == s + AsCString(t)
  {
    if |s| == 0 {
      assert s + t == t;
    } else {
      assert (s + t)[1..] == s[1..] + t;
      AsCStringPrefix(s[1..], t);
      assert s == [s[0]] + s[1..];
    }
  }

  /** Lines that are neither empty nor contain a CR, each ended by CRLF. */
  ghost predicate IsHead(s: seq<Byte>) {
    |s| >= 2 && s[|s| - 2..] == CRLF && !Occurs(BLANK_LINE, s)
  }

  lemma HeadMore(s: seq<Byte>, line: seq<Byte>)
    requires (s == [] || IsHead(s)) && line != [] && CR !in line
    ensures IsHead(s + line + CRLF)
  {
    var t := s + line + CRLF;
    assert t[|t| - 2..] == CRLF;
    forall k | 0 <= k <= |t| ensures !OccursAt(BLANK_LINE, t, k) {
      if k + 4 <= |t| {
        var w := t[k..k + 4];
        assert w[0] == t[k] && w[1] == t[k + 1] && w[2] == t[k + 2] && w[3] == t[k + 3];
        if k + 4 <= |s| {
          assert w == s[k..k + 4];
          assert !OccursAt(BLANK_LINE, s, k);
        } else if k + 2 >= |s| {
          assert k + 2 < |t| - 2 ==> t[k + 2] == line[k + 2 - |s|];
          if k < |s| && k + 2 == |t| - 2 {
            assert t[k] == s[k] == s[|s| - 2..][1];
          }
          assert |s| <= k ==> t[k] == line[k - |s|];
        } else {
          assert t[k + 2] == s[|s| - 2..][1];
        }
      }
    }
  }

  function HeaderLine(h: Header): seq<Byte> {
    h.name + [COLON] + Spaces(h.pad) + h.value
  }

  lemma {:induction false} SpacesOnly(n: nat)
    ensures CR !in Spaces(n) && 0 !in Spaces(n)
  {
    if n > 0 {
      SpacesOnly(n - 1);
    }
  }

  lemma HeaderLineClean(h: Header)
    requires GoodHeader(h)
    ensures RenderHeader(h) == HeaderLine(h) + CRLF
    ensures HeaderLine(h) != [] && CR !in HeaderLine(h) && (0 in RenderHeader(h) <==> 0 in h.value)
  {
    SpacesOnly(h.pad);
    assert CR !in h.name && 0 !in h.name;
    assert HeaderLine(h)[|h.name|] == COLON;
  }

  /** Some header value has a NUL. */
  predicate HasNul(hs: seq<Header>) {
    exists i :: 0 <= i < |hs| && 0 in hs[i].value
  }

  lemma HeadPlus(s: seq<Byte>, h: Header)
    requires GoodHeader(h) && IsHead(s)
    ensures IsHead(s + RenderHeader(h))
    ensures 0 in s + RenderHeader(h) <==> 0 in s || 0 in h.value
  {
    HeaderLineClean(h);
    hide *;
    HeadMore(s, HeaderLine(h));
    assert s + HeaderLine(h) + CRLF == s + RenderHeader(h);
  }

  lemma HeadSnoc(boundary: seq<Byte>, init: seq<Header>, h: Header)
    requires GoodHeader(h) && IsHead(Opening(boundary) + RenderHeaders(init))
    ensures IsHead(Opening(boundary) + RenderHeaders(init + [h]))
    ensures 0 in Opening(boundary) + RenderHeaders(init + [h])
            <==> 0 in Opening(boundary) + RenderHeaders(init) || 0 in h.value
  {
    hide *;
    RenderSnoc(init, h);
    HeadPlus(Opening(boundary) + RenderHeaders(init), h);
    assert Opening(boundary) + RenderHeaders(init + [h]) == Opening(boundary) + RenderHeaders(init) + RenderHeader(h);
  }

  lemma {:induction false} HeadOfPart(boundary: seq<Byte>, hs: seq<Header>)
    requires GoodBoundary(boundary) && 0 !in boundary
    requires forall i :: 0 <= i < |hs| ==> GoodHeader(hs[i])
    ensures IsHead(Opening(boundary) + RenderHeaders(hs))
    ensures 0 in Opening(boundary) + RenderHeaders(hs) <==> HasNul(hs)
  {
    if |hs| == 0 {
      assert Opening(boundary) + RenderHeaders(hs) == [] + ([HYPHEN, HYPHEN] + boundary) + CRLF;
      HeadMore([], [HYPHEN, HYPHEN] + boundary);
    } else {
      var init, h := hs[..|hs| - 1], hs[|hs| - 1];
      assert hs == init + [h];
      HeadOfPart(boundary, init);
      HeadSnoc(boundary, init, h);
      NulSnoc(init, h);
    }
  }

  lemma NulSnoc(init: seq<Header>, h: Header)
    ensures HasNul(init + [h]) <==> HasNul(init) || 0 in h.value
  {
    var hs := init + [h];
    if HasNul(init) {
      var i :| 0 <= i < |init| && 0 in init[i].value;
      assert 0 in hs[i].value;
    }
    if 0 in h.value { assert 0 in hs[|init|].value; }
  }

  /** A C string function does not look behind the first NUL. */
  lemma {:induction false} AsCStringCut(s: seq<Byte>, t: seq<Byte>) returns (k: nat)
    requires 0 in s
    ensures k <= |s| && AsCString(s + t) == s[..k]
  {
    if s[0] == 0 {
      k := 0;
    } else {
      k := AsCStringCut(s[1..], t);
      assert (s + t)[1..] == s[1..] + t;
      assert s[1..][..k] == s[1..k + 1] && [s[0]] + s[1..k + 1] == s[..k + 1];
      k := k + 1;
    }
  }

  lemma BlankLineAfterHead(head: seq<Byte>, rest: seq<Byte>)
    requires IsHead(head)
    ensures FirstAt(BLANK_LINE, head + CRLF + rest, |head| - 2)
  {
    var c, k := head + CRLF + rest, |head| - 2;
    assert c[k..k + 4] == head[k..] + CRLF;
    forall j | 0 <= j < k ensures !OccursAt(BLANK_LINE, c, j) {
      NoBlankLine(head, CRLF + rest, j);
      assert c == head + (CRLF + rest);
    }
  }

  /** No blank line starts before the last two bytes of a head, whatever follows it. */
  lemma NoBlankLine(head: seq<Byte>, rest: seq<Byte>, j: nat)
    requires IsHead(head) && j + 2 < |head|
    ensures !OccursAt(BLANK_LINE, head + rest, j)
  {
    var c, k := head + rest, |head| - 2;
    assert c[k] == head[k] == head[k..][0] == CR;
    if j + 4 <= |head| {
      assert c[j..j + 4] == head[j..j + 4];
      assert !OccursAt(BLANK_LINE, head, j);
    } else if j + 4 <= |c| {
      assert c[j..j + 4][1] == c[j + 1] == CR;
    }
  }

  /**
   The estimate the quota check makes for a rendered part followed by `tail`: the blank line is
   found where the headers end, and the estimate exceeds the body by two bytes and the tail.
   With the usual CRLF after the closing delimiter that is the size of the body plus four. If a
   header value has a NUL, no blank line is found and the request is refused.
   */
  lemma QuotaEstimate(boundary: seq<Byte>, p: Part, tail: seq<Byte>)
    requires GoodBoundary(boundary) && GoodPart(boundary, p) && 0 !in boundary
    requires |Render(boundary, [p]) + tail| < SIZE_LIMIT
    ensures var entity := Render(boundary, [p]) + tail;
            var k := |Opening(boundary) + RenderHeaders(p.headers)| - 2;
            if HasNul(p.headers) then !Occurs(BLANK_LINE, AsCString(entity))
            else FirstAt(BLANK_LINE, AsCString(entity), k)
                 && EstimatedSize(|entity|, k, |boundary|) == |p.body| + |tail| + 2
  {
    hide FirstAt, AsCString, RenderHeaders, Opening, HasNul, Occurs;
    var head := Opening(boundary) + RenderHeaders(p.headers);
    var rest := p.body + Delimiter(boundary) + [HYPHEN, HYPHEN] + tail;
    HeadOfPart(boundary, p.headers);
    assert Render(boundary, [p]) + tail == head + CRLF + rest;
    if HasNul(p.headers) {
      var k := AsCStringCut(head, CRLF + rest);
      assert head + (CRLF + rest) == head + CRLF + rest;
      OccursPrefix(BLANK_LINE, head, k);
    } else {
      hide IsHead;
      AsCStringPrefix(head + CRLF, rest);
      BlankLineAfterHead(head, AsCString(rest));
    }
  }
}
