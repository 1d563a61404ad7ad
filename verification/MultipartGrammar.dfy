/** The streams that the automaton accepts, as a grammar that does not mention its states. */
module MultipartGrammar {
  import opened Bytes
  import opened MultipartAutomaton
  import opened MultipartMatching
  import opened MultipartRoundTrip

  /** A part as it may stand in a stream; `dropped` is a field name that a CR cuts short. */
  datatype Piece = Piece(headers: seq<Header>, dropped: seq<Byte>, body: seq<Byte>)

  predicate GoodHeaders(hs: seq<Header>) {
    forall i :: 0 <= i < |hs| ==> GoodHeader(hs[i])
  }

  predicate GoodPiece(boundary: seq<Byte>, p: Piece) {
    GoodHeaders(p.headers) && IsName(p.dropped) && !Occurs(Delimiter(boundary), p.body)
  }

  predicate GoodPieces(boundary: seq<Byte>, ps: seq<Piece>) {
    forall i :: 0 <= i < |ps| ==> GoodPiece(boundary, ps[i])
  }

  function Head(p: Piece): seq<Byte> {
    RenderHeaders(p.headers) + p.dropped + CRLF
  }

  /** Up to where the headers behind the parts `ps` begin. */
  function Before(boundary: seq<Byte>, ps: seq<Piece>): seq<Byte> {
    if ps == [] then Opening(boundary) else Closed(boundary, ps) + CRLF
  }

  /** Up to the boundary behind the last of the parts. */
  function Closed(boundary: seq<Byte>, ps: seq<Piece>): seq<Byte>
    requires ps != []
    decreases |ps|, 0
  {
    var p := ps[|ps| - 1];
    (if |ps| == 1 then Opening(boundary) else Closed(boundary, ps[..|ps| - 1]) + CRLF)
    + Head(p) + (p.body + Delimiter(boundary))
  }

  function Entity(boundary: seq<Byte>, ps: seq<Piece>): seq<Byte>
    requires ps != []
  {
    Closed(boundary, ps) + [HYPHEN, HYPHEN]
  }

  predicate IsEntity(boundary: seq<Byte>, s: seq<Byte>, ps: seq<Piece>) {
    ps != [] && GoodPieces(boundary, ps) && s == Entity(boundary, ps)
  }

  lemma ClosedSnoc(boundary: seq<Byte>, ps: seq<Piece>, p: Piece)
    ensures Closed(boundary, ps + [p]) == Before(boundary, ps) + Head(p) + (p.body + Delimiter(boundary))
    ensures GoodPieces(boundary, ps) && GoodPiece(boundary, p) ==> GoodPieces(boundary, ps + [p])
  {
    assert (ps + [p])[..|ps|] == ps;
  }

  // ---- Every entity is accepted ----

  /** The automaton takes `s` from one state to another; `cut` tells whether a name is cut short. */
  predicate Reaches(boundary: seq<Byte>, core: Core, s: seq<Byte>, core': Core, cut: bool) {
    && Reachable(boundary, core)
    && var r := Feed(boundary, core, s);
    r.ok && r.core == core' && r.cut == cut
  }

  lemma ReachesThen(boundary: seq<Byte>, core: Core, s: seq<Byte>, mid: Core, cut: bool, t: seq<Byte>, core': Core,
                    cut': bool)
    requires Reaches(boundary, core, s, mid, cut) && Reaches(boundary, mid, t, core', cut')
    ensures Reaches(boundary, core, s + t, core', cut || cut')
  {
    hide Feed, Reachable;
    FeedConcat(boundary, core, s, t);
  }

  lemma GoesReaches(boundary: seq<Byte>, core: Core, s: seq<Byte>, core': Core, e: seq<Event>)
    requires Goes(boundary, core, s, core', e)
    ensures Reaches(boundary, core, s, core', false)
  {
  }

  lemma ReachesByte(boundary: seq<Byte>, core: Core, s: seq<Byte>, mid: Core, cut: bool, c: Byte)
    requires Reaches(boundary, core, s, mid, cut) && Reachable(boundary, mid) && Step(boundary, mid, c).ok
    ensures Reaches(boundary, core, s + [c], Step(boundary, mid, c).core, cut || CutsName(mid, c))
  {
    hide Feed, Step, CutsName;
    FeedSnoc(boundary, core, s, c);
  }

  lemma ReachesHead(boundary: seq<Byte>, index: nat, p: Piece)
    requires |boundary| > 0 && GoodHeaders(p.headers) && IsName(p.dropped)
    ensures Reaches(boundary, Core(HeaderFieldStart, index), Head(p), Core(PartDataStart, index), p.dropped != [])
  {
    var start, hs := Core(HeaderFieldStart, index), RenderHeaders(p.headers);
    GoesHeaders(boundary, index, p.headers);
    GoesReaches(boundary, start, hs, start, HeaderEvents(p.headers));
    var mid, s := start, hs;
    if p.dropped != [] {
      GoesName(boundary, index, p.dropped);
      mid, s := Core(HeaderFieldProceed, index), hs + p.dropped;
      GoesReaches(boundary, start, p.dropped, mid, [HeaderField(p.dropped)]);
      hide Reaches;
      ReachesThen(boundary, start, hs, start, false, p.dropped, mid, false);
    } else {
      assert hs + p.dropped == hs;
    }
    hide Reaches, Feed;
    ReachesByte(boundary, start, s, mid, false, CR);
    ReachesByte(boundary, start, s + [CR], Core(HeadersPossibleEnd, index), p.dropped != [], LF);
    assert s + [CR] + [LF] == Head(p);
  }

  lemma ReachesPiece(boundary: seq<Byte>, index: nat, p: Piece)
    requires GoodBoundary(boundary) && GoodPiece(boundary, p)
    ensures Reaches(boundary, Core(HeaderFieldStart, index), Head(p) + (p.body + Delimiter(boundary)),
                    Core(PartDataPossibleEnd, |boundary|), p.dropped != [])
  {
    hide Reaches, Goes, Head, Occurs, Delimiter;
    ReachesHead(boundary, index, p);
    GoesBody(boundary, index, p.body);
    GoesReaches(boundary, Core(PartDataStart, index), p.body + Delimiter(boundary),
                Core(PartDataPossibleEnd, |boundary|), DataTrace(p.body) + [PartEnd]);
    ReachesThen(boundary, Core(HeaderFieldStart, index), Head(p), Core(PartDataStart, index), p.dropped != [],
                p.body + Delimiter(boundary), Core(PartDataPossibleEnd, |boundary|), false);
  }

  predicate Drops(ps: seq<Piece>) {
    exists i :: 0 <= i < |ps| && ps[i].dropped != []
  }

  lemma DropsSnoc(ps: seq<Piece>)
    requires ps != []
    ensures Drops(ps) <==> Drops(ps[..|ps| - 1]) || ps[|ps| - 1].dropped != []
  {
  }

  lemma {:induction false} ReachesClosed(boundary: seq<Byte>, ps: seq<Piece>)
    requires GoodBoundary(boundary) && GoodPieces(boundary, ps) && ps != []
    ensures Reaches(boundary, START, Closed(boundary, ps), Core(PartDataPossibleEnd, |boundary|), Drops(ps))
  {
    hide Reaches, Goes, Head, Delimiter, GoodPiece, Drops, Opening, Feed;
    var init, p := ps[..|ps| - 1], ps[|ps| - 1];
    var piece := Head(p) + (p.body + Delimiter(boundary));
    DropsSnoc(ps);
    if |ps| == 1 {
      NoDrops();
      GoesOpening(boundary);
      GoesReaches(boundary, START, Opening(boundary), Core(HeaderFieldStart, 0), [PartBegin]);
      ReachesPiece(boundary, 0, p);
      ReachesThen(boundary, START, Opening(boundary), Core(HeaderFieldStart, 0), false, piece,
                  Core(PartDataPossibleEnd, |boundary|), p.dropped != []);
      assert Closed(boundary, ps) == Opening(boundary) + piece;
    } else {
      var s := Closed(boundary, init);
      ReachesClosed(boundary, init);
      ReachesByte(boundary, START, s, Core(PartDataPossibleEnd, |boundary|), Drops(init), CR);
      ReachesByte(boundary, START, s + [CR], Core(PartDataEnd, |boundary|), Drops(init), LF);
      assert s + [CR] + [LF] == s + CRLF;
      ReachesPiece(boundary, |boundary|, p);
      ReachesThen(boundary, START, s + CRLF, Core(HeaderFieldStart, |boundary|), Drops(init), piece,
                  Core(PartDataPossibleEnd, |boundary|), p.dropped != []);
      assert Closed(boundary, ps) == s + CRLF + piece;
    }
  }

  lemma NoDrops()
    ensures !Drops([])
  {
  }

  lemma ReachesEntity(boundary: seq<Byte>, ps: seq<Piece>)
    requires GoodBoundary(boundary) && GoodPieces(boundary, ps) && ps != []
    ensures Reaches(boundary, START, Entity(boundary, ps), Core(EntityEnd, |boundary|), Drops(ps))
  {
    hide Reaches, Closed, Drops, Feed;
    var s := Closed(boundary, ps);
    ReachesClosed(boundary, ps);
    ReachesByte(boundary, START, s, Core(PartDataPossibleEnd, |boundary|), Drops(ps), HYPHEN);
    ReachesByte(boundary, START, s + [HYPHEN], Core(EntityPossibleEnd, |boundary|), Drops(ps), HYPHEN);
    assert s + [HYPHEN] + [HYPHEN] == Entity(boundary, ps);
  }
}
