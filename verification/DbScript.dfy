/** What a database server returns to a batch, as the client library reports it call by call. */
module DbScript {
  import opened DatabaseResult
  import opened DbProtocol
  import opened Sequences

  /** A result set without rows, or with `m` of them. */
  datatype ResultSet = Empty | Rows(m: nat)

  /** The calls of the client library while a batch is processed. */
  datatype Call = Send | Store | Fetch | Free | Move

  /** A call that has come to its end: its code and, of a stored result set, whether it has rows. */
  datatype Exchange = Exchange(call: Call, code: DbaResult, rows: bool)

  /** An exchange, and how many result sets the batch is owed when it takes place. */
  datatype Line = Line(x: Exchange, left: int)

  const SENT := Exchange(Send, Ok, false)
  const NO_ROWS := Exchange(Store, Ok, false)
  const HAS_ROWS := Exchange(Store, Ok, true)
  const ROW := Exchange(Fetch, Ok, false)
  const END_OF_ROWS := Exchange(Fetch, EndOfRows, false)
  const FREED := Exchange(Free, Ok, false)
  const MOVED := Exchange(Move, Ok, false)
  const END_OF_SETS := Exchange(Move, EndOfRsets, false)

  function FetchLines(m: nat, left: int): seq<Line> {
    if m == 0 then [Line(END_OF_ROWS, left)] else [Line(ROW, left)] + FetchLines(m - 1, left)
  }

  /** The rows of a result set that nobody is owed are not fetched. */
  function SetLines(rs: ResultSet, left: int): seq<Line> {
    match rs
    case Empty => [Line(NO_ROWS, left)]
    case Rows(m) => [Line(HAS_ROWS, left)] + (if left > 0 then FetchLines(m, left) else []) + [Line(FREED, left)]
  }

  function SetsLines(sets: seq<ResultSet>, left: int): seq<Line>
    requires sets != []
  {
    SetLines(sets[0], left)
    + if |sets| == 1 then [Line(END_OF_SETS, left - 1)] else [Line(MOVED, left - 1)] + SetsLines(sets[1..], left - 1)
  }

  /** The batch is sent, and the server returns the result sets. */
  function Script(sets: seq<ResultSet>, owed: int): seq<Line>
    requires sets != []
  {
    [Line(SENT, owed)] + SetsLines(sets, owed)
  }

  // ---- The notes that the script calls for, but for their finality ----

  const OPENING := Note(CheckRset, Ok, false)
  const NOTHING_IN := Note(CheckRset, EndOfRows, false)
  const ONE_ROW := Note(RowReady, Ok, false)
  const RELEASE := Note(FreeDone, Ok, false)

  function NotesOf(line: Line): seq<Note> {
    if line.left <= 0 then []
    else if line.x == NO_ROWS then [NOTHING_IN]
    else if line.x == HAS_ROWS then [OPENING]
    else if line.x == ROW then [ONE_ROW]
    else if line.x == FREED then [RELEASE]
    else []
  }

  function Notes(lines: seq<Line>): seq<Note> {
    if lines == [] then [] else Notes(lines[..|lines| - 1]) + NotesOf(lines[|lines| - 1])
  }

  lemma NotesSnoc(lines: seq<Line>, l: Line)
    ensures Notes(lines + [l]) == Notes(lines) + NotesOf(l)
  {
    assert (lines + [l])[..|lines|] == lines;
  }

  lemma {:induction false} NotesConcat(a: seq<Line>, b: seq<Line>)
    ensures Notes(a + b) == Notes(a) + Notes(b)
  {
    hide Notes, NotesOf;
    if b == [] {
      NoLines();
      assert a + b == a && b == [] && Notes(a) + [] == Notes(a);
    } else {
      var n := |b| - 1;
      NotesConcat(a, b[..n]);
      NotesSnoc(a + b[..n], b[n]);
      NotesSnoc(b[..n], b[n]);
      assert a + b[..n] + [b[n]] == a + b && b[..n] + [b[n]] == b;
      Associates(Notes(a), Notes(b[..n]), NotesOf(b[n]));
    }
  }

  /** One result set as it should be told. */
  function SetNotes(rs: ResultSet): seq<Note> {
    match rs
    case Empty => [NOTHING_IN]
    case Rows(m) => [OPENING] + RowNotes(m) + [RELEASE]
  }

  function RowNotes(m: nat): (r: seq<Note>)
    ensures |r| == m && forall i :: 0 <= i < m ==> r[i] == ONE_ROW
  {
    if m == 0 then [] else [ONE_ROW] + RowNotes(m - 1)
  }

  function SetsNotes(sets: seq<ResultSet>): seq<Note> {
    if sets == [] then [] else SetNotes(sets[0]) + SetsNotes(sets[1..])
  }

  lemma OneLine(l: Line)
    ensures Notes([l]) == NotesOf(l)
  {
    assert [] + [l] == [l];
    NotesSnoc([], l);
  }

  lemma {:induction false} FetchNotes(m: nat, left: int)
    requires left > 0
    ensures Notes(FetchLines(m, left)) == RowNotes(m)
  {
    if m == 0 {
      OneLine(Line(END_OF_ROWS, left));
    } else {
      hide Notes;
      FetchNotes(m - 1, left);
      NotesConcat([Line(ROW, left)], FetchLines(m - 1, left));
      OneLine(Line(ROW, left));
    }
  }

  lemma SetLinesNotes(rs: ResultSet, left: int)
    ensures Notes(SetLines(rs, left)) == if left > 0 then SetNotes(rs) else []
  {
    hide Notes;
    match rs
    case Empty => OneLine(Line(NO_ROWS, left));
    case Rows(m) =>
      var a, b, c := [Line(HAS_ROWS, left)], if left > 0 then FetchLines(m, left) else [], [Line(FREED, left)];
      OneLine(Line(HAS_ROWS, left));
      OneLine(Line(FREED, left));
      NotesConcat(a + b, c);
      NotesConcat(a, b);
      if left > 0 { FetchNotes(m, left); } else { NoLines(); }
  }

  lemma NoLines()
    ensures Notes([]) == []
  {
  }

  function Owed(sets: seq<ResultSet>, left: int): seq<ResultSet> {
    if left <= 0 then [] else if left < |sets| then sets[..left] else sets
  }

  lemma OwedRest(sets: seq<ResultSet>, left: int)
    requires sets != []
    ensures left > 0 ==> SetsNotes(Owed(sets, left)) == SetNotes(sets[0]) + SetsNotes(Owed(sets[1..], left - 1))
    ensures left <= 0 ==> Owed(sets, left) == Owed(sets[1..], left - 1) == []
  {
    hide SetNotes;
    if left > 0 {
      var o := Owed(sets, left);
      assert o[0] == sets[0] && o[1..] == Owed(sets[1..], left - 1);
    }
  }

  lemma {:induction false} SetsLinesNotes(sets: seq<ResultSet>, left: int)
    requires sets != []
    ensures Notes(SetsLines(sets, left)) == SetsNotes(Owed(sets, left))
  {
    hide Notes, SetLines, SetNotes, SetsNotes, Owed;
    SetLinesNotes(sets[0], left);
    OwedRest(sets, left);
    if |sets| == 1 {
      OneLine(Line(END_OF_SETS, left - 1));
      NotesConcat(SetLines(sets[0], left), [Line(END_OF_SETS, left - 1)]);
      NoneOwed(left - 1);
      assert sets[1..] == [];
    } else {
      var more := SetsLines(sets[1..], left - 1);
      SetsLinesNotes(sets[1..], left - 1);
      OneLine(Line(MOVED, left - 1));
      NotesConcat([Line(MOVED, left - 1)], more);
      NotesConcat(SetLines(sets[0], left), [Line(MOVED, left - 1)] + more);
      if left <= 0 { NoneOwed(left); }
    }
  }

  lemma NoneOwed(left: int)
    ensures SetsNotes(Owed([], left)) == [] && SetsNotes([]) == []
  {
  }

  /** The script tells of the result sets that are owed, each as it should be told. */
  lemma ScriptNotes(sets: seq<ResultSet>, owed: int)
    requires sets != []
    ensures Notes(Script(sets, owed)) == SetsNotes(Owed(sets, owed))
  {
    hide Notes, SetsLines, Owed;
    OneLine(Line(SENT, owed));
    SetsLinesNotes(sets, owed);
    NotesConcat([Line(SENT, owed)], SetsLines(sets, owed));
    assert [] + SetsNotes(Owed(sets, owed)) == SetsNotes(Owed(sets, owed));
  }

  // ---- How the lines follow one another ----

  predicate Proper(l: Line) {
    || l.x == SENT || l.x == NO_ROWS || l.x == HAS_ROWS || l.x == FREED || l.x == MOVED || l.x == END_OF_SETS
    || ((l.x == ROW || l.x == END_OF_ROWS) && l.left > 0)
  }

  predicate Follows(a: Line, b: Line) {
    match a.x.call
    case Send => b.x.call.Store? && b.left == a.left
    case Store =>
      if !a.x.rows then b.x.call.Move? && b.left == a.left - 1
      else b.left == a.left && if a.left > 0 then b.x.call.Fetch? else b.x.call.Free?
    case Fetch => b.left == a.left && if a.x.code.EndOfRows? then b.x.call.Free? else b.x.call.Fetch?
    case Free => b.x.call.Move? && b.left == a.left - 1
    case Move => a.x.code.Ok? && b.x.call.Store? && b.left == a.left
  }

  predicate Linked(lines: seq<Line>) {
    && (forall n :: 0 <= n < |lines| ==> Proper(lines[n]))
    && (forall n, m :: 0 <= n && m == n + 1 < |lines| ==> Follows(lines[n], lines[m]))
  }

  lemma LinkedConcat(a: seq<Line>, b: seq<Line>)
    requires a != [] && b != [] && Linked(a) && Linked(b) && Follows(a[|a| - 1], b[0])
    ensures Linked(a + b)
  {
    hide Proper, Follows;
    var s := a + b;
    forall n, m | 0 <= n && m == n + 1 < |s| ensures Follows(s[n], s[m]) {
      if m < |a| {
        assert s[n] == a[n] && s[m] == a[m];
      } else if n >= |a| {
        assert s[n] == b[n - |a|] && s[m] == b[m - |a|];
      }
    }
  }

  lemma {:induction false} FetchLinked(m: nat, left: int)
    requires left > 0
    ensures var f := FetchLines(m, left);
            Linked(f) && f != [] && f[0].x.call.Fetch? && f[0].left == left && f[|f| - 1] == Line(END_OF_ROWS, left)
  {
    if m > 0 {
      FetchLinked(m - 1, left);
      LinkedConcat([Line(ROW, left)], FetchLines(m - 1, left));
    }
  }

  lemma SetLinked(rs: ResultSet, left: int)
    ensures var f := SetLines(rs, left);
            && Linked(f) && f != [] && f[0].x.call.Store? && f[0].left == left
            && f[|f| - 1].left == left && (f[|f| - 1].x == NO_ROWS || f[|f| - 1].x == FREED)
  {
    match rs
    case Empty =>
    case Rows(m) =>
      var a, c := [Line(HAS_ROWS, left)], [Line(FREED, left)];
      if left > 0 {
        FetchLinked(m, left);
        LinkedConcat(a, FetchLines(m, left));
        LinkedConcat(a + FetchLines(m, left), c);
      } else {
        LinkedConcat(a, c);
        assert a + [] + c == a + c;
      }
  }

  lemma {:induction false} SetsLinked(sets: seq<ResultSet>, left: int)
    requires sets != []
    ensures var f := SetsLines(sets, left);
            && Linked(f) && f != [] && f[0].x.call.Store? && f[0].left == left && f[|f| - 1].x == END_OF_SETS
  {
    hide Linked, SetLines;
    SetLinked(sets[0], left);
    var a := SetLines(sets[0], left);
    if |sets| == 1 {
      OneLinked(Line(END_OF_SETS, left - 1));
      LinkedConcat(a, [Line(END_OF_SETS, left - 1)]);
    } else {
      var m, more := [Line(MOVED, left - 1)], SetsLines(sets[1..], left - 1);
      SetsLinked(sets[1..], left - 1);
      OneLinked(Line(MOVED, left - 1));
      LinkedConcat(m, more);
      LinkedConcat(a, m + more);
    }
  }

  lemma OneLinked(l: Line)
    requires Proper(l)
    ensures Linked([l])
  {
  }

  /** A script begins with the sending of the batch and ends with the last result set. */
  lemma ScriptLinked(sets: seq<ResultSet>, owed: int)
    requires sets != []
    ensures var f := Script(sets, owed);
            && Linked(f) && |f| > 1 && f[0] == Line(SENT, owed) && f[|f| - 1].x == END_OF_SETS
  {
    hide Linked, SetsLines;
    SetsLinked(sets, owed);
    OneLinked(Line(SENT, owed));
    LinkedConcat([Line(SENT, owed)], SetsLines(sets, owed));
  }

  lemma {:induction false} SetsLast(sets: seq<ResultSet>, left: int)
    requires sets != []
    ensures var f := SetsLines(sets, left); f != [] && f[|f| - 1] == Line(END_OF_SETS, left - |sets|)
  {
    hide SetLines;
    if |sets| > 1 { SetsLast(sets[1..], left - 1); }
  }

  /** Behind the last result set the batch is owed what the server did not return. */
  lemma ScriptLast(sets: seq<ResultSet>, owed: int)
    requires sets != []
    ensures var f := Script(sets, owed); f[|f| - 1].left == owed - |sets|
  {
    hide SetsLines;
    SetsLast(sets, owed);
  }
}
