/** Creation of a directory path, one ancestor per round of callbacks. */
module Mkdir {
  import opened Bytes
  import opened Options

  const NUL: Byte := 0
  const SLASH: Byte := 47
  const DOT: Byte := 46

  type Text = seq<Byte>

  predicate Plain(s: Text) {
    s != [] && NUL !in s && SLASH !in s
  }

  /** A component: plain, and not the directory itself or its parent. */
  predicate Component(s: Text) {
    Plain(s) && s != [DOT] && s != [DOT, DOT]
  }

  /** Components joined by single slashes. */
  function Join(cs: seq<Text>): Text {
    if cs == [] then [] else if |cs| == 1 then cs[0] else cs[0] + [SLASH] + Join(cs[1..])
  }

  ghost predicate Components(cs: seq<Text>) {
    forall i :: 0 <= i < |cs| ==> Component(cs[i])
  }

  datatype Result = Accept | Complete | ArgError | DataError | OsError
  /** What the file system answers to one request. */
  datatype FsAnswer = Made | Exists | Failed

  class Operation {
    const path: Text
    const prefix: Text
    /** The path, ended by a NUL, which the tokenizer overwrites. */
    const origin: array<Byte>
    /** Where the tokenizer goes on. */
    var save: nat
    var currParent: Text
    var fullSize: nat
    /** The end of the part of the path that has been read. */
    ghost var read: nat

    ghost predicate Valid()
      reads this, origin
    {
      && NUL !in path && origin.Length == |path| + 1 && origin[|path|] == NUL
      && read <= save <= |path| && origin[save..|path|] == path[save..]
      && (currParent == [] ==> save == 0 && read == 0) && (save > 0 ==> read < save || read == |path|)
      && (currParent != [] ==>
            && |currParent| <= Offset() + read && fullSize == Offset() + |path|
            && |currParent| > Offset())
    }

    function Offset(): nat {
      if prefix == [] then 0 else |prefix| + 1
    }

    constructor (path: Text, prefix: Text)
      requires NUL !in path && NUL !in prefix
      ensures Valid() && this.path == path && this.prefix == prefix && currParent == [] && fresh(origin)
    {
      this.path, this.prefix := path, prefix;
      var buffer := new Byte[|path| + 1](i => if 0 <= i < |path| then path[i] else NUL);
      origin := buffer;
      save, currParent, fullSize, read := 0, [], 0, 0;
      new;
      assert origin[0..|path|] == path;
    }

    /** `strtok_r` on the rest of the path: slashes are skipped, then the token reaches to the next one. */
    method NextToken() returns (token: Option<Text>, ghost start: nat)
      requires Valid()
      modifies this`save, this`read, origin
      ensures origin[|path|] == NUL && read <= save <= |path| && origin[save..|path|] == path[save..]
      ensures IsToken(path, old(save), start, token, read)
      ensures token.Some? ==> save == if read < |path| then read + 1 else read
    {
      ghost var from := save;
      SameBytes(origin[..], path, from);
      var p := save;
      while origin[p] == SLASH
        invariant from <= p <= |path| && forall i :: from <= i < p ==> path[i] == SLASH
        decreases |path| - p
      {
        p := p + 1;
      }
      start := p;
      if origin[p] == NUL {
        NotNul(path, p);
        save, read := p, p;
        SameRest(origin[..], path, p);
        return None, start;
      }
      var q := p;
      while origin[q] != SLASH && origin[q] != NUL
        invariant p <= q <= |path| && forall i :: p <= i < q ==> path[i] != SLASH
        decreases |path| - q
      {
        q := q + 1;
      }
      token := Some(origin[p..q]);
      SameSlice(origin[..], path, p, q);
      read := q;
      if origin[q] == NUL {
        NotNul(path, q);
        save := q;
      } else {
        origin[q] := NUL;
        save := q + 1;
      }
      SameRest(origin[..], path, save);
    }

    /** What stands before the first component. */
    function Base(): Text {
      if prefix == [] then [] else prefix + [SLASH]
    }

    /** Appends the next component to the current parent. */
    method NextParent() returns (result: Result, ghost start: nat, ghost token: Option<Text>)
      requires Valid()
      modifies this`save, this`read, this`currParent, this`fullSize, origin
      ensures IsToken(path, old(save), start, token, read)
      ensures result == if token.None? || token == Some([DOT]) || token == Some([DOT, DOT]) then ArgError else Accept
      ensures result == Accept ==>
                && Valid() && old(read) < read && save == (if read < |path| then read + 1 else read)
                && currParent
                   == (if old(currParent) != [] then old(currParent) + [SLASH]
                       else if prefix == [] then [] else prefix + [SLASH]) + token.value
    {
      hide IsToken;
      var initial := currParent == [];
      if initial {
        save := 0;
        fullSize := |path| + Offset();
        assert read == 0;
      }
      ghost var before := read;
      var tok;
      tok, start := NextToken();
      token := tok;
      TokenAhead(path, old(save), start, tok, read);
      if initial {
        currParent := Base();
      }
      if tok.None? || tok.value == [DOT] || tok.value == [DOT, DOT] {
        return ArgError, start, token;
      }
      if !initial {
        currParent := currParent + [SLASH];
      }
      currParent := currParent + tok.value;
      if |currParent| > fullSize {
        return DataError, start, token;
      }
      result := Accept;
    }

    /** Copies the current parent, without the prefix, back over the tokenized path. */
    method Restore()
      requires Valid() && currParent != []
      modifies origin
      ensures var text := currParent[Offset()..];
              |text| <= |path| && Leaves(origin[..], text)
    {
      var text := currParent[Offset()..];
      forall i | 0 <= i < |text| {
        origin[i] := text[i];
      }
      origin[|text|] := NUL;
      assert origin[..][..|text|] == text;
    }

    /**
     The chain of requests and callbacks. `fs` answers the requests; an existing directory is fine
     where the caller allows it. For a path of components joined by single slashes, the ancestors
     are requested once each, parents first, up to the first failure, and a completed operation
     leaves the path as it was.
     */
    method MakeAll(fs: Text -> FsAnswer, allowExists: bool, ghost cs: seq<Text>)
      returns (result: Result, requests: seq<Text>)
      requires Valid() && currParent == []
      modifies this`save, this`read, this`currParent, this`fullSize, origin
      ensures result == Complete || result == OsError || result == ArgError
      ensures cs != [] && Components(cs) && path == Join(cs) ==>
                && 0 < |requests| <= |cs|
                && (prefix == [] ==> forall i :: 0 <= i < |requests| ==> requests[i] == Join(cs[..i + 1]))
                && (prefix != [] ==>
                      forall i :: 0 <= i < |requests| ==> requests[i] == prefix + [SLASH] + Join(cs[..i + 1]))
                && (forall i :: 0 <= i < |requests| - 1 ==>
                      fs(requests[i]).Made? || (fs(requests[i]).Exists? && allowExists))
                && (var last := fs(requests[|requests| - 1]);
                    result == Complete <==> last.Made? || (last.Exists? && allowExists))
                && (result != Complete ==> result == OsError)
                && (result == Complete ==> |requests| == |cs| && origin[..|path|] == path && origin[|path|] == NUL)
                && Leaves(origin[..], Join(cs[..|requests|]))
    {
      hide IsToken, Join, Components, Ancestors, Walked;
      requests := [];
      ghost var good := cs != [] && Components(cs) && path == Join(cs);
      if good { StartWalk(path, cs, Base()); }
      while true
        invariant Valid() && (currParent == [] <==> requests == [])
        invariant good ==> Walked(path, cs, Base(), save, currParent, requests) && |requests| < |cs|
        invariant forall i :: 0 <= i < |requests| ==> Fine(fs(requests[i]), allowExists)
        decreases |path| - read
      {
        ghost var from, parent := save, currParent;
        var accepted, start, token := NextParent();
        if good {
          Walk(path, cs, Base(), from, parent, requests, start, token, read);
        }
        if accepted != Accept {
          return accepted, requests;
        }
        requests := requests + [currParent];
        var ok := Fine(fs(currParent), allowExists);
        var final := origin[save] == NUL || !ok;
        SavedByte();
        if good {
          WalkEnds(path, cs, Base(), save, currParent, requests);
          AncestorsAre(Base(), cs, requests);
        }
        if final {
          Restore();
          if good { Restored(path, cs, |requests|, Base(), currParent, origin[..]); }
        }
        if !ok {
          return OsError, requests;
        }
        if final {
          return Complete, requests;
        }
      }
    }

    lemma SavedByte()
      requires Valid()
      ensures origin[save] == NUL <==> save == |path|
    {
      if save < |path| {
        assert origin[save] == origin[save..|path|][0] == path[save];
      }
    }
  }

  predicate IsToken(path: Text, from: nat, start: nat, token: Option<Text>, end: nat) {
    && from <= start <= |path| && (forall i :: from <= i < start ==> path[i] == SLASH)
    && match token
       case None => start == |path|
       case Some(t) =>
         && start < end <= |path| && t == path[start..end] && (forall i :: start <= i < end ==> path[i] != SLASH)
         && (end < |path| ==> path[end] == SLASH)
  }

  /** The buffer agrees with the path from a position on, byte by byte and as a whole. */
  lemma SameBytes(buffer: Text, path: Text, from: nat)
    requires |buffer| == |path| + 1 && from <= |path| && buffer[from..|path|] == path[from..]
    ensures forall i :: from <= i < |path| ==> buffer[i] == path[i]
  {
    assert forall i :: from <= i < |path| ==> buffer[i] == buffer[from..|path|][i - from];
  }

  lemma SameSlice(buffer: Text, path: Text, p: nat, q: nat)
    requires p <= q <= |path| < |buffer| && forall i :: p <= i < q ==> buffer[i] == path[i]
    ensures buffer[p..q] == path[p..q]
  {
  }

  lemma SameRest(buffer: Text, path: Text, from: nat)
    requires |buffer| == |path| + 1 && from <= |path| && forall i :: from <= i < |path| ==> buffer[i] == path[i]
    ensures buffer[from..|path|] == path[from..]
  {
  }

  lemma NotNul(path: Text, i: nat)
    requires NUL !in path && i <= |path| && (i < |path| ==> path[i] == NUL)
    ensures i == |path|
  {
  }

  lemma TokenAhead(path: Text, from: nat, start: nat, token: Option<Text>, end: nat)
    requires IsToken(path, from, start, token, end)
    ensures token.Some? ==> 0 < |token.value| == end - start && from <= start && end <= |path|
  {
  }

  predicate Fine(answer: FsAnswer, allowExists: bool) {
    answer.Made? || (answer.Exists? && allowExists)
  }

  /** The first `n` ancestors. */
  function Ancestors(base: Text, cs: seq<Text>, n: nat): seq<Text>
    requires n <= |cs|
  {
    if n == 0 then [] else Ancestors(base, cs, n - 1) + [base + Join(cs[..n])]
  }

  lemma AncestorsSnoc(base: Text, cs: seq<Text>, n: nat)
    requires n < |cs|
    ensures Ancestors(base, cs, n + 1) == Ancestors(base, cs, n) + [base + Join(cs[..n + 1])]
  {
  }

  lemma {:induction false} AncestorAt(base: Text, cs: seq<Text>, n: nat, i: nat)
    requires i < n <= |cs|
    ensures |Ancestors(base, cs, n)| == n && Ancestors(base, cs, n)[i] == base + Join(cs[..i + 1])
  {
    if n > 1 { AncestorAt(base, cs, n - 1, if i < n - 1 then i else 0); }
  }

  lemma AncestorsAre(base: Text, cs: seq<Text>, requests: seq<Text>)
    requires |requests| <= |cs| && requests == Ancestors(base, cs, |requests|)
    ensures forall i :: 0 <= i < |requests| ==> requests[i] == base + Join(cs[..i + 1])
    ensures base == [] ==> forall i :: 0 <= i < |requests| ==> requests[i] == Join(cs[..i + 1])
  {
    forall i | 0 <= i < |requests|
      ensures requests[i] == base + Join(cs[..i + 1]) && (base == [] ==> requests[i] == Join(cs[..i + 1]))
    {
      AncestorAt(base, cs, |requests|, i);
      assert [] + Join(cs[..i + 1]) == Join(cs[..i + 1]);
    }
  }

  /** The requests made so far, the current parent and the rest of the path belong to the components. */
  ghost predicate Walked(path: Text, cs: seq<Text>, base: Text, save: nat, parent: Text, requests: seq<Text>) {
    && |requests| <= |cs| && requests == Ancestors(base, cs, |requests|)
    && save <= |path| && path[save..] == Join(cs[|requests|..])
    && (requests != [] ==> parent == base + Join(cs[..|requests|]))
  }

  lemma StartWalk(path: Text, cs: seq<Text>, base: Text)
    requires path == Join(cs)
    ensures Walked(path, cs, base, 0, [], [])
  {
    assert cs[0..] == cs && path[0..] == path;
  }

  /** In a path of components the next token is the next component, and the walk goes on behind it. */
  lemma Walk(path: Text, cs: seq<Text>, base: Text, save: nat, parent: Text, requests: seq<Text>,
             start: nat, token: Option<Text>, end: nat)
    requires Walked(path, cs, base, save, parent, requests) && Components(cs) && |requests| < |cs|
    requires IsToken(path, save, start, token, end)
    ensures token.Some? && token != Some([DOT]) && token != Some([DOT, DOT])
    ensures var next := (if requests == [] then base else parent + [SLASH]) + token.value;
            Walked(path, cs, base, if end < |path| then end + 1 else end, next, requests + [next])
  {
    hide Join, Components, IsToken, Ancestors;
    var k := |requests|;
    TokenAhead(path, save, start, token, end);
    TokenIs(path, cs, k, save, start, token, end);
    JoinSnoc(cs, k, base);
    AncestorsSnoc(base, cs, k);
  }

  lemma WalkEnds(path: Text, cs: seq<Text>, base: Text, save: nat, parent: Text, requests: seq<Text>)
    requires Walked(path, cs, base, save, parent, requests) && Components(cs) && requests != []
    ensures 0 < |requests| <= |cs| && requests == Ancestors(base, cs, |requests|)
    ensures parent == base + Join(cs[..|requests|])
    ensures save == |path| <==> |requests| == |cs|
  {
    hide Components, Ancestors;
    if |requests| < |cs| {
      JoinNotEmpty(cs, |requests|);
    } else {
      assert cs[|cs|..] == [];
    }
  }

  lemma {:induction false} JoinEnd(cs: seq<Text>, k: nat)
    requires 0 < k < |cs|
    ensures Join(cs[..k + 1]) == Join(cs[..k]) + [SLASH] + cs[k]
    decreases |cs|
  {
    if k == 1 {
      assert cs[..2][1..] == [cs[1]];
    } else {
      JoinEnd(cs[1..], k - 1);
      assert cs[..k + 1][1..] == cs[1..][..k] && cs[..k][1..] == cs[1..][..k - 1];
    }
  }

  lemma JoinSnoc(cs: seq<Text>, k: nat, base: Text)
    requires k < |cs|
    ensures base + Join(cs[..k + 1]) == if k == 0 then base + cs[k] else base + Join(cs[..k]) + [SLASH] + cs[k]
  {
    hide Join;
    if k == 0 {
      FirstOnly(cs);
    } else {
      JoinEnd(cs, k);
      assert base + (Join(cs[..k]) + [SLASH] + cs[k]) == base + Join(cs[..k]) + [SLASH] + cs[k];
    }
  }

  lemma FirstOnly(cs: seq<Text>)
    requires cs != []
    ensures Join(cs[..1]) == cs[0]
  {
  }

  lemma JoinHead(cs: seq<Text>, k: nat)
    requires k < |cs|
    ensures Join(cs[k..]) == if k + 1 == |cs| then cs[k] else cs[k] + [SLASH] + Join(cs[k + 1..])
    ensures k + 1 == |cs| ==> Join(cs[k + 1..]) == []
  {
    assert cs[k..][1..] == cs[k + 1..];
  }

  /** In a path of components the next token is the next component. */
  lemma TokenIs(path: Text, cs: seq<Text>, k: nat, from: nat, start: nat, token: Option<Text>, end: nat)
    requires k < |cs| && Components(cs) && from <= |path| && path[from..] == Join(cs[k..])
    requires IsToken(path, from, start, token, end)
    ensures token == Some(cs[k]) && token != Some([DOT]) && token != Some([DOT, DOT])
    ensures var save := if end < |path| then end + 1 else end;
            path[save..] == Join(cs[k + 1..])
  {
    JoinHead(cs, k);
    hide Join;
    var c, rest := cs[k], path[from..];
    assert Component(c);
    assert forall i :: from <= i < |path| ==> path[i] == rest[i - from];
    assert rest[0] == c[0] && path[from] == c[0];
    assert start == from;
    assert forall i :: 0 <= i < |c| ==> path[from + i] == c[i];
    if k + 1 < |cs| { assert path[from + |c|] == SLASH; }
    TokenEnd(path, from, end, c, k + 1 < |cs|);
    assert path[start..end] == c;
    if k + 1 < |cs| {
      JoinNotEmpty(cs, k + 1);
      assert path[end + 1..] == rest[|c| + 1..];
    }
  }

  lemma TokenEnd(path: Text, from: nat, end: nat, c: Text, more: bool)
    requires from < end <= |path| && Plain(c) && from + |c| <= |path|
    requires forall i :: 0 <= i < |c| ==> path[from + i] == c[i]
    requires if more then from + |c| < |path| && path[from + |c|] == SLASH else from + |c| == |path|
    requires forall i :: from <= i < end ==> path[i] != SLASH
    requires end < |path| ==> path[end] == SLASH
    ensures end == from + |c|
  {
    assert forall i :: 0 <= i < |c| ==> c[i] != SLASH;
    assert forall i :: from <= i < from + |c| ==> path[i] == c[i - from];
  }

  lemma JoinNotEmpty(cs: seq<Text>, k: nat)
    requires k < |cs| && Components(cs)
    ensures Join(cs[k..]) != []
  {
    assert Component(cs[k]);
    assert cs[k..][0] == cs[k];
  }

  /** The buffer holds the text, ended by a NUL. */
  predicate Leaves(buffer: seq<Byte>, text: Text) {
    |text| < |buffer| && buffer[..|text|] == text && buffer[|text|] == NUL
  }

  lemma Restored(path: Text, cs: seq<Text>, k: nat, base: Text, parent: Text, buffer: seq<Byte>)
    requires k <= |cs| && path == Join(cs) && parent == base + Join(cs[..k])
    requires Leaves(buffer, parent[|base|..])
    ensures Leaves(buffer, Join(cs[..k]))
    ensures k == |cs| ==> Leaves(buffer, path)
  {
    assert parent[|base|..] == Join(cs[..k]);
    assert cs[..|cs|] == cs;
  }
}
