/** How many bytes of field names a call reports, and how many it loses when a CR cuts a name short. */
module MultipartNames {
  import opened Bytes
  import opened MultipartAutomaton

  function NameSize(e: Event): nat {
    if e.HeaderField? then |e.data| else 0
  }

  /** The bytes of field names in a trace. */
  function NameBytes(t: seq<Event>): nat {
    if t == [] then 0 else NameBytes(t[..|t| - 1]) + NameSize(t[|t| - 1])
  }

  lemma NameSnoc(t: seq<Event>, e: Event)
    ensures NameBytes(t + [e]) == NameBytes(t) + NameSize(e)
  {
    assert (t + [e])[..|t|] == t;
  }

  lemma {:induction false} NameConcat(t: seq<Event>, u: seq<Event>)
    ensures NameBytes(t + u) == NameBytes(t) + NameBytes(u)
  {
    if u == [] {
      assert t + u == t;
    } else {
      var n := |u| - 1;
      NameConcat(t, u[..n]);
      assert (t + u)[..|t| + n] == t + u[..n];
    }
  }

  lemma NameMerge(t: seq<Event>, e: Event)
    ensures NameBytes(Merge(t, e)) == NameBytes(t) + NameSize(e)
  {
    if |t| > 0 && SameKind(t[|t| - 1], e) {
      var n := |t| - 1;
      NameSnoc(t[..n], Join(t[n], e));
    } else {
      NameSnoc(t, e);
    }
  }

  lemma {:induction false} NameNorm(t: seq<Event>)
    ensures NameBytes(Norm(true, t)) == NameBytes(t)
  {
    if t != [] {
      var n := |t| - 1;
      NameNorm(t[..n]);
      NameMerge(Norm(true, t[..n]), t[n]);
    }
  }

  /** Regrouping does not change how many bytes of names a consumer sees. */
  lemma NameSame(t: seq<Event>, u: seq<Event>)
    requires Same(true, t, u)
    ensures NameBytes(t) == NameBytes(u)
  {
    NameNorm(t);
    NameNorm(u);
  }

  /** The bytes of the field name under way that belong to this call. */
  function NameRun(boundary: seq<Byte>, start: Core, s: seq<Byte>): nat
    requires Reachable(boundary, start)
  {
    if s == [] || !Feed(boundary, start, s).core.state.HeaderFieldProceed? then 0
    else if Feed(boundary, start, s[..|s| - 1]).core.state.HeaderFieldProceed? then
      NameRun(boundary, start, s[..|s| - 1]) + 1
    else 1
  }

  /** The bytes of names that a call on `s` never reports. */
  function LostNames(boundary: seq<Byte>, start: Core, s: seq<Byte>): nat
    requires Reachable(boundary, start)
  {
    if s == [] then 0
    else
      var s', c := s[..|s| - 1], s[|s| - 1];
      var r := Feed(boundary, start, s');
      LostNames(boundary, start, s') + if r.ok && CutsName(r.core, c) then NameRun(boundary, start, s') else 0
  }

  lemma RunSnoc(boundary: seq<Byte>, start: Core, s: seq<Byte>, c: Byte)
    requires Reachable(boundary, start)
    ensures NameRun(boundary, start, s + [c])
            == if !Feed(boundary, start, s + [c]).core.state.HeaderFieldProceed? then 0
               else if Feed(boundary, start, s).core.state.HeaderFieldProceed? then NameRun(boundary, start, s) + 1
               else 1
    ensures var r := Feed(boundary, start, s);
            LostNames(boundary, start, s + [c])
              == LostNames(boundary, start, s) + if r.ok && CutsName(r.core, c) then NameRun(boundary, start, s) else 0
  {
    hide Feed;
    assert (s + [c])[..|s|] == s;
  }
}
