/** Base64 without line feeds, as section 4 of RFC 4648 defines it, and the wrapping into lines. */
module Base64 {
  import opened Bytes
  import opened Sequences

  const PAD: Byte := 61
  /** The entry of the decoding table for bytes outside the alphabet. */
  const SKIP: Byte := 0x80
  const WIDTH := 72

  /** A value of six bits. */
  type Sextet = v: int | 0 <= v < 64

  /** Table 1 of RFC 4648. */
  function Symbol(v: Sextet): Byte {
    if v < 26 then 65 + v
    else if v < 52 then 97 + (v - 26)
    else if v < 62 then 48 + (v - 52)
    else if v == 62 then 43
    else 47
  }

  /** The decoding table: the value of a symbol, 0 for the padding, and `SKIP` for other bytes. */
  function Code(c: Byte): Byte {
    if 65 <= c <= 90 then c - 65
    else if 97 <= c <= 122 then c - 97 + 26
    else if 48 <= c <= 57 then c - 48 + 52
    else if c == 43 then 62
    else if c == 47 then 63
    else if c == PAD then 0
    else SKIP
  }

  lemma CodeOfSymbol(v: Sextet)
    ensures Code(Symbol(v)) == v && Symbol(v) != PAD && Symbol(v) != LF
  {
  }

  /** The four symbols of three bytes. */
  function Quad(a: Byte, b: Byte, c: Byte): seq<Byte> {
    [Symbol(a / 4), Symbol(a % 4 * 16 + b / 16), Symbol(b % 16 * 4 + c / 64), Symbol(c % 64)]
  }

  /** The symbols of one or two bytes at the end, padded. */
  function Tail(s: seq<Byte>): seq<Byte>
    requires 0 < |s| < 3
  {
    if |s| == 1 then [Symbol(s[0] / 4), Symbol(s[0] % 4 * 16), PAD, PAD]
    else [Symbol(s[0] / 4), Symbol(s[0] % 4 * 16 + s[1] / 16), Symbol(s[1] % 16 * 4), PAD]
  }

  function Plain(s: seq<Byte>): (r: seq<Byte>)
    ensures |r| == (|s| + 2) / 3 * 4
  {
    if s == [] then []
    else if |s| < 3 then Tail(s)
    else Quad(s[0], s[1], s[2]) + Plain(s[3..])
  }

  lemma PlainStep(s: seq<Byte>)
    requires |s| >= 3
    ensures Plain(s) == Quad(s[0], s[1], s[2]) + Plain(s[3..])
  {
    hide Quad, Tail;
  }

  lemma {:induction false} PlainConcat(s: seq<Byte>, t: seq<Byte>)
    requires |s| % 3 == 0
    ensures Plain(s + t) == Plain(s) + Plain(t)
  {
    hide Quad, Tail;
    if s == [] {
      assert s + t == t;
    } else {
      hide Plain;
      PlainConcat(s[3..], t);
      PlainStep(s + t);
      PlainStep(s);
      BehindThree(s, t);
      Associates(Quad(s[0], s[1], s[2]), Plain(s[3..]), Plain(t));
    }
  }

  lemma BehindThree(s: seq<Byte>, t: seq<Byte>)
    requires |s| >= 3
    ensures (s + t)[3..] == s[3..] + t && (s + t)[0] == s[0] && (s + t)[1] == s[1] && (s + t)[2] == s[2]
  {
  }

  lemma PlainSnoc(s: seq<Byte>, a: Byte, b: Byte, c: Byte)
    requires |s| % 3 == 0
    ensures Plain(s + [a, b, c]) == Plain(s) + Quad(a, b, c)
  {
    hide Quad, Tail;
    var q := [a, b, c];
    PlainConcat(s, q);
    PlainStep(q);
    assert q[3..] == [];
    assert Quad(a, b, c) + [] == Quad(a, b, c);
  }

  // ---- Lines ----

  /** A line feed follows every 72nd symbol. */
  function Flow(t: seq<Byte>): (r: seq<Byte>)
    ensures |r| == |t| + |t| / WIDTH
  {
    if t == [] then []
    else
      var n := |t| - 1;
      Flow(t[..n]) + [t[n]] + if |t| % WIDTH == 0 then [LF] else []
  }

  /** Every line, the last one included, ends with a line feed. */
  function Wrapped(t: seq<Byte>): seq<Byte> {
    Flow(t) + if |t| % WIDTH == 0 then [] else [LF]
  }

  lemma FlowSnoc(t: seq<Byte>, c: Byte)
    ensures Flow(t + [c]) == Flow(t) + [c] + if (|t| + 1) % WIDTH == 0 then [LF] else []
  {
    assert (t + [c])[..|t|] == t;
  }

  lemma InLine(n: nat, k: nat)
    requires n % 4 == 0 && 0 < k < 4
    ensures (n + k) % WIDTH != 0
  {
  }

  lemma FlowInLine(t: seq<Byte>, r: seq<Byte>, c: Byte)
    requires Flow(t + r) == Flow(t) + r && (|t + r| + 1) % WIDTH != 0
    ensures Flow(t + (r + [c])) == Flow(t) + (r + [c])
  {
    hide Flow;
    FlowSnoc(t + r, c);
    assert t + r + [c] == t + (r + [c]);
    assert Flow(t) + r + [c] == Flow(t) + (r + [c]);
  }

  lemma FlowQuad(t: seq<Byte>, q: seq<Byte>)
    requires |t| % 4 == 0 && |q| == 4
    ensures Flow(t + q) == Flow(t) + q + if (|t| + 4) % WIDTH == 0 then [LF] else []
  {
    hide Flow;
    assert t + [] == t && Flow(t) + [] == Flow(t);
    InLine(|t|, 1);
    FlowInLine(t, [], q[0]);
    InLine(|t|, 2);
    assert [] + [q[0]] == q[..1] && q[..1] + [q[1]] == q[..2] && q[..2] + [q[2]] == q[..3];
    FlowInLine(t, q[..1], q[1]);
    InLine(|t|, 3);
    FlowInLine(t, q[..2], q[2]);
    FlowSnoc(t + q[..3], q[3]);
    assert t + q[..3] + [q[3]] == t + q;
    assert Flow(t) + q[..3] + [q[3]] == Flow(t) + q;
  }

  /** Where the line feeds are. */
  lemma {:induction false} FlowAt(t: seq<Byte>, i: nat)
    requires i < |Flow(t)| && LF !in t
    ensures Flow(t)[i] == LF <==> i % (WIDTH + 1) == WIDTH
  {
    var n := |t| - 1;
    if i < |Flow(t[..n])| {
      FlowAt(t[..n], i);
    } else if i == |Flow(t[..n])| {
      assert Flow(t)[i] == t[n];
    }
  }

  /** No stretch without a line feed is longer than a line. */
  predicate ShortLines(s: seq<Byte>) {
    forall i, j :: 0 <= i <= j <= |s| && LF !in s[i..j] ==> j - i <= WIDTH
  }

  lemma NextFeed(i: nat) returns (k: nat)
    ensures i <= k <= i + WIDTH && k % (WIDTH + 1) == WIDTH
  {
    var q, r := i / (WIDTH + 1), i % (WIDTH + 1);
    assert i == q * (WIDTH + 1) + r;
    k := q * (WIDTH + 1) + WIDTH;
    EndOfLine(q);
  }

  lemma EndOfLine(q: nat)
    ensures (q * (WIDTH + 1) + WIDTH) % (WIDTH + 1) == WIDTH
  {
  }

  lemma LinesAreShort(t: seq<Byte>)
    requires LF !in t
    ensures ShortLines(Wrapped(t))
    ensures t != [] ==> Wrapped(t)[|Wrapped(t)| - 1] == LF
  {
    hide Flow;
    var s := Wrapped(t);
    forall i, j | 0 <= i <= j <= |s| && j - i > WIDTH ensures LF in s[i..j] {
      var k := NextFeed(i);
      if k < |Flow(t)| { FlowAt(t, k); }
      assert s[i..j][k - i] == LF;
    }
    if t != [] && |t| % WIDTH == 0 { LastOfFlow(t); }
  }

  lemma LastOfFlow(t: seq<Byte>)
    requires t != [] && |t| % WIDTH == 0
    ensures Flow(t)[|Flow(t)| - 1] == LF
  {
  }
}
