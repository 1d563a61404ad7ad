/** Base64 as a stream of bits, which neither the encoder nor the decoder changes. */
module Base64Stream {
  import opened Bytes
  import opened Options
  import opened Base64
  import opened Base64Bits
  import opened Base64Decoder
  import opened Sequences

  const DIGITS := "0123456789"

  /** Table 1 of RFC 4648, in the order of the values. */
  const ALPHABET := UPPER + LOWER + DIGITS + "+/"

  lemma InOrder(v: Sextet)
    ensures |ALPHABET| == 64 && Symbol(v) == ALPHABET[v] as int
  {
    if v < 26 {
      assert ALPHABET[v] == UPPER[v];
    } else if v < 52 {
      assert ALPHABET[v] == LOWER[v - 26];
    } else if v < 62 {
      assert ALPHABET[v] == DIGITS[v - 52];
    } else {
      assert ALPHABET[v] == "+/"[v - 62];
    }
  }

  lemma InTable(c: Byte)
    requires Code(c) != SKIP && c != PAD
    ensures c as char in ALPHABET
  {
    InOrder(Code(c));
    assert Symbol(Code(c)) == c;
    hide Code, Symbol;
    assert ALPHABET[Code(c)] == c as char;
  }

  /** The tables of the encoder and of the decoder are the standard's. */
  lemma Tables(v: Sextet, c: Byte)
    ensures |ALPHABET| == 64 && Symbol(v) == ALPHABET[v] as int && Code(Symbol(v)) == v
    ensures Code(PAD) == 0 && (Code(c) == SKIP <==> c != PAD && c as char !in ALPHABET)
  {
    PadIsZero();
    hide Code, Symbol;
    InOrder(v);
    CodeOfSymbol(v);
    if c as char in ALPHABET {
      var w :| 0 <= w < 64 && ALPHABET[w] == c as char;
      InOrder(w);
      CodeOfSymbol(w);
    } else if Code(c) != SKIP && c != PAD {
      InTable(c);
    }
  }

  // ---- Numbers ----

  /** Bytes as the digits of a number. */
  function OfBytes(s: seq<Byte>): nat {
    if s == [] then 0 else OfBytes(s[..|s| - 1]) * 256 + s[|s| - 1]
  }

  /** Symbols as the digits of a number; padding is zero. */
  function OfText(t: seq<Byte>): nat {
    if t == [] then 0 else OfText(t[..|t| - 1]) * 64 + Code(t[|t| - 1])
  }

  lemma OfBytesSnoc(s: seq<Byte>, b: Byte)
    ensures OfBytes(s + [b]) == OfBytes(s) * 256 + b
  {
    assert (s + [b])[..|s|] == s;
  }

  lemma OfTextSnoc(t: seq<Byte>, c: Byte)
    ensures OfText(t + [c]) == OfText(t) * 64 + Code(c)
  {
    hide Code;
    assert (t + [c])[..|t|] == t;
  }

  function Octets(s: seq<Byte>): nat
    requires |s| == 3
  {
    var a: int, b: int, c: int := s[0], s[1], s[2];
    a * 65536 + b * 256 + c
  }

  function Sextets(q: seq<Byte>): nat
    requires |q| == 4
  {
    var w: int, x: int, y: int, z: int := Code(q[0]), Code(q[1]), Code(q[2]), Code(q[3]);
    w * 262144 + x * 4096 + y * 64 + z
  }

  lemma ThreeBytesMore(s: seq<Byte>, t: seq<Byte>)
    requires |t| == 3
    ensures OfBytes(s + t) == OfBytes(s) * 0x1_000000 + Octets(t)
  {
    hide OfBytes;
    OfBytesSnoc(s, t[0]);
    OfBytesSnoc(s + [t[0]], t[1]);
    OfBytesSnoc(s + [t[0]] + [t[1]], t[2]);
    assert s + [t[0]] + [t[1]] + [t[2]] == s + t;
  }

  lemma FourSymbolsMore(t: seq<Byte>, q: seq<Byte>)
    requires |q| == 4
    ensures OfText(t + q) == OfText(t) * 0x1_000000 + Sextets(q)
  {
    hide OfText, Code;
    OfTextSnoc(t, q[0]);
    OfTextSnoc(t + [q[0]], q[1]);
    OfTextSnoc(t + [q[0]] + [q[1]], q[2]);
    OfTextSnoc(t + [q[0]] + [q[1]] + [q[2]], q[3]);
    assert t + [q[0]] + [q[1]] + [q[2]] + [q[3]] == t + q;
  }

  /** For their length, the bytes are determined by the number. */
  lemma {:induction false} SameBytes(s: seq<Byte>, t: seq<Byte>)
    requires |s| == |t| && OfBytes(s) == OfBytes(t)
    ensures s == t
  {
    if s != [] {
      var n := |s| - 1;
      assert OfBytes(s) == OfBytes(s[..n]) * 256 + s[n] && OfBytes(t) == OfBytes(t[..n]) * 256 + t[n];
      hide OfBytes;
      assert s[n] == t[n] && OfBytes(s[..n]) == OfBytes(t[..n]);
      SameBytes(s[..n], t[..n]);
      assert s == s[..n] + [s[n]] && t == t[..n] + [t[n]];
    }
  }

  // ---- The encoder ----

  lemma QuadValue(a: Byte, b: Byte, c: Byte)
    ensures |Quad(a, b, c)| == 4 && Sextets(Quad(a, b, c)) == Octets([a, b, c])
  {
    hide Code, Symbol;
    CodeOfSymbol(a / 4);
    CodeOfSymbol(a % 4 * 16 + b / 16);
    CodeOfSymbol(b % 16 * 4 + c / 64);
    CodeOfSymbol(c % 64);
  }

  lemma {:induction false} TriplesValue(s: seq<Byte>)
    requires |s| % 3 == 0
    ensures OfText(Plain(s)) == OfBytes(s)
  {
    if s != [] {
      hide OfText, OfBytes, Plain, Quad, Octets, Sextets;
      var n := |s| - 3;
      var t := s[n..];
      TriplesValue(s[..n]);
      assert s == s[..n] + t && t == [t[0], t[1], t[2]];
      PlainSnoc(s[..n], t[0], t[1], t[2]);
      QuadValue(t[0], t[1], t[2]);
      FourSymbolsMore(Plain(s[..n]), Quad(t[0], t[1], t[2]));
      ThreeBytesMore(s[..n], t);
    }
  }

  /** What the last bytes lack of a triple. */
  function Filler(n: nat): seq<Byte> {
    if n % 3 == 0 then [] else if n % 3 == 1 then [0, 0] else [0]
  }

  lemma TailValue(s: seq<Byte>)
    requires 0 < |s| < 3
    ensures |Tail(s)| == 4 && |s + Filler(|s|)| == 3 && Sextets(Tail(s)) == Octets(s + Filler(|s|))
    ensures forall i :: 0 <= i < 4 ==> (Tail(s)[i] == PAD <==> i > |s|)
  {
    PadIsZero();
    hide Code, Symbol;
    var a, b := s[0], if |s| == 2 then s[1] else 0;
    CodeOfSymbol(a / 4);
    CodeOfSymbol(a % 4 * 16 + b / 16);
    CodeOfSymbol(b % 16 * 4);
  }

  /** The text has the value of the bytes, filled up to triples, and its padding is where they end. */
  lemma EncodedValue(s: seq<Byte>, i: nat)
    requires i < |Plain(s)|
    ensures |s + Filler(|s|)| % 3 == 0 && 3 * |Plain(s)| == 4 * |s + Filler(|s|)|
    ensures OfText(Plain(s)) == OfBytes(s + Filler(|s|))
    ensures Plain(s)[i] == PAD <==> 3 * i >= 4 * |s|
  {
    hide OfText, OfBytes, Plain;
    TextValue(s);
    PaddingAt(s, i);
  }

  /** Whole triples, and what follows them. */
  lemma Parted(s: seq<Byte>) returns (front: seq<Byte>, rest: seq<Byte>)
    ensures s == front + rest && |front| % 3 == 0 && |rest| < 3 && Filler(|s|) == Filler(|rest|)
    ensures Plain(s) == Plain(front) + Plain(rest) && 3 * |Plain(front)| == 4 * |front|
    ensures rest != [] ==> Plain(rest) == Tail(rest)
    ensures rest == [] ==> Plain(rest) == []
  {
    var n := |s| / 3 * 3;
    front, rest := s[..n], s[n..];
    hide Tail, Quad;
    if rest != [] { PlainIsTail(rest); }
    PlainConcat(front, rest);
  }

  lemma TextValue(s: seq<Byte>)
    ensures OfText(Plain(s)) == OfBytes(s + Filler(|s|))
  {
    hide OfText, OfBytes, Plain, Tail, Octets, Sextets, Filler;
    var front, rest := Parted(s);
    TriplesValue(front);
    if rest == [] {
      NoFiller();
      assert front == s && s + [] == s && Plain(front) + [] == Plain(front);
    } else {
      TailValue(rest);
      FourSymbolsMore(Plain(front), Tail(rest));
      ThreeBytesMore(front, rest + Filler(|rest|));
      Associates(front, rest, Filler(|rest|));
    }
  }

  lemma NoFiller()
    ensures Filler(0) == []
  {
  }

  lemma PaddingAt(s: seq<Byte>, i: nat)
    requires i < |Plain(s)|
    ensures Plain(s)[i] == PAD <==> 3 * i >= 4 * |s|
  {
    hide Plain, Tail, Sextets, Octets;
    var front, rest := Parted(s);
    NoPadding(front);
    if rest != [] { TailValue(rest); }
    if i < |Plain(front)| { assert Plain(s)[i] == Plain(front)[i]; }
  }

  lemma PlainIsTail(s: seq<Byte>)
    requires 0 < |s| < 3
    ensures Plain(s) == Tail(s)
  {
  }

  lemma {:induction false} NoPadding(s: seq<Byte>)
    requires |s| % 3 == 0
    ensures PAD !in Plain(s)
  {
    hide Plain, Quad;
    if s != [] {
      PlainStep(s);
      NoPaddingIn(s[0], s[1], s[2]);
      NoPadding(s[3..]);
      NotInBoth(PAD, Quad(s[0], s[1], s[2]), Plain(s[3..]));
    } else {
      NoText();
    }
  }

  lemma NoText()
    ensures Plain([]) == []
  {
  }

  lemma NotInBoth(c: Byte, s: seq<Byte>, t: seq<Byte>)
    requires c !in s && c !in t
    ensures c !in s + t
  {
  }

  lemma NoPaddingIn(a: Byte, b: Byte, c: Byte)
    ensures PAD !in Quad(a, b, c)
  {
    hide Code, Symbol;
    CodeOfSymbol(a / 4);
    CodeOfSymbol(a % 4 * 16 + b / 16);
    CodeOfSymbol(b % 16 * 4 + c / 64);
    CodeOfSymbol(c % 64);
  }

  // ---- The decoder ----

  lemma BlockValue(q: seq<Byte>)
    requires |q| == 4 && forall i :: 0 <= i < 4 ==> Code(q[i]) < 64
    ensures |BlockBytes(q)| == 3 && Octets(BlockBytes(q)) == Sextets(q)
  {
    hide Code;
    TripleValue(Code(q[0]), Code(q[1]), Code(q[2]), Code(q[3]));
  }

  lemma TripleValue(w: Byte, x: Byte, y: Byte, z: Byte)
    requires w < 64 && x < 64 && y < 64 && z < 64
    ensures var t := Triple(w, x, y, z);
            var a: int, b: int, c: int, h: int := w, x, y, z;
            |t| == 3 && Octets(t) == a * 262144 + b * 4096 + c * 64 + h
  {
    var a: int, b: int, c: int, h: int := w, x, y, z;
    Remainder(a * 4 + b / 16, 0, a * 4 + b / 16);
    Remainder(b * 16 + c / 4, b / 16, b % 16 * 16 + c / 4);
    Remainder(c * 64 + h, c / 4, c % 4 * 64 + h);
  }

  /** The significant bytes stand for values. */
  lemma {:induction false} SignificantValues(s: seq<Byte>)
    ensures forall i :: 0 <= i < |Significant(s)| ==> Code(Significant(s)[i]) < 64
  {
    if s != [] {
      OnlySymbol(0);
      hide Code;
      SignificantValues(s[1..]);
    }
  }

  /** The first `n` blocks of four hold no padding. */
  predicate Unpadded(f: seq<Byte>, n: nat) {
    4 * n <= |f| && PAD !in f[..4 * n]
  }

  /** The blocks of four in front of the first padded one, or all of them. */
  predicate BeforePadding(f: seq<Byte>, n: nat) {
    Unpadded(f, n) && (|f| < 4 * n + 4 || PAD in f[4 * n..4 * n + 4])
  }

  /**
   The blocks of a text have the value of three bytes each, up to the first block with padding; of
   that one as many bytes are kept as it lacks of three, and with none left to keep there is no result.
   */
  lemma {:induction false} BlocksValue(f: seq<Byte>) returns (n: nat, bytes: seq<Byte>)
    requires |f| % 4 == 0 && forall i :: 0 <= i < |f| ==> Code(f[i]) < 64
    ensures BeforePadding(f, n)
    ensures 4 * n == |f| ==> Blocks(f) == Some(bytes) && |bytes| == 3 * n && OfBytes(bytes) == OfText(f)
    ensures 4 * n < |f| ==>
              var pads := Pads(f[4 * n..4 * n + 4]);
              if pads > 2 then Blocks(f) == None
              else
                && |bytes| == 3 * n + 3 && OfBytes(bytes) == OfText(f[..4 * n + 4])
                && Blocks(f) == Some(bytes[..3 * n + 3 - pads])
  {
    hide OfText, OfBytes, Blocks, BlockBytes, Code, Octets, Sextets, Pads;
    n, bytes := 0, [];
    assert f[0..] == f && f[..0] == [];
    NothingYet(f);
    while 4 * n < |f| && PAD !in f[4 * n..4 * n + 4]
      invariant Unpadded(f, n) && |bytes| == 3 * n && OfBytes(bytes) == OfText(f[..4 * n])
      invariant Blocks(f) == Prepend(bytes, Blocks(f[4 * n..]))
      decreases |f| - 4 * n
    {
      var q := f[4 * n..4 * n + 4];
      NextBlock(f, n);
      BlockValue(q);
      ThreeBytesMore(bytes, BlockBytes(q));
      PrependTwice(bytes, BlockBytes(q), Blocks(f[4 * n + 4..]));
      n, bytes := n + 1, bytes + BlockBytes(q);
    }
    if 4 * n < |f| {
      var q := f[4 * n..4 * n + 4];
      NextBlock(f, n);
      BlockValue(q);
      ThreeBytesMore(bytes, BlockBytes(q));
      if Pads(q) <= 2 { CutBehind(bytes, BlockBytes(q), 3 - Pads(q)); }
      bytes := bytes + BlockBytes(q);
    } else {
      assert f[..4 * n] == f && f[4 * n..] == [];
      NoBlocks(bytes);
    }
  }

  lemma NothingYet(f: seq<Byte>)
    ensures OfBytes([]) == OfText([]) == 0 && Prepend([], Blocks(f)) == Blocks(f)
  {
    hide Blocks;
    if Blocks(f).Some? { assert [] + Blocks(f).value == Blocks(f).value; }
  }

  lemma NoBlocks(bytes: seq<Byte>)
    ensures Prepend(bytes, Blocks([])) == Some(bytes)
  {
    assert bytes + [] == bytes;
  }

  lemma CutBehind(s: seq<Byte>, t: seq<Byte>, k: nat)
    requires k <= |t|
    ensures (s + t)[..|s| + k] == s + t[..k]
  {
  }

  /** One block more of the text. */
  lemma NextBlock(f: seq<Byte>, n: nat)
    requires 4 * n + 4 <= |f|
    ensures var q, rest := f[4 * n..4 * n + 4], f[4 * n + 4..];
            && OfText(f[..4 * n + 4]) == OfText(f[..4 * n]) * 0x1_000000 + Sextets(q)
            && (PAD in q <==> Pads(q) > 0)
            && Blocks(f[4 * n..])
               == if Pads(q) == 0 then Prepend(BlockBytes(q), Blocks(rest))
                  else if Pads(q) <= 2 then Some(BlockBytes(q)[..3 - Pads(q)]) else None
  {
    hide OfText, Blocks, BlockBytes, Code, Sextets, Pads;
    var q, rest := f[4 * n..4 * n + 4], f[4 * n + 4..];
    assert f[..4 * n + 4] == f[..4 * n] + q && f[4 * n..] == q + rest;
    FourSymbolsMore(f[..4 * n], q);
    BlocksStep(q, rest);
    FourPads(q);
  }

  /** What the decoder makes of any text, and which texts it rejects. */
  lemma DecodedValue(s: seq<Byte>) returns (n: nat, bytes: seq<Byte>)
    ensures var f := Significant(s);
            if f == [] || |f| % 4 != 0 then Decoded(s) == None
            else
              && BeforePadding(f, n)
              && if 4 * n == |f| then Decoded(s) == Some(bytes) && |bytes| == 3 * n && OfBytes(bytes) == OfText(f)
                 else
                   var pads := Pads(f[4 * n..4 * n + 4]);
                   if pads > 2 then Decoded(s) == None
                   else
                     && |bytes| == 3 * n + 3 && OfBytes(bytes) == OfText(f[..4 * n + 4])
                     && Decoded(s) == Some(bytes[..3 * n + 3 - pads])
  {
    hide OfText, OfBytes, Blocks, Pads, Significant, Code;
    var f := Significant(s);
    SignificantValues(s);
    n, bytes := 0, [];
    if f != [] && |f| % 4 == 0 {
      n, bytes := BlocksValue(f);
    }
  }

  // ---- Lines ----

  /** Lines hold 72 symbols, the last one perhaps fewer, and each ends with a line feed. */
  lemma LinesAt(t: seq<Byte>, i: nat)
    requires i < |Wrapped(t)|
    ensures |Wrapped(t)| == |t| + (|t| + 71) / 72
    ensures Wrapped(t)[i] == if i % 73 == 72 || i == |Wrapped(t)| - 1 then LF else t[i - i / 73]
  {
    hide Flow;
    if i < |Flow(t)| { FlowIs(t, i); }
  }

  lemma {:induction false} FlowIs(t: seq<Byte>, i: nat)
    requires i < |Flow(t)|
    ensures i - i / 73 <= |t| && (i % 73 != 72 ==> i - i / 73 < |t|)
    ensures Flow(t)[i] == if i % 73 == 72 then LF else t[i - i / 73]
  {
    var n := |t| - 1;
    if i < |Flow(t[..n])| {
      FlowIs(t[..n], i);
    }
  }
}
