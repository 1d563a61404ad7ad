/** The decoder and the check of base64 text, and the round trip. */
module Base64Decoder {
  import opened Bytes
  import opened Base64
  import opened Base64Codec
  import opened Options
  import opened Sequences

  // ---- What decoding means ----

  /** The bytes that the decoder does not skip. */
  function Significant(s: seq<Byte>): (r: seq<Byte>)
    ensures |r| <= |s|
  {
    if s == [] then []
    else (if Code(s[0]) == SKIP then [] else [s[0]]) + Significant(s[1..])
  }

  function Pads(b: seq<Byte>): (n: nat)
    ensures n <= |b|
  {
    if b == [] then 0 else Pads(b[..|b| - 1]) + if b[|b| - 1] == PAD then 1 else 0
  }

  /** The three bytes of four table entries, cut to eight bits each. */
  function Triple(w: Byte, x: Byte, y: Byte, z: Byte): seq<Byte> {
    [(w * 4 + x / 16) % 256, (x * 16 + y / 4) % 256, (y * 64 + z) % 256]
  }

  function BlockBytes(b: seq<Byte>): seq<Byte>
    requires |b| == 4
  {
    Triple(Code(b[0]), Code(b[1]), Code(b[2]), Code(b[3]))
  }

  /** Blocks of four up to the first padded one. */
  function Blocks(f: seq<Byte>): Option<seq<Byte>> {
    if |f| < 4 then Some([])
    else
      var n := Pads(f[..4]);
      if n == 0 then Prepend(BlockBytes(f[..4]), Blocks(f[4..]))
      else if n <= 2 then Some(BlockBytes(f[..4])[..3 - n])
      else None
  }

  function Prepend(s: seq<Byte>, r: Option<seq<Byte>>): Option<seq<Byte>> {
    if r.None? then None else Some(s + r.value)
  }

  function Decoded(s: seq<Byte>): Option<seq<Byte>> {
    var f := Significant(s);
    if f == [] || |f| % 4 != 0 then None else Blocks(f)
  }

  // ---- The decoder ----

  /** Fills the decoding table as the source does. */
  method BuildTable() returns (table: array<Byte>)
    ensures table.Length == 256 && forall c: Byte :: table[c] == Code(c)
  {
    table := new Byte[256](i => SKIP);
    for i := 0 to 64
      invariant forall c: Byte :: table[c] == if c != PAD && Code(c) < i then Code(c) else SKIP
    {
      OnlySymbol(i);
      table[Symbol(i)] := i;
    }
    table[PAD] := 0;
  }

  lemma OnlySymbol(i: Sextet)
    ensures forall c: Byte :: Code(c) == i && c != PAD <==> c == Symbol(i)
    ensures forall c: Byte :: Code(c) < 64 || Code(c) == SKIP
  {
  }

  method CountSignificant(src: seq<Byte>, table: array<Byte>) returns (count: nat)
    requires table.Length == 256 && forall c: Byte :: table[c] == Code(c)
    ensures count == |Significant(src)|
  {
    count := 0;
    assert src[0..] == src;
    for i := 0 to |src|
      invariant count + |Significant(src[i..])| == |Significant(src)|
    {
      assert src[i..][1..] == src[i + 1..];
      if table[src[i]] != SKIP {
        count := count + 1;
      }
    }
  }

  method PutTriple(out: array<Byte>, pos: nat, w: Byte, x: Byte, y: Byte, z: Byte)
    requires pos + 3 <= out.Length
    modifies out
    ensures out[..pos + 3] == old(out[..pos]) + Triple(w, x, y, z)
  {
    out[pos] := (w * 4 + x / 16) % 256;
    out[pos + 1] := (x * 16 + y / 4) % 256;
    out[pos + 2] := (y * 64 + z) % 256;
  }

  lemma PadsSnoc(b: seq<Byte>, c: Byte)
    ensures Pads(b + [c]) == Pads(b) + if c == PAD then 1 else 0
  {
    assert (b + [c])[..|b|] == b;
  }

  lemma PrependTwice(a: seq<Byte>, b: seq<Byte>, r: Option<seq<Byte>>)
    ensures Prepend(a, Prepend(b, r)) == Prepend(a + b, r)
  {
    if r.Some? { assert a + (b + r.value) == a + b + r.value; }
  }

  /** A block of four is complete. */
  lemma BlocksStep(held: seq<Byte>, rest: seq<Byte>)
    requires |held| == 4
    ensures Blocks(held + rest)
            == if Pads(held) == 0 then Prepend(BlockBytes(held), Blocks(rest))
               else if Pads(held) <= 2 then Some(BlockBytes(held)[..3 - Pads(held)]) else None
  {
    assert (held + rest)[..4] == held && (held + rest)[4..] == rest;
  }

  /** Writes the bytes of a complete block and takes back those that are padding. */
  method FinishBlock(out: array<Byte>, pos: nat, block: array<Byte>, pad: nat, ghost held: seq<Byte>)
    returns (next: nat, valid: bool)
    requires pos + 3 <= out.Length && block.Length == 4 && |held| == 4 && out != block && pad == Pads(held)
    requires forall j :: 0 <= j < 4 ==> block[j] == Code(held[j])
    modifies out
    ensures valid == (pad <= 2)
    ensures valid ==> next == pos + 3 - pad && out[..next] == old(out[..pos]) + BlockBytes(held)[..3 - pad]
  {
    hide Code;
    PutTriple(out, pos, block[0], block[1], block[2], block[3]);
    next, valid := pos + 3, pad <= 2;
    ghost var full := out[..next];
    if valid {
      next := next - pad;
      assert out[..next] == full[..next];
    }
  }

  /** What is left to do: the blocks of `held` and of the rest follow what has been written. */
  ghost predicate Pending(src: seq<Byte>, i: nat, held: seq<Byte>, done: seq<Byte>)
    requires i <= |src|
  {
    Blocks(Significant(src)) == Prepend(done, Blocks(held + Significant(src[i..])))
  }

  lemma BlockDone(src: seq<Byte>, i: nat, held: seq<Byte>, done: seq<Byte>)
    requires i <= |src| && Pending(src, i, held, done) && |held| == 4
    ensures Pads(held) == 0 ==> Pending(src, i, [], done + BlockBytes(held)[..3])
    ensures 0 < Pads(held) <= 2 ==> Blocks(Significant(src)) == Some(done + BlockBytes(held)[..3 - Pads(held)])
    ensures Pads(held) > 2 ==> Blocks(Significant(src)) == None
  {
    hide Blocks, Significant, BlockBytes, Pads;
    var rest := Significant(src[i..]);
    BlocksStep(held, rest);
    assert [] + rest == rest && BlockBytes(held)[..3] == BlockBytes(held) by { ThreeBytes(held); }
    PrependTwice(done, BlockBytes(held), Blocks(rest));
  }

  lemma ThreeBytes(b: seq<Byte>)
    requires |b| == 4
    ensures |BlockBytes(b)| == 3 && BlockBytes(b)[..3] == BlockBytes(b)
  {
  }

  /**
   Never writes outside the buffer sized by the first pass. The result is that of `Decoded`,
   whatever the input.
   */
  method Decode(src: seq<Byte>) returns (result: Option<seq<Byte>>)
    ensures result == Decoded(src)
  {
    hide Significant, Blocks, Pads, Code, Pending, BlockBytes;
    var filled := BuildTable();
    var count := CountSignificant(src, filled);
    var table := filled[..];
    if count == 0 || count % 4 != 0 {
      return None;
    }
    var out := new Byte[count / 4 * 3];
    var block := new Byte[4](i => 0);
    var pos, pad, i := 0, 0, 0;
    ghost var total := count;
    ghost var held: seq<Byte>, blocks: nat := [], 0;
    count := 0;
    Starts(src);
    while i < |src|
      invariant i <= |src| && count == |held| < 4 && pos == 3 * blocks <= out.Length && pad == Pads(held)
      invariant forall j :: 0 <= j < count ==> block[j] == Code(held[j])
      invariant 4 * blocks + count + |Significant(src[i..])| == total
      invariant Pending(src, i, held, out[..pos])
    {
      var c := src[i];
      var tmp := table[c];
      NextByte(src, i, held, out[..pos]);
      i := i + 1;
      if tmp != SKIP {
        if c == PAD {
          pad := pad + 1;
        }
        PadsSnoc(held, c);
        Keep(block, count, tmp, held, c);
        held := held + [c];
        count := count + 1;
        if count == 4 {
          BlockDone(src, i, held, out[..pos]);
          ThreeBytes(held);
          var next, valid := FinishBlock(out, pos, block, pad, held);
          if !valid {
            return None;
          }
          pos := next;
          if pad > 0 {
            return Some(out[..pos]);
          }
          NoPads();
          count, held, blocks := 0, [], blocks + 1;
        }
      }
    }
    Ends(src, held, out[..pos]);
    result := Some(out[..pos]);
  }

  /** Puts a table entry behind those of the bytes held. */
  method Keep(block: array<Byte>, count: nat, tmp: Byte, ghost held: seq<Byte>, ghost c: Byte)
    requires count == |held| < 4 == block.Length && tmp == Code(c)
    requires forall j :: 0 <= j < |held| ==> block[j] == Code(held[j])
    modifies block
    ensures forall j :: 0 <= j <= |held| ==> block[j] == Code((held + [c])[j])
  {
    block[count] := tmp;
  }

  lemma Starts(src: seq<Byte>)
    ensures src[0..] == src && Pads([]) == 0 && Pending(src, 0, [], [])
  {
    assert src[0..] == src && [] + Significant(src) == Significant(src);
    var r := Blocks(Significant(src));
    if r.Some? { assert [] + r.value == r.value; }
  }

  lemma NoPads()
    ensures Pads([]) == 0
  {
  }

  lemma NextByte(src: seq<Byte>, i: nat, held: seq<Byte>, done: seq<Byte>)
    requires i < |src| && Pending(src, i, held, done)
    ensures var c := src[i];
            if Code(c) == SKIP then
              Significant(src[i..]) == Significant(src[i + 1..]) && Pending(src, i + 1, held, done)
            else |Significant(src[i..])| == 1 + |Significant(src[i + 1..])| && Pending(src, i + 1, held + [c], done)
  {
    hide Code, Blocks;
    assert src[i..][1..] == src[i + 1..];
    assert held + ([src[i]] + Significant(src[i + 1..])) == held + [src[i]] + Significant(src[i + 1..]);
  }

  lemma Ends(src: seq<Byte>, held: seq<Byte>, done: seq<Byte>)
    requires |held| < 4 && Pending(src, |src|, held, done)
    ensures Blocks(Significant(src)) == Some(done)
  {
    assert src[|src|..] == [];
    assert held + [] == held && done + [] == done;
  }

  // ---- The check ----

  method IsEncoded(src: seq<Byte>) returns (ok: bool)
    ensures ok <==> forall i :: 0 <= i < |src| ==> Code(src[i]) != SKIP
  {
    ok := true;
    var idx := 0;
    while ok && idx < |src|
      invariant idx <= |src|
      invariant ok ==> forall i :: 0 <= i < idx ==> Code(src[i]) != SKIP
      invariant !ok ==> idx > 0 && Code(src[idx - 1]) == SKIP
    {
      var c := src[idx];
      ok := 97 <= c <= 122 || 65 <= c <= 90 || 47 <= c <= 57 || c == PAD || c == 43;
      idx := idx + 1;
    }
  }

  // ---- Round trip ----

  lemma {:induction false} SignificantConcat(s: seq<Byte>, t: seq<Byte>)
    ensures Significant(s + t) == Significant(s) + Significant(t)
  {
    if s == [] {
      assert s + t == t;
    } else {
      hide Significant, Code;
      SignificantConcat(s[1..], t);
      SignificantCons(s + t);
      SignificantCons(s);
      assert (s + t)[0] == s[0] && (s + t)[1..] == s[1..] + t;
      Associates(if Code(s[0]) == SKIP then [] else [s[0]], Significant(s[1..]), Significant(t));
    }
  }

  lemma SignificantCons(s: seq<Byte>)
    requires s != []
    ensures Significant(s) == (if Code(s[0]) == SKIP then [] else [s[0]]) + Significant(s[1..])
  {
  }

  predicate AllSignificant(s: seq<Byte>) {
    forall i :: 0 <= i < |s| ==> Code(s[i]) != SKIP
  }

  /** Line feeds are skipped. */
  lemma {:induction false} Unwrap(t: seq<Byte>)
    requires AllSignificant(t)
    ensures Significant(Flow(t)) == t && Significant(Wrapped(t)) == t
  {
    assert Significant([LF]) == [] && Significant([]) == [];
    if t != [] {
      var n := |t| - 1;
      Unwrap(t[..n]);
      assert Significant([t[n]]) == [t[n]];
      var feed := if |t| % WIDTH == 0 then [LF] else [];
      SignificantConcat(Flow(t[..n]), [t[n]]);
      SignificantConcat(Flow(t[..n]) + [t[n]], feed);
      assert t[..n] + [t[n]] == t;
    }
    SignificantConcat(Flow(t), if |t| % WIDTH == 0 then [] else [LF]);
  }

  lemma {:induction false} PlainSignificant(s: seq<Byte>)
    ensures AllSignificant(Plain(s))
  {
    if |s| >= 3 { PlainSignificant(s[3..]); }
  }

  /** The bits that two neighbouring sextets take from a byte make up the byte. */
  lemma BitsBack(a: Byte, b: Byte, c: Byte)
    ensures (a / 4 * 4 + (a % 4 * 16 + b / 16) / 16) % 256 == a
    ensures ((a % 4 * 16 + b / 16) * 16 + (b % 16 * 4 + c / 64) / 4) % 256 == b
    ensures ((b % 16 * 4 + c / 64) * 64 + c % 64) % 256 == c
  {
    Digits(a % 4, 16, b / 16);
    Digits(b % 16, 4, c / 64);
    Digits(a % 4, 256, b);
    Digits(b % 16, 256, c);
    assert (a % 4 * 16 + b / 16) * 16 + b % 16 == a % 4 * 256 + b;
    assert (b % 16 * 4 + c / 64) * 64 + c % 64 == b % 16 * 256 + c;
  }

  lemma Digits(high: nat, base: nat, low: nat)
    requires base == 4 || base == 16 || base == 256
    requires low < base
    ensures (high * base + low) / base == high && (high * base + low) % base == low
  {
  }

  /** The encoder's text has lines of at most 72 characters and, unless empty, ends with a line feed. */
  lemma EncodedLines(src: seq<Byte>)
    ensures ShortLines(Wrapped(Plain(src)))
    ensures src != [] ==> Wrapped(Plain(src)) != [] && Wrapped(Plain(src))[|Wrapped(Plain(src))| - 1] == LF
  {
    hide Plain, Flow, ShortLines;
    PlainSignificant(src);
    LinesAreShort(Plain(src));
  }

  lemma QuadBack(a: Byte, b: Byte, c: Byte)
    ensures var q := Quad(a, b, c); |q| == 4 && Pads(q) == 0 && BlockBytes(q) == [a, b, c]
  {
    hide Symbol, Code, Pads;
    CodeOfSymbol(a / 4);
    CodeOfSymbol(a % 4 * 16 + b / 16);
    CodeOfSymbol(b % 16 * 4 + c / 64);
    CodeOfSymbol(c % 64);
    FourPads(Quad(a, b, c));
    BitsBack(a, b, c);
  }

  lemma FourPads(q: seq<Byte>)
    requires |q| == 4
    ensures Pads(q) == (if q[0] == PAD then 1 else 0) + (if q[1] == PAD then 1 else 0)
                       + (if q[2] == PAD then 1 else 0) + (if q[3] == PAD then 1 else 0)
  {
    PadsSnoc([], q[0]);
    PadsSnoc(q[..1], q[1]);
    PadsSnoc(q[..2], q[2]);
    PadsSnoc(q[..3], q[3]);
    assert [] + [q[0]] == q[..1] && q[..1] + [q[1]] == q[..2] && q[..2] + [q[2]] == q[..3] && q[..3] + [q[3]] == q;
  }

  lemma TailBack(s: seq<Byte>)
    requires 0 < |s| < 3
    ensures var q := Tail(s); |q| == 4 && Pads(q) == 3 - |s| && BlockBytes(q)[..|s|] == s
  {
    hide Symbol, Code, Pads;
    var b: Byte := if |s| == 1 then 0 else s[1];
    CodeOfSymbol(s[0] / 4);
    CodeOfSymbol(s[0] % 4 * 16 + b / 16);
    CodeOfSymbol(b % 16 * 4);
    PadIsZero();
    FourPads(Tail(s));
    BitsBack(s[0], b, 0);
    var q := Tail(s);
    assert BlockBytes(q)[0] == s[0];
    if |s| == 2 { assert BlockBytes(q)[1] == s[1]; }
  }

  lemma PadIsZero()
    ensures Code(PAD) == 0
  {
  }

  lemma {:induction false} BlocksBack(s: seq<Byte>)
    ensures Blocks(Plain(s)) == Some(s)
  {
    hide Quad, Tail, BlockBytes, Pads;
    if s == [] {
    } else if |s| < 3 {
      TailBack(s);
      BlocksStep(Tail(s), []);
      assert Tail(s) + [] == Tail(s);
    } else {
      BlocksBack(s[3..]);
      QuadBack(s[0], s[1], s[2]);
      BlocksStep(Quad(s[0], s[1], s[2]), Plain(s[3..]));
      assert [s[0], s[1], s[2]] + s[3..] == s;
    }
  }

  /** Any text whose significant bytes are the encoding decodes to the input. */
  lemma RoundTrip(s: seq<Byte>, text: seq<Byte>)
    requires s != [] && Significant(text) == Plain(s)
    ensures Decoded(text) == Some(s)
  {
    hide Plain, Significant;
    BlocksBack(s);
  }

  /** Decoding the encoding, line feeds included, returns the bytes. */
  method EncodeThenDecode(src: seq<Byte>) returns (back: Option<seq<Byte>>)
    requires 0 < 4 * |src| < SIZES
    ensures back == Some(src)
  {
    hide Plain, Significant, Decoded, Wrapped;
    var out, n := Encode(src);
    PlainSignificant(src);
    Unwrap(Plain(src));
    RoundTrip(src, out[..n]);
    back := Decode(out[..n]);
  }

  /**
   A short input makes one line. Its line feed is the last byte; without it the text passes the
   check and still decodes to the input.
   */
  method EncodeShort(src: seq<Byte>) returns (text: seq<Byte>, ok: bool, back: Option<seq<Byte>>)
    requires 1 <= |src| <= 54
    ensures text == Plain(src) && Wrapped(Plain(src)) == text + [LF] && LF !in text
    ensures ok && back == Some(src)
  {
    hide Plain, Significant, Decoded;
    var out, n := Encode(src);
    PlainSignificant(src);
    OneLine(Plain(src));
    text := out[..n - 1];
    assert out[..n][..n - 1] == text;
    ok := IsEncoded(text);
    AllKept(text);
    RoundTrip(src, text);
    back := Decode(text);
  }

  lemma {:induction false} InOneLine(t: seq<Byte>)
    requires |t| < WIDTH
    ensures Flow(t) == t
  {
    if t != [] { InOneLine(t[..|t| - 1]); }
  }

  lemma OneLine(t: seq<Byte>)
    requires 0 < |t| <= WIDTH && AllSignificant(t)
    ensures Wrapped(t) == t + [LF] && LF !in t
  {
    var n := |t| - 1;
    InOneLine(t[..n]);
    assert t == t[..n] + [t[n]];
  }

  lemma {:induction false} AllKept(s: seq<Byte>)
    requires AllSignificant(s)
    ensures Significant(s) == s
  {
    if s != [] { AllKept(s[1..]); }
  }
}
