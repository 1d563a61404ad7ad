/** The encoder of base64 text. */
module Base64Codec {
  import opened Bytes
  import opened Base64

  /** One more than the largest size of an object. */
  const SIZES := 0x1_0000_0000_0000_0000

  // ---- Encoder ----

  /** The size computed for the output, in the wrapping arithmetic of sizes. */
  function Estimate(n: nat): nat {
    var quads := (n * 4 % SIZES / 3 + 4) % SIZES;
    ((quads + quads / WIDTH) % SIZES + 1) % SIZES
  }

  lemma EstimateSmall(n: nat)
    requires 4 * n < SIZES
    ensures Estimate(n) == n * 4 / 3 + 4 + (n * 4 / 3 + 4) / WIDTH + 1
  {
    Unwrapped(n * 4);
    EstimateOf(n, n);
  }

  lemma Unwrapped(x: nat)
    requires x < SIZES
    ensures x % SIZES == x
  {
  }

  lemma EstimateLarge(n: nat, wraps: nat, k: nat)
    requires n == wraps * 0x4000_0000_0000_0000 + k && 0 < wraps < 4 && k < 0x4000_0000_0000_0000
    ensures Estimate(n) < n
  {
    assert n * 4 == wraps * SIZES + 4 * k;
    WrappedTimes(wraps, 4 * k);
    EstimateOf(n, k);
    assert 4 * k / 3 + 4 + (4 * k / 3 + 4) / WIDTH + 1 < n;
  }

  lemma WrappedTimes(wraps: nat, x: nat)
    requires wraps < 4 && x < SIZES
    ensures (wraps * SIZES + x) % SIZES == x
  {
  }

  /** Only the product by four can wrap. */
  lemma EstimateOf(n: nat, k: nat)
    requires n * 4 % SIZES == 4 * k
    ensures Estimate(n) == 4 * k / 3 + 4 + (4 * k / 3 + 4) / WIDTH + 1
  {
    var q := 4 * k / 3 + 4;
    Unwrapped(q);
    Unwrapped(q + q / WIDTH);
    Unwrapped(q + q / WIDTH + 1);
  }

  /** The overflow test `Estimate(n) < n` fires exactly when multiplying by four overflows. */
  lemma EstimateOverflows(n: nat)
    requires n < SIZES
    ensures Estimate(n) < n <==> 4 * n >= SIZES
  {
    hide Estimate;
    if 4 * n < SIZES {
      EstimateSmall(n);
    } else {
      EstimateLarge(n, n / 0x4000_0000_0000_0000, n % 0x4000_0000_0000_0000);
    }
  }

  /** While whole triples remain, four symbols and a line feed still fit. */
  lemma RoomForQuad(n: nat, i: nat)
    requires 4 * n < SIZES && i % 3 == 0 && i + 3 <= n
    ensures Reach(i) + 5 < Estimate(n)
  {
    EstimateSmall(n);
    hide Estimate;
    assert i / 3 * 4 + 4 <= n * 4 / 3;
  }

  method PutQuad(out: array<Byte>, pos: nat, a: Byte, b: Byte, c: Byte, d: Byte) returns (next: nat)
    requires pos + 4 <= out.Length
    modifies out
    ensures next == pos + 4 && out[..next] == old(out[..pos]) + [a, b, c, d]
  {
    out[pos], out[pos + 1], out[pos + 2], out[pos + 3] := a, b, c, d;
    next := pos + 4;
  }

  method PutFeed(out: array<Byte>, pos: nat) returns (next: nat)
    requires pos < out.Length
    modifies out
    ensures next == pos + 1 && out[..next] == old(out[..pos]) + [LF]
  {
    out[pos] := LF;
    next := pos + 1;
  }

  /** How far the text of the first `i` bytes reaches, and the length of its last line. */
  function Reach(i: nat): nat {
    Symbols(i) + Symbols(i) / WIDTH
  }

  function LineLen(i: nat): nat {
    Symbols(i) % WIDTH
  }

  function Symbols(i: nat): nat {
    i / 3 * 4
  }

  lemma MoreSymbols(i: nat)
    requires i % 3 == 0
    ensures Symbols(i + 3) == Symbols(i) + 4 && Symbols(i) % 4 == 0
  {
    assert (i + 3) / 3 == i / 3 + 1;
  }

  lemma NextLine(i: nat)
    requires i % 3 == 0
    ensures LineLen(i) + 4 >= WIDTH <==> (Symbols(i) + 4) % WIDTH == 0
    ensures LineLen(i) + 4 < WIDTH ==> LineLen(i + 3) == LineLen(i) + 4 && Reach(i + 3) == Reach(i) + 4
    ensures LineLen(i) + 4 >= WIDTH ==> LineLen(i + 3) == 0 && Reach(i + 3) == Reach(i) + 5
  {
    hide Symbols;
    MoreSymbols(i);
    var p := Symbols(i);
    AddFour(p, p / WIDTH, p % WIDTH);
  }

  lemma AddFour(p: nat, d: nat, r: nat)
    requires p % 4 == 0 && p == d * WIDTH + r && r < WIDTH
    ensures r + 4 < WIDTH ==> (p + 4) % WIDTH == r + 4 && (p + 4) / WIDTH == d
    ensures r + 4 >= WIDTH ==> (p + 4) % WIDTH == 0 && (p + 4) / WIDTH == d + 1
  {
    assert r % 4 == 0;
    if r + 4 >= WIDTH {
      Lines(p + 4, d + 1, 0);
    } else {
      Lines(p + 4, d, r + 4);
    }
  }

  lemma Lines(p: nat, d: nat, r: nat)
    requires p == d * WIDTH + r && r < WIDTH
    ensures p / WIDTH == d && p % WIDTH == r
  {
  }

  /** One round of the encoder's loop. */
  method EncodeTriple(text: array<Byte>, src: seq<Byte>, i: nat, pos: nat, lineLen: nat)
    returns (nextPos: nat, nextLen: nat)
    requires i % 3 == 0 && i + 3 <= |src| && pos == Reach(i) && lineLen == LineLen(i) && pos + 5 <= text.Length
    requires text[..pos] == Flow(Plain(src[..i]))
    modifies text
    ensures nextPos == Reach(i + 3) <= text.Length && nextLen == LineLen(i + 3)
    ensures text[..nextPos] == Flow(Plain(src[..i + 3]))
  {
    TextGrows(src, i);
    NextLine(i);
    hide Plain, Flow, Reach, LineLen, Symbol, Symbols;
    nextPos := PutQuad(text, pos, Symbol(src[i] / 4), Symbol(src[i] % 4 * 16 + src[i + 1] / 16),
                       Symbol(src[i + 1] % 16 * 4 + src[i + 2] / 64), Symbol(src[i + 2] % 64));
    nextLen := lineLen + 4;
    ghost var sofar := text[..nextPos];
    if nextLen >= WIDTH {
      nextPos := PutFeed(text, nextPos);
      nextLen := 0;
    } else {
      assert sofar + [] == sofar;
    }
  }

  /** The one or two bytes behind the last triple, and the end of the last line. */
  method EncodeRest(text: array<Byte>, src: seq<Byte>, i: nat, pos: nat, lineLen: nat) returns (end: nat)
    requires i % 3 == 0 && i <= |src| < i + 3 && pos == Reach(i) && lineLen == LineLen(i)
    requires pos + (if i < |src| then 5 else if lineLen > 0 then 1 else 0) < text.Length
    requires text[..pos] == Flow(Plain(src[..i]))
    modifies text
    ensures end < text.Length && text[..end] == Wrapped(Plain(src))
  {
    hide Plain, Flow, Reach, Symbol;
    end := pos;
    var len := lineLen;
    if |src| - i > 0 {
      TextEnds(src, i);
      if |src| - i == 1 {
        end := PutQuad(text, end, Symbol(src[i] / 4), Symbol(src[i] % 4 * 16), PAD, PAD);
      } else {
        end := PutQuad(text, end, Symbol(src[i] / 4), Symbol(src[i] % 4 * 16 + src[i + 1] / 16),
                       Symbol(src[i + 1] % 16 * 4), PAD);
      }
      len := len + 4;
    } else {
      NoRest(src, i);
    }
    if len > 0 {
      end := PutFeed(text, end);
    }
  }

  lemma NoRest(src: seq<Byte>, i: nat)
    requires i == |src| && i % 3 == 0
    ensures Wrapped(Plain(src)) == Flow(Plain(src[..i])) + if LineLen(i) == 0 then [] else [LF]
  {
    hide Plain, Flow;
    assert src[..i] == src;
    assert (i + 2) / 3 == i / 3;
    assert |Plain(src)| == Symbols(i);
  }

  lemma RoomForRest(n: nat, i: nat)
    requires 4 * n < SIZES && i % 3 == 0 && i <= n < i + 3
    ensures Reach(i) + (if i < n then 5 else if LineLen(i) > 0 then 1 else 0) < Estimate(n)
  {
    EstimateSmall(n);
    hide Estimate;
    var q, m := i / 3, n * 4 / 3;
    assert i == 3 * q && m >= if i < n then 4 * q + 1 else 4 * q;
    MoreLines(4 * q, m + 4);
  }

  lemma MoreLines(a: nat, b: nat)
    requires a <= b
    ensures a / WIDTH <= b / WIDTH
  {
  }

  /** The text is the standard encoding broken into lines, followed by a NUL that also fits. */
  method Encode(src: seq<Byte>) returns (out: array?<Byte>, outLen: nat)
    requires |src| < SIZES
    ensures out == null <==> 4 * |src| >= SIZES
    ensures out != null ==> outLen < out.Length && out[outLen] == 0 && out[..outLen] == Wrapped(Plain(src))
  {
    hide Estimate, Plain, Flow, Wrapped, Reach, LineLen;
    EstimateOverflows(|src|);
    var size := Estimate(|src|);
    if size < |src| {
      return null, 0;
    }
    var text := new Byte[size];
    var i, pos, lineLen := 0, 0, 0;
    EmptyText(src);
    while |src| - i >= 3
      invariant i % 3 == 0 && i <= |src| && lineLen == LineLen(i) && pos == Reach(i) <= text.Length
      invariant text[..pos] == Flow(Plain(src[..i]))
    {
      RoomForQuad(|src|, i);
      pos, lineLen := EncodeTriple(text, src, i, pos, lineLen);
      i := i + 3;
    }
    RoomForRest(|src|, i);
    pos := EncodeRest(text, src, i, pos, lineLen);
    ghost var full := text[..pos];
    text[pos] := 0;
    assert text[..pos] == full;
    out, outLen := text, pos;
  }

  lemma EmptyText(src: seq<Byte>)
    ensures Flow(Plain(src[..0])) == [] && Reach(0) == 0 && LineLen(0) == 0
  {
  }

  lemma TextGrows(src: seq<Byte>, i: nat)
    requires i % 3 == 0 && i + 3 <= |src|
    ensures var t := Plain(src[..i]);
            |t| == Symbols(i)
            && Flow(Plain(src[..i + 3]))
               == Flow(t) + Quad(src[i], src[i + 1], src[i + 2]) + if (|t| + 4) % WIDTH == 0 then [LF] else []
  {
    hide Plain, Flow, Quad;
    assert src[..i + 3] == src[..i] + [src[i], src[i + 1], src[i + 2]];
    PlainSnoc(src[..i], src[i], src[i + 1], src[i + 2]);
    QuadLength(src[i], src[i + 1], src[i + 2]);
    FlowQuad(Plain(src[..i]), Quad(src[i], src[i + 1], src[i + 2]));
  }

  lemma QuadLength(a: Byte, b: Byte, c: Byte)
    ensures |Quad(a, b, c)| == 4
  {
  }

  lemma TextEnds(src: seq<Byte>, i: nat)
    requires i % 3 == 0 && i < |src| < i + 3
    ensures var t := Plain(src[..i]);
            |t| == Symbols(i) && Wrapped(Plain(src)) == Flow(t) + Tail(src[i..]) + [LF]
  {
    hide Plain, Flow, Tail;
    var t := Plain(src[..i]);
    assert src == src[..i] + src[i..];
    PlainConcat(src[..i], src[i..]);
    PlainTail(src[i..]);
    FlowQuad(t, Tail(src[i..]));
    assert Flow(t) + Tail(src[i..]) + [LF] + [] == Flow(t) + Tail(src[i..]) + [LF];
    assert Flow(t) + Tail(src[i..]) + [] == Flow(t) + Tail(src[i..]);
  }

  lemma PlainTail(s: seq<Byte>)
    requires 0 < |s| < 3
    ensures Plain(s) == Tail(s) && |Tail(s)| == 4
  {
  }
}
