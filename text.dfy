/** The text model of text.go: runes are coded as bytes in order of first
    occurrence, each symbol's model is stored as 64-bit patterns written
    byte by byte, the context of a rune is the histogram of the codes of the
    8 runes before it, and generation samples the next rune from a histogram
    of 128 votes. */
module Text {
  import opened Common

  type Byte = b: int | 0 <= b < 256

  // ---------------------------------------------------------------------
  // The tokenizer (text.go:29-39)
  // ---------------------------------------------------------------------

  /** The distinct runes of the text, in order of first occurrence. */
  function Firsts(data: seq<char>): (f: seq<char>)
    ensures forall x :: x in f <==> x in data
    ensures forall i, j :: 0 <= i < j < |f| ==> f[i] != f[j]
  {
    if |data| == 0 then []
    else
      var p := Firsts(data[..|data| - 1]);
      assert forall x :: x in data <==> x in data[..|data| - 1] || x == data[|data| - 1];
      if data[|data| - 1] in p then p else p + [data[|data| - 1]]
  }

  /** The codes of the distinct runes f: they count up from 0 in order,
      modulo 256, and a code names the latest rune it was given. */
  predicate Coded(f: seq<char>, forward: map<char, Byte>, reverse: map<Byte, char>, code: Byte)
  {
    (forall v :: v in forward <==> v in f) &&
    (forall j :: 0 <= j < |f| ==> f[j] in forward && forward[f[j]] == j % 256) &&
    code == |f| % 256 &&
    (forall c: Byte :: c in reverse <==> c < |f|) &&
    (forall j :: 0 <= j < |f| && |f| <= j + 256 ==> reverse[j % 256] == f[j])
  }

  /** What the tokenizer leaves behind for a text. */
  predicate Tokenized(data: seq<char>, forward: map<char, Byte>, reverse: map<Byte, char>, code: Byte)
  {
    Coded(Firsts(data), forward, reverse, code)
  }

  /** Two indices less than 256 apart have different codes. */
  lemma CodesApart(j: nat, m: nat)
    requires j < m < j + 256
    ensures j % 256 != m % 256
  {
    var q, r, d := j / 256, j % 256, m - j;
    if r + d < 256 {
      DivModUnique(m, 256, q, r + d);
    } else {
      DivModUnique(m, 256, q + 1, r + d - 256);
    }
  }

  /** A new rune gets the next code, and that code now names it. */
  lemma NewStep(f: seq<char>, v: char, forward: map<char, Byte>, reverse: map<Byte, char>, code: Byte)
    requires Coded(f, forward, reverse, code) && v !in f
    ensures Coded(f + [v], forward[v := code], reverse[code := v], (code + 1) % 256)
  {
    NewForward(f, v, forward, code);
    NewCode(|f|, code);
    NewReverse(f, v, reverse, code, reverse[code := v]);
  }

  lemma NewForward(f: seq<char>, v: char, forward: map<char, Byte>, code: Byte)
    requires (forall w :: w in forward <==> w in f) && v !in f && code == |f| % 256
    requires forall j :: 0 <= j < |f| ==> f[j] in forward && forward[f[j]] == j % 256
    ensures forall w :: w in forward[v := code] <==> w in f + [v]
    ensures forall j :: 0 <= j < |f| + 1 ==> (f + [v])[j] in forward[v := code] && forward[v := code][(f + [v])[j]] == j % 256
  {
  }

  lemma NewCode(n: nat, code: Byte)
    requires code == n % 256
    ensures (code + 1) % 256 == (n + 1) % 256
  {
    DivModUnique(n + 1, 256, if n % 256 == 255 then n / 256 + 1 else n / 256,
                 if n % 256 == 255 then 0 else n % 256 + 1);
  }

  lemma NewReverse(f: seq<char>, v: char, reverse: map<Byte, char>, code: Byte, reverse': map<Byte, char>)
    requires reverse' == reverse[code := v] && code == |f| % 256
    requires forall c: Byte :: c in reverse <==> c < |f|
    requires forall j :: 0 <= j < |f| && |f| <= j + 256 ==> reverse[j % 256] == f[j]
    ensures forall c: Byte :: c in reverse' <==> c < |f| + 1
    ensures forall j :: 0 <= j < |f| + 1 && |f| + 1 <= j + 256 ==> reverse'[j % 256] == (f + [v])[j]
  {
    if |f| < 256 {
      DivModUnique(|f|, 256, 0, |f|);
    }
    forall j | 0 <= j < |f| + 1 && |f| + 1 <= j + 256 ensures reverse'[j % 256] == (f + [v])[j] {
      if j < |f| {
        CodesApart(j, |f|);
      }
    }
  }

  /** One pass of the tokenizer loop keeps its state the state of the text read so far. */
  lemma TokenStep(data: seq<char>, n: nat, forward: map<char, Byte>, reverse: map<Byte, char>, code: Byte)
    requires n < |data| && Tokenized(data[..n], forward, reverse, code)
    ensures data[n] in forward ==> Tokenized(data[..n + 1], forward, reverse, code)
    ensures data[n] !in forward ==>
      Tokenized(data[..n + 1], forward[data[n] := code], reverse[code := data[n]], (code + 1) % 256)
  {
    assert data[..n + 1][..n] == data[..n];
    if data[n] !in forward {
      NewStep(Firsts(data[..n]), data[n], forward, reverse, code);
    }
  }

  /** The tokenizer loop. `code` is a byte, so `code++` wraps from 255 to 0 and
      the guard `code > 255` can never hold: the panic is unreachable. */
  method Tokenize(data: seq<char>) returns (forward: map<char, Byte>, reverse: map<Byte, char>, code: Byte)
    ensures Tokenized(data, forward, reverse, code)
  {
    forward, reverse, code := map[], map[], 0;
    for n := 0 to |data|
      invariant Tokenized(data[..n], forward, reverse, code)
    {
      var v := data[n];
      TokenStep(data, n, forward, reverse, code);
      if v !in forward {
        forward := forward[v := code];
        reverse := reverse[code := v];
        code := (code + 1) % 256;
      }
    }
    assert data[..|data|] == data;
  }

  /** While there are at most 256 distinct runes, decoding a rune's code gives the rune back. */
  lemma CodesRoundTrip(data: seq<char>, forward: map<char, Byte>, reverse: map<Byte, char>, code: Byte)
    requires Tokenized(data, forward, reverse, code) && |Firsts(data)| <= 256
    ensures forall v :: v in forward ==> forward[v] in reverse && reverse[forward[v]] == v
  {
    var f := Firsts(data);
    forall v | v in forward ensures forward[v] in reverse && reverse[forward[v]] == v {
      var j :| 0 <= j < |f| && f[j] == v;
    }
  }

  /** Every code lies below the number of distinct runes, `len(forward)`, so a
      code always indexes a context vector. */
  lemma CodesBelow(data: seq<char>, forward: map<char, Byte>, reverse: map<Byte, char>, code: Byte)
    requires Tokenized(data, forward, reverse, code)
    ensures forall v :: v in forward ==> forward[v] < |Firsts(data)|
  {
    var f := Firsts(data);
    forall v | v in forward ensures forward[v] < |f| {
      var j :| 0 <= j < |f| && f[j] == v;
      assert j % 256 <= j;
    }
  }

  /** With a 257th distinct rune, the first rune's code 0 is given again and the
      reverse map no longer returns it. */
  lemma CodeReused(data: seq<char>, forward: map<char, Byte>, reverse: map<Byte, char>, code: Byte)
    requires Tokenized(data, forward, reverse, code) && |Firsts(data)| > 256
    ensures exists v :: v in forward && forward[v] in reverse && reverse[forward[v]] != v
  {
    var f := Firsts(data);
    var k := |f| - 257;
    DivModUnique(k + 256, 256, k / 256 + 1, k % 256);
    assert reverse[forward[f[k]]] == f[k + 256];
  }

  /** The tokenizer with the guard that was evidently meant: an input with more
      than 256 distinct runes is refused instead of having codes reused. */
  method TokenizeChecked(data: seq<char>) returns (r: Option<(map<char, Byte>, map<Byte, char>)>)
    ensures r.None? <==> |Firsts(data)| > 256
    ensures r.Some? ==> forall v :: v in data <==> v in r.value.0
    ensures r.Some? ==> forall v :: v in r.value.0 ==> r.value.0[v] in r.value.1 && r.value.1[r.value.0[v]] == v
  {
    var forward, reverse, code := Tokenize(data);
    if |Firsts(data)| > 256 {
      return None;
    }
    CodesRoundTrip(data, forward, reverse, code);
    return Some((forward, reverse));
  }

  // ---------------------------------------------------------------------
  // 64-bit patterns as 8 bytes (text.go:65-70, 129-133)
  // ---------------------------------------------------------------------

  const TwoTo64: nat := 0x1_0000_0000_0000_0000

  /** A `uint64`, the bits of a float64 parameter. */
  type Word = x: nat | x < TwoTo64

  /** `bits >> (8 * i)`: i shifts by one byte. */
  function Shr(bits: nat, i: nat): nat
  {
    if i == 0 then bits else Shr(bits, i - 1) / 256
  }

  /** `byte((bits >> (8 * i)) & 0xFF)`. */
  function ByteOf(bits: nat, i: nat): Byte
  {
    Shr(bits, i) % 256
  }

  /** The 8 bytes written for a value, least significant first. */
  function EncodeBits(bits: Word): (buf: seq<Byte>)
    ensures |buf| == 8
  {
    seq(8, i requires 0 <= i < 8 => ByteOf(bits, i))
  }

  /** `value <<= 8` on a uint64: the top byte falls off. */
  function Shl8(value: Word): Word
  {
    (value * 256) % TwoTo64
  }

  /** The value after k steps of `value <<= 8; value |= buffer64[7-k]`. After
      the shift the low byte is clear, so or-ing in a byte adds it. */
  function DecodePrefix(buf: seq<Byte>, k: nat): (v: Word)
    requires |buf| == 8 && k <= 8
    ensures v == DecodeFrom(buf, 8 - k)
  {
    if k == 0 then 0
    else
      var v := DecodePrefix(buf, k - 1);
      ShiftFits(buf, 8 - k + 1);
      DivModUnique(v * 256, TwoTo64, 0, v * 256);
      Shl8(v) + buf[8 - k]
  }

  /** The little-endian value of bytes i..8: the specification of the reader. */
  function DecodeFrom(buf: seq<Byte>, i: nat): nat
    requires |buf| == 8 && i <= 8
    decreases 8 - i
  {
    if i == 8 then 0 else buf[i] + 256 * DecodeFrom(buf, i + 1)
  }

  /** Bytes i..8 make a number below 256^(8-i); in particular it fits in a uint64. */
  lemma {:induction false} ShiftFits(buf: seq<Byte>, i: nat)
    requires |buf| == 8 && 1 <= i <= 8
    ensures DecodeFrom(buf, i) * 256 < TwoTo64 / 256 * 256 && DecodeFrom(buf, i) < Pow256(8 - i)
    decreases 8 - i
  {
    if i < 8 {
      ShiftFits(buf, i + 1);
    }
    Pow256Steps(8 - i);
  }

  function Pow256(n: nat): (p: nat)
    ensures p >= 1
  {
    if n == 0 then 1 else 256 * Pow256(n - 1)
  }

  lemma {:induction false} Pow256Steps(n: nat)
    requires n <= 7
    ensures Pow256(n) * 256 <= TwoTo64 / 256 * 256
    decreases 7 - n
  {
    if n < 7 {
      Pow256Steps(n + 1);
    } else {
      assert Pow256(1) == 0x100;
      assert Pow256(3) == 0x100_0000;
      assert Pow256(5) == 0x100_0000_0000;
      assert Pow256(7) == 0x100_0000_0000_0000;
    }
  }

  function DecodeBits(buf: seq<Byte>): Word
    requires |buf| == 8
  {
    DecodePrefix(buf, |buf|)
  }

  /** The encoder's byte loop. */
  method Encode(bits: Word) returns (buffer: array<Byte>)
    ensures fresh(buffer) && buffer[..] == EncodeBits(bits)
  {
    buffer := new Byte[8];
    for i := 0 to 8
      invariant forall k :: 0 <= k < i ==> buffer[k] == ByteOf(bits, k)
    {
      buffer[i] := Shr(bits, i) % 256;
    }
  }

  /** The reader's shift-or loop, which takes bytes 7 down to 0. */
  method Decode(buffer: seq<Byte>) returns (value: Word)
    requires |buffer| == 8
    ensures value == DecodeBits(buffer)
  {
    value := 0;
    for k := 0 to 8
      invariant value == DecodePrefix(buffer, k)
    {
      value := Shl8(value);
      value := value + buffer[7 - k];
    }
  }

  /** Shifting the little-endian value of bytes 0..8 right by i bytes leaves bytes i..8. */
  lemma {:induction false} ShrDecode(buf: seq<Byte>, i: nat)
    requires |buf| == 8 && i <= 8
    ensures Shr(DecodeFrom(buf, 0), i) == DecodeFrom(buf, i)
  {
    if i > 0 {
      ShrDecode(buf, i - 1);
      DivModUnique(DecodeFrom(buf, i - 1), 256, DecodeFrom(buf, i), buf[i - 1]);
    }
  }

  /** The bytes of a value from byte i up, read back, give the value shifted by i bytes. */
  lemma {:induction false} DecodeShr(bits: Word, i: nat)
    requires i <= 8
    ensures DecodeFrom(EncodeBits(bits), i) == Shr(bits, i)
    decreases 8 - i
  {
    if i < 8 {
      DecodeShr(bits, i + 1);
    } else {
      ShrBound(bits, 8);
    }
  }

  /** A uint64 shifted right by i bytes is below 256^(8-i). */
  lemma {:induction false} ShrBound(bits: Word, i: nat)
    requires i <= 8
    ensures Shr(bits, i) < Pow256(8 - i)
  {
    if i > 0 {
      ShrBound(bits, i - 1);
      var y := Shr(bits, i - 1);
      DivModUnique(y, 256, y / 256, y % 256);
    } else {
      Pow256Steps(7);
    }
  }

  /** The reader recovers every bit pattern the writer stored. */
  lemma DecodeEncode(bits: Word)
    ensures DecodeBits(EncodeBits(bits)) == bits
  {
    DecodeShr(bits, 0);
  }

  /** Every 8-byte buffer is the encoding of the value read from it. */
  lemma EncodeDecode(buf: seq<Byte>)
    requires |buf| == 8
    ensures EncodeBits(DecodeBits(buf)) == buf
  {
    forall i | 0 <= i < 8 ensures ByteOf(DecodeFrom(buf, 0), i) == buf[i] {
      ShrDecode(buf, i);
      DivModUnique(DecodeFrom(buf, i), 256, DecodeFrom(buf, i + 1), buf[i]);
    }
  }

  // ---------------------------------------------------------------------
  // The model file (text.go:65-104, 115-182)
  // ---------------------------------------------------------------------

  /** One symbol's model as stored: the bits of u, then of A, then of AI. */
  datatype Symbol = Symbol(u: seq<Word>, a: seq<Word>, ai: seq<Word>)

  /** u has nu values, A and AI na each. */
  predicate SymbolShaped(m: Symbol, nu: nat, na: nat)
  {
    |m.u| == nu && |m.a| == na && |m.ai| == na
  }

  /** One model per symbol; u has `length` values, A and AI `length`^2. */
  predicate Shaped(models: seq<Symbol>, length: nat)
  {
    |models| == length && forall i :: 0 <= i < |models| ==> SymbolShaped(models[i], length, length * length)
  }

  /** The bytes of a run of values, 8 per value, in order. */
  function EncodeAll(vals: seq<Word>): (bytes: seq<Byte>)
    ensures |bytes| == 8 * |vals|
  {
    if |vals| == 0 then [] else EncodeBits(vals[0]) + EncodeAll(vals[1..])
  }

  function SymbolBytes(m: Symbol): seq<Byte>
  {
    EncodeAll(m.u) + EncodeAll(m.a) + EncodeAll(m.ai)
  }

  /** The file the writer produces: the symbols' bytes one after another. */
  function Serialize(models: seq<Symbol>): seq<Byte>
  {
    if |models| == 0 then [] else SymbolBytes(models[0]) + Serialize(models[1..])
  }

  /** Encoding one more value appends its 8 bytes. */
  lemma {:induction false} EncodeAllAppend(vals: seq<Word>, v: Word)
    ensures EncodeAll(vals + [v]) == EncodeAll(vals) + EncodeBits(v)
    decreases |vals|
  {
    if |vals| > 0 {
      assert (vals + [v])[1..] == vals[1..] + [v];
      EncodeAllAppend(vals[1..], v);
    }
  }

  /** Serializing one more symbol appends its bytes. */
  lemma {:induction false} SerializeAppend(models: seq<Symbol>, m: Symbol)
    ensures Serialize(models + [m]) == Serialize(models) + SymbolBytes(m)
    decreases |models|
  {
    if |models| > 0 {
      assert (models + [m])[1..] == models[1..] + [m];
      SerializeAppend(models[1..], m);
    }
  }

  /** The writer's inner loop: 8 bytes per value, appended to the file. */
  method WriteAll(out: seq<Byte>, vals: seq<Word>) returns (out': seq<Byte>)
    ensures out' == out + EncodeAll(vals)
  {
    out' := out;
    for k := 0 to |vals|
      invariant out' == out + EncodeAll(vals[..k])
    {
      var buffer := Encode(vals[k]);
      assert vals[..k + 1] == vals[..k] + [vals[k]];
      EncodeAllAppend(vals[..k], vals[k]);
      out' := out' + buffer[..];
    }
    assert vals[..|vals|] == vals;
  }

  /** One symbol's u, A and AI, appended to the file. */
  method WriteSymbol(out: seq<Byte>, m: Symbol) returns (out': seq<Byte>)
    ensures out' == out + SymbolBytes(m)
  {
    out' := WriteAll(out, m.u);
    out' := WriteAll(out', m.a);
    out' := WriteAll(out', m.ai);
  }

  /** The writer: u, A and AI of every symbol in turn. */
  method Save(models: seq<Symbol>) returns (out: seq<Byte>)
    ensures out == Serialize(models)
  {
    out := [];
    for i := 0 to |models|
      invariant out == Serialize(models[..i])
    {
      assert models[..i + 1] == models[..i] + [models[i]];
      SerializeAppend(models[..i], models[i]);
      out := WriteSymbol(out, models[i]);
    }
    assert models[..|models|] == models;
  }

  /** A read result with values already read put in front. */
  function Prefixed<T>(xs: seq<T>, r: Option<(seq<T>, seq<Byte>)>): Option<(seq<T>, seq<Byte>)>
  {
    match r
    case None => None
    case Some((ys, rest)) => Some((xs + ys, rest))
  }

  /** Reading n values from the front of the input: `None` when it ends before
      a full 8-byte read (the `io.EOF` and short-read panics); otherwise the
      values and the input left over. */
  function ReadBlock(input: seq<Byte>, n: nat): Option<(seq<Word>, seq<Byte>)>
  {
    if n == 0 then Some(([], input))
    else if |input| < 8 then None
    else Prefixed([DecodeBits(input[..8])], ReadBlock(input[8..], n - 1))
  }

  /** One symbol's model read from the front of the input. */
  function ReadSymbol(input: seq<Byte>, nu: nat, na: nat): Option<(Symbol, seq<Byte>)>
  {
    match ReadBlock(input, nu)
    case None => None
    case Some((u, rest)) =>
      match ReadBlock(rest, na)
      case None => None
      case Some((a, rest')) =>
        match ReadBlock(rest', na)
        case None => None
        case Some((ai, rest'')) => Some((Symbol(u, a, ai), rest''))
  }

  /** i symbols' models read from the front of the input. */
  function ReadSymbols(input: seq<Byte>, nu: nat, na: nat, i: nat): Option<(seq<Symbol>, seq<Byte>)>
    decreases i
  {
    if i == 0 then Some(([], input))
    else match ReadSymbol(input, nu, na)
      case None => None
      case Some((m, rest)) => Prefixed([m], ReadSymbols(rest, nu, na, i - 1))
  }

  /** The reader: every symbol's model, then a final read that must hit
      `io.EOF` or the program panics "not at the end". */
  function Load(input: seq<Byte>, length: nat): Option<seq<Symbol>>
  {
    match ReadSymbols(input, length, length * length, length)
    case None => None
    case Some((ms, rest)) => if |rest| == 0 then Some(ms) else None
  }

  /** Putting xs then ys in front is putting xs + ys in front. */
  lemma PrefixedTwice<T>(xs: seq<T>, ys: seq<T>, r: Option<(seq<T>, seq<Byte>)>)
    ensures Prefixed(xs, Prefixed(ys, r)) == Prefixed(xs + ys, r)
  {
    if r.Some? {
      assert xs + (ys + r.value.0) == xs + ys + r.value.0;
    }
  }

  /** Nothing put in front changes nothing. */
  lemma PrefixedNothing<T>(r: Option<(seq<T>, seq<Byte>)>)
    ensures Prefixed([], r) == r
  {
    if r.Some? {
      assert [] + r.value.0 == r.value.0;
    }
  }

  /** The reader's inner loops: one 8-byte read per value. */
  method ReadValues(input: seq<Byte>, n: nat) returns (r: Option<(seq<Word>, seq<Byte>)>)
    ensures r == ReadBlock(input, n)
  {
    var vals, rest := [], input;
    PrefixedNothing(ReadBlock(input, n));
    for k := 0 to n
      invariant ReadBlock(input, n) == Prefixed(vals, ReadBlock(rest, n - k))
    {
      if |rest| == 0 {
        return None;  // io.EOF
      }
      if |rest| < 8 {
        return None;  // not all bytes read
      }
      var value := Decode(rest[..8]);
      PrefixedTwice(vals, [value], ReadBlock(rest[8..], n - k - 1));
      vals, rest := vals + [value], rest[8..];
    }
    assert vals + [] == vals;
    return Some((vals, rest));
  }

  /** One symbol's u, A and AI. */
  method ReadModel(input: seq<Byte>, nu: nat, na: nat) returns (r: Option<(Symbol, seq<Byte>)>)
    ensures r == ReadSymbol(input, nu, na)
  {
    var u := ReadValues(input, nu);
    if u.None? {
      return None;
    }
    var a := ReadValues(u.value.1, na);
    if a.None? {
      return None;
    }
    var ai := ReadValues(a.value.1, na);
    if ai.None? {
      return None;
    }
    return Some((Symbol(u.value.0, a.value.0, ai.value.0), ai.value.1));
  }

  /** The reader: every symbol's model, then the end-of-file check. */
  method Read(input: seq<Byte>, length: nat) returns (r: Option<seq<Symbol>>)
    ensures r == Load(input, length)
  {
    var ms, rest, na := [], input, length * length;
    PrefixedNothing(ReadSymbols(input, length, na, length));
    for i := 0 to length
      invariant ReadSymbols(input, length, na, length) == Prefixed(ms, ReadSymbols(rest, length, na, length - i))
    {
      var m := ReadModel(rest, length, na);
      if m.None? {
        return None;
      }
      PrefixedTwice(ms, [m.value.0], ReadSymbols(m.value.1, length, na, length - i - 1));
      ms, rest := ms + [m.value.0], m.value.1;
    }
    assert ms + [] == ms;
    if |rest| != 0 {
      return None;  // not at the end
    }
    return Some(ms);
  }

  /** A run's encoding at the front of the input reads back as the run. */
  lemma {:induction false} ReadEncoded(vals: seq<Word>, rest: seq<Byte>)
    ensures ReadBlock(EncodeAll(vals) + rest, |vals|) == Some((vals, rest))
    decreases |vals|
  {
    if |vals| > 0 {
      var input := EncodeAll(vals) + rest;
      var head := EncodeBits(vals[0]);
      assert input == head + (EncodeAll(vals[1..]) + rest);
      assert input[..8] == head && input[8..] == EncodeAll(vals[1..]) + rest;
      ReadEncoded(vals[1..], rest);
      DecodeEncode(vals[0]);
      assert ReadBlock(input, |vals|) == Prefixed([vals[0]], Some((vals[1..], rest)));
      assert [vals[0]] + vals[1..] == vals;
    } else {
      assert EncodeAll(vals) + rest == rest;
    }
  }

  /** Whatever a block read returns is exactly the bytes it consumed. */
  lemma {:induction false} ReadExact(input: seq<Byte>, n: nat)
    requires ReadBlock(input, n).Some?
    ensures |ReadBlock(input, n).value.0| == n
    ensures input == EncodeAll(ReadBlock(input, n).value.0) + ReadBlock(input, n).value.1
  {
    if n > 0 {
      ReadExact(input[8..], n - 1);
      var (vals, rest) := ReadBlock(input[8..], n - 1).value;
      var v := DecodeBits(input[..8]);
      EncodeDecode(input[..8]);
      assert ([v] + vals)[1..] == vals;
      assert input == input[..8] + input[8..];
    }
  }

  /** A symbol's bytes at the front of the input read back as the symbol. */
  lemma ReadSymbolEncoded(m: Symbol, nu: nat, na: nat, rest: seq<Byte>)
    requires SymbolShaped(m, nu, na)
    ensures ReadSymbol(SymbolBytes(m) + rest, nu, na) == Some((m, rest))
  {
    var x, y, z := EncodeAll(m.u), EncodeAll(m.a), EncodeAll(m.ai);
    assert SymbolBytes(m) + rest == x + (y + (z + rest));
    ReadEncoded(m.u, y + (z + rest));
    ReadEncoded(m.a, z + rest);
    ReadEncoded(m.ai, rest);
  }

  /** Serialized symbols at the front of the input read back as the symbols. */
  lemma {:induction false} ReadSerialized(models: seq<Symbol>, nu: nat, na: nat, rest: seq<Byte>)
    requires forall i :: 0 <= i < |models| ==> SymbolShaped(models[i], nu, na)
    ensures ReadSymbols(Serialize(models) + rest, nu, na, |models|) == Some((models, rest))
    decreases |models|
  {
    if |models| > 0 {
      var tail := models[1..];
      assert Serialize(models) + rest == SymbolBytes(models[0]) + (Serialize(tail) + rest);
      ReadSymbolEncoded(models[0], nu, na, Serialize(tail) + rest);
      ReadSerialized(tail, nu, na, rest);
      assert ReadSymbols(Serialize(models) + rest, nu, na, |models|) == Prefixed([models[0]], Some((tail, rest)));
      assert [models[0]] + tail == models;
    } else {
      assert Serialize(models) + rest == rest;
    }
  }

  /** The writer's file loads back as the models it was written from. */
  lemma LoadSave(models: seq<Symbol>, length: nat)
    requires Shaped(models, length)
    ensures Load(Serialize(models), length) == Some(models)
  {
    assert Serialize(models) + [] == Serialize(models);
    ReadSerialized(models, length, length * length, []);
  }

  /** Whatever a symbol read returns is exactly the bytes it consumed. */
  lemma ReadSymbolExact(input: seq<Byte>, nu: nat, na: nat)
    requires ReadSymbol(input, nu, na).Some?
    ensures SymbolShaped(ReadSymbol(input, nu, na).value.0, nu, na)
    ensures input == SymbolBytes(ReadSymbol(input, nu, na).value.0) + ReadSymbol(input, nu, na).value.1
  {
    ReadExact(input, nu);
    var (u, rest) := ReadBlock(input, nu).value;
    ReadExact(rest, na);
    var (a, rest') := ReadBlock(rest, na).value;
    ReadExact(rest', na);
    var (ai, rest'') := ReadBlock(rest', na).value;
    assert input == EncodeAll(u) + EncodeAll(a) + EncodeAll(ai) + rest'';
  }

  /** The input is the bytes of i well-shaped symbols ms followed by rest. */
  predicate Consumed(input: seq<Byte>, ms: seq<Symbol>, rest: seq<Byte>, nu: nat, na: nat, i: nat)
  {
    |ms| == i && (forall k :: 0 <= k < i ==> SymbolShaped(ms[k], nu, na)) && input == Serialize(ms) + rest
  }

  /** Whatever the symbol reads return is exactly the bytes they consumed. */
  lemma {:induction false} ReadSymbolsExact(input: seq<Byte>, nu: nat, na: nat, i: nat)
    requires ReadSymbols(input, nu, na, i).Some?
    ensures Consumed(input, ReadSymbols(input, nu, na, i).value.0, ReadSymbols(input, nu, na, i).value.1, nu, na, i)
    decreases i
  {
    if i == 0 {
      assert input == Serialize([]) + input;
    } else {
      ReadSymbolExact(input, nu, na);
      var (m, rest) := ReadSymbol(input, nu, na).value;
      ReadSymbolsExact(rest, nu, na, i - 1);
      var (ms, rest') := ReadSymbols(rest, nu, na, i - 1).value;
      ConsumedCons(input, m, rest, ms, rest', nu, na, i);
    }
  }

  /** One symbol's bytes before i - 1 consumed symbols make i of them. */
  lemma ConsumedCons(input: seq<Byte>, m: Symbol, rest: seq<Byte>, ms: seq<Symbol>, rest': seq<Byte>, nu: nat, na: nat, i: nat)
    requires i > 0 && SymbolShaped(m, nu, na) && input == SymbolBytes(m) + rest
    requires Consumed(rest, ms, rest', nu, na, i - 1)
    ensures Consumed(input, [m] + ms, rest', nu, na, i)
  {
    ShapedCons(m, ms, nu, na);
    SerializeCons(m, ms, rest');
  }

  lemma ShapedCons(m: Symbol, ms: seq<Symbol>, nu: nat, na: nat)
    requires SymbolShaped(m, nu, na) && forall k :: 0 <= k < |ms| ==> SymbolShaped(ms[k], nu, na)
    ensures forall k :: 0 <= k < |ms| + 1 ==> SymbolShaped(([m] + ms)[k], nu, na)
  {
    forall k | 0 <= k < |ms| + 1
      ensures SymbolShaped(([m] + ms)[k], nu, na)
    {
      if k > 0 {
        assert ([m] + ms)[k] == ms[k - 1];
      }
    }
  }

  lemma SerializeCons(m: Symbol, ms: seq<Symbol>, rest: seq<Byte>)
    ensures SymbolBytes(m) + Serialize(ms) + rest == Serialize([m] + ms) + rest
  {
    assert ([m] + ms)[1..] == ms;
  }

  /** A load succeeds only on exactly the writer's file for well-shaped models. */
  lemma LoadExact(input: seq<Byte>, length: nat)
    requires Load(input, length).Some?
    ensures Shaped(Load(input, length).value, length)
    ensures input == Serialize(Load(input, length).value)
  {
    ReadSymbolsExact(input, length, length * length, length);
    assert Serialize(Load(input, length).value) + [] == Serialize(Load(input, length).value);
  }

  // ---------------------------------------------------------------------
  // Context vectors (text.go:40, 52-62, 206-209)
  // ---------------------------------------------------------------------

  /** `forward[r]`: a rune the tokenizer never saw reads as code 0, Go's zero value. */
  function Code(forward: map<char, Byte>, r: char): Byte
  {
    if r in forward then forward[r] else 0
  }

  /** Every code names an entry of a vector of the given length. */
  predicate CodesFit(forward: map<char, Byte>, length: nat)
  {
    0 < length && forall r | r in forward :: forward[r] < length
  }

  lemma CodeFits(forward: map<char, Byte>, r: char, length: nat)
    requires CodesFit(forward, length)
    ensures Code(forward, r) < length
  {
  }

  /** A sequence without repeats has as many elements as its set. */
  lemma {:induction false} DistinctCard(f: seq<char>)
    requires forall i, j :: 0 <= i < j < |f| ==> f[i] != f[j]
    ensures |set x | x in f| == |f|
  {
    if |f| > 0 {
      var front := f[..|f| - 1];
      DistinctCard(front);
      assert (set x | x in f) == (set x | x in front) + {f[|f| - 1]};
      assert f[|f| - 1] !in front;
    }
  }

  /** `length := len(forward)` counts the distinct runes, and every code fits
      a vector of that length. */
  lemma LengthFits(data: seq<char>, forward: map<char, Byte>, reverse: map<Byte, char>, code: Byte)
    requires Tokenized(data, forward, reverse, code) && |data| > 0
    ensures |forward| == |Firsts(data)|
    ensures CodesFit(forward, |forward|)
  {
    var f := Firsts(data);
    DistinctCard(f);
    assert forward.Keys == set x | x in f;
    assert data[0] in f;
    CodesBelow(data, forward, reverse, code);
  }

  /** The codes of the 8 runes before position index, nearest first. */
  function Window(forward: map<char, Byte>, runes: seq<char>, index: nat): (w: seq<nat>)
    requires 8 <= index <= |runes|
    ensures |w| == 8
  {
    seq(8, k requires 0 <= k < 8 => Code(forward, runes[index - 1 - k]))
  }

  /** How often each of 0..length-1 occurs in xs. */
  function Tally(xs: seq<nat>, length: nat): (t: seq<nat>)
    ensures |t| == length
    ensures forall c :: 0 <= c < length ==> (t[c] > 0 <==> c in xs)
  {
    seq(length, c requires 0 <= c < length => multiset(xs)[c])
  }

  function SumNat(s: seq<nat>): nat
  {
    if |s| == 0 then 0 else SumNat(s[..|s| - 1]) + s[|s| - 1]
  }

  function SumReal(s: seq<real>): real
  {
    if |s| == 0 then 0.0 else SumReal(s[..|s| - 1]) + s[|s| - 1]
  }

  /** The float64 vector holding counts. */
  function AsReals(t: seq<nat>): (v: seq<real>)
    ensures |v| == |t|
  {
    seq(|t|, c requires 0 <= c < |t| => t[c] as real)
  }

  /** Counting one more x adds 1 at x. */
  lemma TallyAppend(xs: seq<nat>, x: nat, length: nat)
    requires x < length
    ensures Tally(xs + [x], length) == Tally(xs, length)[x := Tally(xs, length)[x] + 1]
  {
    assert multiset(xs + [x]) == multiset(xs) + multiset{x};
  }

  lemma {:induction false} SumNatUpdate(s: seq<nat>, k: nat, d: nat)
    requires k < |s|
    ensures SumNat(s[k := s[k] + d]) == SumNat(s) + d
    decreases |s|
  {
    var n := |s| - 1;
    var s' := s[k := s[k] + d];
    assert s'[..n] == if k < n then s[..n][k := s[k] + d] else s[..n];
    if k < n {
      SumNatUpdate(s[..n], k, d);
    }
  }

  lemma {:induction false} SumNatZero(s: seq<nat>)
    requires forall i :: 0 <= i < |s| ==> s[i] == 0
    ensures SumNat(s) == 0
  {
    if |s| > 0 {
      SumNatZero(s[..|s| - 1]);
    }
  }

  /** Counts of values below length add up to how many values there are. */
  lemma {:induction false} TallySum(xs: seq<nat>, length: nat)
    requires forall i :: 0 <= i < |xs| ==> xs[i] < length
    ensures SumNat(Tally(xs, length)) == |xs|
  {
    if |xs| == 0 {
      SumNatZero(Tally(xs, length));
    } else {
      var front, x := xs[..|xs| - 1], xs[|xs| - 1];
      assert xs == front + [x];
      TallySum(front, length);
      TallyAppend(front, x, length);
      SumNatUpdate(Tally(front, length), x, 1);
    }
  }

  lemma {:induction false} SumAsReals(t: seq<nat>)
    ensures SumReal(AsReals(t)) == SumNat(t) as real
  {
    if |t| > 0 {
      SumAsReals(t[..|t| - 1]);
      assert AsReals(t)[..|t| - 1] == AsReals(t[..|t| - 1]);
    }
  }

  /** The context vector of position index: the counts of the codes of the
      8 runes before it, as float64s. */
  function Context(forward: map<char, Byte>, runes: seq<char>, index: nat, length: nat): seq<real>
    requires 8 <= index <= |runes|
  {
    AsReals(Tally(Window(forward, runes, index), length))
  }

  /** A context vector has an entry per symbol and its entries add up to 8. */
  lemma ContextSum(forward: map<char, Byte>, runes: seq<char>, index: nat, length: nat)
    requires 8 <= index <= |runes| && CodesFit(forward, length)
    ensures |Context(forward, runes, index, length)| == length
    ensures SumReal(Context(forward, runes, index, length)) == 8.0
  {
    var w := Window(forward, runes, index);
    forall k | 0 <= k < 8
      ensures w[k] < length
    {
      CodeFits(forward, runes[index - 1 - k], length);
    }
    TallySum(w, length);
    SumAsReals(Tally(w, length));
  }

  /** Incrementing entry x of the counts of xs gives the counts of xs + [x]. */
  lemma CountStep(counts: seq<real>, xs: seq<nat>, x: nat, length: nat)
    requires x < length && counts == AsReals(Tally(xs, length))
    ensures counts[x := counts[x] + 1.0] == AsReals(Tally(xs + [x], length))
  {
    TallyAppend(xs, x, length);
  }

  /** `vector[forward[datum[index-i]]]++` for i = 1..8. */
  method ContextVector(forward: map<char, Byte>, runes: seq<char>, index: nat, length: nat) returns (vector: seq<real>)
    requires 8 <= index <= |runes| && CodesFit(forward, length)
    ensures vector == Context(forward, runes, index, length)
  {
    var counts := new real[length](_ => 0.0);
    var w := Window(forward, runes, index);
    for i := 1 to 9
      invariant counts[..] == AsReals(Tally(w[..i - 1], length))
    {
      var c := Code(forward, runes[index - i]);
      CodeFits(forward, runes[index - i], length);
      assert w[..i] == w[..i - 1] + [c];
      CountStep(counts[..], w[..i - 1], c, length);
      counts[c] := counts[c] + 1.0;
    }
    assert w[..8] == w;
    vector := counts[..];
  }

  /** The training vectors of symbol i: the context of every position from 8
      on whose rune has code i, in text order, up to position n. */
  function Contexts(forward: map<char, Byte>, runes: seq<char>, i: nat, length: nat, n: nat): seq<seq<real>>
    requires 8 <= n <= |runes|
  {
    if n == 8 then []
    else
      var earlier := Contexts(forward, runes, i, length, n - 1);
      if Code(forward, runes[n - 1]) == i then earlier + [Context(forward, runes, n - 1, length)] else earlier
  }

  /** The loop over `datum[8:]` collecting symbol i's vectors; the text must
      have at least 8 runes or `datum[8:]` is out of range. */
  method SymbolContexts(forward: map<char, Byte>, runes: seq<char>, i: nat, length: nat) returns (vectors: seq<seq<real>>)
    requires 8 <= |runes| && CodesFit(forward, length)
    ensures vectors == Contexts(forward, runes, i, length, |runes|)
  {
    vectors := [];
    for index := 8 to |runes|
      invariant vectors == Contexts(forward, runes, i, length, index)
    {
      if Code(forward, runes[index]) == i {
        var vector := ContextVector(forward, runes, index, length);
        vectors := vectors + [vector];
      }
    }
  }

  /** The positions from 8 up to n whose rune has code i. */
  function Hits(forward: map<char, Byte>, runes: seq<char>, i: nat, n: nat): set<nat>
    requires n <= |runes|
  {
    set p | 8 <= p < n && Code(forward, runes[p]) == i
  }

  /** There is one training vector per occurrence of the symbol from position 8 on. */
  lemma {:induction false} ContextsCount(forward: map<char, Byte>, runes: seq<char>, i: nat, length: nat, n: nat)
    requires 8 <= n <= |runes|
    ensures |Contexts(forward, runes, i, length, n)| == |Hits(forward, runes, i, n)|
  {
    if n > 8 {
      ContextsCount(forward, runes, i, length, n - 1);
      var before := Hits(forward, runes, i, n - 1);
      var after := Hits(forward, runes, i, n);
      if Code(forward, runes[n - 1]) == i {
        assert after == before + {n - 1};
      } else {
        assert after == before;
      }
    } else {
      assert Hits(forward, runes, i, n) == {};
    }
  }

  /** Every training vector has an entry per symbol and sums to 8. */
  lemma {:induction false} ContextsShape(forward: map<char, Byte>, runes: seq<char>, i: nat, length: nat, n: nat)
    requires 8 <= n <= |runes| && CodesFit(forward, length)
    ensures forall k :: 0 <= k < |Contexts(forward, runes, i, length, n)| ==>
      |Contexts(forward, runes, i, length, n)[k]| == length && SumReal(Contexts(forward, runes, i, length, n)[k]) == 8.0
  {
    if n > 8 {
      ContextsShape(forward, runes, i, length, n - 1);
      ContextSum(forward, runes, n - 1, length);
    }
  }

  // ---------------------------------------------------------------------
  // Generation (text.go:200-245)
  // ---------------------------------------------------------------------

  /** `math.MaxFloat64`, (2^53 - 1) * 2^971. */
  const MaxFloat64: real := 179769313486231570814527423731704356798070567525844996598917476803157260780028538760589558632766878171540458953514382464234321326889464182768467546703537516986049910576551282076245490090389328944075868508455133942304583236903222948165808559332123348274797826204144723168738177180919299881250404026184124858368.0

  /** Votes per generated rune. */
  const Iterations: nat := 128

  /** Runes generated per prompt. */
  const Steps: nat := 8

  /** Prompts tried. */
  const Rounds: nat := 33

  /** The L2 distance between a context vector and candidate i's noisy
      reconstruction `A[i] (AI[i]^T (vector - u[i]) * noise) + u[i]` in vote t;
      the noise is drawn from the random source. */
  type Distance = (seq<real>, nat, nat) -> real

  /** The scan of candidates 1..n-1 for the closest one: candidate 0 is
      skipped, a candidate must be strictly closer than the best so far, and
      the scan starts from MaxFloat64 with index 0. */
  function Closest(fitness: seq<real>, n: nat): (best: (nat, real))
    requires n <= |fitness|
  {
    if n <= 1 then (0, MaxFloat64)
    else
      var (index, min) := Closest(fitness, n - 1);
      if fitness[n - 1] < min then (n - 1, fitness[n - 1]) else (index, min)
  }

  /** The pick is the first candidate other than 0 with the least fitness
      below MaxFloat64, and 0 exactly when there is none. */
  lemma {:induction false} ClosestIsFirstMinimum(fitness: seq<real>, n: nat)
    requires n <= |fitness|
    ensures Closest(fitness, n).0 == 0 <==> forall j :: 1 <= j < n ==> fitness[j] >= MaxFloat64
    ensures Closest(fitness, n).0 == 0 ==> Closest(fitness, n).1 == MaxFloat64
    ensures Closest(fitness, n).0 > 0 ==>
      Closest(fitness, n).0 < n && Closest(fitness, n).1 == fitness[Closest(fitness, n).0] < MaxFloat64
    ensures forall j :: 1 <= j < n ==> Closest(fitness, n).1 <= fitness[j]
    ensures forall j :: 1 <= j < Closest(fitness, n).0 ==> Closest(fitness, n).1 < fitness[j]
  {
    if n > 1 {
      ClosestIsFirstMinimum(fitness, n - 1);
    }
  }

  /** The inner loop over the candidates. */
  method Pick(fitness: seq<real>) returns (index: nat)
    ensures index == Closest(fitness, |fitness|).0
  {
    var min := MaxFloat64;
    index := 0;
    for i := 0 to |fitness|
      invariant (index, min) == Closest(fitness, i)
    {
      if i == 0 {
        continue;
      }
      if fitness[i] < min {
        min, index := fitness[i], i;
      }
    }
  }

  /** The fitness of candidates 0..n-1 in vote t. */
  function Row(distance: Distance, vector: seq<real>, t: nat, n: nat): (row: seq<real>)
    ensures |row| == n
  {
    if n == 0 then [] else Row(distance, vector, t, n - 1) + [distance(vector, t, n - 1)]
  }

  /** The fitness rows of votes 0..n-1. */
  function Rows(distance: Distance, vector: seq<real>, length: nat, n: nat): (rows: seq<seq<real>>)
    ensures |rows| == n
  {
    if n == 0 then [] else Rows(distance, vector, length, n - 1) + [Row(distance, vector, n - 1, length)]
  }

  /** The fitness of every candidate in every vote, for one context vector. */
  function Fits(distance: Distance, vector: seq<real>, length: nat): (fits: seq<seq<real>>)
    ensures |fits| == Iterations
  {
    Rows(distance, vector, length, Iterations)
  }

  /** Row t scores candidate i by the distance of vote t to candidate i. */
  lemma {:induction false} RowEntries(distance: Distance, vector: seq<real>, t: nat, n: nat)
    ensures forall i :: 0 <= i < n ==> Row(distance, vector, t, n)[i] == distance(vector, t, i)
  {
    if n > 0 {
      RowEntries(distance, vector, t, n - 1);
    }
  }

  /** Rows holds vote t's row at index t. */
  lemma {:induction false} RowsEntries(distance: Distance, vector: seq<real>, length: nat, n: nat)
    ensures forall t :: 0 <= t < n ==> Rows(distance, vector, length, n)[t] == Row(distance, vector, t, length)
  {
    if n > 0 {
      RowsEntries(distance, vector, length, n - 1);
    }
  }

  /** Every vote scores every candidate: entry [t][i] of the fitness table is
      the distance of vote t to candidate i. */
  lemma FitsShape(distance: Distance, vector: seq<real>, length: nat)
    ensures forall t :: 0 <= t < Iterations ==> |Fits(distance, vector, length)[t]| == length
    ensures forall t, i :: 0 <= t < Iterations && 0 <= i < length ==>
      Fits(distance, vector, length)[t][i] == distance(vector, t, i)
  {
    RowsEntries(distance, vector, length, Iterations);
    forall t | 0 <= t < Iterations {
      RowEntries(distance, vector, t, length);
    }
  }

  /** The candidate picked in each vote. */
  function Picks(fits: seq<seq<real>>): seq<nat>
  {
    seq(|fits|, t requires 0 <= t < |fits| => Closest(fits[t], |fits[t]|).0)
  }

  /** Every pick is a candidate. */
  lemma PicksBelow(fits: seq<seq<real>>, length: nat)
    requires 0 < length && forall t :: 0 <= t < |fits| ==> |fits[t]| == length
    ensures forall t :: 0 <= t < |fits| ==> Picks(fits)[t] < length
  {
    forall t | 0 <= t < |fits|
      ensures Picks(fits)[t] < length
    {
      ClosestIsFirstMinimum(fits[t], |fits[t]|);
    }
  }

  /** The 128 votes: each adds one to the bucket of its pick. */
  method Vote(fits: seq<seq<real>>, length: nat) returns (histogram: seq<nat>)
    requires 0 < length && forall t :: 0 <= t < |fits| ==> |fits[t]| == length
    ensures histogram == Tally(Picks(fits), length)
  {
    var counts := new nat[length](_ => 0);
    var picks := Picks(fits);
    PicksBelow(fits, length);
    for t := 0 to |fits|
      invariant counts[..] == Tally(picks[..t], length)
    {
      var index := Pick(fits[t]);
      assert index == picks[t];
      assert picks[..t + 1] == picks[..t] + [index];
      TallyAppend(picks[..t], index, length);
      counts[index] := counts[index] + 1;
    }
    assert picks[..|fits|] == picks;
    histogram := counts[..];
  }

  /** Every vote lands in exactly one bucket: the histogram sums to the number of votes. */
  lemma VotesSum(fits: seq<seq<real>>, length: nat)
    requires 0 < length && forall t :: 0 <= t < |fits| ==> |fits[t]| == length
    ensures SumNat(Tally(Picks(fits), length)) == |fits|
  {
    PicksBelow(fits, length);
    TallySum(Picks(fits), length);
  }

  /** The sampler's result: the first index whose running total exceeds the
      sample, with its count; (0, 0) when the total never does. */
  function Drawn(histogram: seq<nat>, sample: nat): (nat, nat)
  {
    if |histogram| == 0 then (0, 0)
    else
      var n := |histogram| - 1;
      var (index, count) := Drawn(histogram[..n], sample);
      if count > 0 then (index, count)
      else if sample < SumNat(histogram) then (n, histogram[n])
      else (0, 0)
  }

  /** A prefix never sums to more than the whole. */
  lemma {:induction false} SumNatPrefix(s: seq<nat>, k: nat)
    requires k <= |s|
    ensures SumNat(s[..k]) <= SumNat(s)
    decreases |s|
  {
    if k < |s| {
      assert s[..|s| - 1][..k] == s[..k];
      SumNatPrefix(s[..|s| - 1], k);
    } else {
      assert s[..k] == s;
    }
  }

  /** The draw finds an index exactly when the sample is below the total; the
      index is then the first whose running total passes the sample, so its
      count is at least 1. */
  lemma {:induction false} DrawnMeaning(histogram: seq<nat>, sample: nat)
    ensures var (index, count) := Drawn(histogram, sample);
      (count > 0 <==> sample < SumNat(histogram)) &&
      (count > 0 ==>
         index < |histogram| && count == histogram[index] &&
         SumNat(histogram[..index]) <= sample < SumNat(histogram[..index + 1])) &&
      (count == 0 ==> index == 0)
  {
    if |histogram| > 0 {
      var n := |histogram| - 1;
      var front := histogram[..n];
      DrawnMeaning(front, sample);
      var (index, count) := Drawn(front, sample);
      assert SumNat(histogram) == SumNat(front) + histogram[n];
      if count > 0 {
        assert front[..index] == histogram[..index] && front[..index + 1] == histogram[..index + 1];
        SumNatPrefix(histogram, n);
      } else {
        assert histogram[..n + 1] == histogram;
      }
    }
  }

  /** The sampler loop: running sums until one exceeds the sample. */
  method Sample(histogram: seq<nat>, sample: nat) returns (index: nat, count: nat)
    ensures (index, count) == Drawn(histogram, sample)
  {
    DrawnMeaning(histogram, sample);
    var sum := 0;
    index, count := 0, 0;
    for i := 0 to |histogram|
      invariant sum == SumNat(histogram[..i]) && sum <= sample
    {
      assert histogram[..i + 1][..i] == histogram[..i];
      sum := sum + histogram[i];
      if sample < sum {
        index, count := i, histogram[i];
        DrawnAt(histogram, sample, i);
        return;
      }
    }
    assert histogram[..|histogram|] == histogram;
  }

  /** The first index whose running total passes the sample is the draw. */
  lemma DrawnAt(histogram: seq<nat>, sample: nat, i: nat)
    requires i < |histogram| && SumNat(histogram[..i]) <= sample < SumNat(histogram[..i + 1])
    ensures Drawn(histogram, sample) == (i, histogram[i])
  {
    DrawnMeaning(histogram, sample);
    assert histogram[..|histogram|] == histogram;
    SumNatLe(histogram, i + 1, |histogram|);
    var index := Drawn(histogram, sample).0;
    // whichever of index and i comes first has the smaller running total
    var first := if index < i then index else i;
    var last := if index < i then i else index;
    SumNatLe(histogram, if first < last then first + 1 else last, last);
  }

  /** Running totals never decrease. */
  lemma SumNatLe(s: seq<nat>, a: nat, b: nat)
    requires a <= b <= |s|
    ensures SumNat(s[..a]) <= SumNat(s[..b])
  {
    assert s[..b][..a] == s[..a];
    SumNatPrefix(s[..b], a);
  }

  /** `reverse[byte(index)]`: the index is truncated to a byte, and a code
      with no rune reads as rune 0, Go's zero value. */
  function Rune(reverse: map<Byte, char>, index: nat): char
  {
    var b := index % 256;
    if b in reverse then reverse[b] else 0 as char
  }

  /** With at most 256 distinct runes, candidate c names the c-th distinct
      rune, whose code is c again. */
  lemma RuneRoundTrip(data: seq<char>, forward: map<char, Byte>, reverse: map<Byte, char>, code: Byte, c: nat)
    requires Tokenized(data, forward, reverse, code) && |Firsts(data)| <= 256 && c < |Firsts(data)|
    ensures Rune(reverse, c) == Firsts(data)[c]
    ensures Code(forward, Rune(reverse, c)) == c
  {
    assert c % 256 == c;
  }

  /** The histogram of votes for a context vector. */
  function Votes(distance: Distance, vector: seq<real>, length: nat): seq<nat>
  {
    Tally(Picks(Fits(distance, vector, length)), length)
  }

  /** One step of generation: the rune sampled after the prompt and the
      count of its bucket. */
  function Draw(forward: map<char, Byte>, reverse: map<Byte, char>, length: nat, prompt: seq<char>,
                distance: Distance, sample: nat): (char, nat)
    requires 8 <= |prompt|
  {
    var drawn := Drawn(Votes(distance, Context(forward, prompt, |prompt|, length), length), sample);
    (Rune(reverse, drawn.0), drawn.1)
  }

  /** Steps of generation from a prompt: each appends the sampled rune and
      adds the sampled bucket's count to the grand total. */
  function Completion(forward: map<char, Byte>, reverse: map<Byte, char>, length: nat, prompt: seq<char>,
                      distances: seq<Distance>, samples: seq<nat>): (r: (seq<char>, nat))
    requires 8 <= |prompt| && |samples| == |distances|
    decreases |distances|
  {
    if |distances| == 0 then (prompt, 0)
    else
      var step := Draw(forward, reverse, length, prompt, distances[0], samples[0]);
      var rest := Completion(forward, reverse, length, prompt + [step.0], distances[1..], samples[1..]);
      (rest.0, step.1 + rest.1)
  }

  /** A bucket never holds more than the whole histogram. */
  lemma {:induction false} SumNatAtLeast(s: seq<nat>, k: nat)
    requires k < |s|
    ensures s[k] <= SumNat(s)
  {
    if k < |s| - 1 {
      SumNatAtLeast(s[..|s| - 1], k);
    }
  }

  /** One step draws a bucket holding between 1 and 128 votes. */
  lemma StepGain(distance: Distance, vector: seq<real>, length: nat, sample: nat)
    requires 0 < length && sample < Iterations
    ensures 1 <= Drawn(Votes(distance, vector, length), sample).1 <= Iterations
  {
    var h := Votes(distance, vector, length);
    FitsShape(distance, vector, length);
    VotesSum(Fits(distance, vector, length), length);
    DrawnMeaning(h, sample);
    var index := Drawn(h, sample).0;
    SumNatAtLeast(h, index);
  }

  /** Generation appends one rune per step and keeps the prompt; with every
      sample below 128 each step gains between 1 and 128. */
  lemma {:induction false} CompletionShape(forward: map<char, Byte>, reverse: map<Byte, char>, length: nat, prompt: seq<char>,
                                           distances: seq<Distance>, samples: seq<nat>)
    requires 8 <= |prompt| && |samples| == |distances| && 0 < length
    requires forall k :: 0 <= k < |samples| ==> samples[k] < Iterations
    ensures |Completion(forward, reverse, length, prompt, distances, samples).0| == |prompt| + |distances|
    ensures Completion(forward, reverse, length, prompt, distances, samples).0[..|prompt|] == prompt
    ensures |distances| <= Completion(forward, reverse, length, prompt, distances, samples).1 <= Iterations * |distances|
    decreases |distances|
  {
    if |distances| > 0 {
      var h := Votes(distances[0], Context(forward, prompt, |prompt|, length), length);
      var index := Drawn(h, samples[0]).0;
      var next := prompt + [Rune(reverse, index)];
      StepGain(distances[0], Context(forward, prompt, |prompt|, length), length, samples[0]);
      CompletionShape(forward, reverse, length, next, distances[1..], samples[1..]);
      var text := Completion(forward, reverse, length, next, distances[1..], samples[1..]).0;
      assert text[..|prompt|] == text[..|next|][..|prompt|];
    } else {
      assert prompt[..|prompt|] == prompt;
    }
  }

  /** One generation step: the prompt's context vector, the votes, the sample
      and the rune appended. */
  method Step(forward: map<char, Byte>, reverse: map<Byte, char>, length: nat, prompt: seq<char>,
              distance: Distance, sample: nat) returns (next: seq<char>, count: nat)
    requires 8 <= |prompt| && CodesFit(forward, length)
    ensures next == prompt + [Draw(forward, reverse, length, prompt, distance, sample).0]
    ensures count == Draw(forward, reverse, length, prompt, distance, sample).1
  {
    var vector := ContextVector(forward, prompt, |prompt|, length);
    FitsShape(distance, vector, length);
    var histogram := Vote(Fits(distance, vector, length), length);
    var index;
    index, count := Sample(histogram, sample);
    next := prompt + [Rune(reverse, index)];
  }

  /** A completion with `grand` counted before it. */
  function Counted(r: (seq<char>, nat), grand: nat): (seq<char>, nat)
  {
    (r.0, grand + r.1)
  }

  /** Generation from step `k` on draws once from the text and continues
      from the text with that step's rune appended; so a loop that has
      counted `grand` up to `text` and takes that step keeps its invariant. */
  lemma CompletionAdvance(forward: map<char, Byte>, reverse: map<Byte, char>, length: nat, prompt: seq<char>,
                          distances: seq<Distance>, samples: seq<nat>, k: nat, text: seq<char>, grand: nat,
                          next: seq<char>, count: nat)
    requires 8 <= |prompt| && 8 <= |text| && |samples| == |distances| && k < |distances|
    requires Completion(forward, reverse, length, prompt, distances, samples) ==
      Counted(Completion(forward, reverse, length, text, distances[k..], samples[k..]), grand)
    requires var step := Draw(forward, reverse, length, text, distances[k], samples[k]);
      next == text + [step.0] && count == step.1
    ensures Completion(forward, reverse, length, prompt, distances, samples) ==
      Counted(Completion(forward, reverse, length, next, distances[k + 1..], samples[k + 1..]), grand + count)
  {
    assert distances[k..][1..] == distances[k + 1..] && samples[k..][1..] == samples[k + 1..];
  }

  /** The 8 steps for one prompt, totalling the sampled counts in `grand`. */
  method Complete(forward: map<char, Byte>, reverse: map<Byte, char>, length: nat, prompt: seq<char>,
                  distances: seq<Distance>, samples: seq<nat>) returns (text: seq<char>, grand: nat)
    requires 8 <= |prompt| && CodesFit(forward, length) && |distances| == |samples|
    ensures (text, grand) == Completion(forward, reverse, length, prompt, distances, samples)
  {
    text, grand := prompt, 0;
    assert distances[0..] == distances && samples[0..] == samples;
    for k := 0 to |distances|
      invariant 8 <= |text|
      invariant Completion(forward, reverse, length, prompt, distances, samples) ==
        Counted(Completion(forward, reverse, length, text, distances[k..], samples[k..]), grand)
    {
      var next, count := Step(forward, reverse, length, text, distances[k], samples[k]);
      CompletionAdvance(forward, reverse, length, prompt, distances, samples, k, text, grand, next, count);
      text, grand := next, grand + count;
    }
    assert distances[|distances|..] == [] && samples[|samples|..] == [];
  }

  /** The prompt every round starts from. */
  const Prompt: seq<char> := "What is the meaning of life?"

  /** The completion and grand total of each round, in round order. */
  function Results(forward: map<char, Byte>, reverse: map<Byte, char>, length: nat,
                   distances: seq<seq<Distance>>, samples: seq<seq<nat>>): (rs: seq<(seq<char>, nat)>)
    requires |distances| == |samples| && forall r :: 0 <= r < |distances| ==> |distances[r]| == |samples[r]|
    ensures |rs| == |distances|
  {
    if |distances| == 0 then []
    else
      var n := |distances| - 1;
      Results(forward, reverse, length, distances[..n], samples[..n])
        + [Completion(forward, reverse, length, Prompt, distances[n], samples[n])]
  }

  /** Round r's result is the completion of the prompt with round r's draws. */
  lemma {:induction false} ResultsEntries(forward: map<char, Byte>, reverse: map<Byte, char>, length: nat,
                                          distances: seq<seq<Distance>>, samples: seq<seq<nat>>)
    requires |distances| == |samples| && forall r :: 0 <= r < |distances| ==> |distances[r]| == |samples[r]|
    ensures forall r :: 0 <= r < |distances| ==>
      Results(forward, reverse, length, distances, samples)[r] == Completion(forward, reverse, length, Prompt, distances[r], samples[r])
  {
    if |distances| > 0 {
      var n := |distances| - 1;
      ResultsEntries(forward, reverse, length, distances[..n], samples[..n]);
    }
  }

  /** The kept completion: a round replaces the best so far only with a
      strictly greater grand total, starting from the empty text and 0. */
  function Best(results: seq<(seq<char>, nat)>): (seq<char>, nat)
  {
    if |results| == 0 then ([], 0)
    else
      var best := Best(results[..|results| - 1]);
      if results[|results| - 1].1 > best.1 then results[|results| - 1] else best
  }

  /** The kept total is the greatest one, and the kept result is the first
      round reaching it; when every total is 0 nothing is kept. */
  lemma {:induction false} BestIsFirstMaximum(results: seq<(seq<char>, nat)>)
    ensures forall r :: 0 <= r < |results| ==> results[r].1 <= Best(results).1
    ensures Best(results).1 == 0 ==> Best(results) == ([], 0)
    ensures Best(results).1 > 0 ==>
      (exists r :: 0 <= r < |results| && results[r] == Best(results) &&
         forall q :: 0 <= q < r ==> results[q].1 < Best(results).1)
  {
    if |results| > 0 {
      var n := |results| - 1;
      BestIsFirstMaximum(results[..n]);
      var best := Best(results[..n]);
      if results[n].1 > best.1 {
        assert forall q :: 0 <= q < n ==> results[q] == results[..n][q];
      } else if best.1 > 0 {
        var r :| 0 <= r < n && results[..n][r] == best && forall q :: 0 <= q < r ==> results[..n][q].1 < best.1;
        assert results[r] == best;
      }
    }
  }

  /** One more round replaces the kept result exactly when its grand total
      is strictly greater. */
  lemma BestAdvance(forward: map<char, Byte>, reverse: map<Byte, char>, length: nat,
                    distances: seq<seq<Distance>>, samples: seq<seq<nat>>, r: nat,
                    text: seq<char>, grand: nat, grandPrompt: seq<char>, grandMax: nat)
    requires |distances| == |samples| && forall q :: 0 <= q < |distances| ==> |distances[q]| == |samples[q]|
    requires r < |distances| && 8 <= |Prompt|
    requires (grandPrompt, grandMax) == Best(Results(forward, reverse, length, distances[..r], samples[..r]))
    requires (text, grand) == Completion(forward, reverse, length, Prompt, distances[r], samples[r])
    ensures Best(Results(forward, reverse, length, distances[..r + 1], samples[..r + 1])) ==
      if grand > grandMax then (text, grand) else (grandPrompt, grandMax)
  {
    assert distances[..r + 1][..r] == distances[..r] && samples[..r + 1][..r] == samples[..r];
  }

  /** The rounds: each completes the prompt in 8 steps, and the completion
      with the strictly greatest grand total so far is kept. */
  method Generate(forward: map<char, Byte>, reverse: map<Byte, char>, length: nat,
                  distances: seq<seq<Distance>>, samples: seq<seq<nat>>) returns (grandPrompt: seq<char>, grandMax: nat)
    requires CodesFit(forward, length) && |distances| == |samples| == Rounds
    requires forall r :: 0 <= r < Rounds ==> |distances[r]| == |samples[r]| == Steps
    ensures (grandPrompt, grandMax) == Best(Results(forward, reverse, length, distances, samples))
  {
    grandPrompt, grandMax := [], 0;
    for r := 0 to Rounds
      invariant (grandPrompt, grandMax) == Best(Results(forward, reverse, length, distances[..r], samples[..r]))
    {
      var text, grand := Complete(forward, reverse, length, Prompt, distances[r], samples[r]);
      BestAdvance(forward, reverse, length, distances, samples, r, text, grand, grandPrompt, grandMax);
      if grand > grandMax {
        grandMax, grandPrompt := grand, text;
      }
    }
    assert distances[..Rounds] == distances && samples[..Rounds] == samples;
  }

  /** With every sample below 128, the kept completion is one of the rounds':
      the prompt followed by 8 runes, with a grand total between 8 and 1024. */
  lemma GenerateShape(forward: map<char, Byte>, reverse: map<Byte, char>, length: nat,
                      distances: seq<seq<Distance>>, samples: seq<seq<nat>>)
    requires 0 < length && |distances| == |samples| == Rounds
    requires forall r :: 0 <= r < Rounds ==> |distances[r]| == |samples[r]| == Steps
    requires forall r, k :: 0 <= r < Rounds && 0 <= k < Steps ==> samples[r][k] < Iterations
    ensures var best := Best(Results(forward, reverse, length, distances, samples));
      |best.0| == |Prompt| + Steps && best.0[..|Prompt|] == Prompt && Steps <= best.1 <= Iterations * Steps
  {
    var results := Results(forward, reverse, length, distances, samples);
    ResultsEntries(forward, reverse, length, distances, samples);
    BestIsFirstMaximum(results);
    CompletionShape(forward, reverse, length, Prompt, distances[0], samples[0]);
    var r :| 0 <= r < Rounds && results[r] == Best(results) &&
      forall q :: 0 <= q < r ==> results[q].1 < Best(results).1;
    CompletionShape(forward, reverse, length, Prompt, distances[r], samples[r]);
  }
}
