/** `base64_encode`: an accumulator of one wrapping 32-bit int, fed byte by byte, against
    section 4 of RFC 4648, which works on groups of 24 bits. */
module Base64 {
  import opened Arithmetic
  import opened Sequences

  newtype Byte = b: int | 0 <= b < 256

  const ALPHABET: string :=
    "ABCDEFGHIJKLMNOPQRSTUVWXYZ" + "abcdefghijklmnopqrstuvwxyz" + "0123456789" + "+/"

  // --------------------------------------------------------------------------------------------
  // 32-bit signed arithmetic (two's complement, C++20 shifts)
  // --------------------------------------------------------------------------------------------

  const WORD: int := 0x1_0000_0000

  const HALF: int := 0x8000_0000

  /** Conversion to int: the value modulo 2^32 in -2^31 .. 2^31 - 1. */
  function Wrap(x: int): int {
    var m := x % WORD;
    if m < HALF then m else m - WORD
  }

  predicate IsInt32(x: int) {
    -HALF <= x < HALF
  }

  /** Wrapping subtracts a multiple of 2^32. */
  lemma WrapIsCongruent(x: int) returns (q: int)
    ensures IsInt32(Wrap(x)) && Wrap(x) == x - q * WORD
  {
    q := x / WORD + if x % WORD < HALF then 0 else 1;
    assert x == WORD * (x / WORD) + x % WORD;
  }

  /** `x << 8` */
  function ShiftLeft8(x: int): int {
    Wrap(x * 256)
  }

  /** Only the shift wraps: there is room for the byte that is added, so the addition does not
      overflow. */
  lemma AdditionFits(x: int, c: int)
    requires 0 <= c < 256
    ensures IsInt32(ShiftLeft8(x) + c)
  {
    var q := WrapIsCongruent(x * 256);
    assert ShiftLeft8(x) == (x - q * 0x100_0000) * 256;
  }

  /** `(x >> n) & 0x3F` for the shift amounts the encoder uses: shifting right floors. */
  function SixBits(x: int, n: int): (r: int)
    requires n in {0, 2, 4, 6}
    ensures 0 <= r < 64
  {
    match n
    case 0 => x % 64
    case 2 => (x / 4) % 64
    case 4 => (x / 16) % 64
    case _ => (x / 64) % 64
  }

  // --------------------------------------------------------------------------------------------
  // RFC 4648, section 4
  // --------------------------------------------------------------------------------------------

  /** One output symbol, by the bits it carries: the four 6-bit slices of three concatenated bytes,
      most significant first, or padding. */
  datatype Symbol = First(a: Byte) | Second(a: Byte, b: Byte) | Third(b: Byte, c: Byte) | Fourth(c: Byte) | Pad

  const ZERO: Byte := 0

  /** A full 24-bit group is four symbols; a final quantum of 8 or 16 bits is extended with zero
      bits and padded. */
  function Layout(input: seq<Byte>): seq<Symbol> {
    match |input|
    case 0 => []
    case 1 => [First(input[0]), Second(input[0], ZERO), Pad, Pad]
    case 2 => [First(input[0]), Second(input[0], input[1]), Third(input[1], ZERO), Pad]
    case _ =>
      [First(input[0]), Second(input[0], input[1]), Third(input[1], input[2]), Fourth(input[2])]
      + Layout(input[3..])
  }

  function V(b: Byte): (v: int)
    ensures 0 <= v < 256
  {
    b as int
  }

  function Slice1(a: int, b: int): int {
    a % 4 * 16 + b / 16
  }

  function Slice2(b: int, c: int): int {
    b % 16 * 4 + c / 64
  }

  const PAD: int := 64

  function Code(s: Symbol): (d: int)
    ensures 0 <= d <= PAD && (d == PAD <==> s == Pad)
  {
    match s
    case First(a) => V(a) / 4
    case Second(a, b) => Slice1(V(a), V(b))
    case Third(b, c) => Slice2(V(b), V(c))
    case Fourth(c) => V(c) % 64
    case Pad => PAD
  }

  /** The slices are the base-64 digits of the 24-bit group. */
  lemma CodesAreDigits(a: Byte, b: Byte, c: Byte)
    ensures V(a) * 65536 + V(b) * 256 + V(c)
         == Code(First(a)) * 262144 + Code(Second(a, b)) * 4096 + Code(Third(b, c)) * 64 + Code(Fourth(c))
  {
    var a, b, c := V(a), V(b), V(c);
    assert a == a / 4 * 4 + a % 4 && b == b / 16 * 16 + b % 16 && c == c / 64 * 64 + c % 64;
  }

  /** Table 1 of RFC 4648. */
  function Char(code: int): char
    requires 0 <= code <= PAD
  {
    if code < 26 then 'A' + code as char
    else if code < 52 then 'a' + (code - 26) as char
    else if code < 62 then '0' + (code - 52) as char
    else if code == 62 then '+'
    else if code == 63 then '/'
    else '='
  }

  function Text(symbols: seq<Symbol>): (text: string)
    ensures |text| == |symbols|
    ensures forall i :: 0 <= i < |symbols| ==> text[i] == Char(Code(symbols[i]))
  {
    seq(|symbols|, i requires 0 <= i < |symbols| => Char(Code(symbols[i])))
  }

  function Encode(input: seq<Byte>): string {
    Text(Layout(input))
  }

  // --------------------------------------------------------------------------------------------
  // The encoder
  // --------------------------------------------------------------------------------------------

  lemma AlphabetIsTable(code: int)
    requires 0 <= code < PAD
    ensures ALPHABET[code] == Char(code)
  {
  }

  /** The symbols the encoder has output after `input`, before the final partial symbol. */
  function Prefix(input: seq<Byte>): seq<Symbol> {
    match |input|
    case 0 => []
    case 1 => [First(input[0])]
    case 2 => [First(input[0]), Second(input[0], input[1])]
    case _ =>
      [First(input[0]), Second(input[0], input[1]), Third(input[1], input[2]), Fourth(input[2])]
      + Prefix(input[3..])
  }

  /** The symbols output for the last of `input`'s bytes. */
  function Step(input: seq<Byte>): seq<Symbol>
    requires input != []
  {
    var n := |input|;
    if n % 3 == 1 then [First(input[n - 1])]
    else if n % 3 == 2 then [Second(input[n - 2], input[n - 1])]
    else [Third(input[n - 2], input[n - 1]), Fourth(input[n - 1])]
  }

  /** The partial symbol and the padding that follow the prefix. */
  function Ending(input: seq<Byte>): seq<Symbol> {
    var n := |input|;
    if n % 3 == 0 then []
    else if n % 3 == 1 then [Second(input[n - 1], ZERO), Pad, Pad]
    else [Third(input[n - 1], ZERO), Pad]
  }

  lemma StepBehindGroup(input: seq<Byte>)
    requires |input| > 3
    ensures Step(input) == Step(input[3..])
  {
    var n, rest := |input|, input[3..];
    assert n % 3 == |rest| % 3;
    assert rest[|rest| - 1] == input[n - 1];
    assert |rest| > 1 ==> rest[|rest| - 2] == input[n - 2];
  }

  lemma {:induction false} PrefixStep(input: seq<Byte>)
    requires input != []
    ensures Prefix(input) == Prefix(input[..|input| - 1]) + Step(input)
  {
    var init := input[..|input| - 1];
    if |input| > 3 {
      var rest := input[3..];
      PrefixStep(rest);
      assert init[3..] == rest[..|rest| - 1];
      StepBehindGroup(input);
      Assoc([First(input[0]), Second(input[0], input[1]), Third(input[1], input[2]), Fourth(input[2])],
            Prefix(init[3..]), Step(rest));
    } else if |input| == 3 {
      assert Prefix(input[3..]) == [];
      assert Prefix(init) == [First(input[0]), Second(input[0], input[1])];
    }
  }

  lemma {:induction false} PrefixThenEnding(input: seq<Byte>)
    ensures Layout(input) == Prefix(input) + Ending(input)
  {
    if |input| >= 3 {
      var rest := input[3..];
      var group := [First(input[0]), Second(input[0], input[1]), Third(input[1], input[2]), Fourth(input[2])];
      PrefixThenEnding(rest);
      assert Ending(input) == Ending(rest);
      Assoc(group, Prefix(rest), Ending(rest));
    }
  }

  /** The two low bytes of the accumulator, which is all that the shifts can reach. */
  predicate Holds(val: int, input: seq<Byte>) {
    match |input|
    case 0 => val == 0
    case 1 => val % 65536 == V(input[0])
    case n => val % 65536 == V(input[n - 2]) * 256 + V(input[n - 1])
  }

  /** Shifting in a byte keeps the previous low byte above it. */
  lemma LowAfterShift(val: int, a: int, c: int)
    requires 0 <= a < 256 && 0 <= c < 256 && val % 256 == a
    ensures (ShiftLeft8(val) + c) % 65536 == a * 256 + c
  {
    var q := WrapIsCongruent(val * 256);
    assert val == val / 256 * 256 + a;
    DivMod(ShiftLeft8(val) + c, 65536, val / 256 - q * 65536, a * 256 + c);
  }

  lemma LowByte(val: int, a: int, c: int)
    requires 0 <= a < 256 && 0 <= c < 256 && val % 65536 == a * 256 + c
    ensures val % 256 == c
  {
    DivMod(val, 256, val / 65536 * 256 + a, c);
  }

  lemma ShiftKeeps(val: int, input: seq<Byte>, c: Byte)
    requires Holds(val, input)
    ensures Holds(ShiftLeft8(val) + V(c), input + [c])
  {
    var n := |input|;
    if n == 0 {
      LowAfterShift(0, 0, V(c));
    } else {
      LowByte(val, if n == 1 then 0 else V(input[n - 2]), V(input[n - 1]));
      LowAfterShift(val, V(input[n - 1]), V(c));
    }
  }

  /** What the shifts extract, given the two low bytes. */
  lemma LowBits(val: int, a: int, b: int)
    requires 0 <= a < 256 && 0 <= b < 256 && val % 65536 == a * 256 + b
    ensures SixBits(val, 0) == b % 64 && SixBits(val, 2) == b / 4
    ensures SixBits(val, 4) == Slice1(a, b) && SixBits(val, 6) == Slice2(a, b)
  {
    var q := val / 65536;
    DivMod(val, 64, q * 1024 + a * 4 + b / 64, b % 64);
    DivMod(val, 4, q * 16384 + a * 64 + b / 4, b % 4);
    DivMod(q * 16384 + a * 64 + b / 4, 64, q * 256 + a, b / 4);
    DivMod(val, 16, q * 4096 + a * 16 + b / 16, b % 16);
    DivMod(q * 4096 + a * 16 + b / 16, 64, q * 64 + a / 4, a % 4 * 16 + b / 16);
    DivMod(q * 1024 + a * 4 + b / 64, 64, q * 16 + a / 16, a % 16 * 4 + b / 64);
  }

  /** `valb` after so many bytes. */
  function Bits(n: nat): int {
    match n % 3
    case 0 => -6
    case 1 => -4
    case _ => -2
  }

  /** What one turn of the inner loop outputs. */
  lemma StepCode(val: int, done: seq<Byte>, valb: int)
    requires done != [] && Holds(val, done)
    requires valb == Bits(|done| - 1) + 8 || (|done| % 3 == 0 && valb == 0)
    ensures valb in {0, 2, 4, 6}
    ensures SixBits(val, valb) == Code(Step(done)[if valb == 0 then 1 else 0])
  {
    var n := |done|;
    LowBits(val, if n == 1 then 0 else V(done[n - 2]), V(done[n - 1]));
    if n % 3 == 1 {
      assert (n - 1) % 3 == 0 && Step(done) == [First(done[n - 1])];
    } else if n % 3 == 2 {
      assert (n - 1) % 3 == 1 && Step(done) == [Second(done[n - 2], done[n - 1])];
    } else {
      assert (n - 1) % 3 == 2 && Step(done) == [Third(done[n - 2], done[n - 1]), Fourth(done[n - 1])];
    }
  }

  lemma EndingCode(val: int, input: seq<Byte>)
    requires Holds(val, input) && |input| % 3 != 0
    ensures SixBits(ShiftLeft8(val), Bits(|input|) + 8) == Code(Ending(input)[0])
  {
    var n := |input|;
    var b := V(input[n - 1]);
    LowByte(val, if n == 1 then 0 else V(input[n - 2]), b);
    LowAfterShift(val, b, 0);
    LowBits(ShiftLeft8(val), b, 0);
  }

  lemma TextAppend(a: seq<Symbol>, b: seq<Symbol>)
    ensures Text(a + b) == Text(a) + Text(b)
  {
  }

  /** The inner loop: all complete symbols in the accumulator, `out`, most significant first. */
  method OutputSymbols(val: int, bits: int, ghost out: seq<Symbol>) returns (text: string, valb: int)
    requires bits in {2, 4, 6} && |out| == (if bits == 6 then 2 else 1)
    requires SixBits(val, bits) == Code(out[0]) && out[0] != Pad
    requires bits == 6 ==> SixBits(val, 0) == Code(out[1]) && out[1] != Pad
    ensures text == Text(out) && valb == if bits == 6 then -6 else bits - 6
  {
    text, valb := [], bits;
    while valb >= 0
      invariant valb == bits || valb == bits - 6 || valb == bits - 12
      invariant |text| * 6 == bits - valb && |text| <= |out|
      invariant forall k :: 0 <= k < |text| ==> text[k] == Char(Code(out[k]))
    {
      AlphabetIsTable(SixBits(val, valb));
      text := text + [ALPHABET[SixBits(val, valb)]];
      valb := valb - 6;
    }
  }

  /** The partial symbol, if bits are left over. */
  method OutputRest(val: int, valb: int, ghost input: seq<Byte>) returns (out: string)
    requires Holds(val, input) && valb == Bits(|input|)
    ensures out == if |input| % 3 == 0 then [] else [Char(Code(Ending(input)[0]))]
  {
    out := [];
    if valb > -6 {
      EndingCode(val, input);
      AlphabetIsTable(SixBits(ShiftLeft8(val), valb + 8));
      out := [ALPHABET[SixBits(ShiftLeft8(val), valb + 8)]];
    }
  }

  /** How many symbols a byte completes, and the bits that are left. */
  lemma StepShape(done: seq<Byte>)
    requires done != []
    ensures var bits, out := Bits(|done| - 1) + 8, Step(done);
            && bits in {2, 4, 6} && |out| == (if bits == 6 then 2 else 1)
            && (bits == 6 <==> |done| % 3 == 0)
            && Bits(|done|) == (if bits == 6 then -6 else bits - 6)
            && forall k :: 0 <= k < |out| ==> out[k] != Pad
  {
  }

  lemma OutputGrows(before: seq<Byte>, c: Byte)
    ensures Text(Prefix(before + [c])) == Text(Prefix(before)) + Text(Step(before + [c]))
  {
    var done := before + [c];
    assert done[..|before|] == before;
    PrefixStep(done);
    TextAppend(Prefix(before), Step(done));
  }

  lemma StepCodes(val: int, done: seq<Byte>)
    requires done != [] && Holds(val, done)
    ensures var bits, out := Bits(|done| - 1) + 8, Step(done);
            && bits in {2, 4, 6} && |out| == (if bits == 6 then 2 else 1)
            && SixBits(val, bits) == Code(out[0])
            && (bits == 6 ==> SixBits(val, 0) == Code(out[1]))
  {
    StepShape(done);
    StepCode(val, done, Bits(|done| - 1) + 8);
    if |done| % 3 == 0 {
      StepCode(val, done, 0);
    }
  }

  method Base64Encode(input: seq<Byte>) returns (encoded: string)
    ensures encoded == Encode(input)
  {
    encoded := [];
    var val, valb := 0, -6;
    for i := 0 to |input|
      invariant valb == Bits(i) && Holds(val, input[..i]) && IsInt32(val)
      invariant encoded == Text(Prefix(input[..i]))
    {
      ghost var done := input[..i + 1];
      assert input[..i] + [input[i]] == done;
      ShiftKeeps(val, input[..i], input[i]);
      StepCodes(ShiftLeft8(val) + V(input[i]), done);
      StepShape(done);
      OutputGrows(input[..i], input[i]);
      AdditionFits(val, V(input[i]));
      val := ShiftLeft8(val) + V(input[i]);
      valb := valb + 8;
      var out;
      out, valb := OutputSymbols(val, valb, Step(done));
      encoded := encoded + out;
    }
    assert input[..|input|] == input;
    var rest := OutputRest(val, valb, input);
    encoded := encoded + rest;
    encoded := Padded(input, encoded);
  }

  /** Length 4 * ceil(n / 3); no, two or one '=' as the length leaves remainder 0, 1 or 2, and only
      at the end. */
  lemma {:induction false} EncodeShape(input: seq<Byte>)
    ensures var text := Encode(input);
            var pad := if |input| % 3 == 0 then 0 else 3 - |input| % 3;
            && |text| == 4 * ((|input| + 2) / 3)
            && forall k :: 0 <= k < |text| ==> (text[k] == '=' <==> k >= |text| - pad)
  {
    LayoutShape(input);
    forall s: Symbol ensures Char(Code(s)) == '=' <==> s == Pad {
    }
  }

  lemma PadsBehindGroup(s0: Symbol, s1: Symbol, s2: Symbol, s3: Symbol, tail: seq<Symbol>, pad: nat)
    requires s0 != Pad && s1 != Pad && s2 != Pad && s3 != Pad && pad <= |tail|
    requires forall k :: 0 <= k < |tail| ==> (tail[k] == Pad <==> k >= |tail| - pad)
    ensures var layout := [s0, s1, s2, s3] + tail;
            forall k :: 0 <= k < |layout| ==> (layout[k] == Pad <==> k >= |layout| - pad)
  {
    var layout := [s0, s1, s2, s3] + tail;
    forall k | 0 <= k < |layout| ensures layout[k] == Pad <==> k >= |layout| - pad {
      if k >= 4 {
        assert layout[k] == tail[k - 4];
      }
    }
  }

  lemma {:induction false} LayoutShape(input: seq<Byte>)
    ensures var layout := Layout(input);
            var pad := if |input| % 3 == 0 then 0 else 3 - |input| % 3;
            && |layout| == 4 * ((|input| + 2) / 3) && pad <= |layout|
            && forall k :: 0 <= k < |layout| ==> (layout[k] == Pad <==> k >= |layout| - pad)
  {
    if |input| >= 3 {
      var rest := input[3..];
      var tail := Layout(rest);
      LayoutShape(rest);
      DivMod(|input| + 2, 3, (|rest| + 2) / 3 + 1, (|rest| + 2) % 3);
      DivMod(|input|, 3, |rest| / 3 + 1, |rest| % 3);
      var pad := if |rest| % 3 == 0 then 0 else 3 - |rest| % 3;
      PadsBehindGroup(First(input[0]), Second(input[0], input[1]), Third(input[1], input[2]), Fourth(input[2]),
                      tail, pad);
    }
  }

  /** Everything but the padding. */
  function Unpadded(input: seq<Byte>): string {
    Text(Prefix(input)) + if |input| % 3 == 0 then [] else [Char(Code(Ending(input)[0]))]
  }

  lemma OnlyPaddingIsMissing(input: seq<Byte>)
    ensures var text, rest := Encode(input), |Unpadded(input)|;
            && Unpadded(input) <= text && |text| % 4 == 0 && |text| - rest < 4
            && forall k :: rest <= k < |text| ==> text[k] == '='
  {
    EncodeShape(input);
    PrefixThenEnding(input);
    TextAppend(Prefix(input), Ending(input));
  }

  method Padded(ghost input: seq<Byte>, unpadded: string) returns (encoded: string)
    requires unpadded == Unpadded(input)
    ensures encoded == Encode(input)
  {
    OnlyPaddingIsMissing(input);
    ghost var text := Encode(input);
    encoded := unpadded;
    while |encoded| % 4 != 0
      invariant encoded <= text && |text| - |encoded| < 4
      decreases |text| - |encoded|
    {
      encoded := encoded + ['='];
    }
  }

  // --------------------------------------------------------------------------------------------
  // Decoding
  // --------------------------------------------------------------------------------------------

  /** The inverse of the table; characters outside it count as padding. */
  function CodeOf(c: char): (d: int)
    ensures 0 <= d <= PAD
  {
    if 'A' <= c <= 'Z' then c as int - 'A' as int
    else if 'a' <= c <= 'z' then c as int - 'a' as int + 26
    else if '0' <= c <= '9' then c as int - '0' as int + 52
    else if c == '+' then 62
    else if c == '/' then 63
    else PAD
  }

  function B(x: int): Byte {
    (x % 256) as Byte
  }

  function Quantum(p: int, q: int, r: int, s: int): seq<Byte> {
    if r == PAD then [B(p * 4 + q / 16)]
    else if s == PAD then [B(p * 4 + q / 16), B(q * 16 + r / 4)]
    else [B(p * 4 + q / 16), B(q * 16 + r / 4), B(r * 64 + s)]
  }

  function Decode(text: string): seq<Byte> {
    if |text| < 4 then []
    else
      Quantum(CodeOf(text[0]), CodeOf(text[1]), CodeOf(text[2]), CodeOf(text[3])) + Decode(text[4..])
  }

  lemma CharDecodes(code: int)
    requires 0 <= code <= PAD
    ensures CodeOf(Char(code)) == code
  {
  }

  lemma SlicesToBytes(a: int, b: int, c: int)
    requires 0 <= a < 256 && 0 <= b < 256 && 0 <= c < 256
    ensures (a / 4 * 4 + Slice1(a, b) / 16) % 256 == a
    ensures (Slice1(a, b) * 16 + Slice2(b, c) / 4) % 256 == b
    ensures (Slice2(b, c) * 64 + c % 64) % 256 == c
  {
    DivMod(Slice1(a, b), 16, a % 4, b / 16);
    DivMod(Slice2(b, c), 4, b % 16, c / 64);
    DivMod(Slice1(a, b) * 16 + b % 16, 256, a % 4, b);
    DivMod(Slice2(b, c) * 64 + c % 64, 256, b % 16, c);
  }

  lemma ThreeBytes(p: int, q: int, r: int, s: int, a: Byte, b: Byte, c: Byte)
    requires r != PAD && s != PAD
    requires (p * 4 + q / 16) % 256 == V(a) && (q * 16 + r / 4) % 256 == V(b) && (r * 64 + s) % 256 == V(c)
    ensures Quantum(p, q, r, s) == [a, b, c]
  {
  }

  lemma TwoBytes(p: int, q: int, r: int, a: Byte, b: Byte)
    requires r != PAD
    requires (p * 4 + q / 16) % 256 == V(a) && (q * 16 + r / 4) % 256 == V(b)
    ensures Quantum(p, q, r, PAD) == [a, b]
  {
  }

  lemma ThreeBytesDecode(a: Byte, b: Byte, c: Byte)
    ensures Quantum(Code(First(a)), Code(Second(a, b)), Code(Third(b, c)), Code(Fourth(c))) == [a, b, c]
  {
    SlicesToBytes(V(a), V(b), V(c));
    ThreeBytes(Code(First(a)), Code(Second(a, b)), Code(Third(b, c)), Code(Fourth(c)), a, b, c);
  }

  lemma TwoBytesDecode(a: Byte, b: Byte)
    ensures Quantum(Code(First(a)), Code(Second(a, b)), Code(Third(b, ZERO)), PAD) == [a, b]
  {
    SlicesToBytes(V(a), V(b), 0);
    TwoBytes(Code(First(a)), Code(Second(a, b)), Code(Third(b, ZERO)), a, b);
  }

  lemma OneByteDecodes(a: Byte)
    ensures Quantum(Code(First(a)), Code(Second(a, ZERO)), PAD, PAD) == [a]
  {
    SlicesToBytes(V(a), 0, 0);
  }

  lemma TextDecodes(layout: seq<Symbol>)
    requires |layout| >= 4
    ensures Decode(Text(layout))
         == Quantum(Code(layout[0]), Code(layout[1]), Code(layout[2]), Code(layout[3]))
            + Decode(Text(layout[4..]))
  {
    var text := Text(layout);
    forall i | 0 <= i < 4 ensures CodeOf(text[i]) == Code(layout[i]) {
      CharDecodes(Code(layout[i]));
    }
    assert text[4..] == Text(layout[4..]);
  }

  lemma LayoutDecodes(input: seq<Byte>)
    requires |input| >= 3
    ensures Decode(Text(Layout(input)))
         == [input[0], input[1], input[2]] + Decode(Text(Layout(input[3..])))
  {
    TextDecodes(Layout(input));
    ThreeBytesDecode(input[0], input[1], input[2]);
    assert Layout(input)[4..] == Layout(input[3..]);
  }

  lemma TailDecodes(input: seq<Byte>)
    requires 0 < |input| < 3
    ensures Decode(Text(Layout(input))) == input
  {
    TextDecodes(Layout(input));
    if |input| == 1 {
      OneByteDecodes(input[0]);
    } else {
      TwoBytesDecode(input[0], input[1]);
    }
    assert Layout(input)[4..] == [];
  }

  /** Decoding gives back every byte string. */
  lemma {:induction false} DecodeEncode(input: seq<Byte>)
    ensures Decode(Encode(input)) == input
  {
    if |input| >= 3 {
      LayoutDecodes(input);
      DecodeEncode(input[3..]);
      assert input == [input[0], input[1], input[2]] + input[3..];
    } else if input != [] {
      TailDecodes(input);
    }
  }

  // --------------------------------------------------------------------------------------------
  // Test vectors
  // --------------------------------------------------------------------------------------------

  function Ascii(text: string): seq<Byte>
    requires forall i :: 0 <= i < |text| ==> text[i] < 256 as char
  {
    seq(|text|, i requires 0 <= i < |text| => text[i] as Byte)
  }

  lemma ShortVectors()
    ensures Encode(Ascii("")) == ""
    ensures Encode(Ascii("f")) == "Zg=="
    ensures Encode(Ascii("fo")) == "Zm8="
  {
    assert Layout(Ascii("f")) == [First(102), Second(102, ZERO), Pad, Pad];
    assert Layout(Ascii("fo")) == [First(102), Second(102, 111), Third(111, ZERO), Pad];
  }

  lemma GroupEncodes(a: Byte, b: Byte, c: Byte, rest: seq<Byte>)
    ensures Encode([a, b, c] + rest) == Text([First(a), Second(a, b), Third(b, c), Fourth(c)]) + Encode(rest)
  {
    assert ([a, b, c] + rest)[3..] == rest;
    TextAppend([First(a), Second(a, b), Third(b, c), Fourth(c)], Layout(rest));
  }

  /** Section 10 of RFC 4648. */
  lemma TestVectors()
    ensures Encode(Ascii("f")) == "Zg==" && Encode(Ascii("fo")) == "Zm8="
    ensures Encode(Ascii("foobar")) == "Zm9v" + "YmFy"
  {
    ShortVectors();
    GroupEncodes(98, 97, 114, []);
    GroupEncodes(102, 111, 111, [98, 97, 114]);
    assert [98, 97, 114] + [] == [98, 97, 114];
    assert Ascii("foobar") == [102, 111, 111] + [98, 97, 114];
    assert Text([First(102), Second(102, 111), Third(111, 111), Fourth(111)]) == "Zm9v";
    assert Text([First(98), Second(98, 97), Third(97, 114), Fourth(114)]) == "YmFy";
  }

  /** Table 1 of RFC 4648: the symbol of a 6-bit value. */
  lemma SymbolIsAlphabet(v: int)
    requires 0 <= v < 64
    ensures Char(v)
         == ("ABCDEFGHIJKLMNOPQRSTUVWXYZ" + "abcdefghijklmnopqrstuvwxyz" + "0123456789" + "+/")[v]
  {
  }
}
