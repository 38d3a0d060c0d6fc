/** How inverter.go turns values into register words and back: big-endian two's complement numbers and NUL-padded
    text. The functions say what the words mean; the methods are the loops over 64-bit machine integers. */
module RegisterCodec {
  import opened Basics
  import Utf8

  datatype Kind = Unsigned | Signed | Char

  /** What a decoded register holds, and what a write transform hands to the encoder. */
  datatype Raw = Integer(n: Int64) | Text(bytes: seq<Byte>)

  datatype CodecError = NotText | NotInteger | TooLong | OutOfRange | TooWide | OutsideBuffer

  // ---- Numbers ------------------------------------------------------------------------------------------------

  /** Number of values `length` words can hold. */
  function Span(length: nat): (m: nat)
    ensures m >= 1
    ensures length >= 1 ==> m % 2 == 0 && m >= 0x1_0000
  {
    if length == 0 then 1 else 0x1_0000 * Span(length - 1)
  }

  /** The big-endian value of a run of words. */
  function Magnitude(words: seq<Word>): nat {
    if words == [] then 0
    else Magnitude(words[..|words| - 1]) * 0x1_0000 + words[|words| - 1]
  }

  /** The `length` low words of u, most significant first. */
  function Words(u: nat, length: nat): (words: seq<Word>)
    ensures |words| == length
  {
    if length == 0 then [] else Words(u / 0x1_0000, length - 1) + [u % 0x1_0000]
  }

  /** The integers a register of this kind and width can represent. */
  predicate Representable(n: int, kind: Kind, length: nat)
    requires length >= 1
  {
    match kind
    case Unsigned => 0 <= n < Span(length)
    case Signed => -(Span(length) / 2) <= n < Span(length) / 2
    case Char => false
  }

  lemma {:induction false} MagnitudeBound(words: seq<Word>)
    ensures Magnitude(words) < Span(|words|)
  {
    if words != [] {
      MagnitudeBound(words[..|words| - 1]);
    }
  }

  lemma {:induction false} WordsOfMagnitude(words: seq<Word>)
    ensures Words(Magnitude(words), |words|) == words
  {
    if words != [] {
      WordsOfMagnitude(words[..|words| - 1]);
      var m := Magnitude(words);
      assert m / 0x1_0000 == Magnitude(words[..|words| - 1]);
      assert m % 0x1_0000 == words[|words| - 1];
      assert Words(m, |words|) == words[..|words| - 1] + [words[|words| - 1]];
    }
  }

  lemma {:induction false} MagnitudeOfWords(u: nat, length: nat)
    requires u < Span(length)
    ensures Magnitude(Words(u, length)) == u
  {
    if length > 0 {
      MagnitudeOfWords(u / 0x1_0000, length - 1);
      assert Words(u, length)[..length - 1] == Words(u / 0x1_0000, length - 1);
    }
  }

  /** Words only sees u modulo what the words can hold. */
  lemma {:induction false} WordsModulo(u: nat, v: nat, length: nat, k: nat)
    requires u == v + k * Span(length)
    ensures Words(u, length) == Words(v, length)
  {
    if length > 0 {
      var s := Span(length - 1);
      assert u == v + 0x1_0000 * (k * s);
      WordsModulo(u / 0x1_0000, v / 0x1_0000, length - 1, k);
    }
  }

  lemma {:induction false} SpanValues()
    ensures Span(1) == 0x1_0000 && Span(2) == 0x1_0000_0000 && Span(3) == 0x1_0000_0000_0000
    ensures Span(4) == TWO_64
  {
    assert Span(2) == 0x1_0000 * Span(1);
    assert Span(3) == 0x1_0000 * Span(2);
    assert Span(4) == 0x1_0000 * Span(3);
  }

  /** Which integers encodeRawValue accepts: the representable ones, except that the 64-bit bounds it computes for a
      signed register of more than four words are empty. */
  predicate Fits(n: Int64, kind: Kind, length: nat)
    requires length >= 1
  {
    Representable(n, kind, length) && (kind.Signed? ==> length <= 4)
  }

  function EncodedNumber(n: Int64, kind: Kind, length: nat): Result<seq<Word>, CodecError>
    requires length >= 1
  {
    if Fits(n, kind, length) then Ok(Words(ToUint64(n), length)) else Err(OutOfRange)
  }

  /** The int64 a decoder reports for an unsigned accumulator. */
  function NumberOf(m: nat, kind: Kind, length: nat): (n: Int64)
    requires 1 <= length <= 4 && m < Span(length)
  {
    NarrowSpan(length);
    if kind.Signed? && m >= Span(length) / 2 then m - Span(length) else ToInt64(m)
  }

  function DecodedNumber(words: seq<Word>, kind: Kind): Result<Raw, CodecError>
    requires words != [] && !kind.Char?
  {
    MagnitudeBound(words);
    if |words| > 4 then Err(TooWide) else Ok(Integer(NumberOf(Magnitude(words), kind, |words|)))
  }

  lemma {:induction false} NarrowSpan(length: nat)
    requires 1 <= length <= 4
    ensures Span(length) <= TWO_64
    ensures TWO_64 % Span(length) == 0
  {
    SpanValues();
    if length == 1 {} else if length == 2 {} else if length == 3 {} else {}
  }

  /** Encoding then decoding a number gives it back, at every width the decoder knows. */
  lemma {:induction false} NumberRoundTrip(n: Int64, kind: Kind, length: nat)
    requires 1 <= length <= 4 && Representable(n, kind, length)
    ensures EncodedNumber(n, kind, length).Ok?
    ensures DecodedNumber(EncodedNumber(n, kind, length).value, kind) == Ok(Integer(n))
  {
    var low := if n >= 0 then n else n + Span(length);
    WordsOfNumber(n, kind, length);
    MagnitudeOfWords(low, length);
    NumberOfLow(n, kind, length);
  }

  lemma {:induction false} WordsOfNumber(n: Int64, kind: Kind, length: nat)
    requires 1 <= length <= 4 && Representable(n, kind, length)
    ensures EncodedNumber(n, kind, length) == Ok(Words(if n >= 0 then n else n + Span(length), length))
  {
    if n < 0 {
      SignExtension(n + Span(length), length);
      assert ToUint64(n) == TWO_64 + n;
    }
  }

  lemma {:induction false} NumberOfLow(n: Int64, kind: Kind, length: nat)
    requires 1 <= length <= 4 && Representable(n, kind, length)
    ensures NumberOf(if n >= 0 then n else n + Span(length), kind, length) == n
  {
  }

  /** Decoding then encoding gives the words back, exactly unless they are an unsigned 4-word value with its top bit
      set: the decoder reads that one as a negative int64, which the encoder refuses. */
  lemma {:induction false} WordsRoundTrip(words: seq<Word>, kind: Kind)
    requires 1 <= |words| <= 4 && !kind.Char?
    ensures DecodedNumber(words, kind).Ok? && DecodedNumber(words, kind).value.Integer?
    ensures EncodedNumber(DecodedNumber(words, kind).value.n, kind, |words|) == Ok(words)
       <==> !(kind.Unsigned? && |words| == 4 && words[0] >= 0x8000)
  {
    MagnitudeBound(words);
    WordsOfMagnitude(words);
    if kind.Signed? {
      SignedReencoded(Magnitude(words), |words|);
    } else {
      UnsignedReencoded(Magnitude(words), |words|);
      if |words| == 4 { TopWord(words); }
    }
  }

  /** The value of up to four words, most significant first. */
  ghost function BigEndian(words: seq<Word>): nat
    requires 1 <= |words| <= 4
  {
    match |words|
    case 1 => words[0]
    case 2 => words[0] as int * 0x1_0000 + words[1]
    case 3 => words[0] as int * 0x1_0000_0000 + words[1] as int * 0x1_0000 + words[2]
    case _ =>
      words[0] as int * 0x1_0000_0000_0000 + words[1] as int * 0x1_0000_0000 + words[2] as int * 0x1_0000 + words[3]
  }

  /** What words mean, and which numbers are accepted: big-endian, two's complement where the row is signed, and an
      unsigned value of 2^63 or more reads as a negative int64. Wider words are an error to decode. */
  lemma {:induction false} NumbersAreBigEndian(words: seq<Word>, kind: Kind, n: Int64)
    requires words != [] && !kind.Char?
    ensures DecodedNumber(words, kind).Ok? <==> |words| <= 4
    ensures |words| <= 4 ==>
              var m := BigEndian(words);
              var top := if |words| == 1 then 0x1_0000 else if |words| == 2 then 0x1_0000_0000
                         else if |words| == 3 then 0x1_0000_0000_0000 else 0x1_0000_0000_0000_0000;
              && DecodedNumber(words, kind).value
                 == Integer(if (kind.Signed? && words[0] >= 0x8000) || m >= TWO_63 then m - top else m)
              && (EncodedNumber(n, kind, |words|).Ok?
                  <==> if kind.Signed? then -top <= 2 * n < top else 0 <= n < top)
  {
    if |words| <= 4 {
      SpanValues();
      MagnitudeIsBigEndian(words);
    }
  }

  lemma {:induction false} MagnitudeIsBigEndian(words: seq<Word>)
    requires 1 <= |words| <= 4
    ensures Magnitude(words) == BigEndian(words)
  {
    if |words| > 1 {
      MagnitudeIsBigEndian(words[..|words| - 1]);
    } else {
      assert words[..0] == [];
    }
  }

  lemma {:induction false} SignedReencoded(m: nat, length: nat)
    requires 1 <= length <= 4 && m < Span(length)
    ensures EncodedNumber(NumberOf(m, Signed, length), Signed, length) == Ok(Words(m, length))
  {
    NarrowSpan(length);
    if m >= Span(length) / 2 {
      SignExtension(m, length);
      assert ToUint64(m - Span(length)) == TWO_64 + m - Span(length);
    }
  }

  lemma {:induction false} UnsignedReencoded(m: nat, length: nat)
    requires 1 <= length <= 4 && m < Span(length)
    ensures EncodedNumber(NumberOf(m, Unsigned, length), Unsigned, length) == Ok(Words(m, length))
       <==> !(length == 4 && m >= TWO_63)
  {
    SpanValues();
    if length < 4 {
      assert Span(length) <= Span(3);
    }
  }

  /** A negative number keeps the words of its narrow form when widened to 64 bits. */
  lemma {:induction false} SignExtension(m: nat, length: nat)
    requires 1 <= length <= 4 && m < Span(length)
    ensures 0 <= TWO_64 + m - Span(length)
    ensures Words(TWO_64 + m - Span(length), length) == Words(m, length)
  {
    NarrowSpan(length);
    var k := TWO_64 / Span(length) - 1;
    assert TWO_64 == (k + 1) * Span(length);
    WordsModulo(TWO_64 + m - Span(length), m, length, k);
  }

  /** The top bit of a 4-word value is the top bit of its first word. */
  lemma {:induction false} TopWord(words: seq<Word>)
    requires |words| == 4
    ensures Magnitude(words) >= TWO_63 <==> words[0] >= 0x8000
  {
    assert words[..3][..2] == words[..2] && words[..2][..1] == words[..1] && words[..1][..0] == [];
    assert Magnitude(words[..1]) == words[0];
    assert Magnitude(words[..2]) == words[0] as int * 0x1_0000 + words[1];
    assert Magnitude(words[..3]) == Magnitude(words[..2]) * 0x1_0000 + words[2];
  }

  // ---- 64-bit machine arithmetic ----------------------------------------------------------------------------

  function Pow2(k: nat): (p: nat)
    ensures p >= 1
  {
    if k == 0 then 1 else 2 * Pow2(k - 1)
  }

  /** Go's x << k on a uint64: bits shifted past the top are lost, so k >= 64 gives 0. */
  function ShiftLeft(x: Uint64, k: nat): Uint64 {
    (x * Pow2(k)) % TWO_64
  }

  /** Go's x << k on an int64. */
  function ShiftLeftSigned(x: Int64, k: nat): Int64 {
    ToInt64(ShiftLeft(ToUint64(x), k))
  }

  lemma {:induction false} Pow2OfWords(length: nat)
    ensures Pow2(16 * length) == Span(length)
  {
    if length > 0 {
      Pow2OfWords(length - 1);
      Pow2Sixteen(16 * (length - 1));
    }
  }

  lemma {:induction false} Pow2Sixteen(k: nat)
    ensures Pow2(k + 16) == 0x1_0000 * Pow2(k)
  {
    Pow2Four(k);
    Pow2Four(k + 4);
    Pow2Four(k + 8);
    Pow2Four(k + 12);
  }

  lemma {:induction false} Pow2Four(k: nat)
    ensures Pow2(k + 4) == 16 * Pow2(k)
  {
    assert Pow2(k + 2) == 4 * Pow2(k);
  }

  lemma {:induction false} Pow2Half(length: nat)
    requires length >= 1
    ensures Pow2(16 * length - 1) == Span(length) / 2
  {
    Pow2OfWords(length);
    assert Pow2(16 * length) == 2 * Pow2(16 * length - 1);
  }

  /** A power of two of 64 or more is a multiple of 2^64. */
  lemma {:induction false} WideShiftIsZero(x: Uint64, k: nat)
    requires k >= 64
    ensures ShiftLeft(x, k) == 0
  {
    MultipleOfTwo64(k);
    var q := Pow2(k) / TWO_64;
    assert x * Pow2(k) == (x * q) * TWO_64;
    assert ((x * q) * TWO_64) % TWO_64 == 0;
  }

  lemma {:induction false} MultipleOfTwo64(k: nat)
    requires k >= 64
    ensures Pow2(k) % TWO_64 == 0
  {
    if k == 64 {
      Pow2OfWords(4);
      SpanValues();
    } else {
      MultipleOfTwo64(k - 1);
    }
  }

  /** The lower bound encodeRawValue computes with 64-bit shifts, for a signed register of `length` words. */
  lemma {:induction false} SignedMinimum(length: nat)
    requires length >= 1
    ensures ShiftLeftSigned(-1, 16 * length - 1) == if length <= 4 then -(Span(length) / 2) else 0
  {
    if length > 4 {
      WideShiftIsZero(TWO_64 - 1, 16 * length - 1);
    } else {
      NarrowShift(length);
      NarrowSpan(length);
    }
  }

  /** The power of two its upper bound starts from. */
  lemma {:induction false} SignedPower(length: nat)
    requires length >= 1
    ensures length <= 4 ==> Span(length) / 2 < TWO_64
    ensures ShiftLeftSigned(1, 16 * length - 1) == if length <= 4 then ToInt64(Span(length) / 2) else 0
  {
    if length > 4 {
      WideShiftIsZero(1, 16 * length - 1);
    } else {
      NarrowSpan(length);
      NarrowShift(length);
    }
  }

  /** The upper bound it computes. */
  lemma {:induction false} SignedMaximum(length: nat)
    requires length >= 1
    ensures WrapInt64(ShiftLeftSigned(1, 16 * length - 1) - 1) == if length <= 4 then Span(length) / 2 - 1 else -1
  {
    SignedPower(length);
    if length <= 4 {
      NarrowSpan(length);
      MaximumWraps(Span(length) / 2);
    } else {
      RemainderIs(-1, -1, TWO_64 - 1);
    }
  }

  lemma {:induction false} MaximumWraps(h: int)
    requires 1 <= h <= TWO_63
    ensures WrapInt64(ToInt64(h) - 1) == h - 1
  {
    if h == TWO_63 {
      assert ToInt64(h) == -TWO_63;
    }
    if h < TWO_63 {
      RemainderIs(h - 1, 0, h - 1);
    } else {
      RemainderIs(ToInt64(h) - 1, -1, TWO_63 - 1);
    }
  }

  lemma {:induction false} NarrowShift(length: nat)
    requires 1 <= length <= 4
    ensures ShiftLeft(1, 16 * length - 1) == Span(length) / 2
    ensures ShiftLeft(TWO_64 - 1, 16 * length - 1) == TWO_64 - Span(length) / 2
    ensures ShiftLeft(1, 16 * length) == Span(length) % TWO_64
  {
    Pow2Half(length);
    Pow2OfWords(length);
    NarrowSpan(length);
    var h := Span(length) / 2;
    assert (TWO_64 - 1) * h == (h - 1) * TWO_64 + (TWO_64 - h);
    RemainderIs((TWO_64 - 1) * h, h - 1, TWO_64 - h);
    RemainderIs(h, 0, h);
  }

  lemma {:induction false} RemainderIs(x: int, q: int, r: int)
    requires x == q * TWO_64 + r && 0 <= r < TWO_64
    ensures x % TWO_64 == r
  {
  }

  /** The range check of encodeRawValue, in 64-bit arithmetic. */
  method FitsRegister(n: Int64, kind: Kind, length: nat) returns (ok: bool)
    requires length >= 1 && !kind.Char?
    ensures ok <==> Fits(n, kind, length)
  {
    var bits := 16 * length;
    if kind.Unsigned? {
      UnsignedBound(length);
      ok := !(n < 0 || (bits < 64 && ToUint64(n) >= ShiftLeft(1, bits)));
    } else {
      SignedMinimum(length);
      SignedMaximum(length);
      var minimum := ShiftLeftSigned(-1, bits - 1);
      var maximum := WrapInt64(ShiftLeftSigned(1, bits - 1) - 1);
      ok := !(n < minimum || n > maximum);
    }
  }

  lemma {:induction false} UnsignedBound(length: nat)
    requires length >= 1
    ensures length < 4 ==> ShiftLeft(1, 16 * length) == Span(length) < TWO_63
    ensures length >= 4 ==> Span(length) > TWO_63
  {
    SpanValues();
    if length < 4 {
      NarrowShift(length);
      assert Span(length) <= Span(3);
      RemainderIs(Span(length), 0, Span(length));
    } else if length > 4 {
      WideSpan(length);
    }
  }

  /** The words of a uint64, peeled off from the low end. */
  method PeelWords(u: Uint64, length: nat) returns (words: seq<Word>)
    ensures words == Words(u, length)
  {
    var values := new Word[length];
    var unsigned: Uint64 := u;
    var index := length;
    while index > 0
      invariant 0 <= index <= length
      invariant Words(u, length) == Words(unsigned, index) + values[index..]
    {
      index := index - 1;
      ghost var done := values[index + 1..];
      values[index] := unsigned % 0x1_0000;
      assert values[index..] == [unsigned % 0x1_0000] + done;
      unsigned := unsigned / 0x1_0000;
    }
    assert values[..] == [] + values[0..];
    words := values[..];
  }

  /** encodeRawValue for a number. */
  method EncodeNumber(n: Int64, kind: Kind, length: nat) returns (r: Result<seq<Word>, CodecError>)
    requires length >= 1 && !kind.Char?
    ensures r == EncodedNumber(n, kind, length)
  {
    var ok := FitsRegister(n, kind, length);
    if !ok {
      return Err(OutOfRange);
    }
    var values := PeelWords(ToUint64(n), length);
    r := Ok(values);
  }

  /** Every non-negative int64 fits five words. */
  lemma {:induction false} WideSpan(length: nat)
    requires length > 4
    ensures Span(length) >= TWO_64
  {
    SpanValues();
    if length > 5 { WideSpan(length - 1); }
  }

  /** The accumulating shift of decodeRegisterValue. */
  method Accumulate(words: seq<Word>) returns (unsigned: Uint64)
    requires |words| <= 4
    ensures unsigned == Magnitude(words)
  {
    unsigned := 0;
    for index := 0 to |words|
      invariant unsigned == Magnitude(words[..index])
    {
      assert words[..index + 1][..index] == words[..index];
      ShiftInWord(words[..index]);
      unsigned := ShiftLeft(unsigned, 16) + words[index];
    }
    assert words[..|words|] == words;
  }

  /** The sign test of decodeRegisterValue, at the register's own width. */
  method ToNumber(unsigned: Uint64, kind: Kind, length: nat) returns (n: Int64)
    requires 1 <= length <= 4 && unsigned < Span(length)
    ensures n == NumberOf(unsigned, kind, length)
  {
    var bits := length * 16;
    SignBit(unsigned, length);
    if kind.Signed? && (unsigned / ShiftLeft(1, bits - 1)) % 2 != 0 {
      SignExtended(unsigned, length);
      n := ToInt64((unsigned - ShiftLeft(1, bits)) % TWO_64);
    } else {
      n := ToInt64(unsigned);
    }
  }

  /** decodeRegisterValue for a number. */
  method DecodeNumber(words: seq<Word>, kind: Kind) returns (r: Result<Raw, CodecError>)
    requires words != [] && !kind.Char?
    ensures r == DecodedNumber(words, kind)
  {
    if |words| > 4 {
      return Err(TooWide);
    }
    MagnitudeBound(words);
    var unsigned := Accumulate(words);
    var n := ToNumber(unsigned, kind, |words|);
    r := Ok(Integer(n));
  }

  /** Subtracting 2^bits in uint64 arithmetic, then converting, is plain subtraction; at 64 bits, where 1 << 64 is 0,
      the conversion alone does it. */
  lemma {:induction false} SignExtended(m: nat, length: nat)
    requires 1 <= length <= 4 && Span(length) / 2 <= m < Span(length)
    ensures m < TWO_64
    ensures ToInt64((m - ShiftLeft(1, 16 * length)) % TWO_64) == m - Span(length)
  {
    var span := Span(length);
    UnsignedBound(length);
    if length == 4 {
      SpanValues();
      assert ShiftLeft(1, 64) == 0 by { NarrowShift(4); }
      RemainderIs(m, 0, m);
    } else {
      RemainderIs(m - span, -1, m - span + TWO_64);
    }
  }

  /** Up to four words, the accumulating shift loses nothing. */
  lemma {:induction false} ShiftInWord(words: seq<Word>)
    requires |words| < 4
    ensures Magnitude(words) < TWO_64
    ensures ShiftLeft(Magnitude(words), 16) == Magnitude(words) * 0x1_0000 <= TWO_64 - 0x1_0000
  {
    MagnitudeBound(words);
    SpanValues();
    Pow2OfWords(1);
    var length := |words|;
    if length == 0 {} else if length == 1 {} else if length == 2 {} else {}
  }

  lemma {:induction false} SignBit(m: nat, length: nat)
    requires 1 <= length <= 4 && m < Span(length)
    ensures ShiftLeft(1, 16 * length - 1) > 0
    ensures (m / ShiftLeft(1, 16 * length - 1)) % 2 != 0 <==> m >= Span(length) / 2
  {
    NarrowShift(length);
    var h := Span(length) / 2;
    if m >= h {
      QuotientIs(m, h, 1);
    } else {
      QuotientIs(m, h, 0);
    }
  }

  lemma {:induction false} QuotientIs(m: nat, h: nat, q: nat)
    requires h > 0 && q * h <= m < (q + 1) * h
    ensures m / h == q
  {
    var d := m / h;
    assert m == d * h + m % h;
    if d > q {
      MultiplyMonotone(q + 1, d, h);
    } else if d < q {
      MultiplyMonotone(d + 1, q, h);
    }
  }

  lemma {:induction false} MultiplyMonotone(a: nat, b: nat, h: nat)
    requires a <= b
    ensures a * h <= b * h
  {
  }

  // ---- Text ---------------------------------------------------------------------------------------------------

  /** The bytes of a run of words, high byte first. */
  function BytesOf(words: seq<Word>): (bytes: seq<Byte>)
    ensures |bytes| == 2 * |words|
  {
    seq(2 * |words|, i requires 0 <= i < 2 * |words| => ByteOfWord(words[i / 2], i % 2 == 0))
  }

  function ByteOfWord(word: Word, high: bool): Byte {
    if high then word / 0x100 else word % 0x100
  }

  function WordOf(high: Byte, low: Byte): (word: Word)
    ensures ByteOfWord(word, true) == high && ByteOfWord(word, false) == low
  {
    high as int * 0x100 + low
  }

  function TrimNul(bytes: seq<Byte>): seq<Byte> {
    if bytes != [] && bytes[|bytes| - 1] == 0 then TrimNul(bytes[..|bytes| - 1]) else bytes
  }

  /** Trimming keeps everything up to the last byte that is not NUL. */
  lemma {:induction false} TrimmedPrefix(bytes: seq<Byte>)
    ensures |TrimNul(bytes)| <= |bytes| && TrimNul(bytes) == bytes[..|TrimNul(bytes)|]
    ensures TrimNul(bytes) != [] ==> TrimNul(bytes)[|TrimNul(bytes)| - 1] != 0
    ensures forall i | |TrimNul(bytes)| <= i < |bytes| :: bytes[i] == 0
  {
    if bytes != [] && bytes[|bytes| - 1] == 0 {
      TrimmedPrefix(bytes[..|bytes| - 1]);
    }
  }

  function ByteAt(bytes: seq<Byte>, i: nat): Byte {
    if i < |bytes| then bytes[i] else 0
  }

  /** `length` words holding the bytes, padded with NUL. */
  function PackedText(bytes: seq<Byte>, length: nat): (words: seq<Word>)
    ensures |words| == length
  {
    seq(length, i requires 0 <= i < length => WordOf(ByteAt(bytes, 2 * i), ByteAt(bytes, 2 * i + 1)))
  }

  function EncodedText(bytes: seq<Byte>, length: nat): Result<seq<Word>, CodecError> {
    if |bytes| > 2 * length then Err(TooLong) else Ok(PackedText(bytes, length))
  }

  function DecodedText(words: seq<Word>): seq<Byte> {
    var text := TrimNul(BytesOf(words));
    if Utf8.Valid(text) then text else Utf8.Sanitize(text, false)
  }

  lemma {:induction false} TrimKeepsValid(bytes: seq<Byte>)
    requires Utf8.Valid(bytes)
    ensures Utf8.Valid(TrimNul(bytes))
  {
    if bytes != [] && bytes[|bytes| - 1] == 0 {
      assert bytes == bytes[..|bytes| - 1] + [0];
      Utf8.DropNulKeepsValid(bytes[..|bytes| - 1]);
      TrimKeepsValid(bytes[..|bytes| - 1]);
    }
  }

  /** Trimming finds the last byte that is not NUL, however much padding follows. */
  lemma {:induction false} TrimIsUnique(bytes: seq<Byte>, t: seq<Byte>)
    requires |t| <= |bytes| && t == bytes[..|t|]
    requires t != [] ==> t[|t| - 1] != 0
    requires forall i | |t| <= i < |bytes| :: bytes[i] == 0
    ensures TrimNul(bytes) == t
  {
    var u := TrimNul(bytes);
    TrimmedPrefix(bytes);
    assert t == [] || bytes[|t| - 1] != 0;
    assert u == [] || bytes[|u| - 1] != 0;
  }

  lemma {:induction false} PackedByte(bytes: seq<Byte>, length: nat, i: nat)
    requires i < 2 * length
    ensures BytesOf(PackedText(bytes, length))[i] == ByteAt(bytes, i)
  {
    var half := i / 2;
    assert i == 2 * half || i == 2 * half + 1;
  }

  lemma {:induction false} PaddedTrim(bytes: seq<Byte>, padded: seq<Byte>)
    requires |bytes| <= |padded|
    requires forall i | 0 <= i < |padded| :: padded[i] == ByteAt(bytes, i)
    ensures TrimNul(padded) == TrimNul(bytes)
  {
    var t := TrimNul(bytes);
    TrimmedPrefix(bytes);
    assert t == padded[..|t|];
    TrimIsUnique(padded, t);
  }

  lemma {:induction false} PackedBytes(bytes: seq<Byte>, length: nat)
    requires |bytes| <= 2 * length
    ensures TrimNul(BytesOf(PackedText(bytes, length))) == TrimNul(bytes)
  {
    var packed := BytesOf(PackedText(bytes, length));
    forall i | 0 <= i < |packed| ensures packed[i] == ByteAt(bytes, i) {
      PackedByte(bytes, length, i);
    }
    PaddedTrim(bytes, packed);
  }

  /** Packing what was trimmed gives the words back. */
  lemma {:induction false} PackedTrim(words: seq<Word>)
    ensures PackedText(TrimNul(BytesOf(words)), |words|) == words
  {
    var bytes := BytesOf(words);
    var t := TrimNul(bytes);
    forall i | 0 <= i < |words| ensures PackedText(t, |words|)[i] == words[i] {
      TrimmedByte(bytes, 2 * i);
      TrimmedByte(bytes, 2 * i + 1);
      BytesOfWordAt(words, i);
    }
  }

  lemma {:induction false} BytesOfWordAt(words: seq<Word>, i: nat)
    requires i < |words|
    ensures WordOf(BytesOf(words)[2 * i], BytesOf(words)[2 * i + 1]) == words[i]
  {
    WordOfItsBytes(words[i]);
    assert (2 * i) / 2 == i && (2 * i + 1) / 2 == i;
  }

  lemma {:induction false} TrimmedByte(bytes: seq<Byte>, i: nat)
    ensures ByteAt(TrimNul(bytes), i) == ByteAt(bytes, i)
  {
    TrimmedPrefix(bytes);
  }

  lemma {:induction false} WordOfItsBytes(word: Word)
    ensures WordOf(ByteOfWord(word, true), ByteOfWord(word, false)) == word
  {
  }

  /** Encoding then decoding well-formed text gives it back without its trailing NULs, for every register length. */
  lemma {:induction false} TextRoundTrip(text: seq<Byte>, length: nat)
    requires Utf8.Valid(text) && |text| <= 2 * length
    ensures EncodedText(text, length).Ok?
    ensures DecodedText(EncodedText(text, length).value) == TrimNul(text)
  {
    PackedBytes(text, length);
    TrimKeepsValid(text);
  }

  /** A text is accepted exactly when it is no longer than the row; word k then holds bytes 2k and 2k + 1, the first
      of them above the second, and NUL where the text has ended. */
  lemma {:induction false} TextInWords(text: seq<Byte>, length: nat, k: nat)
    ensures EncodedText(text, length).Ok? <==> |text| <= 2 * length
    ensures |text| <= 2 * length && k < length ==>
              |EncodedText(text, length).value| == length &&
              EncodedText(text, length).value[k]
              == (if 2 * k < |text| then text[2 * k] as int else 0) * 0x100
                 + if 2 * k + 1 < |text| then text[2 * k + 1] as int else 0
  {
  }

  /** Decoding then encoding text gives the words back exactly when their trimmed bytes are well-formed UTF-8,
      interior NULs included. */
  lemma {:induction false} TextWordsRoundTrip(words: seq<Word>)
    ensures EncodedText(DecodedText(words), |words|) == Ok(words) <==> Utf8.Valid(TrimNul(BytesOf(words)))
  {
    if Utf8.Valid(TrimNul(BytesOf(words))) {
      TrimmedPrefix(BytesOf(words));
      PackedTrim(words);
    } else {
      CleanedWordsDiffer(words);
    }
  }

  lemma {:induction false} CleanedWordsDiffer(words: seq<Word>)
    requires !Utf8.Valid(TrimNul(BytesOf(words)))
    ensures EncodedText(DecodedText(words), |words|) != Ok(words)
  {
    var text := TrimNul(BytesOf(words));
    TrimmedPrefix(BytesOf(words));
    TrimIsUnique(text, text);
    CleaningShows(text);
    DifferentTrim(Utf8.Sanitize(text, false), words);
  }

  /** Words only encode texts that trim to the same bytes. */
  lemma {:induction false} DifferentTrim(text: seq<Byte>, words: seq<Word>)
    requires TrimNul(text) != TrimNul(BytesOf(words))
    ensures EncodedText(text, |words|) != Ok(words)
  {
    if |text| <= 2 * |words| {
      PackedBytes(text, |words|);
    }
  }

  /** Ill-formed text without trailing NULs differs from its cleaned form, trimmed or not. */
  lemma {:induction false} CleaningShows(text: seq<Byte>)
    requires !Utf8.Valid(text) && TrimNul(text) == text
    ensures TrimNul(Utf8.Sanitize(text, false)) != text
  {
    Utf8.SanitizeIsValid(text, false);
    TrimmedPrefix(text);
    Utf8.SanitizeKeepsLast(text, false);
  }

  /** Whatever the device holds, a decoded text register is well-formed UTF-8. */
  lemma {:induction false} DecodedTextIsValid(words: seq<Word>)
    ensures Utf8.Valid(DecodedText(words))
  {
    Utf8.SanitizeIsValid(TrimNul(BytesOf(words)), false);
  }

  /** The byte loop of encodeRawValue. */
  method EncodeText(text: seq<Byte>, length: nat) returns (r: Result<seq<Word>, CodecError>)
    ensures r == EncodedText(text, length)
  {
    if |text| > length * 2 {
      return Err(TooLong);
    }
    var values := new Word[length](_ => 0);
    for index := 0 to |text|
      invariant forall i | 0 <= i < length :: values[i] == PackedText(text[..index], length)[i]
    {
      forall i | 0 <= i < length ensures PackedNext(text, index, length, i) {
        PackNext(text, index, length, i);
      }
      if index % 2 == 0 {
        values[index / 2] := text[index] as int * 0x100;
      } else {
        values[index / 2] := values[index / 2] + text[index];
      }
    }
    assert text[..|text|] == text;
    assert values[..] == PackedText(text, length);
    r := Ok(values[..]);
  }

  /** What one more byte changes in the packed words. */
  ghost predicate PackedNext(text: seq<Byte>, index: nat, length: nat, i: nat)
    requires index < |text| && i < length
  {
    PackedText(text[..index + 1], length)[i] ==
      if i != index / 2 then PackedText(text[..index], length)[i]
      else if index % 2 == 0 then text[index] as int * 0x100
      else PackedText(text[..index], length)[i] + text[index]
  }

  lemma {:induction false} PackNext(text: seq<Byte>, index: nat, length: nat, i: nat)
    requires index < |text| && i < length
    ensures PackedNext(text, index, length, i)
  {
    assert index == 2 * (index / 2) || index == 2 * (index / 2) + 1;
    assert forall k: nat | k != index :: ByteAt(text[..index + 1], k) == ByteAt(text[..index], k);
  }

  /** decodeRegisterString: skip trailing NUL bytes, then copy the rest out of the words. */
  method DecodeRegisterString(words: seq<Word>) returns (text: seq<Byte>)
    ensures text == TrimNul(BytesOf(words))
  {
    ghost var bytes := BytesOf(words);
    var length := 2 * |words|;
    while length > 0
      invariant 0 <= length <= 2 * |words|
      invariant forall i | length <= i < |bytes| :: bytes[i] == 0
    {
      var word := words[(length - 1) / 2];
      var character := if length % 2 == 0 then word % 0x100 else word / 0x100;
      assert character == bytes[length - 1];
      if character != 0 {
        break;
      }
      length := length - 1;
    }
    assert length > 0 ==> bytes[length - 1] != 0;
    text := [];
    for index := 0 to length
      invariant text == bytes[..index]
    {
      var word := words[index / 2];
      text := text + [if index % 2 == 0 then word / 0x100 else word % 0x100];
    }
    TrimIsUnique(bytes, text);
  }

  // ---- Either kind of register -------------------------------------------------------------------------------

  function Encoded(value: Raw, kind: Kind, length: nat): Result<seq<Word>, CodecError>
    requires length >= 1
  {
    match value
    case Text(bytes) => if kind.Char? then EncodedText(bytes, length) else Err(NotInteger)
    case Integer(n) => if kind.Char? then Err(NotText) else EncodedNumber(n, kind, length)
  }

  function Decoded(words: seq<Word>, kind: Kind): Result<Raw, CodecError>
    requires words != []
  {
    if kind.Char? then Ok(Text(DecodedText(words))) else DecodedNumber(words, kind)
  }

  method EncodeRawValue(value: Raw, kind: Kind, length: nat) returns (r: Result<seq<Word>, CodecError>)
    requires length >= 1
    ensures r == Encoded(value, kind, length)
  {
    match value
    case Text(bytes) =>
      if kind.Char? { r := EncodeText(bytes, length); } else { r := Err(NotInteger); }
    case Integer(n) =>
      if kind.Char? { r := Err(NotText); } else { r := EncodeNumber(n, kind, length); }
  }

  /** decodeRegisterValue on a buffer: out-of-bounds definitions are an error, not a crash. */
  method DecodeRegisterValue(registers: seq<Word>, start: int, length: int, kind: Kind)
    returns (r: Result<Raw, CodecError>)
    ensures r == DecodedAt(registers, start, length, kind)
  {
    if start < 0 || length < 1 || start + length > |registers| {
      return Err(OutsideBuffer);
    }
    var words := registers[start..start + length];
    if kind.Char? {
      var text := DecodeRegisterString(words);
      if !Utf8.Valid(text) {
        text := Utf8.Sanitize(text, false);
      }
      r := Ok(Text(text));
    } else {
      r := DecodeNumber(words, kind);
    }
  }

  function DecodedAt(registers: seq<Word>, start: int, length: int, kind: Kind): Result<Raw, CodecError> {
    if start < 0 || length < 1 || start + length > |registers| then Err(OutsideBuffer)
    else Decoded(registers[start..start + length], kind)
  }

  // ---- Words on the wire -------------------------------------------------------------------------------------

  /** registersToBytes. */
  method RegistersToBytes(registers: seq<Word>) returns (data: seq<Byte>)
    ensures data == BytesOf(registers)
  {
    var buffer := new Byte[2 * |registers|](_ => 0);
    for index := 0 to |registers|
      invariant forall i | 0 <= i < 2 * index :: buffer[i] == BytesOf(registers)[i]
    {
      buffer[2 * index] := registers[index] / 0x100;
      buffer[2 * index + 1] := registers[index] % 0x100;
    }
    data := buffer[..];
  }

  /** bytesToRegisters: a trailing odd byte is dropped. */
  method BytesToRegisters(data: seq<Byte>) returns (registers: seq<Word>)
    ensures registers == PackedText(data, |data| / 2)
  {
    var buffer := new Word[|data| / 2](_ => 0);
    for index := 0 to |data| / 2
      invariant forall i | 0 <= i < index :: buffer[i] == PackedText(data, |data| / 2)[i]
    {
      buffer[index] := data[2 * index] as int * 0x100 + data[2 * index + 1];
    }
    registers := buffer[..];
  }

  /** The wire form of a run of words reads back as those words, and an even run of bytes as those bytes; each word
      travels high byte first. */
  lemma {:induction false} WireRoundTrip(registers: seq<Word>, data: seq<Byte>)
    requires |data| % 2 == 0
    ensures forall i | 0 <= i < |registers| :: HighByteFirst(BytesOf(registers), i, registers[i])
    ensures PackedText(BytesOf(registers), |BytesOf(registers)| / 2) == registers
    ensures BytesOf(PackedText(data, |data| / 2)) == data
  {
    WordsOverTheWire(registers);
    BytesOverTheWire(data);
    BytesInOrder(registers);
  }

  ghost predicate HighByteFirst(data: seq<Byte>, i: nat, word: Word) {
    2 * i + 1 < |data| && word == data[2 * i] as int * 0x100 + data[2 * i + 1] as int
  }

  lemma {:induction false} BytesInOrder(words: seq<Word>)
    ensures forall i | 0 <= i < |words| :: HighByteFirst(BytesOf(words), i, words[i])
  {
    forall i | 0 <= i < |words| ensures HighByteFirst(BytesOf(words), i, words[i]) {
      BytesOfWordAt(words, i);
    }
  }

  lemma {:induction false} WordsOverTheWire(registers: seq<Word>)
    ensures PackedText(BytesOf(registers), |registers|) == registers
  {
    forall i | 0 <= i < |registers| ensures PackedText(BytesOf(registers), |registers|)[i] == registers[i] {
      BytesOfWordAt(registers, i);
    }
  }

  lemma {:induction false} BytesOverTheWire(data: seq<Byte>)
    requires |data| % 2 == 0
    ensures BytesOf(PackedText(data, |data| / 2)) == data
  {
    forall i | 0 <= i < |data| ensures BytesOf(PackedText(data, |data| / 2))[i] == data[i] {
      PackedByte(data, |data| / 2, i);
    }
  }
}
