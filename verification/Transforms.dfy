/** The read and write transforms of registers.go, and what they make of a write that is acknowledged and repeated. */
module Transforms {
  import opened Basics
  import opened RegisterCodec
  import opened Registers
  import Utf8
  import Inverter

  /** What the transforms take from the platform: parsing of numbers and of the words for true and false (surrounding
      space trimmed), and the conversion of a float outside the int64 range, which the language leaves open. */
  datatype Platform = Platform(
    number: seq<Byte> -> Option<real>,
    truth: seq<Byte> -> Option<bool>,
    overflow: real -> Int64)

  /** Half away from zero. */
  function Rounded(x: real): int {
    if x >= 0.0 then (x + 0.5).Floor else -(0.5 - x).Floor
  }

  function Times(x: real, factor: real): real { x * factor }

  function Over(x: real, factor: real): real
    requires factor != 0.0
  {
    x / factor
  }

  function ToInt(p: Platform, x: real): Int64 {
    if -TWO_63 <= Rounded(x) < TWO_63 then Rounded(x) else p.overflow(x)
  }

  function FloatAsInt64(p: Platform, x: real): Option<Int64> {
    var distance := x - Rounded(x) as real;
    if distance >= 0.001 || distance <= -0.001 then None else Some(ToInt(p, x))
  }

  function AsInt64(p: Platform, v: Value): Option<Int64> {
    match v
    case IntV(n) => Some(n)
    case FloatV(x) => FloatAsInt64(p, x)
    case TextV(bytes) => (match p.number(bytes) case None => None case Some(x) => FloatAsInt64(p, x))
    case BoolV(_) => None
  }

  function AsFloat64(p: Platform, v: Value): Option<real> {
    match v
    case IntV(n) => Some(n as real)
    case FloatV(x) => Some(x)
    case TextV(bytes) => p.number(bytes)
    case BoolV(_) => None
  }

  function ParseBool(p: Platform, v: Value): Option<bool> {
    match v
    case BoolV(b) => Some(b)
    case IntV(n) => Some(n != 0)
    case FloatV(x) => Some(x != 0.0)
    case TextV(bytes) => p.truth(bytes)
  }

  /** The scalar a raw value stands for: identity. */
  function ValueOf(raw: Raw): Value {
    match raw
    case Integer(n) => IntV(n)
    case Text(bytes) => TextV(bytes)
  }

  /** The transform pairs of the writable rows of the holding table. */
  datatype Transform =
    | Ints | Strings | Bools | OverTemp | Scaled(factor: real)
    | Enum(values: map<Int64, Value>, reversed: map<seq<Byte>, Int64>)

  const OVER_TEMP_RESTART: map<Int64, Value> := map[0 := BoolV(true), 1 := BoolV(false)]

  function EnumRead(p: Platform, values: map<Int64, Value>, raw: Raw): Option<Value> {
    match AsInt64(p, ValueOf(raw))
    case None => None
    case Some(n) => if n in values then Some(values[n]) else None
  }

  function Read(p: Platform, t: Transform, raw: Raw): Option<Value> {
    match t
    case Ints => Some(ValueOf(raw))
    case Strings => Some(ValueOf(raw))
    case Bools => (match AsInt64(p, ValueOf(raw)) case None => None case Some(n) => Some(BoolV(n != 0)))
    case OverTemp => EnumRead(p, OVER_TEMP_RESTART, raw)
    case Scaled(factor) =>
      (match AsFloat64(p, ValueOf(raw))
       case None => None
       case Some(x) => if factor == 0.0 then None else Some(FloatV(Over(x, factor))))
    case Enum(values, _) => EnumRead(p, values, raw)
  }

  function Write(p: Platform, t: Transform, v: Value): Option<Raw> {
    match t
    case Ints => (match AsInt64(p, v) case None => None case Some(n) => Some(Integer(n)))
    case Strings => if v.TextV? then Some(Text(v.bytes)) else None
    case Bools => (match ParseBool(p, v) case None => None case Some(b) => Some(Integer(if b then 1 else 0)))
    case OverTemp => (match ParseBool(p, v) case None => None case Some(b) => Some(Integer(if b then 0 else 1)))
    case Scaled(factor) =>
      (match AsFloat64(p, v) case None => None case Some(x) => Some(Integer(ToInt(p, Times(x, factor)))))
    case Enum(_, reversed) =>
      if v.TextV? && v.bytes in reversed then Some(Integer(reversed[v.bytes])) else None
  }

  // ---- Reversing an enumeration -------------------------------------------------------------------------------

  /** Every text of the enumeration is found again at a number that has it. */
  ghost predicate Reverses(values: map<Int64, Value>, reversed: map<seq<Byte>, Int64>) {
    && (forall text | text in reversed :: reversed[text] in values && values[reversed[text]] == TextV(text))
    && (forall n | n in values && values[n].TextV? :: values[n].bytes in reversed)
  }

  /** The map may be walked in any order, so of several numbers with one text any may win. */
  method ReverseEnum(values: map<Int64, Value>) returns (reversed: map<seq<Byte>, Int64>)
    ensures Reverses(values, reversed)
  {
    reversed := map[];
    var keys := values.Keys;
    while keys != {}
      invariant keys <= values.Keys
      invariant forall text | text in reversed :: reversed[text] in values && values[reversed[text]] == TextV(text)
      invariant forall n | n in values && n !in keys && values[n].TextV? :: values[n].bytes in reversed
      decreases |keys|
    {
      var key :| key in keys;
      keys := keys - {key};
      if values[key].TextV? {
        reversed := reversed[values[key].bytes := key];
      }
    }
  }

  /** With distinct texts the reversal is exact: it finds each text at its own number. */
  lemma {:induction false} ReversalIsExact(values: map<Int64, Value>, reversed: map<seq<Byte>, Int64>)
    requires Reverses(values, reversed)
    ensures (forall n | n in values && values[n].TextV? :: reversed[values[n].bytes] == n)
       <==> (forall m, n | m in values && n in values && values[m].TextV? && values[m] == values[n] :: m == n)
  {
    if forall n | n in values && values[n].TextV? :: reversed[values[n].bytes] == n {
      forall m, n | m in values && n in values && values[m].TextV? && values[m] == values[n] ensures m == n {
        assert reversed[values[m].bytes] == m && reversed[values[n].bytes] == n;
      }
    }
  }

  // ---- Write, acknowledge, write again ------------------------------------------------------------------------

  /** The widths and types the holding table combines with a transform. */
  ghost predicate Proper(t: Transform, kind: Kind, length: int) {
    && length >= 1 && (t.Strings? <==> kind.Char?) && (!kind.Char? ==> length <= 4)
    && (t.Scaled? ==> t.factor > 0.0)
    && (t.Enum? ==> Reverses(t.values, t.reversed))
  }

  /** The words a value is written as. */
  function WordsFor(p: Platform, t: Transform, kind: Kind, length: nat, v: Value): Option<seq<Word>>
    requires length >= 1
  {
    match Write(p, t, v)
    case None => None
    case Some(raw) => match Encoded(raw, kind, length) case Err(_) => None case Ok(words) => Some(words)
  }

  /** The value words read as. */
  function ValueFor(p: Platform, t: Transform, kind: Kind, words: seq<Word>): Option<Value>
    requires words != []
  {
    match Decoded(words, kind)
    case Err(_) => None
    case Ok(raw) => Read(p, t, raw)
  }

  lemma {:induction false} RoundedInteger(n: int)
    ensures Rounded(n as real) == n
  {
  }

  lemma {:induction false} OverThenTimes(x: real, factor: real)
    requires factor != 0.0
    ensures Times(Over(x, factor), factor) == x
  {
  }

  lemma {:induction false} ScaledComesBack(p: Platform, factor: real, n: Int64)
    requires factor > 0.0
    ensures Read(p, Scaled(factor), Integer(n)) == Some(FloatV(Over(n as real, factor)))
    ensures Write(p, Scaled(factor), FloatV(Over(n as real, factor))) == Some(Integer(n))
  {
    OverThenTimes(n as real, factor);
    RoundedInteger(n);
  }

  /** On a numeric row, the number an accepted value was written as is read as a value written as the same number. */
  lemma {:induction false} NumberComesBack(p: Platform, t: Transform, kind: Kind, length: nat, v: Value)
    requires Proper(t, kind, length) && !t.Strings? && Write(p, t, v).Some?
    ensures var raw := Write(p, t, v).value;
      raw.Integer? && Read(p, t, raw).Some? && Write(p, t, Read(p, t, raw).value) == Some(raw)
  {
    match t
    case Scaled(factor) => ScaledComesBack(p, factor, Write(p, t, v).value.n);
    case Enum(values, reversed) => assert values[reversed[v.bytes]] == TextV(v.bytes);
    case _ =>
  }

  /** An accepted write is always acknowledged. Writing the acknowledged value again writes the same words, except for
      text whose trimmed bytes are not well-formed UTF-8, and then it never does. */
  lemma {:induction false} AcknowledgedRewrites(p: Platform, t: Transform, kind: Kind, length: nat, v: Value)
    requires Proper(t, kind, length) && WordsFor(p, t, kind, length, v).Some?
    ensures var words := WordsFor(p, t, kind, length, v).value;
      && |words| == length
      && ValueFor(p, t, kind, words).Some?
      && (WordsFor(p, t, kind, length, ValueFor(p, t, kind, words).value) == Some(words)
          <==> (t.Strings? ==> Utf8.Valid(TrimNul(BytesOf(words)))))
  {
    var words := WordsFor(p, t, kind, length, v).value;
    if t.Strings? {
      TextWordsRoundTrip(words);
    } else {
      var n := Write(p, t, v).value.n;
      NumberComesBack(p, t, kind, length, v);
      NumberRoundTrip(n, kind, length);
    }
  }

  // ---- What is acknowledged is what was asked for ---------------------------------------------------------------

  /** The number and the truth a value stands for, if any; a boolean is no number. */
  ghost function NumberIn(p: Platform, v: Value): Option<real> {
    if v.IntV? then Some(v.n as real) else if v.FloatV? then Some(v.x) else if v.TextV? then p.number(v.bytes) else None
  }

  ghost function TruthIn(p: Platform, v: Value): Option<bool> {
    if v.BoolV? then Some(v.b) else if v.IntV? then Some(v.n != 0) else if v.FloatV? then Some(v.x != 0.0)
    else p.truth(v.bytes)
  }

  /** Nearest integer, and of two equally near the one further from zero. */
  ghost predicate Nearest(x: real, n: int) {
    var d := x - n as real;
    -0.5 <= d <= 0.5 && (d == 0.5 ==> x < 0.0) && (d == -0.5 ==> x > 0.0)
  }

  lemma {:induction false} RoundedIsNearest(x: real, n: int)
    ensures Nearest(x, n) <==> n == Rounded(x)
  {
  }

  /** n is a number the value asks a numeric row to hold: itself or an integer less than 1/1000 away, 1 for true and 0
      for false or the other way round, the nearest integer to the scaled value, a number that has the text. */
  ghost predicate Asks(p: Platform, t: Transform, v: Value, n: int) {
    match t
    case Ints => NumberIn(p, v).Some? && -0.001 < NumberIn(p, v).value - n as real < 0.001
    case Bools => TruthIn(p, v) == Some(n != 0) && (n == 0 || n == 1)
    case OverTemp => TruthIn(p, v) == Some(n == 0) && (n == 0 || n == 1)
    case Scaled(factor) => NumberIn(p, v).Some? && Nearest(Times(NumberIn(p, v).value, factor), n)
    case Enum(values, _) => v.TextV? && n in values && values[n] == v
    case Strings => false
  }

  /** A numeric row's transform accepts exactly the values that ask for a number, and if an int64 will do, it writes
      one that was asked for. */
  lemma {:induction false} WritesWhatIsAsked(p: Platform, t: Transform, v: Value)
    requires !t.Strings? && (t.Enum? ==> Reverses(t.values, t.reversed))
    ensures Write(p, t, v).Some? <==> exists n: int :: Asks(p, t, v, n)
    ensures forall n: Int64 | Asks(p, t, v, n) ::
              Write(p, t, v).Some? && Write(p, t, v).value.Integer? && Asks(p, t, v, Write(p, t, v).value.n)
  {
    match t
    case Ints => IntegerIsAsked(p, v);
    case Scaled(factor) => ScaledIsAsked(p, factor, v);
    case Bools =>
      if Write(p, t, v).Some? { assert Asks(p, t, v, Write(p, t, v).value.n); }
    case OverTemp =>
      if Write(p, t, v).Some? { assert Asks(p, t, v, Write(p, t, v).value.n); }
    case Enum(values, reversed) =>
      if Write(p, t, v).Some? { assert Asks(p, t, v, reversed[v.bytes]); }
  }

  lemma {:induction false} IntegerIsAsked(p: Platform, v: Value)
    ensures Write(p, Ints, v).Some? <==> exists n: int :: Asks(p, Ints, v, n)
    ensures forall n: Int64 | Asks(p, Ints, v, n) :: Write(p, Ints, v) == Some(Integer(n))
  {
    if NumberIn(p, v).Some? {
      var x := NumberIn(p, v).value;
      forall n: int | Asks(p, Ints, v, n) ensures n == Rounded(x) {
        RoundedIsNearest(x, n);
      }
      if v.IntV? { RoundedInteger(v.n); }
      if Write(p, Ints, v).Some? { assert Asks(p, Ints, v, Rounded(x)); }
    }
  }

  lemma {:induction false} ScaledIsAsked(p: Platform, factor: real, v: Value)
    ensures Write(p, Scaled(factor), v).Some? <==> exists n: int :: Asks(p, Scaled(factor), v, n)
    ensures forall n: Int64 | Asks(p, Scaled(factor), v, n) :: Write(p, Scaled(factor), v) == Some(Integer(n))
  {
    if NumberIn(p, v).Some? {
      ScaledIsWritten(p, factor, v);
      var x := Times(NumberIn(p, v).value, factor);
      assert Asks(p, Scaled(factor), v, Rounded(x)) by {
        RoundedIsNearest(x, Rounded(x));
      }
      forall n: Int64 | Asks(p, Scaled(factor), v, n) ensures ToInt(p, x) == n {
        RoundedIsNearest(x, n);
      }
    }
  }

  lemma {:induction false} ScaledIsWritten(p: Platform, factor: real, v: Value)
    requires NumberIn(p, v).Some?
    ensures Write(p, Scaled(factor), v) == Some(Integer(ToInt(p, Times(NumberIn(p, v).value, factor))))
  {
  }

  /** The value reported for a number a row holds: the number, whether it is not zero, or zero, the number divided by
      the factor, the text it has. */
  lemma {:induction false} ReadsWhatIsHeld(p: Platform, t: Transform, n: Int64)
    requires t.Scaled? ==> t.factor > 0.0
    ensures var r := Read(p, t, Integer(n));
      match t
      case Ints => r == Some(IntV(n))
      case Bools => r == Some(BoolV(n != 0))
      case OverTemp => r == if n == 0 || n == 1 then Some(BoolV(n == 0)) else None
      case Scaled(factor) => r.Some? && r.value.FloatV? && r.value.x * factor == n as real
      case Enum(values, _) => r == if n in values then Some(values[n]) else None
      case Strings => r == Some(IntV(n))
  {
    if t.Scaled? {
      OverThenTimes(n as real, t.factor);
    }
  }

  /** What the acknowledged value has to do with the one requested. */
  ghost predicate Answers(p: Platform, t: Transform, v: Value, acknowledged: Value) {
    match t
    case Ints => acknowledged.IntV? && Asks(p, Ints, v, acknowledged.n) && (v.IntV? ==> acknowledged == v)
    case Bools => TruthIn(p, v).Some? && acknowledged == BoolV(TruthIn(p, v).value)
    case OverTemp => TruthIn(p, v).Some? && acknowledged == BoolV(TruthIn(p, v).value)
    case Scaled(factor) =>
      && acknowledged.FloatV? && NumberIn(p, v).Some?
      && -0.5 <= (acknowledged.x - NumberIn(p, v).value) * factor <= 0.5
    case Enum(_, _) => v.TextV? && acknowledged == v
    case Strings => v.TextV? && acknowledged == TextV(TrimNul(v.bytes))
  }

  /** The value is text whose trimmed bytes are well formed, or asks for a number that is an int64. */
  ghost predicate Sensible(p: Platform, t: Transform, v: Value) {
    if t.Strings? then v.TextV? && Utf8.Valid(TrimNul(v.bytes)) else exists n: Int64 :: Asks(p, t, v, n)
  }

  /** A sensible value is accepted exactly when its text, or a number it asks for, fits the row; the value then
      acknowledged answers the one requested: the same truth, text or integer, and for a scaled number one that is at
      most half a unit of the register away. */
  lemma {:induction false} AcknowledgesWhatIsAsked(p: Platform, t: Transform, kind: Kind, length: nat, v: Value)
    requires Proper(t, kind, length) && Sensible(p, t, v)
    ensures t.Strings? ==> (WordsFor(p, t, kind, length, v).Some? <==> |v.bytes| <= 2 * length)
    ensures !t.Strings? ==>
              exists n: Int64 :: Asks(p, t, v, n) &&
                (WordsFor(p, t, kind, length, v).Some? <==> Representable(n, kind, length))
    ensures WordsFor(p, t, kind, length, v).Some? ==>
              var acknowledged := ValueFor(p, t, kind, WordsFor(p, t, kind, length, v).value);
              acknowledged.Some? && Answers(p, t, v, acknowledged.value)
  {
    if t.Strings? {
      TextIsAcknowledged(p, kind, length, v);
    } else {
      NumberIsAcknowledged(p, t, kind, length, v);
    }
  }

  lemma {:induction false} NumberIsAcknowledged(p: Platform, t: Transform, kind: Kind, length: nat, v: Value)
    requires Proper(t, kind, length) && Sensible(p, t, v) && !t.Strings?
    ensures exists n: Int64 :: Asks(p, t, v, n) &&
              (WordsFor(p, t, kind, length, v).Some? <==> Representable(n, kind, length))
    ensures WordsFor(p, t, kind, length, v).Some? ==>
              var acknowledged := ValueFor(p, t, kind, WordsFor(p, t, kind, length, v).value);
              acknowledged.Some? && Answers(p, t, v, acknowledged.value)
  {
    WritesWhatIsAsked(p, t, v);
    var n := Write(p, t, v).value.n;
    NumberIsEncoded(p, t, kind, length, v, n);
    if Representable(n, kind, length) {
      NumberAnswers(p, t, v, n);
    }
  }

  /** The words of a number read as the number does. */
  lemma {:induction false} NumberIsEncoded(p: Platform, t: Transform, kind: Kind, length: nat, v: Value, n: Int64)
    requires 1 <= length <= 4 && !kind.Char? && Write(p, t, v) == Some(Integer(n))
    ensures WordsFor(p, t, kind, length, v).Some? <==> Representable(n, kind, length)
    ensures Representable(n, kind, length) ==>
              ValueFor(p, t, kind, WordsFor(p, t, kind, length, v).value) == Read(p, t, Integer(n))
  {
    if Representable(n, kind, length) {
      NumberRoundTrip(n, kind, length);
    }
  }

  lemma {:induction false} NumberAnswers(p: Platform, t: Transform, v: Value, n: Int64)
    requires !t.Strings? && Asks(p, t, v, n) && (t.Scaled? ==> t.factor > 0.0)
    ensures Read(p, t, Integer(n)).Some? && Answers(p, t, v, Read(p, t, Integer(n)).value)
  {
    ReadsWhatIsHeld(p, t, n);
    if t.Scaled? {
      Distributes(Read(p, t, Integer(n)).value.x, NumberIn(p, v).value, t.factor);
    }
  }

  lemma {:induction false} Distributes(x: real, y: real, factor: real)
    ensures (x - y) * factor == x * factor - y * factor
  {
  }

  lemma {:induction false} TextIsAcknowledged(p: Platform, kind: Kind, length: nat, v: Value)
    requires kind.Char? && length >= 1 && v.TextV? && Utf8.Valid(TrimNul(v.bytes))
    ensures WordsFor(p, Strings, kind, length, v).Some? <==> |v.bytes| <= 2 * length
    ensures |v.bytes| <= 2 * length ==>
              ValueFor(p, Strings, kind, WordsFor(p, Strings, kind, length, v).value) == Some(TextV(TrimNul(v.bytes)))
  {
    if |v.bytes| <= 2 * length {
      PackedBytes(v.bytes, length);
    }
  }

  /** A row of a register table that uses a transform pair. */
  ghost predicate HasTransform(d: Definition, p: Platform, t: Transform) {
    && Proper(t, d.kind, d.length) && d.write.Some?
    && (forall raw :: d.read(raw) == Read(p, t, raw)) && (forall v :: d.write.value(v) == Write(p, t, v))
  }

  /** So on a table whose writable rows use these pairs, no write is left without an acknowledgement: the assumption
      the exactness of the read-back makes about the transforms. */
  lemma {:induction false} TransformsSettle(rows: map<string, Definition>, p: Platform, t: Transform, key: string,
                                            value: Value, link: Inverter.Link, size: nat)
    requires key in rows && rows[key].write.Some? ==> HasTransform(rows[key], p, t)
    ensures Inverter.Settles(rows, Inverter.WriteOp(key, value, link), size)
  {
    if Inverter.Accept(rows, key, value).Some? {
      var d := rows[key];
      assert Inverter.Accept(rows, key, value) == WordsFor(p, t, d.kind, d.length, value);
      AcknowledgedRewrites(p, t, d.kind, d.length, value);
    }
  }

  /** Through a configuration write on a link that stores: a sensible value is either rejected, and nothing changes, or
      acknowledged with an answer to it that the words now on the device read as; those words are the ones to verify
      later, and no other register changes. */
  lemma {:induction false} ConfigWriteAnswers(rows: map<string, Definition>, p: Platform, t: Transform, key: string,
                                              v: Value, s: Inverter.InverterState)
    requires Inverter.InImage(rows, |s.image|) && key in rows && HasTransform(rows[key], p, t) && Sensible(p, t, v)
    ensures var (s', r) := Inverter.WriteOutcome(rows, s, key, v, Inverter.Stored);
      var d := rows[key];
      if r.Ok? then
        && Answers(p, t, v, r.value)
        && ValueFor(p, t, d.kind, Inverter.Slice(rows, s'.image, key)) == Some(r.value)
        && s'.pending == s.pending[key := Inverter.Pending(d.start, Inverter.Slice(rows, s'.image, key))]
        && forall a | 0 <= a < |s.image| && !(d.start <= a < d.start + d.length) :: s'.image[a] == s.image[a]
      else r == Err(Inverter.Rejected) && s' == s && WordsFor(p, t, d.kind, d.length, v).None?
  {
    var d := rows[key];
    AcceptsItsWords(rows, p, t, key, v);
    AcknowledgesWhatIsAsked(p, t, d.kind, d.length, v);
    if Inverter.Accept(rows, key, v).Some? {
      Inverter.WriteReplacesRow(rows, s, key, v);
    }
  }

  lemma {:induction false} AcceptsItsWords(rows: map<string, Definition>, p: Platform, t: Transform, key: string,
                                           v: Value)
    requires key in rows && HasTransform(rows[key], p, t)
    ensures Inverter.Accept(rows, key, v) == WordsFor(p, t, rows[key].kind, rows[key].length, v)
    ensures Inverter.Accept(rows, key, v).Some? ==>
              var words := Inverter.Accept(rows, key, v).value;
              words != [] && Inverter.Acknowledge(rows[key], words) == ValueFor(p, t, rows[key].kind, words)
  {
    if Inverter.Accept(rows, key, v).Some? {
      Inverter.AcceptLength(rows, key, v);
    }
  }
}
