/** Register tables, read windows and table decoding: registers.go and the reading half of inverter.go. */
module Registers {
  import opened Basics
  import opened RegisterCodec

  /** A scalar as the rest of the program sees it. */
  datatype Value = IntV(n: Int64) | FloatV(x: real) | BoolV(b: bool) | TextV(bytes: seq<Byte>)

  /** One row of a register table. `read` turns a raw value into a scalar, `write` (absent for read-only rows) a
      scalar into the raw value to encode; None is the transform's error. */
  datatype Definition = Definition(
    key: string,
    start: int,
    length: int,
    kind: Kind,
    read: Raw -> Option<Value>,
    write: Option<Value -> Option<Raw>>)

  datatype Window = Window(start: int, count: int)

  datatype ReadError = LinkError(fatal: bool) | WrongCount | BadRegister(key: string)

  /** What every table of the program satisfies. */
  ghost predicate WellFormed(table: seq<Definition>) {
    forall i | 0 <= i < |table| :: table[i].start >= 0 && table[i].length >= 1
  }

  // ---- Windows ------------------------------------------------------------------------------------------------

  /** The window is the smallest one covering every row: all rows are inside and both ends are reached. */
  ghost predicate Covers(w: Window, table: seq<Definition>) {
    && (forall i | 0 <= i < |table| ::
          w.start <= table[i].start && table[i].start + table[i].length <= w.start + w.count)
    && (table == [] ==> w == Window(0, 0))
    && (table != [] ==>
          && (exists i | 0 <= i < |table| :: table[i].start == w.start)
          && (exists i | 0 <= i < |table| :: table[i].start + table[i].length == w.start + w.count))
  }

  method BuildRegisterWindow(table: seq<Definition>) returns (w: Window)
    ensures Covers(w, table)
  {
    if |table| == 0 {
      return Window(0, 0);
    }
    var start := table[0].start;
    var end := start + table[0].length - 1;
    ghost var first, last := 0, 0;
    for index := 1 to |table|
      invariant 0 <= first < index && table[first].start == start
      invariant 0 <= last < index && table[last].start + table[last].length == end + 1
      invariant forall i | 0 <= i < index :: start <= table[i].start && table[i].start + table[i].length <= end + 1
    {
      var definition := table[index];
      var definitionEnd := definition.start + definition.length - 1;
      if definition.start < start {
        start, first := definition.start, index;
      }
      if definitionEnd > end {
        end, last := definitionEnd, index;
      }
    }
    w := Window(start, end - start + 1);
  }

  /** The windows lie end to end from start to end, without gap, overlap or empty window. */
  ghost predicate Tiles(windows: seq<Window>, start: int, end: int) {
    if windows == [] then start == end
    else
      var last := windows[|windows| - 1];
      last.count >= 1 && last.start + last.count == end && Tiles(windows[..|windows| - 1], start, last.start)
  }

  /** No window exceeds the maximum, and only the last one may be shorter. */
  ghost predicate Chunked(windows: seq<Window>, maximum: int) {
    && (forall i | 0 <= i < |windows| :: windows[i].count <= maximum)
    && (forall i | 0 <= i < |windows| - 1 :: windows[i].count == maximum)
  }

  method BuildRegisterWindows(table: seq<Definition>, maximum: int) returns (windows: seq<Window>, ghost span: Window)
    requires maximum >= 1 && WellFormed(table)
    ensures Covers(span, table) && Tiles(windows, span.start, span.start + span.count)
    ensures Chunked(windows, maximum)
    ensures windows == [] <==> table == []
  {
    var window := BuildRegisterWindow(table);
    span := window;
    windows := [];
    if window.count == 0 {
      return;
    }
    var end := window.start + window.count - 1;
    var current := window.start;
    while current <= end
      invariant current <= end ==> Tiles(windows, window.start, current)
      invariant current <= end ==> forall i | 0 <= i < |windows| :: windows[i].count == maximum
      invariant current > end ==> Tiles(windows, window.start, end + 1) && windows != []
      invariant Chunked(windows, maximum)
      decreases end - current
    {
      var count := maximum;
      if current + count - 1 > end {
        count := end - current + 1;
      }
      ghost var before := windows;
      windows := windows + [Window(current, count)];
      assert windows[..|windows| - 1] == before;
      current := current + maximum;
    }
  }

  // ---- Reading ------------------------------------------------------------------------------------------------

  /** Answers to register reads, by call number and window. Any reader is possible: failing, short, long or lying. */
  type Reader = (nat, Window) -> Result<seq<Word>, ReadError>

  function Overlay(buffer: seq<Word>, start: nat, values: seq<Word>): (result: seq<Word>)
    requires start + |values| <= |buffer|
    ensures |result| == |buffer|
  {
    buffer[..start] + values + buffer[start + |values|..]
  }

  predicate InBuffer(windows: seq<Window>, size: nat) {
    forall i | 0 <= i < |windows| :: 0 <= windows[i].start && 0 <= windows[i].count
                                  && windows[i].start + windows[i].count <= size
  }

  /** The buffer after the remaining windows, or the first error met. */
  function ReadFrom(buffer: seq<Word>, windows: seq<Window>, i: nat, reader: Reader)
    : (r: Result<seq<Word>, ReadError>)
    requires i <= |windows| && InBuffer(windows, |buffer|)
    ensures r.Ok? ==> |r.value| == |buffer|
    decreases |windows| - i
  {
    if i == |windows| then Ok(buffer)
    else match reader(i, windows[i])
      case Err(e) => Err(e)
      case Ok(values) =>
        if |values| != windows[i].count then Err(WrongCount)
        else ReadFrom(Overlay(buffer, windows[i].start, values), windows, i + 1, reader)
  }

  function MaxEnd(windows: seq<Window>): (end: nat)
    ensures forall i | 0 <= i < |windows| :: windows[i].start + windows[i].count <= end
    ensures end == 0 || exists i | 0 <= i < |windows| :: windows[i].start + windows[i].count == end
  {
    if windows == [] then 0
    else
      var last := windows[|windows| - 1];
      Max(MaxEnd(windows[..|windows| - 1]), last.start + last.count)
  }

  function Zeros(size: nat): (buffer: seq<Word>)
    ensures |buffer| == size
  {
    seq(size, _ => 0)
  }

  /** A read succeeds exactly when every window is answered with as many words as it asked for. */
  lemma {:induction false} ReadSucceeds(buffer: seq<Word>, windows: seq<Window>, i: nat, reader: Reader)
    requires i <= |windows| && InBuffer(windows, |buffer|)
    ensures ReadFrom(buffer, windows, i, reader).Ok?
       <==> forall k | i <= k < |windows| ::
              reader(k, windows[k]).Ok? && |reader(k, windows[k]).value| == windows[k].count
    decreases |windows| - i
  {
    if i < |windows| && reader(i, windows[i]).Ok? && |reader(i, windows[i]).value| == windows[i].count {
      ReadSucceeds(Overlay(buffer, windows[i].start, reader(i, windows[i]).value), windows, i + 1, reader);
    }
  }

  /** Otherwise its error is that of the first window that is not. */
  lemma {:induction false} FirstFailureDecides(buffer: seq<Word>, windows: seq<Window>, i: nat, reader: Reader)
    returns (k: nat)
    requires i <= |windows| && InBuffer(windows, |buffer|) && ReadFrom(buffer, windows, i, reader).Err?
    ensures i <= k < |windows|
    ensures forall j | i <= j < k :: reader(j, windows[j]).Ok? && |reader(j, windows[j]).value| == windows[j].count
    ensures ReadFrom(buffer, windows, i, reader)
         == match reader(k, windows[k]) case Err(e) => Err(e) case Ok(_) => Err(WrongCount)
    ensures reader(k, windows[k]).Ok? ==> |reader(k, windows[k]).value| != windows[k].count
    decreases |windows| - i
  {
    k := i;
    if reader(i, windows[i]).Ok? && |reader(i, windows[i]).value| == windows[i].count {
      k := FirstFailureDecides(Overlay(buffer, windows[i].start, reader(i, windows[i]).value), windows, i + 1, reader);
    }
  }

  lemma {:induction false} MaxEndNext(windows: seq<Window>, n: nat)
    requires n < |windows|
    ensures MaxEnd(windows[..n + 1]) == Max(MaxEnd(windows[..n]), windows[n].start + windows[n].count)
  {
    assert windows[..n + 1][..n] == windows[..n];
  }

  method BufferSize(windows: seq<Window>) returns (maxEnd: nat)
    ensures maxEnd == MaxEnd(windows)
  {
    maxEnd := 0;
    for index := 0 to |windows|
      invariant maxEnd == MaxEnd(windows[..index])
    {
      MaxEndNext(windows, index);
      var end := windows[index].start + windows[index].count;
      if end > maxEnd {
        maxEnd := end;
      }
    }
    assert windows[..|windows|] == windows;
  }

  method ReadRegisterWindows(windows: seq<Window>, reader: Reader) returns (r: Result<seq<Word>, ReadError>)
    requires InBuffer(windows, MaxEnd(windows))
    ensures r == ReadFrom(Zeros(MaxEnd(windows)), windows, 0, reader)
  {
    var maxEnd := BufferSize(windows);
    var registers := Zeros(maxEnd);
    for index := 0 to |windows|
      invariant |registers| == maxEnd
      invariant ReadFrom(Zeros(maxEnd), windows, 0, reader) == ReadFrom(registers, windows, index, reader)
    {
      match reader(index, windows[index])
      case Err(e) =>
        return Err(e);
      case Ok(values) =>
        if |values| != windows[index].count {
          return Err(WrongCount);
        }
        registers := Overlay(registers, windows[index].start, values);
    }
    r := Ok(registers);
  }

  /** The single-window read of the status poll answers as the general one would. */
  method ReadRegisterWindow(window: Window, reader: Reader) returns (r: Result<seq<Word>, ReadError>)
    requires window.start >= 0 && window.count >= 0
    ensures r == ReadFrom(Zeros(window.start + window.count), [window], 0, reader)
  {
    match reader(0, window)
    case Err(e) =>
      r := Err(e);
    case Ok(values) =>
      if |values| != window.count {
        return Err(WrongCount);
      }
      var padded := PadFront(window.start, values);
      r := Ok(padded);
  }

  /** The registers below the window read as zero. */
  method PadFront(start: nat, values: seq<Word>) returns (registers: seq<Word>)
    ensures registers == Overlay(Zeros(start + |values|), start, values)
  {
    if start == 0 {
      return values;
    }
    var buffer := new Word[start + |values|](_ => 0);
    for k := 0 to |values|
      invariant forall a | 0 <= a < start + |values| ::
        buffer[a] == if start <= a < start + k then values[a - start] else 0
    {
      buffer[start + k] := values[k];
    }
    registers := buffer[..];
  }

  // ---- Decoding -----------------------------------------------------------------------------------------------

  /** The value of a row, looked up in a buffer. */
  function ValueAt(buffer: seq<Word>, d: Definition): Option<Value> {
    match DecodedAt(buffer, d.start, d.length, d.kind)
    case Err(_) => None
    case Ok(raw) => d.read(raw)
  }

  /** The value of a row, looked up on the device. */
  function DirectValue(device: int -> Word, d: Definition): Option<Value>
    requires d.length >= 1
  {
    match Decoded(Extract(device, d.start, d.length), d.kind)
    case Err(_) => None
    case Ok(raw) => d.read(raw)
  }

  function Extract(device: int -> Word, start: int, length: nat): (words: seq<Word>)
    ensures |words| == length
  {
    seq(length, k => device(start + k))
  }

  /** One value for every key, or the key of the first row that has none. Later rows win over earlier ones. */
  function Collect(table: seq<Definition>, values: seq<Option<Value>>): Result<map<string, Value>, ReadError>
    requires |values| == |table|
  {
    if table == [] then Ok(map[])
    else
      var n := |table| - 1;
      match Collect(table[..n], values[..n])
      case Err(e) => Err(e)
      case Ok(info) =>
        match values[n]
        case None => Err(BadRegister(table[n].key))
        case Some(value) => Ok(info[table[n].key := value])
  }

  function TableValues(buffer: seq<Word>, table: seq<Definition>): (values: seq<Option<Value>>)
    ensures |values| == |table|
  {
    seq(|table|, i requires 0 <= i < |table| => ValueAt(buffer, table[i]))
  }

  ghost function DirectValues(device: int -> Word, table: seq<Definition>): (values: seq<Option<Value>>)
    requires WellFormed(table)
    ensures |values| == |table|
  {
    seq(|table|, i requires 0 <= i < |table| => DirectValue(device, table[i]))
  }

  method DecodeRegisterTable(registers: seq<Word>, table: seq<Definition>)
    returns (r: Result<map<string, Value>, ReadError>)
    ensures r == Collect(table, TableValues(registers, table))
  {
    var info: map<string, Value> := map[];
    ghost var values := TableValues(registers, table);
    for index := 0 to |table|
      invariant Collect(table[..index], values[..index]) == Ok(info)
    {
      var d := table[index];
      CollectNext(table, values, index);
      var raw := DecodeRegisterValue(registers, d.start, d.length, d.kind);
      var value := if raw.Ok? then d.read(raw.value) else None;
      if value.None? {
        CollectStops(table, values, index + 1);
        return Err(BadRegister(d.key));
      }
      info := info[d.key := value.value];
    }
    assert table[..|table|] == table && values[..|table|] == values;
    r := Ok(info);
  }

  lemma {:induction false} CollectNext(table: seq<Definition>, values: seq<Option<Value>>, n: nat)
    requires |values| == |table| && n < |table| && Collect(table[..n], values[..n]).Ok?
    ensures Collect(table[..n + 1], values[..n + 1])
         == if values[n].None? then Err(BadRegister(table[n].key))
            else Ok(Collect(table[..n], values[..n]).value[table[n].key := values[n].value])
  {
    assert table[..n + 1][..n] == table[..n] && values[..n + 1][..n] == values[..n];
  }

  /** The first row without a value decides the error. */
  lemma {:induction false} CollectStops(table: seq<Definition>, values: seq<Option<Value>>, n: nat)
    requires |values| == |table| && n <= |table| && Collect(table[..n], values[..n]).Err?
    ensures Collect(table, values) == Collect(table[..n], values[..n])
    decreases |table|
  {
    if n < |table| {
      var m := |table| - 1;
      assert table[..m][..n] == table[..n] && values[..m][..n] == values[..n];
      CollectStops(table[..m], values[..m], n);
    } else {
      assert table[..n] == table && values[..n] == values;
    }
  }

  ghost predicate IsLastRow(table: seq<Definition>, i: nat) {
    i < |table| && forall j | i < j < |table| :: table[j].key != table[i].key
  }

  ghost predicate HasRow(table: seq<Definition>, key: string) {
    exists i | 0 <= i < |table| :: table[i].key == key
  }

  /** Decoding succeeds exactly when every row has a value; otherwise it names the first row without one. */
  lemma {:induction false} CollectSucceeds(table: seq<Definition>, values: seq<Option<Value>>) returns (first: nat)
    requires |values| == |table|
    ensures first <= |table| && forall j | 0 <= j < first :: values[j].Some?
    ensures Collect(table, values).Ok? <==> first == |table|
    ensures first < |table| ==> values[first].None? && Collect(table, values) == Err(BadRegister(table[first].key))
  {
    first := 0;
    if table != [] {
      var n := |table| - 1;
      first := CollectSucceeds(table[..n], values[..n]);
      assert forall j | 0 <= j < n :: values[j] == values[..n][j];
      if first == n && values[n].Some? {
        first := |table|;
      }
    }
  }

  /** What it then reports is, for every key of the table and no other, the value of the last row with that key. */
  lemma {:induction false} CollectReports(table: seq<Definition>, values: seq<Option<Value>>)
    requires |values| == |table| && Collect(table, values).Ok?
    ensures forall k :: k in Collect(table, values).value <==> HasRow(table, k)
    ensures forall i: nat | IsLastRow(table, i) ::
              var info := Collect(table, values).value;
              table[i].key in info && Some(info[table[i].key]) == values[i]
  {
    if table != [] {
      var n := |table| - 1;
      CollectReports(table[..n], values[..n]);
      RowsOfPrefix(table);
    }
  }

  lemma {:induction false} RowsOfPrefix(table: seq<Definition>)
    requires table != []
    ensures var n := |table| - 1;
      && (forall k :: HasRow(table, k) <==> k == table[n].key || HasRow(table[..n], k))
      && forall i: nat | i < n && IsLastRow(table, i) :: IsLastRow(table[..n], i) && table[i].key != table[n].key
  {
    var n := |table| - 1;
    forall k | HasRow(table, k) ensures k == table[n].key || HasRow(table[..n], k) {
      var i :| 0 <= i < |table| && table[i].key == k;
      assert i < n ==> table[..n][i].key == k;
    }
    forall k | HasRow(table[..n], k) ensures HasRow(table, k) {
      var i :| 0 <= i < n && table[..n][i].key == k;
      assert table[i].key == k;
    }
  }

  // ---- A chunked read is a direct read ------------------------------------------------------------------------

  /** A reader that answers every window with what the device holds. */
  ghost predicate Honest(reader: Reader, device: int -> Word) {
    forall i: nat, w: Window | w.count >= 0 :: reader(i, w) == Ok(Extract(device, w.start, w.count))
  }

  lemma {:induction false} TilesInBuffer(windows: seq<Window>, start: int, end: int)
    requires Tiles(windows, start, end) && start >= 0
    ensures start <= end && InBuffer(windows, end)
    ensures forall i | 0 <= i < |windows| :: windows[i].count >= 1
    ensures windows != [] ==> MaxEnd(windows) == end
  {
    if windows != [] {
      var n := |windows| - 1;
      TilesInBuffer(windows[..n], start, windows[n].start);
      assert forall i | 0 <= i < n :: windows[i] == windows[..n][i];
    }
  }

  /** Reading the windows up to number n fills the buffer up to where window n starts. */
  lemma {:induction false} HonestRead(buffer: seq<Word>, windows: seq<Window>, start: int, end: int, n: nat,
                                      reader: Reader, device: int -> Word)
    requires 0 <= start && Tiles(windows, start, end) && |buffer| == end && n <= |windows|
    requires InBuffer(windows, end) && Honest(reader, device)
    requires Tiles(windows[..n], start, if n < |windows| then windows[n].start else end)
    requires forall a | start <= a < (if n < |windows| then windows[n].start else end) ::
               0 <= a < end && buffer[a] == device(a)
    ensures ReadFrom(buffer, windows, n, reader).Ok?
    ensures forall a | start <= a < end :: ReadFrom(buffer, windows, n, reader).value[a] == device(a)
    decreases |windows| - n
  {
    if n < |windows| {
      var w := windows[n];
      var next := Overlay(buffer, w.start, Extract(device, w.start, w.count));
      TileStep(windows, start, end, n);
      forall a | start <= a < w.start + w.count ensures next[a] == device(a) {
        if a >= w.start {
          assert next[a] == Extract(device, w.start, w.count)[a - w.start];
        }
      }
      HonestRead(next, windows, start, end, n + 1, reader, device);
    }
  }

  /** Every prefix of a tiling tiles up to where the next window starts. */
  lemma {:induction false} TileStep(windows: seq<Window>, start: int, end: int, n: nat)
    requires Tiles(windows, start, end) && n < |windows|
    ensures windows[n].count >= 1
    ensures Tiles(windows[..n], start, windows[n].start)
    ensures windows[n].start + windows[n].count == if n + 1 < |windows| then windows[n + 1].start else end
    ensures Tiles(windows[..n + 1], start, windows[n].start + windows[n].count)
    decreases |windows|
  {
    var m := |windows| - 1;
    if n < m {
      assert windows[..m][..n] == windows[..n] && windows[..m][..n + 1] == windows[..n + 1];
      TileStep(windows[..m], start, windows[m].start, n);
    } else {
      assert windows[..n + 1] == windows;
    }
  }

  /** For any table and any tiling of its span, the reassembled buffer agrees with the device over the whole span, no
      row lies outside it, and decoding it is decoding the device. */
  lemma {:induction false} ChunkedReadIsDirect(table: seq<Definition>, span: Window, windows: seq<Window>,
                                               reader: Reader, device: int -> Word)
    requires WellFormed(table) && Covers(span, table)
    requires Tiles(windows, span.start, span.start + span.count) && Honest(reader, device)
    ensures span.start >= 0 && InBuffer(windows, MaxEnd(windows)) && MaxEnd(windows) == span.start + span.count
    ensures var r := ReadFrom(Zeros(MaxEnd(windows)), windows, 0, reader);
      r.Ok? && ReadsDirectly(table, span, r.value, device)
  {
    SpanIsFilled(table, span, windows);
    var buffer := TilesReadDirectly(span.start, MaxEnd(windows), windows, reader, device);
    assert ReadsDirectly(table, span, buffer, device) by {
      BufferDecodesAsDevice(table, span, buffer, device);
    }
  }

  lemma {:induction false} TilesReadDirectly(start: int, end: int, windows: seq<Window>, reader: Reader,
                                             device: int -> Word) returns (buffer: seq<Word>)
    requires 0 <= start <= end && Tiles(windows, start, end) && InBuffer(windows, end) && Honest(reader, device)
    ensures ReadFrom(Zeros(end), windows, 0, reader) == Ok(buffer)
    ensures |buffer| == end && forall a | start <= a < end :: buffer[a] == device(a)
  {
    TilesFromStart(windows, start, end);
    HonestRead(Zeros(end), windows, start, end, 0, reader, device);
    buffer := ReadFrom(Zeros(end), windows, 0, reader).value;
  }

  lemma {:induction false} TilesFromStart(windows: seq<Window>, start: int, end: int)
    requires Tiles(windows, start, end)
    ensures var first := if windows == [] then end else windows[0].start;
      first == start && Tiles(windows[..0], start, first)
  {
    if windows != [] {
      TileStep(windows, start, end, 0);
    }
    assert windows[..0] == [];
  }

  /** The windows of a table fill its span, and end where it ends; those of the empty table are none. */
  lemma {:induction false} SpanIsFilled(table: seq<Definition>, span: Window, windows: seq<Window>)
    requires WellFormed(table) && Covers(span, table) && Tiles(windows, span.start, span.start + span.count)
    ensures span.start >= 0 && InBuffer(windows, MaxEnd(windows)) && MaxEnd(windows) == span.start + span.count
    ensures windows == [] <==> table == []
  {
    if table != [] {
      var first :| 0 <= first < |table| && table[first].start == span.start;
    }
    TilesInBuffer(windows, span.start, span.start + span.count);
  }

  /** A buffer that agrees with the device over the span of a table, and decodes as the device does. */
  ghost predicate ReadsDirectly(table: seq<Definition>, span: Window, buffer: seq<Word>, device: int -> Word)
    requires WellFormed(table) && |buffer| == span.start + span.count && span.start >= 0
  {
    && (forall a | span.start <= a < |buffer| :: buffer[a] == device(a))
    && (forall i | 0 <= i < |table| :: DecodedAt(buffer, table[i].start, table[i].length, table[i].kind)
                                     == Decoded(Extract(device, table[i].start, table[i].length), table[i].kind))
    && Collect(table, TableValues(buffer, table)) == Collect(table, DirectValues(device, table))
  }

  lemma {:induction false} BufferDecodesAsDevice(table: seq<Definition>, span: Window, buffer: seq<Word>,
                                                 device: int -> Word)
    requires WellFormed(table) && Covers(span, table) && |buffer| == span.start + span.count && span.start >= 0
    requires forall a | span.start <= a < |buffer| :: buffer[a] == device(a)
    ensures ReadsDirectly(table, span, buffer, device)
  {
    forall i | 0 <= i < |table|
      ensures DecodedAt(buffer, table[i].start, table[i].length, table[i].kind)
           == Decoded(Extract(device, table[i].start, table[i].length), table[i].kind)
      ensures ValueAt(buffer, table[i]) == DirectValue(device, table[i])
    {
      RowReadsDirectly(table[i], span, buffer, device);
    }
    SameValues(table, buffer, device);
  }

  lemma {:induction false} SameValues(table: seq<Definition>, buffer: seq<Word>, device: int -> Word)
    requires WellFormed(table)
    requires forall i | 0 <= i < |table| :: ValueAt(buffer, table[i]) == DirectValue(device, table[i])
    ensures TableValues(buffer, table) == DirectValues(device, table)
  {
  }

  lemma {:induction false} RowReadsDirectly(d: Definition, span: Window, buffer: seq<Word>, device: int -> Word)
    requires 0 <= span.start <= d.start && d.length >= 1 && d.start + d.length <= |buffer|
    requires forall a | span.start <= a < |buffer| :: buffer[a] == device(a)
    ensures DecodedAt(buffer, d.start, d.length, d.kind) == Decoded(Extract(device, d.start, d.length), d.kind)
    ensures ValueAt(buffer, d) == DirectValue(device, d)
  {
    SliceIsExtract(d.start, d.length, span, buffer, device);
    RowDecodesItsSlice(buffer, d.start, d.length, d.kind, Extract(device, d.start, d.length));
  }

  lemma {:induction false} RowDecodesItsSlice(buffer: seq<Word>, start: nat, length: nat, kind: Kind,
                                              words: seq<Word>)
    requires length >= 1 && start + length <= |buffer| && words == buffer[start..start + length]
    ensures DecodedAt(buffer, start, length, kind) == Decoded(words, kind)
  {
  }

  lemma {:induction false} SliceIsExtract(start: int, length: nat, span: Window, buffer: seq<Word>,
                                          device: int -> Word)
    requires 0 <= span.start <= start && start + length <= |buffer|
    requires forall a | span.start <= a < |buffer| :: buffer[a] == device(a)
    ensures buffer[start..start + length] == Extract(device, start, length)
  {
  }

  /** Reading a whole table in chunks, end to end. */
  method ReadTable(table: seq<Definition>, maximum: int, reader: Reader, ghost device: int -> Word)
    returns (r: Result<map<string, Value>, ReadError>)
    requires maximum >= 1 && WellFormed(table) && Honest(reader, device)
    ensures r == Collect(table, DirectValues(device, table))
  {
    var windows, span := BuildRegisterWindows(table, maximum);
    ChunkedReadIsDirect(table, span, windows, reader, device);
    var registers := ReadRegisterWindows(windows, reader);
    r := DecodeRegisterTable(registers.value, table);
  }
}
